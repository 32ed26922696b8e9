/**
 What arrives along the nodes of `RelayChain`, and what the end of a pipe does to the other
 direction: which bytes are lost, when none are, the input on which a whole reply is lost,
 and that every transfer ends.
 */
module RelayClosing {
  import opened Utf8
  import opened RelayChain

  // ----- what arrives -----------------------------------------------------------------------------------

  /** The far application has read everything it will get and sees the end of file. */
  predicate AtEof(f: Flow)
    requires Formed(f)
  {
    f.shut[Pipes(f)] && Held(f, Pipes(f)) == []
  }

  ghost predicate NoFailure(f: Flow) {
    forall i :: 0 <= i < |f.broken| ==> !f.broken[i]
  }

  /** Everything written before the reader of connection j has gone through. */
  ghost predicate NothingBehind(f: Flow, j: nat)
    requires Formed(f) && j <= Pipes(f)
  {
    forall x :: 0 <= x <= 2 * j ==> f.stages[x] == []
  }

  ghost predicate CutsWereClean(f: Flow)
    requires Formed(f)
  {
    forall j :: 0 <= j <= Pipes(f) && f.cut[j] ==> NothingBehind(f, j)
  }

  /** Behind a connection that closed without failures, nothing is left but what a cut left. */
  lemma {:induction false} ShutBackwards(f: Flow, j: nat)
    requires FlowInv(f) && NoFailure(f) && CutsWereClean(f) && j <= Pipes(f) && f.shut[j]
    ensures forall x :: 0 <= x < 2 * j ==> f.stages[x] == []
  {
    if j > 0 {
      assert OrderlyAt(f, j - 1);
      if f.cut[j - 1] {
        assert NothingBehind(f, j - 1);
      } else {
        ShutBackwards(f, j - 1);
        assert f.stages[2 * (j - 1)] == [];
      }
      assert f.stages[2 * (j - 1) + 1] == [];
    }
  }

  lemma AllGotIff(f: Flow)
    requires FlowInv(f)
    ensures f.got <= f.sent
    ensures f.got == f.sent <==> forall x :: 0 <= x < |f.stages| ==> f.stages[x] == []
  {
    NothingInFlight(f.stages);
    assert |f.sent| == |f.got| + |InFlight(f.stages)|;
  }

  lemma EofIff(f: Flow)
    requires FlowInv(f) && AtEof(f) && NoFailure(f)
    ensures f.got == f.sent <==> CutsWereClean(f)
  {
    AllGotIff(f);
    if CutsWereClean(f) {
      var n := Pipes(f);
      ShutBackwards(f, n);
      assert f.stages[2 * n] == [] by {
        if f.cut[n] {
          assert NothingBehind(f, n);
        }
      }
    }
  }

  /**
   Main result: in every interleaving of both directions what an application has read is a
   prefix of what the other sent. At its end of file, when no pipe failed, it is all of it
   exactly when no socket was closed under this direction with bytes still behind it.
   */
  lemma DeliveredIsPrefix(n: nat, ms: seq<Move>, back: bool)
    requires IsRun(Start(n), ms)
    ensures var f := Side(Run(Start(n), ms), back);
            && f.got <= f.sent
            && (AtEof(f) && NoFailure(f) ==> (f.got == f.sent <==> CutsWereClean(f)))
  {
    StartInv(n);
    RunKeepsInv(Start(n), ms);
    var f := Side(Run(Start(n), ms), back);
    AllGotIff(f);
    if AtEof(f) && NoFailure(f) {
      EofIff(f);
    }
  }

  // ----- what is lost -------------------------------------------------------------------------------------

  /** How many bytes the first m stages hold. */
  function Total(stages: seq<Bytes>, m: nat): nat
    requires m <= |stages|
  {
    if m == 0 then 0 else Total(stages, m - 1) + |stages[m - 1]|
  }

  lemma {:induction false} TotalUpdate(stages: seq<Bytes>, at: nat, s: Bytes, m: nat)
    requires at < |stages| && m <= |stages|
    ensures Total(stages[at := s], m) == Total(stages, m) + if at < m then |s| - |stages[at]| else 0
  {
    if m > 0 {
      TotalUpdate(stages, at, s, m - 1);
    }
  }

  lemma {:induction false} TotalZero(stages: seq<Bytes>, m: nat)
    requires m <= |stages|
    ensures Total(stages, m) == 0 <==> forall x :: 0 <= x < m ==> stages[x] == []
  {
    if m > 0 {
      TotalZero(stages, m - 1);
    }
  }

  /** The bytes that a cut of connection j holds back for ever. */
  function Behind(f: Flow, j: nat): nat
    requires Formed(f) && j <= Pipes(f)
  {
    Total(f.stages, 2 * j + 1)
  }

  lemma WrittenBehind(f: Flow, at: nat, data: Bytes, j: nat)
    requires Formed(f) && at <= Pipes(f) && j <= Pipes(f)
    ensures Behind(Written(f, at, data), j) ==
            Behind(f, j) + if at < j || (at == j && f.cut[j]) then |data| else 0
  {
    var x := if f.cut[at] then 2 * at else 2 * at + 1;
    TotalUpdate(f.stages, x, f.stages[x] + data, 2 * j + 1);
  }

  lemma MovedBehind(f: Flow, i: nat, k: nat, j: nat)
    requires Formed(f) && i < Pipes(f) && k <= |Held(f, i)| && j <= Pipes(f) && f.cut[j]
    ensures Behind(Moved(f, i, k), j) >= Behind(f, j)
  {
    var g := f.(stages := f.stages[2 * i + 1 := Held(f, i)[k..]]);
    TotalUpdate(f.stages, 2 * i + 1, Held(f, i)[k..], 2 * j + 1);
    WrittenBehind(g, i + 1, Held(f, i)[..k], j);
  }

  lemma CutBehind(f: Flow, at: nat, keep: nat, j: nat)
    requires Formed(f) && at <= Pipes(f) && keep <= |Held(f, at)| && j <= Pipes(f)
    ensures Behind(Cut(f, at, keep), j) == Behind(f, j) + if at == j then |Held(f, at)| - keep else 0
  {
    var lost := Held(f, at)[keep..] + f.stages[2 * at];
    var once := f.stages[2 * at := lost];
    TotalUpdate(f.stages, 2 * at, lost, 2 * j + 1);
    TotalUpdate(once, 2 * at + 1, Held(f, at)[..keep], 2 * j + 1);
  }

  lemma DeliverBehind(f: Flow, k: nat, j: nat)
    requires Formed(f) && k <= |Held(f, Pipes(f))| && j <= Pipes(f)
    ensures var last := 2 * Pipes(f) + 1;
            Total(f.stages[last := f.stages[last][k..]], 2 * j + 1) == Behind(f, j)
  {
    TotalUpdate(f.stages, 2 * Pipes(f) + 1, Held(f, Pipes(f))[k..], 2 * j + 1);
  }

  /** A step of the own direction or of the other one lets nothing through a cut. */
  lemma TakeHoldsBack(l: Line, s: Step, back: bool, j: nat)
    requires Inv(l) && Enabled(l, s) && j <= Pipes(l.there) && Side(l, back).cut[j]
    ensures Side(Take(l, s), back).cut[j] && Behind(Side(Take(l, s), back), j) >= Behind(Side(l, back), j)
  {
    var f, n := l.there, Pipes(l.there);
    if back {
      match s
      case Quit(keep) => CutBehindIf(l.back, n, keep, j);
      case Finish(i, keep) => CutBehindIf(l.back, n - (i + 1), keep, j);
      case Break(i, keep) => CutBehindIf(l.back, n - (i + 1), keep, j);
      case _ =>
    } else {
      match s
      case Send(data) => WrittenBehind(f.(sent := f.sent + data), 0, data, j);
      case Move(i, k) => MovedBehind(f, i, k, j);
      case Deliver(k) => DeliverBehind(f, k, j);
      case _ =>
    }
  }

  lemma CutBehindIf(f: Flow, at: nat, keep: nat, j: nat)
    requires Formed(f) && at <= Pipes(f) && j <= Pipes(f) && (!f.cut[at] ==> keep <= |Held(f, at)|)
    ensures !f.cut[at] ==> Behind(Cut(f, at, keep), j) >= Behind(f, j)
  {
    if !f.cut[at] {
      CutBehind(f, at, keep, j);
    }
  }

  lemma {:induction false} RunHoldsBack(l: Line, ms: seq<Move>, back: bool, j: nat)
    requires Inv(l) && IsRun(l, ms) && j <= Pipes(l.there) && Side(l, back).cut[j]
    ensures Behind(Side(Run(l, ms), back), j) >= Behind(Side(l, back), j)
    decreases |ms|
  {
    if ms != [] {
      var m := ms[0];
      NextKeepsInv(l, m);
      if m.back {
        TakeHoldsBack(Other(l), m.step, !back, j);
      } else {
        TakeHoldsBack(l, m.step, back, j);
      }
      RunHoldsBack(Next(l, m), ms[1..], back, j);
    }
  }

  /** Main result: bytes behind a cut are lost for good, whatever happens afterwards. */
  lemma LostForever(l: Line, ms: seq<Move>, back: bool, j: nat)
    requires Inv(l) && IsRun(l, ms) && j <= Pipes(l.there)
    requires Side(l, back).cut[j] && !NothingBehind(Side(l, back), j)
    ensures var f := Side(Run(l, ms), back); f.got != f.sent && f.got <= f.sent
  {
    RunKeepsInv(l, ms);
    RunHoldsBack(l, ms, back, j);
    BehindZero(Side(l, back), j);
    SomeBehind(Side(Run(l, ms), back), j);
  }

  lemma BehindZero(f: Flow, j: nat)
    requires Formed(f) && j <= Pipes(f)
    ensures Behind(f, j) == 0 <==> NothingBehind(f, j)
  {
    TotalZero(f.stages, 2 * j + 1);
  }

  lemma SomeBehind(f: Flow, j: nat)
    requires FlowInv(f) && j <= Pipes(f) && Behind(f, j) > 0
    ensures f.got != f.sent && f.got <= f.sent
  {
    BehindZero(f, j);
    AllGotIff(f);
  }

  /** All that was sent has been read from connection j. */
  ghost predicate Drained(f: Flow, j: nat)
    requires Formed(f) && j <= Pipes(f)
  {
    NothingBehind(f, j) && Held(f, j) == []
  }

  /**
   Main result, the condition to check before a pipe's end closes a socket: nothing the other
   direction has sent is lost, however little of it was received, exactly when the other
   direction is drained there.
   */
  lemma CloseSparesIff(l: Line, j: nat)
    requires Inv(l) && j <= Pipes(l.there) && !l.back.cut[Pipes(l.there) - j]
    ensures var x := Pipes(l.there) - j;
            (forall keep: nat :: CanClose(l, j, keep) ==> NothingBehind(Close(l, j, keep).back, x)) <==>
              Drained(l.back, x)
  {
    var x := Pipes(l.there) - j;
    var f := l.back;
    if forall keep: nat :: CanClose(l, j, keep) ==> NothingBehind(Close(l, j, keep).back, x) {
      assert CanClose(l, j, 0);
      var g := Close(l, j, 0).back;
      CutBehind(f, x, 0, x);
      TotalZero(g.stages, 2 * x + 1);
      TotalZero(f.stages, 2 * x + 1);
    }
    if Drained(f, x) {
      forall keep: nat | CanClose(l, j, keep)
        ensures NothingBehind(Close(l, j, keep).back, x)
      {
        CutBehind(f, x, keep, x);
        TotalZero(Close(l, j, keep).back.stages, 2 * x + 1);
        TotalZero(f.stages, 2 * x + 1);
      }
    }
  }

  // ----- closing in good order -------------------------------------------------------------------------

  /** The sender has closed and all it sent has been read from connection j. */
  ghost predicate Spent(f: Flow, j: nat)
    requires Formed(f) && j <= Pipes(f)
  {
    f.shut[0] && NothingBehind(f, j)
  }

  ghost predicate CutsSpent(f: Flow)
    requires Formed(f)
  {
    forall j :: 0 <= j <= Pipes(f) && f.cut[j] ==> Spent(f, j)
  }

  /** A step that closes a socket finds the other direction closed by its sender and drained there. */
  ghost predicate InOrder(l: Line, s: Step)
    requires Paired(l)
  {
    (s.Finish? || s.Break? || s.Quit?) && Closes(s) <= Pipes(l.there) ==>
      var x := Pipes(l.there) - Closes(s);
      l.back.cut[x] || (l.back.shut[0] && Drained(l.back, x))
  }

  ghost predicate AllInOrder(l: Line, ms: seq<Move>)
    requires Paired(l) && IsRun(l, ms)
    decreases |ms|
  {
    ms == [] || (InOrder(if ms[0].back then Other(l) else l, ms[0].step) && AllInOrder(Next(l, ms[0]), ms[1..]))
  }

  lemma MoveKeepsSpent(f: Flow, i: nat, k: nat)
    requires Formed(f) && i < Pipes(f) && 0 < k <= |Held(f, i)| && CutsSpent(f)
    ensures CutsSpent(Moved(f, i, k))
  {
    var g := Moved(f, i, k);
    forall j | 0 <= j <= Pipes(g) && g.cut[j]
      ensures Spent(g, j)
    {
      assert Spent(f, j) && f.stages[2 * i + 1] != [];
      assert 2 * i + 1 > 2 * j;
    }
  }

  lemma CutKeepsSpent(f: Flow, x: nat, keep: nat)
    requires Formed(f) && x <= Pipes(f) && keep <= |Held(f, x)| && f.shut[0] && Drained(f, x) && CutsSpent(f)
    ensures CutsSpent(Cut(f, x, keep))
  {
    var g := Cut(f, x, keep);
    assert Held(f, x)[keep..] == [] && Held(f, x)[..keep] == [] && [] + f.stages[2 * x] == f.stages[2 * x];
    assert g.stages == f.stages;
    forall j | 0 <= j <= Pipes(g) && g.cut[j]
      ensures Spent(g, j)
    {
      assert j != x ==> Spent(f, j);
    }
  }

  lemma ShutKeepsSpent(f: Flow, j: nat)
    requires Formed(f) && j <= Pipes(f) && CutsSpent(f)
    ensures CutsSpent(Shut(f, j))
  {
    forall x | 0 <= x <= Pipes(f) && f.cut[x]
      ensures Spent(Shut(f, j), x)
    {
      assert Spent(f, x);
    }
  }

  lemma CloseKeepsSpent(l: Line, j: nat, keep: nat)
    requires Paired(l) && j <= Pipes(l.there) && CanClose(l, j, keep) && CutsSpent(l.there) && CutsSpent(l.back)
    requires var x := Pipes(l.there) - j; l.back.cut[x] || (l.back.shut[0] && Drained(l.back, x))
    ensures CutsSpent(Close(l, j, keep).there) && CutsSpent(Close(l, j, keep).back)
  {
    ShutKeepsSpent(l.there, j);
    var x := Pipes(l.there) - j;
    if !l.back.cut[x] {
      CutKeepsSpent(l.back, x, keep);
    }
  }

  lemma DeliverKeepsSpent(f: Flow, k: nat)
    requires Formed(f) && k <= |Held(f, Pipes(f))| && CutsSpent(f)
    ensures var last := 2 * Pipes(f) + 1;
            CutsSpent(f.(stages := f.stages[last := f.stages[last][k..]], got := f.got + f.stages[last][..k]))
  {
    var last := 2 * Pipes(f) + 1;
    var g := f.(stages := f.stages[last := f.stages[last][k..]], got := f.got + f.stages[last][..k]);
    forall j | 0 <= j <= Pipes(f) && f.cut[j]
      ensures Spent(g, j)
    {
      assert Spent(f, j);
    }
  }

  lemma SendKeepsSpent(f: Flow, data: Bytes)
    requires Formed(f) && CutsSpent(f) && !f.shut[0]
    ensures CutsSpent(Written(f.(sent := f.sent + data), 0, data))
  {
    assert forall j :: 0 <= j <= Pipes(f) && f.cut[j] ==> Spent(f, j);
  }

  lemma BreakKeepsSpent(l: Line, i: nat, keep: nat)
    requires Paired(l) && Enabled(l, Break(i, keep)) && InOrder(l, Break(i, keep))
    requires CutsSpent(l.there) && CutsSpent(l.back)
    ensures CutsSpent(Take(l, Break(i, keep)).there) && CutsSpent(Take(l, Break(i, keep)).back)
  {
    var f := l.there;
    var g := f.(broken := f.broken[i := true]);
    forall x | 0 <= x <= Pipes(g) && g.cut[x]
      ensures Spent(g, x)
    {
      assert Spent(f, x);
    }
    CloseKeepsSpent(l.(there := g), i + 1, keep);
  }

  lemma TakeKeepsSpent(l: Line, s: Step)
    requires Paired(l) && Enabled(l, s) && InOrder(l, s) && CutsSpent(l.there) && CutsSpent(l.back)
    ensures CutsSpent(Take(l, s).there) && CutsSpent(Take(l, s).back)
  {
    match s
    case Send(data) => SendKeepsSpent(l.there, data);
    case HalfClose => ShutKeepsSpent(l.there, 0);
    case Quit(keep) => CloseKeepsSpent(l, 0, keep);
    case Move(i, k) => MoveKeepsSpent(l.there, i, k);
    case Finish(i, keep) => CloseKeepsSpent(l, i + 1, keep);
    case Break(i, keep) => BreakKeepsSpent(l, i, keep);
    case Deliver(k) => DeliverKeepsSpent(l.there, k);
  }

  lemma {:induction false} RunKeepsSpent(l: Line, ms: seq<Move>)
    requires Paired(l) && IsRun(l, ms) && AllInOrder(l, ms) && CutsSpent(l.there) && CutsSpent(l.back)
    ensures CutsSpent(Run(l, ms).there) && CutsSpent(Run(l, ms).back)
    decreases |ms|
  {
    if ms != [] {
      TakeKeepsSpent(if ms[0].back then Other(l) else l, ms[0].step);
      RunKeepsSpent(Next(l, ms[0]), ms[1..]);
    }
  }

  lemma {:induction false} SourceShut(f: Flow, j: nat)
    requires FlowInv(f) && NoFailure(f) && CutsSpent(f) && j <= Pipes(f) && f.shut[j]
    ensures f.shut[0]
  {
    if j > 0 {
      assert OrderlyAt(f, j - 1);
      if f.cut[j - 1] {
        assert Spent(f, j - 1);
      } else {
        SourceShut(f, j - 1);
      }
    }
  }

  /**
   Main result: when every socket is closed only after the other direction's sender has
   closed and is drained there, an end of file without failures means that the sender has
   closed and everything it sent has arrived.
   */
  lemma CompleteInOrder(n: nat, ms: seq<Move>, back: bool)
    requires IsRun(Start(n), ms) && AllInOrder(Start(n), ms)
    ensures var f := Side(Run(Start(n), ms), back); AtEof(f) && NoFailure(f) ==> f.got == f.sent && f.shut[0]
  {
    StartInv(n);
    RunKeepsInv(Start(n), ms);
    RunKeepsSpent(Start(n), ms);
    var f := Side(Run(Start(n), ms), back);
    if AtEof(f) && NoFailure(f) {
      SourceShut(f, n);
      forall j | 0 <= j <= Pipes(f) && f.cut[j]
        ensures NothingBehind(f, j)
      {
        assert Spent(f, j);
      }
      EofIff(f);
    }
  }

  // ----- half-closing loses the reply ------------------------------------------------------------------

  lemma RunOne(l: Line, m: Move, rest: seq<Move>)
    requires Paired(l) && Possible(l, m) && IsRun(Next(l, m), rest)
    ensures IsRun(l, [m] + rest) && Run(l, [m] + rest) == Run(Next(l, m), rest)
  {
    assert ([m] + rest)[1..] == rest;
  }

  /** The first pipe ends and closes the shared socket: the other direction is cut there. */
  lemma FirstPipeEnds(n: nat) returns (l1: Line, l2: Line)
    requires n >= 1
    ensures Possible(Start(n), Turn(false, HalfClose)) && l1 == Next(Start(n), Turn(false, HalfClose))
    ensures Possible(l1, Turn(false, Finish(0, 0))) && l2 == Next(l1, Turn(false, Finish(0, 0)))
    ensures l2.back == Cut(Fresh(n), n - 1, 0)
    ensures NoFailure(l2.there) && !l2.there.cut[0] && Held(l2.there, 0) == []
  {
    l1 := Next(Start(n), Turn(false, HalfClose));
    l2 := Next(l1, Turn(false, Finish(0, 0)));
  }

  /** The other application replies, and the last pipe back ends at once. */
  lemma LastPipeEnds(l: Line, n: nat, reply: Bytes) returns (l1: Line, l2: Line)
    requires n >= 1 && Paired(l) && Pipes(l.there) == n && l.back == Cut(Fresh(n), n - 1, 0)
    requires NoFailure(l.there) && !l.there.cut[0] && Held(l.there, 0) == []
    ensures Possible(l, Turn(true, Send(reply))) && l1 == Next(l, Turn(true, Send(reply)))
    ensures Possible(l1, Turn(true, Finish(n - 1, 0))) && l2 == Next(l1, Turn(true, Finish(n - 1, 0)))
    ensures AtEof(l2.back) && NoFailure(l2.there) && NoFailure(l2.back)
    ensures l2.back.sent == reply && l2.back.got == []
  {
    l1 := Next(l, Turn(true, Send(reply)));
    assert Held(l1.back, n - 1) == [];
    l2 := Next(l1, Turn(true, Finish(n - 1, 0)));
    assert Held(l2.back, n) == [];
  }

  /**
   The input: one application closes its sending side, as at the end of a request. Whatever
   the other then replies, the first sees a clean end of file, has got nothing of it, and no
   pipe has failed.
   */
  lemma HalfCloseLosesReply(n: nat, reply: Bytes) returns (ms: seq<Move>)
    requires n >= 1
    ensures IsRun(Start(n), ms)
    ensures var l := Run(Start(n), ms);
            && AtEof(l.back) && NoFailure(l.there) && NoFailure(l.back)
            && l.back.sent == reply && l.back.got == []
  {
    var l1, l2 := FirstPipeEnds(n);
    var l3, l4 := LastPipeEnds(l2, n, reply);
    RunOne(l3, Turn(true, Finish(n - 1, 0)), []);
    var ms4 := [Turn(true, Finish(n - 1, 0))] + [];
    RunOne(l2, Turn(true, Send(reply)), ms4);
    var ms3 := [Turn(true, Send(reply))] + ms4;
    RunOne(l1, Turn(false, Finish(0, 0)), ms3);
    var ms2 := [Turn(false, Finish(0, 0))] + ms3;
    RunOne(Start(n), Turn(false, HalfClose), ms2);
    ms := [Turn(false, HalfClose)] + ms2;
  }

  // ----- progress ----------------------------------------------------------------------------------------

  /** Each byte in stage x counts the stages still ahead of it, and nothing behind a cut. */
  function Cost(data: Bytes, x: nat, n: nat): nat
    requires x < n
  {
    if x % 2 == 0 then 0 else |data| * (n - x)
  }

  function Work(stages: seq<Bytes>, m: nat): nat
    requires m <= |stages|
  {
    if m == 0 then 0 else Work(stages, m - 1) + Cost(stages[m - 1], m - 1, |stages|)
  }

  function Unset(bs: seq<bool>): nat {
    if bs == [] then 0 else (if bs[0] then 0 else 1) + Unset(bs[1..])
  }

  lemma {:induction false} WorkUpdate(stages: seq<Bytes>, at: nat, s: Bytes, m: nat)
    requires at < |stages| && m <= |stages|
    ensures Work(stages[at := s], m) ==
            Work(stages, m) + if at < m then Cost(s, at, |stages|) - Cost(stages[at], at, |stages|) else 0
  {
    if m > 0 {
      WorkUpdate(stages, at, s, m - 1);
    }
  }

  lemma CostJoins(a: Bytes, b: Bytes, x: nat, n: nat)
    requires x < n
    ensures Cost(a + b, x, n) == Cost(a, x, n) + Cost(b, x, n)
  {
    if x % 2 == 1 {
      Distribute(|a|, |b|, n - x);
    }
  }

  lemma Distribute(a: nat, b: nat, w: nat)
    ensures (a + b) * w == a * w + b * w
  {
  }

  /** Moving on makes a byte cheaper. */
  lemma CostFalls(data: Bytes, x: nat, y: nat, n: nat)
    requires x < y < n && x % 2 == 1 && data != []
    ensures Cost(data, y, n) < Cost(data, x, n)
  {
    if y % 2 == 1 {
      Smaller(|data|, n - y, n - x);
    } else {
      Smaller(|data|, 0, n - x);
    }
  }

  lemma Smaller(k: nat, a: nat, b: nat)
    requires k > 0 && a < b
    ensures k * a < k * b
  {
  }

  lemma {:induction false} UnsetUpdate(bs: seq<bool>, i: nat)
    requires i < |bs|
    ensures Unset(bs[i := true]) == Unset(bs) - if bs[i] then 0 else 1
  {
    if i > 0 {
      UnsetUpdate(bs[1..], i - 1);
      assert bs[i := true][1..] == bs[1..][i - 1 := true];
    } else {
      assert bs[i := true][1..] == bs[1..];
    }
  }

  function Effort(f: Flow): nat {
    Work(f.stages, |f.stages|) + Unset(f.shut) + Unset(f.cut)
  }

  lemma MoveWorks(f: Flow, i: nat, k: nat)
    requires Formed(f) && i < Pipes(f) && 0 < k <= |Held(f, i)|
    ensures Effort(Moved(f, i, k)) < Effort(f)
  {
    var n, held := |f.stages|, Held(f, i);
    var once := f.stages[2 * i + 1 := held[k..]];
    var at := if f.cut[i + 1] then 2 * (i + 1) else 2 * (i + 1) + 1;
    WorkUpdate(f.stages, 2 * i + 1, held[k..], n);
    WorkUpdate(once, at, once[at] + held[..k], n);
    assert held == held[..k] + held[k..];
    CostJoins(held[..k], held[k..], 2 * i + 1, n);
    CostJoins(once[at], held[..k], at, n);
    CostFalls(held[..k], 2 * i + 1, at, n);
  }

  lemma CutWorks(f: Flow, j: nat, keep: nat)
    requires Formed(f) && j <= Pipes(f) && keep <= |Held(f, j)|
    ensures Effort(Cut(f, j, keep)) + (if f.cut[j] then 0 else 1) <= Effort(f)
  {
    CutStages(f.stages, j, keep);
    UnsetUpdate(f.cut, j);
  }

  lemma CostEven(data: Bytes, j: nat, n: nat)
    requires 2 * j < n
    ensures Cost(data, 2 * j, n) == 0
  {
  }

  lemma CostOfPart(data: Bytes, keep: nat, x: nat, n: nat)
    requires x < n && keep <= |data|
    ensures Cost(data[..keep], x, n) <= Cost(data, x, n)
  {
    assert data == data[..keep] + data[keep..];
    CostJoins(data[..keep], data[keep..], x, n);
  }

  lemma CutStages(stages: seq<Bytes>, j: nat, keep: nat)
    requires 2 * j + 1 < |stages| && keep <= |stages[2 * j + 1]|
    ensures var lost := stages[2 * j + 1][keep..] + stages[2 * j];
            Work(stages[2 * j := lost][2 * j + 1 := stages[2 * j + 1][..keep]], |stages|) <= Work(stages, |stages|)
  {
    var lost := stages[2 * j + 1][keep..] + stages[2 * j];
    SameWork(stages, j, lost);
    LessWork(stages[2 * j := lost], 2 * j + 1, keep);
  }

  lemma SameWork(stages: seq<Bytes>, j: nat, data: Bytes)
    requires 2 * j < |stages|
    ensures Work(stages[2 * j := data], |stages|) == Work(stages, |stages|)
  {
    WorkUpdate(stages, 2 * j, data, |stages|);
    CostEven(data, j, |stages|);
    CostEven(stages[2 * j], j, |stages|);
  }

  lemma LessWork(stages: seq<Bytes>, x: nat, keep: nat)
    requires x < |stages| && keep <= |stages[x]|
    ensures Work(stages[x := stages[x][..keep]], |stages|) <= Work(stages, |stages|)
  {
    WorkUpdate(stages, x, stages[x][..keep], |stages|);
    CostOfPart(stages[x], keep, x, |stages|);
  }

  lemma CloseWorks(l: Line, j: nat, keep: nat)
    requires Paired(l) && j <= Pipes(l.there) && CanClose(l, j, keep)
    ensures var m := Close(l, j, keep);
            Effort(m.there) + Effort(m.back) + (if l.there.shut[j] then 0 else 1) <= Effort(l.there) + Effort(l.back)
  {
    UnsetUpdate(l.there.shut, j);
    if !l.back.cut[Pipes(l.there) - j] {
      CutWorks(l.back, Pipes(l.there) - j, keep);
    }
  }

  lemma QuitWorks(l: Line, keep: nat)
    requires Paired(l) && Enabled(l, Quit(keep))
    ensures var m := Take(l, Quit(keep)); Effort(m.there) + Effort(m.back) < Effort(l.there) + Effort(l.back)
  {
    UnsetUpdate(l.there.shut, 0);
    CutWorks(l.back, Pipes(l.there), keep);
  }

  lemma DeliverWorks(f: Flow, k: nat)
    requires Formed(f) && 0 < k <= |Held(f, Pipes(f))|
    ensures var last := 2 * Pipes(f) + 1;
            Work(f.stages[last := f.stages[last][k..]], |f.stages|) < Work(f.stages, |f.stages|)
  {
    var last := 2 * Pipes(f) + 1;
    var held := f.stages[last];
    WorkUpdate(f.stages, last, held[k..], |f.stages|);
    assert held == held[..k] + held[k..];
    CostJoins(held[..k], held[k..], last, |f.stages|);
    assert Cost(held[..k], last, |f.stages|) == k;
  }

  /** Main result: every step of either direction but a send uses up some of a fixed amount of work. */
  lemma StepsShrink(l: Line, m: Move)
    requires Paired(l) && Possible(l, m) && !m.step.Send?
    ensures var r := Next(l, m); Effort(r.there) + Effort(r.back) < Effort(l.there) + Effort(l.back)
  {
    TakeShrinks(if m.back then Other(l) else l, m.step);
  }

  lemma TakeShrinks(l: Line, s: Step)
    requires Paired(l) && Enabled(l, s) && !s.Send?
    ensures var r := Take(l, s); Effort(r.there) + Effort(r.back) < Effort(l.there) + Effort(l.back)
  {
    var f := l.there;
    match s
    case HalfClose => UnsetUpdate(f.shut, 0);
    case Quit(keep) => QuitWorks(l, keep);
    case Move(i, k) => MoveWorks(f, i, k);
    case Finish(i, keep) => CloseWorks(l, i + 1, keep);
    case Break(i, keep) => CloseWorks(l.(there := f.(broken := f.broken[i := true])), i + 1, keep);
    case Deliver(k) => DeliverWorks(f, k);
  }

  lemma {:induction false} FirstOpen(shut: seq<bool>, n: nat) returns (i: nat)
    requires n < |shut| && shut[0] && !shut[n]
    ensures i < n && shut[i] && !shut[i + 1]
  {
    if shut[n - 1] {
      i := n - 1;
    } else {
      i := FirstOpen(shut, n - 1);
    }
  }

  /** Main result: after the sender has closed, some step without a failure is possible until the far end of file. */
  lemma NeverStuck(l: Line)
    requires Paired(l) && l.there.shut[0] && !l.there.cut[Pipes(l.there)]
    ensures AtEof(l.there) || exists s :: Enabled(l, s) && !s.Send? && !s.Break? && !s.Quit?
  {
    var f, n := l.there, Pipes(l.there);
    if Held(f, n) != [] {
      assert Enabled(l, Deliver(1));
    } else if !f.shut[n] {
      var i := FirstOpen(f.shut, n);
      if Held(f, i) != [] {
        assert Enabled(l, Move(i, 1));
      } else {
        assert Enabled(l, Finish(i, 0));
      }
    }
  }
}
