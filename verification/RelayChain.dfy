/**
 Two applications joined by n nodes in a row (for peerdup n is 3: daemon, relay, daemon;
 relay/relay/server.py:133-136, 233-250; daemon/daemon/relay/client.py:119-174). Node i
 holds the right end of connection i and the left end of connection i + 1, and runs one pipe
 for each direction over these two sockets.

 A pipe that ends closes its writer and with it the whole socket. The other pipe of the node
 reads from that socket: it gets what had been received and then an end of file, as if its
 sender had closed. What is still on its way, or is sent later, is lost without an error.
 */
module RelayChain {
  import opened Utf8
  import RelayPool

  /**
   One direction. Stage 2j + 1 is what connection j holds for its reader, stage 2j what was
   written to connection j and cannot be read any more. `shut[j]` says that the writer of
   connection j has closed, `cut[j]` that the socket of its reader has been closed under it,
   `broken[i]` that pipe i ended by an exception. Pipe i reads connection i and writes i + 1.
   */
  datatype Flow = Flow(
    sent: Bytes, stages: seq<Bytes>, shut: seq<bool>, cut: seq<bool>, broken: seq<bool>, got: Bytes)

  /** Connection j of one direction is connection n - j of the other. */
  datatype Line = Line(there: Flow, back: Flow)

  /** `keep` is how much the closed socket's reader had already received. */
  datatype Step =
    | Send(data: Bytes)
    | HalfClose
    | Quit(keep: nat)
    | Move(pipe: nat, k: nat)
    | Finish(pipe: nat, keep: nat)
    | Break(pipe: nat, keep: nat)
    | Deliver(k: nat)

  function Pipes(f: Flow): nat {
    |f.broken|
  }

  predicate Formed(f: Flow) {
    |f.stages| == 2 * |f.broken| + 2 && |f.shut| == |f.broken| + 1 && |f.cut| == |f.broken| + 1
  }

  predicate Paired(l: Line) {
    Formed(l.there) && Formed(l.back) && Pipes(l.there) == Pipes(l.back)
  }

  function Other(l: Line): Line {
    Line(l.back, l.there)
  }

  // ----- steps of one direction ------------------------------------------------------------------

  function Held(f: Flow, j: nat): Bytes
    requires Formed(f) && j <= Pipes(f)
  {
    f.stages[2 * j + 1]
  }

  /** Bytes written to connection j; its reader's socket may be gone. */
  function Written(f: Flow, j: nat, data: Bytes): (g: Flow)
    requires Formed(f) && j <= Pipes(f)
    ensures Formed(g) && Pipes(g) == Pipes(f)
  {
    var at := if f.cut[j] then 2 * j else 2 * j + 1;
    f.(stages := f.stages[at := f.stages[at] + data])
  }

  function Moved(f: Flow, i: nat, k: nat): (g: Flow)
    requires Formed(f) && i < Pipes(f) && k <= |Held(f, i)|
    ensures Formed(g) && Pipes(g) == Pipes(f)
  {
    Written(f.(stages := f.stages[2 * i + 1 := Held(f, i)[k..]]), i + 1, Held(f, i)[..k])
  }

  function Shut(f: Flow, j: nat): (g: Flow)
    requires Formed(f) && j <= Pipes(f)
    ensures Formed(g) && Pipes(g) == Pipes(f)
  {
    f.(shut := f.shut[j := true])
  }

  /** The reader's socket of connection j is closed; the first `keep` bytes had been received. */
  function Cut(f: Flow, j: nat, keep: nat): (g: Flow)
    requires Formed(f) && j <= Pipes(f) && keep <= |Held(f, j)|
    ensures Formed(g) && Pipes(g) == Pipes(f)
  {
    f.(stages := f.stages[2 * j := Held(f, j)[keep..] + f.stages[2 * j]][2 * j + 1 := Held(f, j)[..keep]],
       cut := f.cut[j := true])
  }

  // ----- steps of the line ------------------------------------------------------------------------

  /** Closing the writer of connection j closes the socket that the other direction's connection n - j is read from. */
  predicate CanClose(l: Line, j: nat, keep: nat)
    requires Paired(l) && j <= Pipes(l.there)
  {
    var n := Pipes(l.there);
    if l.back.cut[n - j] then keep == 0 else keep <= |Held(l.back, n - j)|
  }

  function Close(l: Line, j: nat, keep: nat): (m: Line)
    requires Paired(l) && j <= Pipes(l.there) && CanClose(l, j, keep)
    ensures Paired(m) && Pipes(m.there) == Pipes(l.there)
  {
    var n := Pipes(l.there);
    Line(Shut(l.there, j), if l.back.cut[n - j] then l.back else Cut(l.back, n - j, keep))
  }

  predicate Running(f: Flow, i: nat)
    requires Formed(f)
  {
    i < Pipes(f) && !f.shut[i + 1]
  }

  /** What is possible in the direction `there`. */
  predicate Enabled(l: Line, s: Step)
    requires Paired(l)
  {
    var f := l.there;
    match s
    case Send(_) => !f.shut[0]
    case HalfClose => !f.shut[0]
    case Quit(keep) => !l.back.cut[Pipes(f)] && CanClose(l, 0, keep)
    case Move(i, k) => Running(f, i) && 0 < k <= RelayPool.CHUNK && k <= |Held(f, i)|
    case Finish(i, keep) => Running(f, i) && (f.shut[i] || f.cut[i]) && Held(f, i) == [] && CanClose(l, i + 1, keep)
    case Break(i, keep) => Running(f, i) && CanClose(l, i + 1, keep)
    case Deliver(k) => !f.cut[Pipes(f)] && 0 < k <= |Held(f, Pipes(f))|
  }

  function Take(l: Line, s: Step): (m: Line)
    requires Paired(l) && Enabled(l, s)
    ensures Paired(m) && Pipes(m.there) == Pipes(l.there)
  {
    var f := l.there;
    match s
    case Send(data) => l.(there := Written(f.(sent := f.sent + data), 0, data))
    case HalfClose => l.(there := Shut(f, 0))
    case Quit(keep) => Close(l, 0, keep)
    case Move(i, k) => l.(there := Moved(f, i, k))
    case Finish(i, keep) => Close(l, i + 1, keep)
    case Break(i, keep) => Close(l.(there := f.(broken := f.broken[i := true])), i + 1, keep)
    case Deliver(k) =>
      var last := 2 * Pipes(f) + 1;
      l.(there := f.(stages := f.stages[last := f.stages[last][k..]], got := f.got + f.stages[last][..k]))
  }

  /** A step in either direction. */
  datatype Move = Turn(back: bool, step: Step)

  predicate Possible(l: Line, m: Move)
    requires Paired(l)
  {
    Enabled(if m.back then Other(l) else l, m.step)
  }

  function Next(l: Line, m: Move): (r: Line)
    requires Paired(l) && Possible(l, m)
    ensures Paired(r) && Pipes(r.there) == Pipes(l.there)
  {
    if m.back then Other(Take(Other(l), m.step)) else Take(l, m.step)
  }

  ghost predicate IsRun(l: Line, ms: seq<Move>)
    requires Paired(l)
    decreases |ms|
  {
    ms == [] || (Possible(l, ms[0]) && IsRun(Next(l, ms[0]), ms[1..]))
  }

  function Run(l: Line, ms: seq<Move>): (r: Line)
    requires Paired(l) && IsRun(l, ms)
    ensures Paired(r) && Pipes(r.there) == Pipes(l.there)
    decreases |ms|
  {
    if ms == [] then l else Run(Next(l, ms[0]), ms[1..])
  }

  function Fresh(n: nat): Flow {
    Flow([], seq(2 * n + 2, _ => []), seq(n + 1, _ => false), seq(n + 1, _ => false), seq(n, _ => false), [])
  }

  function Start(n: nat): Line {
    Line(Fresh(n), Fresh(n))
  }

  function Side(l: Line, back: bool): Flow {
    if back then l.back else l.there
  }

  // ----- conservation --------------------------------------------------------------------------------

  /** Everything between the two ends, the bytes nearest the far end first. */
  function InFlight(stages: seq<Bytes>): Bytes {
    if stages == [] then [] else InFlight(stages[1..]) + stages[0]
  }

  /** The first k bytes of stage j go to the end of the next stage. */
  function Shift(stages: seq<Bytes>, j: nat, k: nat): seq<Bytes>
    requires j + 1 < |stages| && k <= |stages[j]|
  {
    stages[j := stages[j][k..]][j + 1 := stages[j + 1] + stages[j][..k]]
  }

  lemma {:induction false} ShiftConserves(stages: seq<Bytes>, j: nat, k: nat)
    requires j + 1 < |stages| && k <= |stages[j]|
    ensures InFlight(Shift(stages, j, k)) == InFlight(stages)
  {
    var next := Shift(stages, j, k);
    if j == 0 {
      assert next[1..][1..] == stages[1..][1..];
      assert stages[0] == stages[0][..k] + stages[0][k..];
    } else {
      ShiftConserves(stages[1..], j - 1, k);
      assert next[1..] == Shift(stages[1..], j - 1, k);
    }
  }

  lemma Associate(a: Bytes, b: Bytes, c: Bytes)
    ensures a + (b + c) == (a + b) + c
  {
  }

  lemma {:induction false} LastConserves(stages: seq<Bytes>, k: nat)
    requires stages != [] && k <= |stages[|stages| - 1]|
    ensures var l := |stages| - 1;
            stages[l][..k] + InFlight(stages[l := stages[l][k..]]) == InFlight(stages)
  {
    var l := |stages| - 1;
    var next := stages[l := stages[l][k..]];
    if l > 0 {
      var tail := stages[1..];
      LastConserves(tail, k);
      assert next[1..] == tail[l - 1 := tail[l - 1][k..]];
      Associate(stages[l][..k], InFlight(next[1..]), stages[0]);
    } else {
      assert next[1..] == [];
      assert stages[0] == stages[0][..k] + stages[0][k..];
    }
  }

  ghost predicate Conserved(f: Flow) {
    f.sent == f.got + InFlight(f.stages)
  }

  /** Nothing is behind a connection whose reader's socket is open. */
  ghost predicate Clean(f: Flow)
    requires Formed(f)
  {
    forall j :: 0 <= j <= Pipes(f) && !f.cut[j] ==> f.stages[2 * j] == []
  }

  /** A pipe that ended without an exception had seen an end of file and had written all it got. */
  ghost predicate OrderlyAt(f: Flow, i: nat)
    requires Formed(f) && i < Pipes(f)
  {
    f.shut[i + 1] && !f.broken[i] ==> Held(f, i) == [] && (f.shut[i] || f.cut[i])
  }

  ghost predicate Orderly(f: Flow)
    requires Formed(f)
  {
    forall i :: 0 <= i < Pipes(f) ==> OrderlyAt(f, i)
  }

  ghost predicate FlowInv(f: Flow) {
    Formed(f) && Conserved(f) && Clean(f) && Orderly(f)
  }

  ghost predicate Inv(l: Line) {
    Paired(l) && FlowInv(l.there) && FlowInv(l.back)
  }

  lemma MoveConserves(f: Flow, i: nat, k: nat)
    requires Formed(f) && Conserved(f) && Clean(f) && i < Pipes(f) && k <= |Held(f, i)|
    ensures Conserved(Moved(f, i, k))
  {
    var once := Shift(f.stages, 2 * i + 1, k);
    ShiftConserves(f.stages, 2 * i + 1, k);
    if f.cut[i + 1] {
      assert Moved(f, i, k).stages == once;
    } else {
      assert f.stages[2 * (i + 1)] == [];
      var chunk := Held(f, i)[..k];
      assert once[2 * i + 2] == [] + chunk == chunk;
      assert chunk[k..] == [] && chunk[..k] == chunk && once[2 * i + 3] == f.stages[2 * i + 3];
      ShiftConserves(once, 2 * i + 2, k);
      assert Moved(f, i, k).stages == Shift(once, 2 * i + 2, k);
    }
  }

  lemma SendConserves(f: Flow, data: Bytes)
    requires Formed(f) && Conserved(f) && Clean(f)
    ensures Conserved(Written(f.(sent := f.sent + data), 0, data))
  {
    var next := Written(f.(sent := f.sent + data), 0, data).stages;
    if f.cut[0] {
      assert next[1..] == f.stages[1..];
      Associate(InFlight(next[1..]), f.stages[0], data);
    } else {
      assert f.stages[2 * 0] == [];
      assert next[1..][1..] == f.stages[1..][1..];
      Associate(InFlight(f.stages[1..][1..]), f.stages[1], data);
      assert InFlight(next) == InFlight(next[1..]) + [] && InFlight(f.stages) == InFlight(f.stages[1..]) + [];
    }
    Associate(f.got, InFlight(f.stages), data);
  }

  lemma CutConserves(f: Flow, j: nat, keep: nat)
    requires Formed(f) && Conserved(f) && j <= Pipes(f) && keep <= |Held(f, j)|
    ensures Conserved(Cut(f, j, keep))
  {
    var after := Cut(f, j, keep).stages;
    var lost := Held(f, j)[keep..];
    assert after[2 * j][..|lost|] == lost && after[2 * j][|lost|..] == f.stages[2 * j];
    assert Held(f, j)[..keep] + lost == Held(f, j);
    assert Shift(after, 2 * j, |lost|) == f.stages;
    ShiftConserves(after, 2 * j, |lost|);
  }

  lemma CutKeepsFlow(f: Flow, j: nat, keep: nat)
    requires FlowInv(f) && j <= Pipes(f) && keep <= |Held(f, j)|
    ensures FlowInv(Cut(f, j, keep))
  {
    CutConserves(f, j, keep);
    forall i | 0 <= i < Pipes(f)
      ensures OrderlyAt(Cut(f, j, keep), i)
    {
      assert OrderlyAt(f, i);
    }
  }

  lemma MoveKeepsFlow(f: Flow, i: nat, k: nat)
    requires FlowInv(f) && Running(f, i) && k <= |Held(f, i)|
    ensures FlowInv(Moved(f, i, k))
  {
    MoveConserves(f, i, k);
    var g := Moved(f, i, k);
    forall x | 0 <= x < Pipes(f)
      ensures OrderlyAt(g, x)
    {
      assert OrderlyAt(f, x);
    }
  }

  lemma SendKeepsFlow(f: Flow, data: Bytes)
    requires FlowInv(f) && !f.shut[0]
    ensures FlowInv(Written(f.(sent := f.sent + data), 0, data))
  {
    SendConserves(f, data);
    var g := Written(f.(sent := f.sent + data), 0, data);
    forall i | 0 <= i < Pipes(f)
      ensures OrderlyAt(g, i)
    {
      assert OrderlyAt(f, i);
    }
  }

  lemma DeliverKeepsFlow(f: Flow, k: nat)
    requires FlowInv(f) && k <= |Held(f, Pipes(f))|
    ensures var last := 2 * Pipes(f) + 1;
            FlowInv(f.(stages := f.stages[last := f.stages[last][k..]], got := f.got + f.stages[last][..k]))
  {
    var last := 2 * Pipes(f) + 1;
    var g := f.(stages := f.stages[last := f.stages[last][k..]], got := f.got + f.stages[last][..k]);
    LastConserves(f.stages, k);
    Associate(f.got, f.stages[last][..k], InFlight(g.stages));
    forall i | 0 <= i < Pipes(f)
      ensures OrderlyAt(g, i)
    {
      assert OrderlyAt(f, i);
    }
  }

  lemma ShutKeepsFlow(f: Flow, j: nat)
    requires FlowInv(f) && j <= Pipes(f)
    requires j > 0 ==> f.broken[j - 1] || (Held(f, j - 1) == [] && (f.shut[j - 1] || f.cut[j - 1]))
    ensures FlowInv(Shut(f, j))
  {
    forall i | 0 <= i < Pipes(f)
      ensures OrderlyAt(Shut(f, j), i)
    {
      assert OrderlyAt(f, i);
    }
  }

  lemma BreakKeepsFlow(f: Flow, i: nat)
    requires FlowInv(f) && i < Pipes(f)
    ensures FlowInv(f.(broken := f.broken[i := true]))
  {
    var g := f.(broken := f.broken[i := true]);
    forall x | 0 <= x < Pipes(f)
      ensures OrderlyAt(g, x)
    {
      assert OrderlyAt(f, x);
    }
  }

  lemma CloseKeepsInv(l: Line, j: nat, keep: nat)
    requires Inv(l) && j <= Pipes(l.there) && CanClose(l, j, keep)
    requires var f := l.there;
             j > 0 ==> f.broken[j - 1] || (Held(f, j - 1) == [] && (f.shut[j - 1] || f.cut[j - 1]))
    ensures Inv(Close(l, j, keep))
  {
    var n := Pipes(l.there);
    ShutKeepsFlow(l.there, j);
    if !l.back.cut[n - j] {
      CutKeepsFlow(l.back, n - j, keep);
    }
  }

  lemma TakeKeepsInv(l: Line, s: Step)
    requires Inv(l) && Enabled(l, s)
    ensures Inv(Take(l, s))
  {
    var f := l.there;
    match s
    case Send(data) => SendKeepsFlow(f, data);
    case HalfClose => ShutKeepsFlow(f, 0);
    case Quit(keep) => CloseKeepsInv(l, 0, keep);
    case Move(i, k) => MoveKeepsFlow(f, i, k);
    case Finish(i, keep) => CloseKeepsInv(l, i + 1, keep);
    case Break(i, keep) => BreakKeepsInv(l, i, keep);
    case Deliver(k) => DeliverKeepsFlow(f, k);
  }

  lemma BreakKeepsInv(l: Line, i: nat, keep: nat)
    requires Inv(l) && Enabled(l, Break(i, keep))
    ensures Inv(Take(l, Break(i, keep)))
  {
    var f := l.there;
    BreakKeepsFlow(f, i);
    CloseKeepsInv(l.(there := f.(broken := f.broken[i := true])), i + 1, keep);
  }

  lemma NextKeepsInv(l: Line, m: Move)
    requires Inv(l) && Possible(l, m)
    ensures Inv(Next(l, m))
  {
    TakeKeepsInv(if m.back then Other(l) else l, m.step);
  }

  lemma {:induction false} RunKeepsInv(l: Line, ms: seq<Move>)
    requires Inv(l) && IsRun(l, ms)
    ensures Inv(Run(l, ms))
    decreases |ms|
  {
    if ms != [] {
      NextKeepsInv(l, ms[0]);
      RunKeepsInv(Next(l, ms[0]), ms[1..]);
    }
  }

  lemma {:induction false} NothingInFlight(stages: seq<Bytes>)
    ensures (forall j :: 0 <= j < |stages| ==> stages[j] == []) <==> InFlight(stages) == []
  {
    if stages != [] {
      NothingInFlight(stages[1..]);
      if forall j :: 0 <= j < |stages| ==> stages[j] == [] {
        assert forall j :: 0 <= j < |stages[1..]| ==> stages[1..][j] == [];
      }
      if InFlight(stages) == [] {
        assert |InFlight(stages)| == |InFlight(stages[1..])| + |stages[0]|;
        forall j | 0 <= j < |stages|
          ensures stages[j] == []
        {
          if j > 0 {
            assert stages[j] == stages[1..][j - 1];
          }
        }
      }
    }
  }

  lemma StartInv(n: nat)
    ensures Inv(Start(n))
  {
    NothingInFlight(Fresh(n).stages);
  }

  // ----- what each connection carried -----------------------------------------------------------------------

  /** Everything ever written to connection j. */
  function Passed(f: Flow, j: nat): Bytes
    requires Formed(f) && j <= Pipes(f)
  {
    f.got + InFlight(f.stages[2 * j..])
  }

  /** The direction from connection j on, as if everything written there had been sent there. */
  function Tail(f: Flow, j: nat): (t: Flow)
    requires Formed(f) && j <= Pipes(f)
    ensures Formed(t) && Conserved(t) && Pipes(t) == Pipes(f) - j
  {
    Flow(Passed(f, j), f.stages[2 * j..], f.shut[j..], f.cut[j..], f.broken[j..], f.got)
  }

  lemma TailClean(f: Flow, j: nat)
    requires Formed(f) && Clean(f) && j <= Pipes(f)
    ensures Clean(Tail(f, j))
  {
    forall x | 0 <= x <= Pipes(f) - j && !f.cut[j..][x]
      ensures f.stages[2 * j..][2 * x] == []
    {
      assert f.stages[2 * (j + x)] == [];
    }
  }

  lemma PassedMove(f: Flow, i: nat, k: nat, j: nat)
    requires Formed(f) && Clean(f) && i < Pipes(f) && k <= |Held(f, i)| && j <= Pipes(f)
    ensures Passed(Moved(f, i, k), j) == Passed(f, j) + if j == i + 1 then Held(f, i)[..k] else []
  {
    var g, t := Moved(f, i, k), Tail(f, j);
    TailClean(f, j);
    if j <= i {
      MoveConserves(t, i - j, k);
      assert g.stages[2 * j..] == Moved(t, i - j, k).stages;
    } else if j == i + 1 {
      var data := Held(f, i)[..k];
      SendConserves(t, data);
      assert g.stages[2 * j..] == Written(t, 0, data).stages;
    } else {
      assert g.stages[2 * j..] == f.stages[2 * j..];
      assert Passed(f, j) + [] == Passed(f, j);
    }
  }

  lemma PassedSend(f: Flow, data: Bytes, j: nat)
    requires Formed(f) && 0 < j <= Pipes(f)
    ensures Passed(Written(f.(sent := f.sent + data), 0, data), j) == Passed(f, j)
  {
    assert Written(f.(sent := f.sent + data), 0, data).stages[2 * j..] == f.stages[2 * j..];
  }

  lemma PassedCut(f: Flow, x: nat, keep: nat, j: nat)
    requires Formed(f) && x <= Pipes(f) && keep <= |Held(f, x)| && j <= Pipes(f)
    ensures Passed(Cut(f, x, keep), j) == Passed(f, j)
  {
    var g, t := Cut(f, x, keep), Tail(f, j);
    if j <= x {
      CutConserves(t, x - j, keep);
      assert g.stages[2 * j..] == Cut(t, x - j, keep).stages;
    } else {
      assert g.stages[2 * j..] == f.stages[2 * j..];
    }
  }

  lemma PassedDeliver(f: Flow, k: nat, j: nat)
    requires Formed(f) && k <= |Held(f, Pipes(f))| && j <= Pipes(f)
    ensures var last := 2 * Pipes(f) + 1;
            Passed(f.(stages := f.stages[last := f.stages[last][k..]], got := f.got + f.stages[last][..k]), j) == Passed(f, j)
  {
    var last := 2 * Pipes(f) + 1;
    var g := f.(stages := f.stages[last := f.stages[last][k..]], got := f.got + f.stages[last][..k]);
    var stages := f.stages[2 * j..];
    LastConserves(stages, k);
    assert g.stages[2 * j..] == stages[|stages| - 1 := stages[|stages| - 1][k..]];
    Associate(f.got, f.stages[last][..k], InFlight(g.stages[2 * j..]));
  }

  /** A step changes what later connections carried only by a move onto them. */
  lemma PassedTake(l: Line, s: Step, back: bool, j: nat)
    requires Inv(l) && Enabled(l, s) && 0 < j <= Pipes(l.there)
    ensures Passed(Side(Take(l, s), back), j) ==
            Passed(Side(l, back), j) +
              if !back && s.Move? && j == s.pipe + 1 then Held(l.there, s.pipe)[..s.k] else []
  {
    var f, n := l.there, Pipes(l.there);
    assert Passed(Side(l, back), j) + [] == Passed(Side(l, back), j);
    if back {
      PassedIfCut(l, s, j);
    } else {
      match s
      case Send(data) => PassedSend(f, data, j);
      case Move(i, k) => PassedMove(f, i, k, j);
      case Deliver(k) => PassedDeliver(f, k, j);
      case _ =>
    }
  }

  /** The connection whose writer a step closes. */
  function Closes(s: Step): (j: nat) {
    match s
    case Finish(i, _) => i + 1
    case Break(i, _) => i + 1
    case _ => 0
  }

  lemma PassedIfCut(l: Line, s: Step, j: nat)
    requires Inv(l) && Enabled(l, s) && j <= Pipes(l.there)
    ensures Passed(Take(l, s).back, j) == Passed(l.back, j)
  {
    if s.Finish? || s.Break? || s.Quit? {
      var x := Pipes(l.there) - Closes(s);
      if !l.back.cut[x] {
        PassedCut(l.back, x, s.keep, j);
      }
    }
  }

  lemma PassedNext(l: Line, m: Move, back: bool, j: nat)
    requires Inv(l) && Possible(l, m) && 0 < j <= Pipes(l.there)
    ensures Passed(Side(Next(l, m), back), j) ==
            Passed(Side(l, back), j) +
              if m.back == back && m.step.Move? && j == m.step.pipe + 1
              then Held(Side(l, back), m.step.pipe)[..m.step.k] else []
  {
    PassedTake(if m.back then Other(l) else l, m.step, m.back != back, j);
  }

  /** What a connection carried is what the one before it carried, less what it still holds. */
  lemma PassedOn(f: Flow, j: nat)
    requires Formed(f) && j < Pipes(f)
    ensures Passed(f, j) == Passed(f, j + 1) + (Held(f, j) + f.stages[2 * j])
    ensures Passed(f, j + 1) <= Passed(f, j)
  {
    var rest := f.stages[2 * j..];
    assert rest[1..][1..] == f.stages[2 * (j + 1)..];
    assert rest[0] == f.stages[2 * j] && rest[1..][0] == Held(f, j);
    assert InFlight(rest) == (InFlight(rest[1..][1..]) + Held(f, j)) + f.stages[2 * j];
    Associate(InFlight(rest[1..][1..]), Held(f, j), f.stages[2 * j]);
    Associate(f.got, InFlight(rest[1..][1..]), Held(f, j) + f.stages[2 * j]);
  }

  lemma PassedEnds(f: Flow)
    requires Formed(f) && Conserved(f)
    ensures Passed(f, 0) == f.sent && f.got <= Passed(f, Pipes(f))
  {
    assert f.stages[0..] == f.stages;
  }
}
