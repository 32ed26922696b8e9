/**
 The relay's rendezvous pool (relay/relay/server.py:73-167). Handlers of many connections
 interleave; what one handler does between two awaits is one step. Matching is a single
 step: after the lock is released the connector sets the waiter's event and writes its
 "connected" frame before it first gives way.

 A handler may also end at any await because its socket failed; a waiter that ends that
 way leaves its entry in the pool.
 */
module RelayPool {
  import opened Wrappers
  import opened Utf8

  type Id = string
  type Key = (Id, Id)

  /** The most a pipe reads at once. */
  const CHUNK := 65536

  datatype Item = WaitingFrame | ConnectedFrame | CapacityFrame | Raw(chunk: Bytes)

  /** What the lock section decided for the connection. */
  datatype Role = Refused | Waiter | Connector(partner: nat)

  datatype Phase =
    | Holding            // waiting for the event
    | TimedOut           // the wait has ended, the lock is not taken yet
    | HandedOver         // the event is set and the handler has returned
    | Matched            // the connector has not written its own "connected" yet
    | Piping
    | Closed

  /**
   `out` is everything written to the connection after its hello was accepted, `input`
   everything its client has sent after the hello, and `taken` how much of that a pipe has read.
   */
  datatype Conn = Conn(
    share: Id, peer: Id, want: Id, role: Role, phase: Phase, out: seq<Item>, input: Bytes, taken: nat) {
    function Own(): Key { (share, peer) }
    function Wanted(): Key { (share, want) }
  }

  datatype Pool = Pool(max: nat, waiting: map<Key, nat>, conns: map<nat, Conn>)

  datatype Step =
    | Hello(id: nat, share: Id, peer: Id, want: Id)
    | WaitEnds(id: nat)
    | TakeBack(id: nat)
    | Confirm(id: nat)
    | Arrive(id: nat, data: Bytes)
    | Forward(from: nat, to: nat, k: nat)
    | Drop(id: nat)

  // ----- steps --------------------------------------------------------------------------------

  /** Entries and partners are connections, and nobody is its own partner. */
  predicate Linked(p: Pool) {
    && (forall k :: k in p.waiting ==> p.waiting[k] in p.conns)
    && (forall id :: id in p.conns && p.conns[id].role.Connector? ==>
          p.conns[id].role.partner in p.conns && p.conns[id].role.partner != id)
  }

  function Greeted(share: Id, peer: Id, want: Id, role: Role, phase: Phase, out: seq<Item>): Conn {
    Conn(share, peer, want, role, phase, out, [], 0)
  }

  /** One of the two is the connector of the other and its handler runs the pipes. */
  predicate Piped(p: Pool, from: nat, to: nat) {
    && from in p.conns && to in p.conns
    && ((p.conns[from].role == Connector(to) && p.conns[from].phase == Piping) ||
        (p.conns[to].role == Connector(from) && p.conns[to].phase == Piping))
  }

  /** A pipe reads k bytes and writes them before it gives way; a closed connection takes none. */
  function Feed(p: Pool, from: nat, to: nat, k: nat): (q: Pool)
    requires from in p.conns && to in p.conns && from != to
    requires p.conns[from].taken + k <= |p.conns[from].input|
    ensures Linked(p) ==> Linked(q)
  {
    var f, t := p.conns[from], p.conns[to];
    var chunk := f.input[f.taken..f.taken + k];
    p.(conns := p.conns[from := f.(taken := f.taken + k)]
                       [to := if t.phase == Closed then t else t.(out := t.out + [Raw(chunk)])])
  }

  predicate InPhase(p: Pool, id: nat, phase: Phase) {
    id in p.conns && p.conns[id].phase == phase
  }

  function Write(p: Pool, id: nat, item: Item): (q: Pool)
    requires id in p.conns
    ensures Linked(p) ==> Linked(q)
  {
    p.(conns := p.conns[id := p.conns[id].(out := p.conns[id].out + [item])])
  }

  function SetPhase(p: Pool, id: nat, phase: Phase): (q: Pool)
    requires id in p.conns
    ensures Linked(p) ==> Linked(q)
  {
    p.(conns := p.conns[id := p.conns[id].(phase := phase)])
  }

  /** The waiter's event is set and its "connected" frame written. */
  function Wake(c: Conn): Conn {
    c.(phase := if c.phase == Holding then HandedOver else c.phase, out := c.out + [ConnectedFrame])
  }

  /** The lock section and, when it matches, what follows it up to the first await. */
  function Admit(p: Pool, id: nat, share: Id, peer: Id, want: Id): (q: Pool)
    requires Linked(p) && id !in p.conns
    ensures Linked(q)
  {
    if (share, want) in p.waiting then
      var w := p.waiting[(share, want)];
      Pool(p.max, p.waiting - {(share, want)},
           p.conns[w := Wake(p.conns[w])][id := Greeted(share, peer, want, Connector(w), Matched, [])])
    else if |p.waiting| >= p.max then
      p.(conns := p.conns[id := Greeted(share, peer, want, Refused, Closed, [CapacityFrame])])
    else
      Pool(p.max, p.waiting[(share, peer) := id],
           p.conns[id := Greeted(share, peer, want, Waiter, Holding, [WaitingFrame])])
  }

  predicate Enabled(p: Pool, s: Step) {
    match s
    case Hello(id, _, _, _) => id !in p.conns
    case WaitEnds(id) => InPhase(p, id, Holding)
    case TakeBack(id) => InPhase(p, id, TimedOut)
    case Confirm(id) => InPhase(p, id, Matched)
    case Arrive(id, _) => id in p.conns
    case Forward(from, to, k) =>
      Piped(p, from, to) && 0 < k <= CHUNK && p.conns[from].taken + k <= |p.conns[from].input|
    case Drop(id) => id in p.conns
  }

  function Take(p: Pool, s: Step): (q: Pool)
    requires Linked(p)
    ensures Linked(q) && q.max == p.max && p.conns.Keys <= q.conns.Keys
  {
    if !Enabled(p, s) then p else
      match s
      case Hello(id, share, peer, want) => Admit(p, id, share, peer, want)
      case WaitEnds(id) => SetPhase(p, id, TimedOut)
      case TakeBack(id) => SetPhase(p, id, Closed).(waiting := p.waiting - {p.conns[id].Own()})
      case Confirm(id) => SetPhase(Write(p, id, ConnectedFrame), id, Piping)
      case Arrive(id, data) => p.(conns := p.conns[id := p.conns[id].(input := p.conns[id].input + data)])
      case Forward(from, to, k) => Feed(p, from, to, k)
      case Drop(id) => SetPhase(p, id, Closed)
  }

  function Run(p: Pool, steps: seq<Step>): (q: Pool)
    requires Linked(p)
    ensures Linked(q) && q.max == p.max
    decreases |steps|
  {
    if steps == [] then p else Run(Take(p, steps[0]), steps[1..])
  }

  function Start(max: nat): Pool {
    Pool(max, map[], map[])
  }

  // ----- the server ---------------------------------------------------------------------------

  class RelayServer {
    const max: nat
    var waiting: map<Key, nat>
    var conns: map<nat, Conn>

    ghost function View(): Pool
      reads this
    {
      Pool(max, waiting, conns)
    }

    constructor (max: nat)
      ensures View() == Start(max)
    {
      this.max := max;
      waiting, conns := map[], map[];
    }

    method SendFrame(id: nat, item: Item)
      requires id in conns
      modifies this`conns
      ensures View() == Write(old(View()), id, item)
    {
      conns := conns[id := conns[id].(out := conns[id].out + [item])];
    }

    method HandleClient(id: nat, share: Id, peer: Id, want: Id) returns (partner: Option<nat>)
      requires Linked(View()) && id !in conns
      modifies this
      ensures View() == Take(old(View()), Hello(id, share, peer, want))
      ensures partner == if (share, want) in old(waiting) then Some(old(waiting)[(share, want)]) else None
    {
      partner := None;
      var key, wantKey := (share, peer), (share, want);
      if wantKey in waiting {
        var w := waiting[wantKey];
        partner := Some(w);
        waiting := waiting - {wantKey};
        if conns[w].phase == Holding {
          conns := conns[w := conns[w].(phase := HandedOver)];
        }
        SendFrame(w, ConnectedFrame);
        conns := conns[id := Greeted(share, peer, want, Connector(w), Matched, [])];
        assert conns == old(conns)[w := Wake(old(conns)[w])][id := conns[id]];
      } else if |waiting| >= max {
        conns := conns[id := Greeted(share, peer, want, Refused, Closed, [])];
        SendFrame(id, CapacityFrame);
        assert conns[id].out == [CapacityFrame];
        assert conns == old(conns)[id := conns[id]];
      } else {
        conns := conns[id := Greeted(share, peer, want, Waiter, Holding, [])];
        waiting := waiting[key := id];
        SendFrame(id, WaitingFrame);
        assert conns[id].out == [WaitingFrame];
        assert conns == old(conns)[id := conns[id]];
      }
    }

    /** The timed-out handler takes the lock and removes whatever entry its key has. */
    method GiveUp(id: nat)
      requires Linked(View()) && InPhase(View(), id, TimedOut)
      modifies this
      ensures View() == Take(old(View()), TakeBack(id))
    {
      waiting := waiting - {(conns[id].share, conns[id].peer)};
      conns := conns[id := conns[id].(phase := Closed)];
    }

    /** One turn of a pipe. */
    method ForwardChunk(from: nat, to: nat, k: nat)
      requires Linked(View()) && Enabled(View(), Forward(from, to, k))
      modifies this`conns
      ensures View() == Take(old(View()), Forward(from, to, k))
    {
      var taken := conns[from].taken;
      var data := conns[from].input[taken..taken + k];
      conns := conns[from := conns[from].(taken := taken + k)];
      if conns[to].phase != Closed {
        conns := conns[to := conns[to].(out := conns[to].out + [Raw(data)])];
      } else {
        assert conns[to := conns[to]] == conns;
      }
    }

    method EnterPipes(id: nat)
      requires Linked(View()) && InPhase(View(), id, Matched)
      modifies this
      ensures View() == Take(old(View()), Confirm(id))
    {
      SendFrame(id, ConnectedFrame);
      conns := conns[id := conns[id].(phase := Piping)];
    }
  }

  // ----- invariants -----------------------------------------------------------------------------

  /** A waiter with that key that nobody has been handed. */
  ghost predicate Entry(c: Conn, k: Key) {
    c.Own() == k && c.role == Waiter && c.out == [WaitingFrame] && c.phase != HandedOver
  }

  ghost predicate Pooled(p: Pool)
    requires Linked(p)
  {
    && |p.waiting| <= p.max
    && forall k :: k in p.waiting ==> Entry(p.conns[p.waiting[k]], k)
  }

  ghost predicate Raws(items: seq<Item>) {
    forall i :: 0 <= i < |items| ==> items[i].Raw?
  }

  ghost predicate Shape(c: Conn) {
    match c.role
    case Refused => c.out == [CapacityFrame] && c.phase == Closed
    case Waiter =>
      && |c.out| >= 1 && c.out[0] == WaitingFrame
      && (|c.out| >= 2 ==> c.out[1] == ConnectedFrame && Raws(c.out[2..]))
      && (|c.out| == 1 ==> c.taken == 0)
      && (c.phase == Holding ==> |c.out| == 1)
      && (c.phase == HandedOver ==> |c.out| >= 2)
      && c.phase != Matched && c.phase != Piping
    case Connector(_) =>
      && (|c.out| >= 1 ==> c.out[0] == ConnectedFrame && Raws(c.out[1..]))
      && (c.phase == Matched ==> c.out == [])
      && (c.out == [] ==> c.taken == 0)
      && (c.phase == Piping ==> c.out != [])
      && c.phase != Holding && c.phase != TimedOut && c.phase != HandedOver
  }

  ghost predicate Shapes(p: Pool) {
    forall id :: id in p.conns ==> Shape(p.conns[id])
  }

  /** `c` is the connector that waiter `w` was handed to. */
  ghost predicate HandedTo(p: Pool, w: nat, c: nat) {
    c in p.conns && p.conns[c].role == Connector(w)
  }

  /** The connector wants the waiter, and the waiter has been told. */
  ghost predicate Fits(p: Pool, w: nat, c: nat)
    requires w in p.conns && c in p.conns
  {
    && p.conns[w].role == Waiter
    && |p.conns[w].out| >= 2
    && p.conns[c].share == p.conns[w].share
    && p.conns[c].want == p.conns[w].peer
  }

  ghost predicate Paired(p: Pool) {
    && (forall w, c :: HandedTo(p, w, c) ==> w in p.conns && Fits(p, w, c))
    && (forall w, c, d :: HandedTo(p, w, c) && HandedTo(p, w, d) ==> c == d)
    && (forall w :: w in p.conns && p.conns[w].role == Waiter && |p.conns[w].out| >= 2 ==>
          exists c :: HandedTo(p, w, c))
  }

  /** No two entries want each other. */
  ghost predicate Apart(p: Pool)
    requires Linked(p)
  {
    forall j, k :: j in p.waiting && k in p.waiting && j != k ==>
      !(p.conns[p.waiting[j]].Wanted() == k && p.conns[p.waiting[k]].Wanted() == j)
  }

  ghost predicate Sound(p: Pool) {
    Linked(p) && Shapes(p) && Paired(p)
  }

  ghost predicate Inv(p: Pool) {
    Sound(p) && Pooled(p) && Apart(p)
  }

  // ----- one step of one connection ----------------------------------------------------------------

  ghost predicate Matching(p: Pool, s: Step) {
    s.Hello? && s.id !in p.conns && (s.share, s.want) in p.waiting
  }

  lemma OnlyHelloAdds(p: Pool, s: Step, id: nat)
    requires Linked(p) && id in Take(p, s).conns && id !in p.conns
    ensures s.Hello? && s.id == id
  {
  }

  lemma MatchStep(p: Pool, s: Step)
    requires Linked(p) && Matching(p, s)
    ensures var w, q := p.waiting[(s.share, s.want)], Take(p, s);
            && q.waiting == p.waiting - {(s.share, s.want)}
            && q.conns == p.conns[w := Wake(p.conns[w])][s.id := Greeted(s.share, s.peer, s.want, Connector(w), Matched, [])]
  {
  }

  predicate Told(c: Conn) {
    match c.role
    case Refused => false
    case Waiter => |c.out| >= 2
    case Connector(_) => |c.out| >= 1
  }

  /** The client's bytes only grow, and are read only once "connected" was written. */
  ghost predicate Streams(c: Conn, d: Conn) {
    c.input <= d.input && c.taken <= d.taken && (d.taken > c.taken ==> Told(c))
  }

  /** What any other step does to a connection that was there before. */
  ghost predicate Moves(c: Conn, d: Conn) {
    var e := d.(input := c.input, taken := c.taken);
    && Streams(c, d)
    && (|| e == c
        || (c.phase == Holding && e == c.(phase := TimedOut))
        || e == c.(phase := Closed)
        || (c.phase == Matched && e == c.(phase := Piping, out := c.out + [ConnectedFrame]))
        || (d.out != [] && e == c.(out := c.out + [d.out[|d.out| - 1]]) && d.out[|d.out| - 1].Raw? && Told(c)))
  }

  lemma PipedTold(p: Pool, from: nat, to: nat)
    requires Sound(p) && Piped(p, from, to)
    ensures from != to && Told(p.conns[from]) && Told(p.conns[to])
  {
    if p.conns[from].role == Connector(to) && p.conns[from].phase == Piping {
      assert Shape(p.conns[from]) && HandedTo(p, to, from);
    } else {
      assert Shape(p.conns[to]) && HandedTo(p, from, to);
    }
  }

  lemma FeedMoves(p: Pool, from: nat, to: nat, k: nat, id: nat)
    requires from in p.conns && to in p.conns && from != to && id in p.conns
    requires p.conns[from].taken + k <= |p.conns[from].input|
    requires Told(p.conns[from]) && Told(p.conns[to])
    ensures Moves(p.conns[id], Feed(p, from, to, k).conns[id])
  {
    var c, d := p.conns[id], Feed(p, from, to, k).conns[id];
    if id == to && c.phase != Closed {
      assert d.out[|d.out| - 1].Raw? && d == c.(out := c.out + [d.out[|d.out| - 1]]);
    } else if id == from {
      assert d.(input := c.input, taken := c.taken) == c;
    } else {
      assert d == c;
    }
  }

  /** Raw bytes go only to connections that have been told "connected". */
  lemma ForwardMove(p: Pool, s: Step, id: nat)
    requires Sound(p) && s.Forward? && id in p.conns
    ensures Moves(p.conns[id], Take(p, s).conns[id])
  {
    if Enabled(p, s) {
      PipedTold(p, s.from, s.to);
      FeedMoves(p, s.from, s.to, s.k, id);
    } else {
      assert Take(p, s) == p;
    }
  }

  lemma ConfirmMove(p: Pool, s: Step, id: nat)
    requires Linked(p) && s.Confirm? && id in p.conns
    ensures Moves(p.conns[id], Take(p, s).conns[id])
  {
  }

  lemma ArriveMove(p: Pool, s: Step, id: nat)
    requires Linked(p) && s.Arrive? && id in p.conns
    ensures Moves(p.conns[id], Take(p, s).conns[id])
  {
    var c, d := p.conns[id], Take(p, s).conns[id];
    assert d.(input := c.input, taken := c.taken) == c;
  }

  lemma PlainMove(p: Pool, s: Step, id: nat)
    requires Linked(p) && !Matching(p, s) && id in p.conns
    requires s.Hello? || s.WaitEnds? || s.TakeBack? || s.Drop?
    ensures Moves(p.conns[id], Take(p, s).conns[id])
  {
    match s
    case Hello(_, _, _, _) => assert Take(p, s).conns[id] == p.conns[id];
    case WaitEnds(_) =>
    case TakeBack(_) =>
    case Drop(_) =>
  }

  lemma OtherMove(p: Pool, s: Step, id: nat)
    requires Sound(p) && !Matching(p, s) && id in p.conns
    ensures Moves(p.conns[id], Take(p, s).conns[id])
  {
    if s.Forward? {
      ForwardMove(p, s, id);
    } else if s.Confirm? {
      ConfirmMove(p, s, id);
    } else if s.Arrive? {
      ArriveMove(p, s, id);
    } else {
      PlainMove(p, s, id);
    }
  }

  /** Who a connection is and what the lock section decided for it never change; it is only written to. */
  lemma ConnGrows(p: Pool, s: Step, id: nat)
    requires Sound(p) && id in p.conns
    ensures var c, d := p.conns[id], Take(p, s).conns[id];
            && d.share == c.share && d.peer == c.peer && d.want == c.want && d.role == c.role
            && |c.out| <= |d.out| && d.out[..|c.out|] == c.out
  {
    if Matching(p, s) {
      MatchStep(p, s);
    } else {
      OtherMove(p, s, id);
    }
  }

  lemma MoveKeepsShape(c: Conn, d: Conn)
    requires Shape(c) && Moves(c, d)
    ensures Shape(d)
  {
    if |d.out| > |c.out| && c.phase != Matched {
      var start := if c.role == Waiter then 2 else 1;
      assert d.out[start..] == c.out[start..] + [d.out[|c.out|]];
    }
  }

  lemma TakeKeepsShapes(p: Pool, s: Step)
    requires Inv(p)
    ensures Shapes(Take(p, s))
  {
    var q := Take(p, s);
    forall id | id in q.conns
      ensures Shape(q.conns[id])
    {
      if id in p.conns && !Matching(p, s) {
        OtherMove(p, s, id);
        MoveKeepsShape(p.conns[id], q.conns[id]);
      } else if Matching(p, s) {
        MatchStep(p, s);
      } else {
        OnlyHelloAdds(p, s, id);
      }
    }
  }

  lemma RemoveEntry(m: map<Key, nat>, key: Key)
    ensures |m - {key}| <= |m|
  {
    if key in m {
      assert m == (m - {key})[key := m[key]];
    } else {
      assert m - {key} == m;
    }
  }

  lemma AddEntry(m: map<Key, nat>, key: Key, id: nat)
    ensures |m[key := id]| <= |m| + 1
  {
    if key in m {
      assert m[key := id].Keys == m.Keys;
      SameSize(m, m[key := id]);
    } else {
      assert m[key := id] == m[key := id];
    }
  }

  lemma SameSize(m: map<Key, nat>, n: map<Key, nat>)
    requires m.Keys == n.Keys
    ensures |m| == |n|
  {
    assert |m.Keys| == |m| && |n.Keys| == |n|;
  }

  lemma TakeKeepsSize(p: Pool, s: Step)
    requires Linked(p) && |p.waiting| <= p.max
    ensures |Take(p, s).waiting| <= p.max
  {
    if s.Hello? {
      RemoveEntry(p.waiting, (s.share, s.want));
      AddEntry(p.waiting, (s.share, s.peer), s.id);
    } else if s.TakeBack? && s.id in p.conns {
      RemoveEntry(p.waiting, p.conns[s.id].Own());
    }
  }

  /** An entry after the step is an old one, still untold, or the new waiter's own. */
  lemma EntryFrom(p: Pool, s: Step, k: Key)
    requires Linked(p) && k in Take(p, s).waiting
    ensures var q := Take(p, s);
            || (k in p.waiting && q.waiting[k] == p.waiting[k] && !(Matching(p, s) && k == (s.share, s.want)))
            || (&& s.Hello? && s.id !in p.conns && !Matching(p, s) && k == (s.share, s.peer) && q.waiting[k] == s.id
                && q.conns[s.id] == Greeted(s.share, s.peer, s.want, Waiter, Holding, [WaitingFrame]))
  {
    if Matching(p, s) {
      MatchStep(p, s);
    }
  }

  lemma OldEntryKept(p: Pool, s: Step, k: Key)
    requires Inv(p) && k in p.waiting && !(Matching(p, s) && k == (s.share, s.want))
    ensures Entry(Take(p, s).conns[p.waiting[k]], k)
  {
    assert Entry(p.conns[p.waiting[k]], k);
    if Matching(p, s) {
      assert Entry(p.conns[p.waiting[(s.share, s.want)]], (s.share, s.want));
      MatchStep(p, s);
    } else {
      OtherMove(p, s, p.waiting[k]);
    }
  }

  lemma TakeKeepsPooled(p: Pool, s: Step)
    requires Inv(p)
    ensures Pooled(Take(p, s))
  {
    var q := Take(p, s);
    TakeKeepsSize(p, s);
    forall k | k in q.waiting
      ensures Entry(q.conns[q.waiting[k]], k)
    {
      EntryFrom(p, s, k);
      if k in p.waiting && q.waiting[k] == p.waiting[k] && !(Matching(p, s) && k == (s.share, s.want)) {
        OldEntryKept(p, s, k);
      }
    }
  }

  lemma TakeKeepsApart(p: Pool, s: Step)
    requires Inv(p)
    ensures Apart(Take(p, s))
  {
    var q := Take(p, s);
    forall j, k | j in q.waiting && k in q.waiting && j != k
      ensures !(q.conns[q.waiting[j]].Wanted() == k && q.conns[q.waiting[k]].Wanted() == j)
    {
      EntryFrom(p, s, j);
      EntryFrom(p, s, k);
      if j in p.waiting && q.waiting[j] == p.waiting[j] { ConnGrows(p, s, p.waiting[j]); }
      if k in p.waiting && q.waiting[k] == p.waiting[k] { ConnGrows(p, s, p.waiting[k]); }
    }
  }

  lemma HandedToKept(p: Pool, s: Step, w: nat, c: nat)
    requires Sound(p)
    ensures HandedTo(Take(p, s), w, c) <==>
              HandedTo(p, w, c) || (Matching(p, s) && c == s.id && w == p.waiting[(s.share, s.want)])
  {
    if c in p.conns {
      ConnGrows(p, s, c);
    } else if Matching(p, s) {
      MatchStep(p, s);
    }
  }

  lemma PairFits(p: Pool, s: Step, w: nat, c: nat)
    requires Inv(p) && HandedTo(Take(p, s), w, c)
    ensures w in Take(p, s).conns && Fits(Take(p, s), w, c)
  {
    HandedToKept(p, s, w, c);
    if HandedTo(p, w, c) {
      ConnGrows(p, s, w);
      ConnGrows(p, s, c);
    } else {
      MatchStep(p, s);
    }
  }

  lemma PairUnique(p: Pool, s: Step, w: nat, c: nat, d: nat)
    requires Inv(p) && HandedTo(Take(p, s), w, c) && HandedTo(Take(p, s), w, d)
    ensures c == d
  {
    HandedToKept(p, s, w, c);
    HandedToKept(p, s, w, d);
  }

  lemma ToldIsHanded(p: Pool, s: Step, w: nat)
    requires Inv(p) && w in Take(p, s).conns
    requires Take(p, s).conns[w].role == Waiter && |Take(p, s).conns[w].out| >= 2
    ensures exists c :: HandedTo(Take(p, s), w, c)
  {
    if Matching(p, s) && w == p.waiting[(s.share, s.want)] {
      HandedToKept(p, s, w, s.id);
    } else {
      if Matching(p, s) { MatchStep(p, s); } else if w in p.conns { OtherMove(p, s, w); }
      assert w in p.conns && |p.conns[w].out| >= 2 && p.conns[w].role == Waiter;
      var c :| HandedTo(p, w, c);
      HandedToKept(p, s, w, c);
    }
  }

  lemma TakeKeepsPaired(p: Pool, s: Step)
    requires Inv(p)
    ensures Paired(Take(p, s))
  {
    var q := Take(p, s);
    forall w, c | HandedTo(q, w, c)
      ensures w in q.conns && Fits(q, w, c)
    {
      PairFits(p, s, w, c);
    }
    forall w, c, d | HandedTo(q, w, c) && HandedTo(q, w, d)
      ensures c == d
    {
      PairUnique(p, s, w, c, d);
    }
    forall w | w in q.conns && q.conns[w].role == Waiter && |q.conns[w].out| >= 2
      ensures exists c :: HandedTo(q, w, c)
    {
      ToldIsHanded(p, s, w);
    }
  }

  lemma TakeKeepsInv(p: Pool, s: Step)
    requires Inv(p)
    ensures Inv(Take(p, s))
  {
    TakeKeepsPooled(p, s);
    TakeKeepsShapes(p, s);
    TakeKeepsPaired(p, s);
    TakeKeepsApart(p, s);
  }

  lemma {:induction false} RunKeepsInv(p: Pool, steps: seq<Step>)
    requires Inv(p)
    ensures Inv(Run(p, steps))
    decreases |steps|
  {
    if steps != [] {
      TakeKeepsInv(p, steps[0]);
      RunKeepsInv(Take(p, steps[0]), steps[1..]);
    }
  }

  // ----- what holds in every reachable state ------------------------------------------------------

  ghost predicate Reachable(p: Pool) {
    exists steps :: p == Run(Start(p.max), steps)
  }

  lemma {:induction false} RunSnoc(p: Pool, steps: seq<Step>, s: Step)
    requires Linked(p)
    ensures Run(p, steps + [s]) == Take(Run(p, steps), s)
    decreases |steps|
  {
    if steps == [] {
      assert [s][1..] == [] && [] + [s] == [s];
    } else {
      RunSnoc(Take(p, steps[0]), steps[1..], s);
      assert (steps + [s])[1..] == steps[1..] + [s];
    }
  }

  lemma ReachableTake(p: Pool, s: Step)
    requires Reachable(p) && Linked(p)
    ensures Reachable(Take(p, s))
  {
    var steps :| p == Run(Start(p.max), steps);
    RunSnoc(Start(p.max), steps, s);
  }

  lemma ReachableInv(p: Pool)
    requires Reachable(p)
    ensures Inv(p)
  {
    var steps :| p == Run(Start(p.max), steps);
    RunKeepsInv(Start(p.max), steps);
  }

  /**
   Main result: the pool never holds more than `max` entries, and a waiter is handed to at
   most one connector, of the same share, that wants the waiter and that the pool has let go.
   */
  lemma HandedOverOnce(p: Pool, w: nat, c: nat, d: nat)
    requires Reachable(p) && HandedTo(p, w, c)
    ensures |p.waiting| <= p.max
    ensures w in p.conns && p.conns[c].share == p.conns[w].share && p.conns[c].want == p.conns[w].peer
    ensures w !in p.waiting.Values
    ensures HandedTo(p, w, d) ==> d == c
  {
    ReachableInv(p);
    assert Fits(p, w, c);
  }

  /** Main result: a waiter is told "connected" exactly when some connector was given it. */
  lemma ToldIffHanded(p: Pool, w: nat)
    requires Reachable(p) && w in p.conns && p.conns[w].role == Waiter
    ensures ConnectedFrame in p.conns[w].out <==> exists c :: HandedTo(p, w, c)
  {
    ReachableInv(p);
    assert Shape(p.conns[w]);
    ShapeTold(p.conns[w]);
    if c :| HandedTo(p, w, c) {
      assert Fits(p, w, c);
    }
  }

  lemma ShapeTold(c: Conn)
    requires Shape(c) && c.role == Waiter
    ensures ConnectedFrame in c.out <==> |c.out| >= 2
  {
    if |c.out| >= 2 {
      assert c.out[1] == ConnectedFrame;
    }
  }

  /**
   Main result: everything ever written to a refused connection is one refusal; to a waiter
   "waiting", then at most one "connected", then raw bytes; to a connector "connected" and
   then raw bytes.
   */
  lemma OutputShape(p: Pool, id: nat)
    requires Reachable(p) && id in p.conns
    ensures var out := p.conns[id].out;
            match p.conns[id].role
            case Refused => out == [CapacityFrame]
            case Waiter => out == [WaitingFrame] || exists raw :: Raws(raw) && out == [WaitingFrame, ConnectedFrame] + raw
            case Connector(_) => out == [] || exists raw :: Raws(raw) && out == [ConnectedFrame] + raw
  {
    ReachableInv(p);
    assert Shape(p.conns[id]);
    ShapeSplits(p.conns[id]);
  }

  lemma ShapeSplits(c: Conn)
    requires Shape(c)
    ensures match c.role
            case Refused => c.out == [CapacityFrame]
            case Waiter =>
              c.out == [WaitingFrame] || exists raw :: Raws(raw) && c.out == [WaitingFrame, ConnectedFrame] + raw
            case Connector(_) => c.out == [] || exists raw :: Raws(raw) && c.out == [ConnectedFrame] + raw
  {
    match c.role
    case Refused =>
    case Waiter =>
      if |c.out| >= 2 {
        assert c.out == [WaitingFrame, ConnectedFrame] + c.out[2..];
      } else {
        assert c.out == [c.out[0]];
      }
    case Connector(_) =>
      if c.out != [] {
        assert c.out == [ConnectedFrame] + c.out[1..];
      }
  }

  /** Main result: two pooled waiters never want each other. */
  lemma MutualWaitersArePaired(p: Pool, v: nat, w: nat)
    requires Reachable(p) && v != w && v in p.conns && w in p.conns
    requires p.conns[v].Wanted() == p.conns[w].Own() && p.conns[w].Wanted() == p.conns[v].Own()
    requires p.conns[v].Own() != p.conns[w].Own()
    ensures v !in p.waiting.Values || w !in p.waiting.Values
  {
    ReachableInv(p);
  }

  lemma EntryLeavesOnHello(p: Pool, s: Step, k: Key)
    requires Linked(p) && k in p.waiting && s.Hello? && s.id !in p.conns
    ensures var q := Take(p, s);
            (k !in q.waiting || q.waiting[k] != p.waiting[k]) <==>
              || (s.share, s.want) == k
              || ((s.share, s.peer) == k && (s.share, s.want) !in p.waiting && |p.waiting| < p.max)
  {
    if Matching(p, s) {
      MatchStep(p, s);
    }
  }

  lemma EntryLeavesOtherwise(p: Pool, s: Step, k: Key)
    requires Linked(p) && k in p.waiting && Enabled(p, s) && !s.Hello?
    ensures var q := Take(p, s);
            (k !in q.waiting || q.waiting[k] != p.waiting[k]) <==> s.TakeBack? && p.conns[s.id].Own() == k
  {
  }

  /** A pooled waiter stays pooled until it is matched, replaced by its own peer, or a wait of its peer ends. */
  lemma EntryLeavesIff(p: Pool, s: Step, k: Key)
    requires Reachable(p) && k in p.waiting && Enabled(p, s)
    ensures var q := Take(p, s);
            (k !in q.waiting || q.waiting[k] != p.waiting[k]) <==>
              || (s.Hello? && (s.share, s.want) == k)
              || (s.Hello? && (s.share, s.peer) == k && (s.share, s.want) !in p.waiting && |p.waiting| < p.max)
              || (s.TakeBack? && p.conns[s.id].Own() == k)
  {
    ReachableInv(p);
    if s.Hello? {
      EntryLeavesOnHello(p, s, k);
    } else {
      EntryLeavesOtherwise(p, s, k);
    }
  }

  // ----- whose bytes they are ---------------------------------------------------------------------

  function RawBytes(out: seq<Item>): Bytes {
    if out == [] then [] else Chunk(out[0]) + RawBytes(out[1..])
  }

  lemma {:induction false} RawSnoc(out: seq<Item>, item: Item)
    ensures RawBytes(out + [item]) == RawBytes(out) + Chunk(item)
  {
    if out == [] {
      RawCons(item, []);
      assert [item] + [] == [] + [item];
    } else {
      RawSnoc(out[1..], item);
      RawSnocCons(out[0], out[1..], item);
      assert out == [out[0]] + out[1..] && out + [item] == [out[0]] + (out[1..] + [item]);
    }
  }

  lemma RawSnocCons(head: Item, rest: seq<Item>, item: Item)
    requires RawBytes(rest + [item]) == RawBytes(rest) + Chunk(item)
    ensures RawBytes([head] + (rest + [item])) == RawBytes([head] + rest) + Chunk(item)
  {
    RawCons(head, rest + [item]);
    RawCons(head, rest);
    assert Chunk(head) + (RawBytes(rest) + Chunk(item)) == (Chunk(head) + RawBytes(rest)) + Chunk(item);
  }

  function Chunk(item: Item): Bytes {
    if item.Raw? then item.chunk else []
  }

  lemma RawCons(item: Item, rest: seq<Item>)
    ensures RawBytes([item] + rest) == Chunk(item) + RawBytes(rest)
  {
    assert ([item] + rest)[1..] == rest;
  }

  /** What was written to `to` is what was read from `from`, up to the moment `to` was closed. */
  ghost predicate Carried(from: Conn, to: Conn) {
    && from.taken <= |from.input|
    && RawBytes(to.out) <= from.input[..from.taken]
    && (to.phase != Closed ==> RawBytes(to.out) == from.input[..from.taken])
  }

  ghost predicate AllCarried(p: Pool) {
    forall w, c :: HandedTo(p, w, c) && w in p.conns ==> Carried(p.conns[c], p.conns[w]) && Carried(p.conns[w], p.conns[c])
  }

  /** A step that moves no raw bytes. */
  lemma StillCarried(f: Conn, t: Conn, f': Conn, t': Conn)
    requires Carried(f, t) && f.input <= f'.input && f'.taken == f.taken
    requires t'.out == t.out || t'.out == t.out + [ConnectedFrame]
    requires t.phase == Closed ==> t'.phase == Closed
    ensures Carried(f', t')
  {
    RawSnoc(t.out, ConnectedFrame);
    assert f'.input[..f.taken] == f.input[..f.taken];
  }

  lemma FeedCarries(p: Pool, from: nat, to: nat, k: nat)
    requires from in p.conns && to in p.conns && from != to && p.conns[from].taken + k <= |p.conns[from].input|
    requires Carried(p.conns[from], p.conns[to])
    ensures Carried(Feed(p, from, to, k).conns[from], Feed(p, from, to, k).conns[to])
  {
    var f, t := p.conns[from], p.conns[to];
    var chunk := f.input[f.taken..f.taken + k];
    RawSnoc(t.out, Raw(chunk));
    assert f.input[..f.taken + k] == f.input[..f.taken] + chunk;
  }

  lemma MatchCarries(p: Pool, s: Step, w: nat, c: nat)
    requires Inv(p) && AllCarried(p) && Matching(p, s) && HandedTo(Take(p, s), w, c)
    ensures var q := Take(p, s);
            w in q.conns && Carried(q.conns[c], q.conns[w]) && Carried(q.conns[w], q.conns[c])
  {
    HandedToKept(p, s, w, c);
    MatchStep(p, s);
    if c == s.id {
      var key := (s.share, s.want);
      assert Entry(p.conns[w], key) && Shape(p.conns[w]);
      assert [WaitingFrame, ConnectedFrame][1..] == [ConnectedFrame] && [ConnectedFrame][1..] == [];
      RawSnoc([WaitingFrame], ConnectedFrame);
      assert [WaitingFrame][1..] == [];
    } else {
      assert Fits(p, w, c);
    }
  }

  lemma ForwardCarries(p: Pool, s: Step, w: nat, c: nat)
    requires Sound(p) && AllCarried(p) && s.Forward? && Enabled(p, s) && HandedTo(p, w, c)
    ensures var q := Take(p, s);
            w in q.conns && Carried(q.conns[c], q.conns[w]) && Carried(q.conns[w], q.conns[c])
  {
    PipedTold(p, s.from, s.to);
    assert Fits(p, w, c);
    assert HandedTo(p, s.to, s.from) || HandedTo(p, s.from, s.to);
    assert Carried(p.conns[c], p.conns[w]) && Carried(p.conns[w], p.conns[c]);
    if (s.from == c && s.to == w) || (s.from == w && s.to == c) {
      FeedCarries(p, s.from, s.to, s.k);
    } else {
      ForwardElsewhere(p, s, w, c);
    }
  }

  /** Partners belong to each other alone. */
  lemma ForwardElsewhere(p: Pool, s: Step, w: nat, c: nat)
    requires Sound(p) && s.Forward? && Enabled(p, s) && HandedTo(p, w, c)
    requires !(s.from == c && s.to == w) && !(s.from == w && s.to == c)
    ensures w in p.conns && Take(p, s).conns[w] == p.conns[w] && Take(p, s).conns[c] == p.conns[c]
  {
    PipedTold(p, s.from, s.to);
    assert Fits(p, w, c);
    if HandedTo(p, s.to, s.from) {
      assert Fits(p, s.to, s.from);
    } else {
      assert HandedTo(p, s.from, s.to) && Fits(p, s.from, s.to);
    }
  }

  lemma PlainCarries(p: Pool, s: Step, w: nat, c: nat)
    requires Sound(p) && AllCarried(p) && !Matching(p, s) && !s.Forward? && HandedTo(p, w, c)
    ensures var q := Take(p, s);
            w in q.conns && Carried(q.conns[c], q.conns[w]) && Carried(q.conns[w], q.conns[c])
  {
    var q := Take(p, s);
    assert Fits(p, w, c);
    QuietMove(p, s, w);
    QuietMove(p, s, c);
    StillCarried(p.conns[c], p.conns[w], q.conns[c], q.conns[w]);
    StillCarried(p.conns[w], p.conns[c], q.conns[w], q.conns[c]);
  }

  lemma QuietMove(p: Pool, s: Step, id: nat)
    requires Linked(p) && !Matching(p, s) && !s.Forward? && id in p.conns
    ensures var c, d := p.conns[id], Take(p, s).conns[id];
            && c.input <= d.input && d.taken == c.taken && d.role == c.role
            && (!s.Arrive? ==> d.input == c.input)
            && (d.out == c.out || d.out == c.out + [ConnectedFrame])
            && (c.phase == Closed ==> d.phase == Closed)
  {
    match s
    case Hello(_, _, _, _) =>
    case WaitEnds(_) =>
    case TakeBack(_) =>
    case Confirm(_) =>
    case Arrive(_, _) =>
    case Drop(_) =>
  }

  lemma TakeKeepsCarried(p: Pool, s: Step)
    requires Inv(p) && AllCarried(p)
    ensures AllCarried(Take(p, s))
  {
    var q := Take(p, s);
    forall w, c | HandedTo(q, w, c) && w in q.conns
      ensures Carried(q.conns[c], q.conns[w]) && Carried(q.conns[w], q.conns[c])
    {
      HandedToKept(p, s, w, c);
      if Matching(p, s) {
        MatchCarries(p, s, w, c);
      } else if s.Forward? && Enabled(p, s) {
        ForwardCarries(p, s, w, c);
      } else if s.Forward? {
        assert Fits(p, w, c);
      } else {
        PlainCarries(p, s, w, c);
      }
    }
  }

  lemma {:induction false} RunKeepsCarried(p: Pool, steps: seq<Step>)
    requires Inv(p) && AllCarried(p)
    ensures AllCarried(Run(p, steps))
    decreases |steps|
  {
    if steps != [] {
      TakeKeepsCarried(p, steps[0]);
      TakeKeepsInv(p, steps[0]);
      RunKeepsCarried(Take(p, steps[0]), steps[1..]);
    }
  }

  /**
   Main result: in every reachable state the raw bytes written to either end of a pair are a
   prefix of what the other end sent after its hello, and all that a pipe has read of it
   unless the connection was closed.
   */
  lemma RawBytesAreThePartners(p: Pool, w: nat, c: nat)
    requires Reachable(p) && HandedTo(p, w, c)
    ensures w in p.conns
    ensures RawBytes(p.conns[w].out) <= p.conns[c].input && RawBytes(p.conns[c].out) <= p.conns[w].input
    ensures Carried(p.conns[c], p.conns[w]) && Carried(p.conns[w], p.conns[c])
  {
    ReachableInv(p);
    assert Fits(p, w, c);
    var steps :| p == Run(Start(p.max), steps);
    RunKeepsCarried(Start(p.max), steps);
  }

  // ----- what the code does not keep --------------------------------------------------------------

  /** Some connection asks for the entry that this waiter holds. */
  predicate Claims(p: Pool, s: Step, id: nat) {
    s.Hello? && s.id !in p.conns && (s.share, s.want) in p.waiting && p.waiting[(s.share, s.want)] == id
  }

  /** Where a handler in phase `was` is after the step. */
  function NextPhase(p: Pool, s: Step, id: nat, was: Phase): Phase {
    if s == Drop(id) then Closed
    else match was
      case Holding => if s == WaitEnds(id) then TimedOut else if Claims(p, s, id) then HandedOver else Holding
      case TimedOut => if s == TakeBack(id) then Closed else TimedOut
      case Matched => if s == Confirm(id) then Piping else Matched
      case _ => was
  }

  /**
   Main result: a waiter returns only while it still waits; one whose wait has ended stays
   ended, matched or not; a connection that is gone stays gone, and its entry stays.
   */
  lemma PhaseMoves(p: Pool, s: Step, id: nat)
    requires Linked(p) && id in p.conns
    ensures Take(p, s).conns[id].phase == NextPhase(p, s, id, p.conns[id].phase)
    ensures s.Drop? ==> Take(p, s).waiting == p.waiting
  {
    if s.Hello? {
      HelloMoves(p, s, id);
    } else if s.Arrive? || s.Forward? {
      BytesMoveNobody(p, s, id);
    } else {
      OwnMoves(p, s, id);
    }
  }

  lemma OwnMoves(p: Pool, s: Step, id: nat)
    requires Linked(p) && id in p.conns && (s.WaitEnds? || s.TakeBack? || s.Confirm? || s.Drop?)
    ensures Take(p, s).conns[id].phase == NextPhase(p, s, id, p.conns[id].phase)
    ensures s.Drop? ==> Take(p, s).waiting == p.waiting
  {
  }

  lemma BytesMoveNobody(p: Pool, s: Step, id: nat)
    requires Linked(p) && id in p.conns && (s.Arrive? || s.Forward?)
    ensures Take(p, s).conns[id].phase == p.conns[id].phase
  {
  }

  lemma HelloMoves(p: Pool, s: Step, id: nat)
    requires Linked(p) && id in p.conns && s.Hello?
    ensures Take(p, s).conns[id].phase == NextPhase(p, s, id, p.conns[id].phase)
  {
    var c, d := p.conns[id], Take(p, s).conns[id];
    if Matching(p, s) {
      MatchStep(p, s);
      assert d == if Claims(p, s, id) then Wake(c) else c;
    } else {
      assert d == c && !Claims(p, s, id);
    }
  }

  /** Main result: a match pairs both ways exactly when the entry that was held wants the caller. */
  lemma PairsBothWaysIff(p: Pool, s: Step)
    requires Reachable(p) && Matching(p, s)
    ensures var w, q := p.waiting[(s.share, s.want)], Take(p, s);
            && HandedTo(q, w, s.id)
            && q.conns[s.id].Wanted() == q.conns[w].Own()
            && (q.conns[w].Wanted() == q.conns[s.id].Own() <==> p.conns[w].want == s.peer)
  {
    ReachableInv(p);
    MatchStep(p, s);
    assert Entry(p.conns[p.waiting[(s.share, s.want)]], (s.share, s.want));
  }

  /** A waiter can be paired with a peer it did not ask for. */
  lemma OneSidedPairing()
    ensures var p := Run(Start(1), [Hello(1, "s", "a", "c"), Hello(2, "s", "b", "a")]);
            HandedTo(p, 1, 2) && p.conns[1].want != p.conns[2].peer
  {
    var p := Take(Start(1), Hello(1, "s", "a", "c"));
    var q := Take(p, Hello(2, "s", "b", "a"));
    assert q == Run(p, [Hello(2, "s", "b", "a")]) by { assert Run(q, []) == q; }
    assert [Hello(1, "s", "a", "c"), Hello(2, "s", "b", "a")][1..] == [Hello(2, "s", "b", "a")];
  }

  lemma RunFirst(p: Pool, s: Step, rest: seq<Step>)
    requires Linked(p)
    ensures Run(p, [s] + rest) == Run(Take(p, s), rest)
  {
    assert ([s] + rest)[1..] == rest;
  }

  /** `q` is `p` with one more waiter, whose entry replaces any under its key. */
  ghost predicate Joined(p: Pool, q: Pool, id: nat, c: Conn) {
    q == p.(waiting := p.waiting[c.Own() := id], conns := p.conns[id := c])
  }

  /** `q` is `p` after the wait of `id` has ended. */
  ghost predicate Ended(p: Pool, q: Pool, id: nat)
    requires id in p.conns
  {
    q == SetPhase(p, id, Closed).(waiting := p.waiting - {p.conns[id].Own()})
  }

  lemma Rejoin(p: Pool, id: nat, c: Conn)
    requires Linked(p) && id !in p.conns && |p.waiting| < p.max && c.Wanted() !in p.waiting
    requires c == Greeted(c.share, c.peer, c.want, Waiter, Holding, [WaitingFrame])
    ensures Joined(p, Take(p, Hello(id, c.share, c.peer, c.want)), id, c)
  {
  }

  lemma EndWait(p: Pool, id: nat)
    requires Linked(p) && InPhase(p, id, Holding)
    ensures Ended(p, Run(p, [WaitEnds(id), TakeBack(id)]), id)
  {
    RunFirst(p, WaitEnds(id), [TakeBack(id)]);
    RunFirst(Take(p, WaitEnds(id)), TakeBack(id), []);
    assert [WaitEnds(id)] + [TakeBack(id)] == [WaitEnds(id), TakeBack(id)];
    assert [TakeBack(id)] + [] == [TakeBack(id)];
    assert p.conns[id := p.conns[id].(phase := TimedOut)][id := p.conns[id].(phase := Closed)] ==
           p.conns[id := p.conns[id].(phase := Closed)];
  }

  lemma JoinedSize(p: Pool, q: Pool, id: nat, c: Conn)
    requires Joined(p, q, id, c)
    ensures |q.waiting| <= |p.waiting| + 1
  {
    AddEntry(p.waiting, c.Own(), id);
  }

  /** A waiter, a second one of the same peer, the end of the first one's wait, and the wanted peer. */
  lemma EvictedMeanwhile(p: Pool, p1: Pool, p2: Pool, p3: Pool, q: Pool, held: Conn, late: Conn, x: nat, y: nat, z: nat)
    requires Joined(p, p1, x, held) && Joined(p1, p2, y, held) && x != y && x != z && y != z
    requires x in p2.conns && Ended(p2, p3, x) && Joined(p3, q, z, late) && late.Own() != held.Own()
    requires held.phase == Holding && late.phase == Holding
    ensures InPhase(q, y, Holding) && InPhase(q, z, Holding)
    ensures q.conns[y].Own() == held.Own() && q.conns[y].Wanted() == held.Wanted()
    ensures q.conns[z].Own() == late.Own() && q.conns[z].Wanted() == late.Wanted()
    ensures held.Own() !in q.waiting && late.Own() in q.waiting
  {
    assert p3.conns[y] == held && held.Own() !in p3.waiting;
    assert q.conns[y] == held && q.conns[z] == late;
  }

  /**
   The ended wait of a replaced connection removes the entry of the one that replaced it. In
   any pool with room, y and z end up both held and wanting each other, and y is not pooled.
   */
  lemma StaleWaitEvicts(p: Pool, share: Id, a: Id, b: Id, x: nat, y: nat, z: nat)
    returns (p1: Pool, p2: Pool, p3: Pool, q: Pool)
    requires Linked(p) && |p.waiting| + 1 < p.max && a != b && (share, b) !in p.waiting
    requires x !in p.conns && y !in p.conns && z !in p.conns && x != y && x != z && y != z
    ensures Linked(p1) && Linked(p2) && Linked(p3)
    ensures p1 == Take(p, Hello(x, share, a, b)) && p2 == Take(p1, Hello(y, share, a, b))
    ensures p3 == Run(p2, [WaitEnds(x), TakeBack(x)]) && q == Take(p3, Hello(z, share, b, a))
    ensures InPhase(q, y, Holding) && InPhase(q, z, Holding)
    ensures q.conns[y].Wanted() == q.conns[z].Own() && q.conns[z].Wanted() == q.conns[y].Own()
    ensures q.conns[y].Own() !in q.waiting && q.conns[z].Own() in q.waiting
  {
    var held := Greeted(share, a, b, Waiter, Holding, [WaitingFrame]);
    var late := Greeted(share, b, a, Waiter, Holding, [WaitingFrame]);
    p1, p2, p3 := WaitOutlived(p, held, x, y);
    assert late.Wanted() == held.Own() && held.Wanted() == late.Own();
    q := Take(p3, Hello(z, share, b, a));
    Rejoin(p3, z, late);
    EvictedMeanwhile(p, p1, p2, p3, q, held, late, x, y, z);
  }

  lemma WaitOutlived(p: Pool, held: Conn, x: nat, y: nat) returns (p1: Pool, p2: Pool, p3: Pool)
    requires Linked(p) && |p.waiting| + 1 < p.max && held.Wanted() !in p.waiting && held.Wanted() != held.Own()
    requires x !in p.conns && y !in p.conns && x != y
    requires held == Greeted(held.share, held.peer, held.want, Waiter, Holding, [WaitingFrame])
    ensures Linked(p1) && Linked(p2) && Linked(p3)
    ensures p1 == Take(p, Hello(x, held.share, held.peer, held.want))
    ensures p2 == Take(p1, Hello(y, held.share, held.peer, held.want))
    ensures p3 == Run(p2, [WaitEnds(x), TakeBack(x)])
    ensures Joined(p, p1, x, held) && Joined(p1, p2, y, held) && x in p2.conns && Ended(p2, p3, x)
    ensures |p3.waiting| <= |p.waiting| && held.Own() !in p3.waiting && p3.max == p.max
    ensures forall id :: id in p3.conns <==> id in p.conns || id == x || id == y
  {
    p1 := Take(p, Hello(x, held.share, held.peer, held.want));
    Rejoin(p, x, held);
    JoinedSize(p, p1, x, held);
    p2 := Take(p1, Hello(y, held.share, held.peer, held.want));
    Rejoin(p1, y, held);
    p3 := Run(p2, [WaitEnds(x), TakeBack(x)]);
    EndWait(p2, x);
    EvictedSize(p, p1, p2, p3, held, x, y);
  }

  lemma EvictedSize(p: Pool, p1: Pool, p2: Pool, p3: Pool, held: Conn, x: nat, y: nat)
    requires Joined(p, p1, x, held) && Joined(p1, p2, y, held) && x != y && x in p2.conns && Ended(p2, p3, x)
    ensures |p3.waiting| <= |p.waiting| && held.Own() !in p3.waiting && p3.max == p.max
    ensures forall id :: id in p3.conns <==> id in p.conns || id == x || id == y
  {
    assert p1.conns[x] == held && p2.conns[x] == held;
    AddAddRemove(p.waiting, held.Own(), x, y);
    RemoveEntry(p.waiting, held.Own());
  }

  lemma AddAddRemove(m: map<Key, nat>, key: Key, x: nat, y: nat)
    ensures m[key := x][key := y] - {key} == m - {key}
  {
  }
}
