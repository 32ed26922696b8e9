/**
 Two applications joined through the relay, from end to end: the pool of `RelayPool`, the
 framed streams of `RelayStream` and, for every pair, a line of three nodes of `RelayChain`
 (connector's daemon, relay, waiter's daemon). The line `there` runs from the connector's
 application to the waiter's, `back` the other way.

 The three share their state: what a daemon's pipe writes to the relay arrives as the input
 of its connection, and what the relay's pipe moves is what the pool reads from that input
 and writes to the partner.
 */
module RelaySession {
  import opened Wrappers
  import opened Utf8
  import P = RelayPool
  import S = RelayStream
  import C = RelayChain

  const NODES := 3

  /** `lines` has a line for every connector. */
  datatype Session = Session(pool: P.Pool, lines: map<nat, C.Line>)

  datatype Event =
    | Pooling(step: P.Step)
    | Traffic(c: nat, move: C.Move)

  // ----- steps --------------------------------------------------------------------------------------

  ghost predicate Formed(s: Session) {
    && P.Linked(s.pool)
    && (forall c :: c in s.lines <==> c in s.pool.conns && s.pool.conns[c].role.Connector?)
    && (forall c :: c in s.lines ==> C.Paired(s.lines[c]) && C.Pipes(s.lines[c].there) == NODES)
  }

  function Waiter(s: Session, c: nat): nat
    requires c in s.pool.conns && s.pool.conns[c].role.Connector?
  {
    s.pool.conns[c].role.partner
  }

  function Sender(s: Session, c: nat, back: bool): nat
    requires c in s.pool.conns && s.pool.conns[c].role.Connector?
  {
    if back then Waiter(s, c) else c
  }

  function Receiver(s: Session, c: nat, back: bool): nat
    requires c in s.pool.conns && s.pool.conns[c].role.Connector?
  {
    Sender(s, c, !back)
  }

  /** Node 0 is the connector's daemon, node 1 the relay, node 2 the waiter's daemon. */
  function NodeOf(m: C.Move): int {
    if m.step.Move? || m.step.Finish? then (if m.back then NODES - 1 - m.step.pipe else m.step.pipe) else -1
  }

  /** A daemon pipes once it was told "connected", the relay once it has told both; a closed writer takes nothing. */
  ghost predicate Open(s: Session, c: nat, m: C.Move)
    requires Formed(s) && c in s.lines
  {
    && (NodeOf(m) == 0 ==> P.ConnectedFrame in s.pool.conns[c].out)
    && (NodeOf(m) == 1 ==> s.pool.conns[c].phase == P.Piping)
    && (NodeOf(m) == 1 && m.step.Move? ==> s.pool.conns[Receiver(s, c, m.back)].phase != P.Closed)
  }

  ghost predicate Enabled(s: Session, e: Event)
    requires Formed(s)
  {
    match e
    case Pooling(st) =>
      P.Enabled(s.pool, st) && (st.Hello? || st.WaitEnds? || st.TakeBack? || st.Confirm? || st.Drop?)
    case Traffic(c, m) => c in s.lines && C.Possible(s.lines[c], m) && Open(s, c, m)
  }

  /** What a move on the line does at the relay. */
  ghost function PoolStep(s: Session, c: nat, m: C.Move): Option<P.Step>
    requires Formed(s) && c in s.lines && C.Possible(s.lines[c], m)
  {
    if m.step.Move? && m.step.pipe == 0 then
      Some(P.Arrive(Sender(s, c, m.back), C.Held(C.Side(s.lines[c], m.back), 0)[..m.step.k]))
    else if m.step.Move? && m.step.pipe == 1 then
      Some(P.Forward(Sender(s, c, m.back), Receiver(s, c, m.back), m.step.k))
    else None
  }

  ghost function After(s: Session, e: Event): Session
    requires Formed(s) && Enabled(s, e)
  {
    match e
    case Pooling(st) =>
      Session(P.Take(s.pool, st), if P.Matching(s.pool, st) then s.lines[st.id := C.Start(NODES)] else s.lines)
    case Traffic(c, m) =>
      var st := PoolStep(s, c, m);
      Session(if st.Some? then P.Take(s.pool, st.value) else s.pool, s.lines[c := C.Next(s.lines[c], m)])
  }

  // ----- the invariant ----------------------------------------------------------------------------------

  /**
   One direction of one pair: the sender's input is what was written to the connection to the
   relay, and what the relay wrote to the receiver is what was written to the next one.
   */
  ghost predicate Tied(x: P.Conn, y: P.Conn, f: C.Flow)
    requires C.Formed(f) && C.Pipes(f) == NODES
  {
    && x.input == C.Passed(f, 1)
    && x.taken == |C.Passed(f, 2)|
    && P.RawBytes(y.out) == C.Passed(f, 2)
  }

  ghost predicate TiedAt(s: Session, c: nat, back: bool)
    requires Formed(s) && c in s.lines
  {
    Tied(s.pool.conns[Sender(s, c, back)], s.pool.conns[Receiver(s, c, back)], C.Side(s.lines[c], back))
  }

  ghost predicate AllTied(s: Session)
    requires Formed(s)
  {
    forall c, back :: c in s.lines ==> TiedAt(s, c, back)
  }

  /** Nobody sends before being told "connected". */
  ghost predicate Quiet(p: P.Pool) {
    forall id :: id in p.conns && p.conns[id].role == P.Waiter && |p.conns[id].out| < 2 ==> p.conns[id].input == []
  }

  ghost predicate LinesGood(s: Session) {
    forall c :: c in s.lines ==> C.Inv(s.lines[c])
  }

  ghost predicate Inv(s: Session) {
    Formed(s) && P.Reachable(s.pool) && Quiet(s.pool) && LinesGood(s) && AllTied(s)
  }

  // ----- steps of the pool ---------------------------------------------------------------------------

  predicate Plain(st: P.Step) {
    st.Hello? || st.WaitEnds? || st.TakeBack? || st.Confirm? || st.Drop?
  }

  ghost predicate SameBytes(c: P.Conn, d: P.Conn) {
    && d.input == c.input && d.taken == c.taken && d.role == c.role
    && P.RawBytes(d.out) == P.RawBytes(c.out) && |c.out| <= |d.out|
  }

  lemma MatchKeepsBytes(p: P.Pool, st: P.Step, id: nat)
    requires P.Linked(p) && P.Matching(p, st) && id in p.conns
    ensures SameBytes(p.conns[id], P.Take(p, st).conns[id])
  {
    P.MatchStep(p, st);
    P.RawSnoc(p.conns[id].out, P.ConnectedFrame);
  }

  /** A step that is not about raw bytes changes nobody's. */
  lemma PoolingKeepsBytes(p: P.Pool, st: P.Step, id: nat)
    requires P.Linked(p) && id in p.conns && Plain(st)
    ensures SameBytes(p.conns[id], P.Take(p, st).conns[id])
  {
    if P.Matching(p, st) {
      MatchKeepsBytes(p, st, id);
    } else {
      P.QuietMove(p, st, id);
      P.RawSnoc(p.conns[id].out, P.ConnectedFrame);
    }
  }

  lemma StartPasses(n: nat, j: nat)
    requires 0 < j <= n
    ensures C.Passed(C.Fresh(n), j) == []
  {
    C.NothingInFlight(C.Fresh(n).stages[2 * j..]);
  }

  /** A new pair: nobody has sent anything yet. */
  lemma MatchTies(p: P.Pool, st: P.Step)
    requires P.Sound(p) && P.Pooled(p) && Quiet(p) && P.Matching(p, st)
    ensures var w, q := p.waiting[(st.share, st.want)], P.Take(p, st);
            && q.conns[st.id].role == P.Connector(w)
            && Tied(q.conns[st.id], q.conns[w], C.Fresh(NODES)) && Tied(q.conns[w], q.conns[st.id], C.Fresh(NODES))
  {
    var key := (st.share, st.want);
    var w := p.waiting[key];
    P.MatchStep(p, st);
    assert P.Entry(p.conns[w], key) && P.Shape(p.conns[w]);
    P.RawSnoc([P.WaitingFrame], P.ConnectedFrame);
    assert [P.WaitingFrame][1..] == [];
    StartPasses(NODES, 1);
    StartPasses(NODES, 2);
  }

  lemma PoolingRoles(p: P.Pool, st: P.Step, id: nat)
    requires P.Linked(p) && Plain(st) && id in P.Take(p, st).conns
    ensures id in p.conns ==> P.Take(p, st).conns[id].role == p.conns[id].role
    ensures id !in p.conns ==>
              st.Hello? && st.id == id && (P.Take(p, st).conns[id].role.Connector? <==> P.Matching(p, st))
  {
    if id in p.conns {
      PoolingKeepsBytes(p, st, id);
    } else {
      P.OnlyHelloAdds(p, st, id);
    }
  }

  lemma PoolingFormed(s: Session, st: P.Step)
    requires Formed(s) && Enabled(s, Pooling(st))
    ensures Formed(After(s, Pooling(st)))
  {
    var t := After(s, Pooling(st));
    forall id | id in t.pool.conns
      ensures id in t.lines <==> t.pool.conns[id].role.Connector?
    {
      PoolingRoles(s.pool, st, id);
    }
  }

  lemma PoolingTied(s: Session, st: P.Step, c: nat, back: bool)
    requires Formed(s) && Enabled(s, Pooling(st)) && c in s.lines && TiedAt(s, c, back)
    ensures Formed(After(s, Pooling(st))) && c in After(s, Pooling(st)).lines && TiedAt(After(s, Pooling(st)), c, back)
  {
    PoolingFormed(s, st);
    PoolingRoles(s.pool, st, c);
    PoolingKeepsBytes(s.pool, st, Sender(s, c, back));
    PoolingKeepsBytes(s.pool, st, Receiver(s, c, back));
  }

  lemma NewPairTied(s: Session, st: P.Step, back: bool)
    requires Formed(s) && P.Sound(s.pool) && P.Pooled(s.pool) && Quiet(s.pool) && Enabled(s, Pooling(st)) && P.Matching(s.pool, st)
    ensures Formed(After(s, Pooling(st))) && st.id in After(s, Pooling(st)).lines
    ensures TiedAt(After(s, Pooling(st)), st.id, back)
  {
    PoolingFormed(s, st);
    MatchTies(s.pool, st);
  }

  lemma PoolingQuiet(p: P.Pool, st: P.Step)
    requires P.Linked(p) && Quiet(p) && Plain(st)
    ensures Quiet(P.Take(p, st))
  {
    var q := P.Take(p, st);
    forall id | id in q.conns && q.conns[id].role == P.Waiter && |q.conns[id].out| < 2
      ensures q.conns[id].input == []
    {
      if id in p.conns {
        PoolingKeepsBytes(p, st, id);
      } else {
        P.OnlyHelloAdds(p, st, id);
      }
    }
  }

  lemma PoolingAllTied(s: Session, st: P.Step)
    requires Formed(s) && P.Sound(s.pool) && P.Pooled(s.pool) && Quiet(s.pool) && AllTied(s) && Enabled(s, Pooling(st))
    ensures Formed(After(s, Pooling(st))) && AllTied(After(s, Pooling(st)))
  {
    var t := After(s, Pooling(st));
    PoolingFormed(s, st);
    forall c, back | c in t.lines
      ensures TiedAt(t, c, back)
    {
      if c in s.lines {
        PoolingTied(s, st, c, back);
      } else {
        NewPairTied(s, st, back);
      }
    }
  }

  lemma PoolingKeepsInv(s: Session, st: P.Step)
    requires Inv(s) && Enabled(s, Pooling(st))
    ensures Inv(After(s, Pooling(st)))
  {
    P.ReachableInv(s.pool);
    PoolingAllTied(s, st);
    PoolingPool(s.pool, st);
    PoolingLines(s, st);
  }

  lemma PoolingPool(p: P.Pool, st: P.Step)
    requires P.Linked(p) && P.Reachable(p) && Quiet(p) && Plain(st)
    ensures P.Reachable(P.Take(p, st)) && Quiet(P.Take(p, st))
  {
    P.ReachableTake(p, st);
    PoolingQuiet(p, st);
  }

  lemma PoolingLines(s: Session, st: P.Step)
    requires Formed(s) && Enabled(s, Pooling(st)) && LinesGood(s)
    ensures LinesGood(After(s, Pooling(st)))
  {
    C.StartInv(NODES);
  }

  // ----- traffic ---------------------------------------------------------------------------------------

  /** Both ends of a pair have been told. */
  lemma PairTold(s: Session, c: nat)
    requires Formed(s) && P.Sound(s.pool) && c in s.lines
    ensures var w := s.pool.conns[Waiter(s, c)]; w.role == P.Waiter && |w.out| >= 2
  {
    assert P.HandedTo(s.pool, Waiter(s, c), c);
    assert P.Fits(s.pool, Waiter(s, c), c);
  }

  /** Nobody is in two pairs. */
  lemma PairsApart(s: Session, c: nat, d: nat)
    requires Formed(s) && P.Sound(s.pool) && c in s.lines && d in s.lines && c != d
    ensures Waiter(s, c) != Waiter(s, d) && Waiter(s, c) != d && c != Waiter(s, d)
  {
    PairTold(s, c);
    PairTold(s, d);
    assert P.HandedTo(s.pool, Waiter(s, c), c) && P.HandedTo(s.pool, Waiter(s, d), d);
  }

  /** The pool can take the step that a move asks for, and reads the bytes that were moved. */
  lemma ForwardReads(x: P.Conn, y: P.Conn, f: C.Flow, k: nat)
    requires C.Formed(f) && C.Pipes(f) == NODES && Tied(x, y, f) && k <= |C.Held(f, 1)|
    ensures x.taken + k <= |x.input| && x.input[x.taken..x.taken + k] == C.Held(f, 1)[..k]
  {
    C.PassedOn(f, 1);
  }

  /** What a move reads on its own way. */
  function Chunk(f: C.Flow, step: C.Step, pipe: nat): Bytes
    requires C.Formed(f) && pipe < C.Pipes(f) && (step.Move? ==> step.pipe < C.Pipes(f) && step.k <= |C.Held(f, step.pipe)|)
  {
    if step.Move? && step.pipe == pipe then C.Held(f, pipe)[..step.k] else []
  }

  /** `arrived` was added to the input of x, and the next bytes of it, `moved`, were written to y. */
  ghost predicate Exchanged(p: P.Pool, q: P.Pool, x: nat, y: nat, arrived: Bytes, moved: Bytes)
    requires x in p.conns && y in p.conns
  {
    var cx, cy := p.conns[x], p.conns[y];
    && q.conns.Keys == p.conns.Keys
    && (forall id :: id in p.conns && id != x && id != y ==> q.conns[id] == p.conns[id])
    && q.conns[x] == cx.(input := cx.input + arrived, taken := cx.taken + |moved|)
    && q.conns[y].role == cy.role
    && |cy.out| <= |q.conns[y].out|
    && q.conns[y].input == cy.input && q.conns[y].taken == cy.taken
    && P.RawBytes(q.conns[y].out) == P.RawBytes(cy.out) + moved
  }

  /** What traffic does to the two connections of its pair. */
  ghost predicate ConnsAfter(s: Session, t: Session, c: nat, m: C.Move)
    requires Formed(s) && c in s.lines && C.Possible(s.lines[c], m)
  {
    var f := C.Side(s.lines[c], m.back);
    Exchanged(s.pool, t.pool, Sender(s, c, m.back), Receiver(s, c, m.back), Chunk(f, m.step, 0), Chunk(f, m.step, 1))
  }

  lemma NothingExchanged(p: P.Pool, x: nat, y: nat)
    requires x in p.conns && y in p.conns
    ensures Exchanged(p, p, x, y, [], [])
  {
    assert p.conns[x].input + [] == p.conns[x].input;
    assert P.RawBytes(p.conns[y].out) + [] == P.RawBytes(p.conns[y].out);
  }

  lemma ArriveExchanges(p: P.Pool, x: nat, y: nat, data: Bytes)
    requires P.Linked(p) && x in p.conns && y in p.conns && x != y
    ensures Exchanged(p, P.Take(p, P.Arrive(x, data)), x, y, data, [])
  {
    assert P.RawBytes(p.conns[y].out) + [] == P.RawBytes(p.conns[y].out);
  }

  lemma FeedExchanges(p: P.Pool, x: nat, y: nat, k: nat)
    requires x in p.conns && y in p.conns && x != y && p.conns[y].phase != P.Closed
    requires p.conns[x].taken + k <= |p.conns[x].input|
    ensures var cx := p.conns[x];
            Exchanged(p, P.Feed(p, x, y, k), x, y, [], cx.input[cx.taken..cx.taken + k])
  {
    var cx := p.conns[x];
    P.RawSnoc(p.conns[y].out, P.Raw(cx.input[cx.taken..cx.taken + k]));
    assert cx.input + [] == cx.input;
  }

  lemma ForwardTakes(s: Session, c: nat, m: C.Move)
    requires Formed(s) && Enabled(s, Traffic(c, m)) && TiedAt(s, c, m.back) && m.step.Move? && m.step.pipe == 1
    ensures var x, y := Sender(s, c, m.back), Receiver(s, c, m.back);
            && s.pool.conns[x].taken + m.step.k <= |s.pool.conns[x].input|
            && After(s, Traffic(c, m)).pool == P.Feed(s.pool, x, y, m.step.k)
  {
    var x, y, f := Sender(s, c, m.back), Receiver(s, c, m.back), C.Side(s.lines[c], m.back);
    ForwardReads(s.pool.conns[x], s.pool.conns[y], f, m.step.k);
    assert P.Enabled(s.pool, P.Forward(x, y, m.step.k));
  }

  lemma ArriveConns(s: Session, c: nat, m: C.Move)
    requires Formed(s) && Enabled(s, Traffic(c, m)) && m.step.Move? && m.step.pipe == 0
    ensures ConnsAfter(s, After(s, Traffic(c, m)), c, m)
  {
    ArriveExchanges(s.pool, Sender(s, c, m.back), Receiver(s, c, m.back), Chunk(C.Side(s.lines[c], m.back), m.step, 0));
  }

  lemma ForwardExchanges(p: P.Pool, x: nat, y: nat, f: C.Flow, k: nat)
    requires x in p.conns && y in p.conns && x != y && p.conns[y].phase != P.Closed
    requires C.Formed(f) && C.Pipes(f) == NODES && Tied(p.conns[x], p.conns[y], f) && k <= |C.Held(f, 1)|
    ensures p.conns[x].taken + k <= |p.conns[x].input|
    ensures Exchanged(p, P.Feed(p, x, y, k), x, y, [], C.Held(f, 1)[..k])
  {
    ForwardReads(p.conns[x], p.conns[y], f, k);
    FeedExchanges(p, x, y, k);
  }

  lemma ForwardConns(s: Session, c: nat, m: C.Move)
    requires Formed(s) && Enabled(s, Traffic(c, m)) && TiedAt(s, c, m.back) && m.step.Move? && m.step.pipe == 1
    ensures ConnsAfter(s, After(s, Traffic(c, m)), c, m)
  {
    var x, y, f := Sender(s, c, m.back), Receiver(s, c, m.back), C.Side(s.lines[c], m.back);
    ForwardExchanges(s.pool, x, y, f, m.step.k);
    ForwardTakes(s, c, m);
  }

  lemma OtherConns(s: Session, c: nat, m: C.Move)
    requires Formed(s) && Enabled(s, Traffic(c, m)) && !(m.step.Move? && m.step.pipe <= 1)
    ensures ConnsAfter(s, After(s, Traffic(c, m)), c, m)
  {
    NothingExchanged(s.pool, Sender(s, c, m.back), Receiver(s, c, m.back));
  }

  lemma TrafficConns(s: Session, c: nat, m: C.Move)
    requires Formed(s) && Enabled(s, Traffic(c, m)) && TiedAt(s, c, m.back)
    ensures ConnsAfter(s, After(s, Traffic(c, m)), c, m)
  {
    if !(m.step.Move? && m.step.pipe <= 1) {
      OtherConns(s, c, m);
    } else if m.step.pipe == 0 {
      ArriveConns(s, c, m);
    } else {
      ForwardConns(s, c, m);
    }
  }

  lemma TrafficFormed(s: Session, c: nat, m: C.Move)
    requires Formed(s) && Enabled(s, Traffic(c, m)) && TiedAt(s, c, m.back)
    ensures Formed(After(s, Traffic(c, m)))
    ensures forall d, back :: d in s.lines ==>
              d in After(s, Traffic(c, m)).lines && Sender(After(s, Traffic(c, m)), d, back) == Sender(s, d, back)
  {
    var t := After(s, Traffic(c, m));
    TrafficConns(s, c, m);
    forall id | id in s.pool.conns
      ensures t.pool.conns[id].role == s.pool.conns[id].role
    {
    }
  }

  lemma TrafficTiesOwn(s: Session, c: nat, m: C.Move)
    requires Formed(s) && Enabled(s, Traffic(c, m)) && TiedAt(s, c, m.back) && C.Inv(s.lines[c])
    ensures Formed(After(s, Traffic(c, m))) && c in After(s, Traffic(c, m)).lines
    ensures TiedAt(After(s, Traffic(c, m)), c, m.back)
  {
    TrafficFormed(s, c, m);
    TrafficConns(s, c, m);
    C.PassedNext(s.lines[c], m, m.back, 1);
    C.PassedNext(s.lines[c], m, m.back, 2);
  }

  lemma TrafficTiesOpposite(s: Session, c: nat, m: C.Move)
    requires Formed(s) && Enabled(s, Traffic(c, m)) && TiedAt(s, c, m.back) && TiedAt(s, c, !m.back) && C.Inv(s.lines[c])
    ensures Formed(After(s, Traffic(c, m))) && c in After(s, Traffic(c, m)).lines
    ensures TiedAt(After(s, Traffic(c, m)), c, !m.back)
  {
    TrafficFormed(s, c, m);
    TrafficConns(s, c, m);
    var f := C.Side(s.lines[c], !m.back);
    C.PassedNext(s.lines[c], m, !m.back, 1);
    C.PassedNext(s.lines[c], m, !m.back, 2);
    assert C.Passed(f, 1) + [] == C.Passed(f, 1) && C.Passed(f, 2) + [] == C.Passed(f, 2);
  }

  lemma TrafficTiesElsewhere(s: Session, c: nat, m: C.Move, d: nat, back: bool)
    requires Formed(s) && Enabled(s, Traffic(c, m)) && TiedAt(s, c, m.back)
    requires d in s.lines && d != c && TiedAt(s, d, back)
    requires Waiter(s, c) != Waiter(s, d) && Waiter(s, c) != d && c != Waiter(s, d)
    ensures Formed(After(s, Traffic(c, m))) && d in After(s, Traffic(c, m)).lines
    ensures TiedAt(After(s, Traffic(c, m)), d, back)
  {
    var t := After(s, Traffic(c, m));
    TrafficFormed(s, c, m);
    OthersUnchanged(s, c, m, Sender(s, d, back));
    OthersUnchanged(s, c, m, Receiver(s, d, back));
    assert t.lines[d] == s.lines[d];
  }

  lemma OthersUnchanged(s: Session, c: nat, m: C.Move, id: nat)
    requires Formed(s) && Enabled(s, Traffic(c, m)) && TiedAt(s, c, m.back)
    requires id in s.pool.conns && id != c && id != Waiter(s, c)
    ensures id in After(s, Traffic(c, m)).pool.conns && After(s, Traffic(c, m)).pool.conns[id] == s.pool.conns[id]
  {
    TrafficConns(s, c, m);
  }

  lemma TrafficAllTied(s: Session, c: nat, m: C.Move)
    requires Formed(s) && P.Sound(s.pool) && Enabled(s, Traffic(c, m)) && AllTied(s) && C.Inv(s.lines[c])
    ensures Formed(After(s, Traffic(c, m))) && AllTied(After(s, Traffic(c, m)))
  {
    var t := After(s, Traffic(c, m));
    assert TiedAt(s, c, m.back) && TiedAt(s, c, !m.back);
    TrafficFormed(s, c, m);
    forall d, back | d in t.lines
      ensures TiedAt(t, d, back)
    {
      assert TiedAt(s, d, back);
      if d != c {
        PairsApart(s, c, d);
        TrafficTiesElsewhere(s, c, m, d, back);
      } else if back == m.back {
        TrafficTiesOwn(s, c, m);
      } else {
        TrafficTiesOpposite(s, c, m);
      }
    }
  }

  lemma TrafficQuiet(s: Session, c: nat, m: C.Move)
    requires Formed(s) && P.Sound(s.pool) && Enabled(s, Traffic(c, m)) && TiedAt(s, c, m.back) && Quiet(s.pool)
    ensures Quiet(After(s, Traffic(c, m)).pool)
  {
    PairTold(s, c);
    TrafficConns(s, c, m);
  }

  lemma TrafficPool(s: Session, c: nat, m: C.Move)
    requires Formed(s) && Enabled(s, Traffic(c, m)) && P.Reachable(s.pool)
    ensures P.Reachable(After(s, Traffic(c, m)).pool)
  {
    var st := PoolStep(s, c, m);
    if st.Some? {
      P.ReachableTake(s.pool, st.value);
    }
  }

  lemma TrafficKeepsInv(s: Session, c: nat, m: C.Move)
    requires Inv(s) && Enabled(s, Traffic(c, m))
    ensures Inv(After(s, Traffic(c, m)))
  {
    assert TiedAt(s, c, m.back);
    P.ReachableInv(s.pool);
    TrafficAllTied(s, c, m);
    TrafficQuiet(s, c, m);
    TrafficPool(s, c, m);
    TrafficLines(s, c, m);
  }

  lemma TrafficLines(s: Session, c: nat, m: C.Move)
    requires Formed(s) && Enabled(s, Traffic(c, m)) && LinesGood(s)
    ensures LinesGood(After(s, Traffic(c, m)))
  {
    C.NextKeepsInv(s.lines[c], m);
  }

  // ----- runs ---------------------------------------------------------------------------------------------

  ghost predicate IsRun(s: Session, es: seq<Event>, end: Session)
    decreases |es|
  {
    if es == [] then s == end
    else Formed(s) && Enabled(s, es[0]) && IsRun(After(s, es[0]), es[1..], end)
  }

  function Start(max: nat): Session {
    Session(P.Start(max), map[])
  }

  ghost predicate Reached(s: Session) {
    exists max, es :: IsRun(Start(max), es, s)
  }

  lemma {:induction false} RunKeepsInv(s: Session, es: seq<Event>, end: Session)
    requires Inv(s) && IsRun(s, es, end)
    ensures Inv(end)
    decreases |es|
  {
    if es != [] {
      match es[0] {
        case Pooling(st) => PoolingKeepsInv(s, st);
        case Traffic(c, m) => TrafficKeepsInv(s, c, m);
      }
      RunKeepsInv(After(s, es[0]), es[1..], end);
    }
  }
}
