/**
 What the registry's published events say about who is online.

 Over every run of RPCs and sweeps, replaying the published events of a share gives the
 rows of the announcement table with the addresses a snapshot lists; a member that
 announces in time is only ever reported as updated, and one that stops is reported
 offline once.
 */
module Presence {
  import opened Registry
  import opened RateLimiter
  import opened Wrappers

  // ----- runs --------------------------------------------------------------------------------

  datatype Op =
    | Registering(peer: PeerId, name: string, sigOk: bool)
    | Creating(caller: Caller, share: ShareId, sigOk: bool)
    | Adding(caller: Caller, share: ShareId, peer: PeerId, perm: Permission)
    | Removing(caller: Caller, share: ShareId, peer: PeerId)
    | SettingPolicy(caller: Caller, share: ShareId)
    | Announcing(caller: Caller, r: Request, sigOk: bool, now: real, clock: real)
    | Sweeping(now: real, order: seq<Member>)

  datatype Service = Service(reg: Reg, buckets: map<Key, Bucket>)

  function Serve(c: Config, s: Service, op: Op): Service {
    match op
    case Registering(peer, name, sigOk) => s.(reg := Register(s.reg, peer, name, sigOk).1)
    case Creating(caller, share, sigOk) => s.(reg := CreateShare(s.reg, caller, share, sigOk).1)
    case Adding(caller, share, peer, perm) => s.(reg := AddPeer(s.reg, caller, share, peer, perm).1)
    case Removing(caller, share, peer) => s.(reg := RemovePeer(s.reg, caller, share, peer).1)
    case SettingPolicy(caller, share) => s.(reg := SetPolicy(s.reg, caller, share).1)
    case Announcing(caller, r, sigOk, now, clock) =>
      var (allowed, buckets) := Ask(c, s.buckets, (r.peer, r.share), clock);
      if AnnounceCheck(s.reg, caller, r, sigOk) != Ok then s
      else Service(Announce(s.reg, caller, r, sigOk, allowed, now).1, buckets)
    case Sweeping(_, order) => s.(reg := ExpireAll(s.reg, order))
  }

  /** A sweep removes the rows that are expired when it runs, in any order. */
  ghost predicate Admissible(s: Service, op: Op) {
    op.Sweeping? ==> Expired(s.reg, op.now, op.order)
  }

  ghost predicate IsRun(c: Config, s: Service, ops: seq<Op>)
    decreases |ops|
  {
    ops == [] || (Admissible(s, ops[0]) && IsRun(c, Serve(c, s, ops[0]), ops[1..]))
  }

  function Run(c: Config, s: Service, ops: seq<Op>): Service
    decreases |ops|
  {
    if ops == [] then s else Run(c, Serve(c, s, ops[0]), ops[1..])
  }

  const Empty := Service(Reg(map[], map[], map[], map[], []), map[])

  // ----- replay and snapshot -----------------------------------------------------------------

  type Online = map<PeerId, seq<Addr>>

  function Apply(seen: Online, e: Event, share: ShareId): Online {
    if e.share != share then seen else
      match e.kind
      case Online | Updated => seen[e.peer := e.addrs]
      case Offline | Removed => seen - {e.peer}
      case PolicyUpdated => seen
  }

  /** What a watcher of the share knows that started with nothing and saw every event. */
  function Replay(log: seq<Event>, share: ShareId): Online {
    if log == [] then map[] else Apply(Replay(log[..|log| - 1], share), log[|log| - 1], share)
  }

  function Listed(a: Announcement): seq<Addr> {
    WithExternal(a.internal, a.external)
  }

  /** The members a snapshot at `now` calls online, with their addresses. */
  function Snapshot(reg: Reg, share: ShareId, now: real): Online {
    map m | m in reg.members && m.0 == share && WasOnline(reg, m, now) :: m.1 := Listed(reg.anns[m])
  }

  // ----- the invariant -------------------------------------------------------------------------

  /** Every announcement row has a membership, so no sweep drops one silently. */
  ghost predicate Rooted(reg: Reg) {
    forall m :: m in reg.anns ==> m in reg.members
  }

  ghost predicate Rows(reg: Reg) {
    && (forall s :: s in reg.owners ==> (s, reg.owners[s]) in reg.members)
    && (forall m :: m in reg.members ==> m.0 in reg.owners && m.1 in reg.peers)
    && Rooted(reg)
  }

  ghost predicate Mirrors(reg: Reg) {
    forall m: Member ::
      && (m.1 in Replay(reg.log, m.0) <==> m in reg.anns)
      && (m in reg.anns ==> Replay(reg.log, m.0)[m.1] == Listed(reg.anns[m]))
  }

  ghost predicate Inv(reg: Reg) {
    Rows(reg) && Mirrors(reg)
  }

  lemma ReplayOne(log: seq<Event>, e: Event, share: ShareId)
    ensures Replay(log + [e], share) == Apply(Replay(log, share), e, share)
  {
    assert (log + [e])[..|log|] == log;
  }

  /** A published event that puts or takes the row of one member keeps the mirror. */
  lemma PublishMirrors(reg: Reg, after: Reg, e: Event)
    requires Mirrors(reg) && after.log == reg.log + [e]
    requires var m := (e.share, e.peer);
             match e.kind
             case Online | Updated =>
               m in after.anns && after.anns == reg.anns[m := after.anns[m]] && e.addrs == Listed(after.anns[m])
             case Offline | Removed => after.anns == reg.anns - {m}
             case PolicyUpdated => after.anns == reg.anns
    ensures Mirrors(after)
  {
    forall m: Member
      ensures (m.1 in Replay(after.log, m.0) <==> m in after.anns)
      ensures m in after.anns ==> Replay(after.log, m.0)[m.1] == Listed(after.anns[m])
    {
      ReplayOne(reg.log, e, m.0);
      assert m.1 in Replay(reg.log, m.0) <==> m in reg.anns;
    }
  }

  lemma ExpireKeepsInv(reg: Reg, m: Member)
    requires Inv(reg) && m in reg.anns
    ensures Inv(Expire(reg, m))
  {
    PublishMirrors(reg, Expire(reg, m), Event(m.0, Offline, m.1, [], ""));
  }

  /** The rows to sweep: present, each once. */
  ghost predicate Distinct(reg: Reg, order: seq<Member>) {
    && (forall m :: m in order ==> m in reg.anns)
    && (forall i, j :: 0 <= i < j < |order| ==> order[i] != order[j])
  }

  lemma {:induction false} ExpireAllEffect(reg: Reg, order: seq<Member>)
    ensures ExpireAll(reg, order).members == reg.members
    ensures forall m :: m in ExpireAll(reg, order).anns <==> m in reg.anns && m !in order
    ensures forall m :: m in ExpireAll(reg, order).anns ==> ExpireAll(reg, order).anns[m] == reg.anns[m]
  {
    if order != [] {
      var k := |order| - 1;
      assert order == order[..k] + [order[k]];
      ExpireAllEffect(reg, order[..k]);
    }
  }

  lemma {:induction false} ExpireAllKeepsInv(reg: Reg, order: seq<Member>)
    requires Inv(reg) && Distinct(reg, order)
    ensures Inv(ExpireAll(reg, order))
  {
    if order != [] {
      var k := |order| - 1;
      var rest := order[..k];
      assert order == rest + [order[k]];
      ExpireAllKeepsInv(reg, rest);
      ExpireAllEffect(reg, rest);
      ExpireKeepsInv(ExpireAll(reg, rest), order[k]);
    }
  }

  lemma RecordKeepsInv(reg: Reg, r: Request, now: real)
    requires Inv(reg) && (r.share, r.peer) in reg.members
    ensures Inv(Record(reg, r, now))
  {
    var after := Record(reg, r, now);
    PublishMirrors(reg, after, after.log[|reg.log|]);
  }

  lemma RemoveKeepsRows(reg: Reg, caller: Caller, share: ShareId, peer: PeerId)
    requires Rows(reg)
    ensures Rows(RemovePeer(reg, caller, share, peer).1)
  {
  }

  lemma RemoveKeepsMirror(reg: Reg, caller: Caller, share: ShareId, peer: PeerId)
    requires Mirrors(reg)
    ensures Mirrors(RemovePeer(reg, caller, share, peer).1)
  {
    var (status, after) := RemovePeer(reg, caller, share, peer);
    if status == Ok {
      PublishMirrors(reg, after, Event(share, Removed, peer, [], ""));
    }
  }

  lemma RemoveKeepsInv(reg: Reg, caller: Caller, share: ShareId, peer: PeerId)
    requires Inv(reg)
    ensures Inv(RemovePeer(reg, caller, share, peer).1)
  {
    RemoveKeepsRows(reg, caller, share, peer);
    RemoveKeepsMirror(reg, caller, share, peer);
  }

  lemma PolicyKeepsInv(reg: Reg, caller: Caller, share: ShareId)
    requires Inv(reg)
    ensures Inv(SetPolicy(reg, caller, share).1)
  {
    var (status, after) := SetPolicy(reg, caller, share);
    if status == Ok {
      PublishMirrors(reg, after, Event(share, PolicyUpdated, "", [], ""));
    }
  }

  lemma AnnounceKeepsInv(reg: Reg, caller: Caller, r: Request, sigOk: bool, allowed: bool, now: real)
    requires Inv(reg)
    ensures Inv(Announce(reg, caller, r, sigOk, allowed, now).1)
  {
    if AnnounceCheck(reg, caller, r, sigOk) == Ok {
      RecordKeepsInv(reg, r, now);
    }
  }

  lemma RegisterKeepsInv(reg: Reg, peer: PeerId, name: string, sigOk: bool)
    requires Inv(reg)
    ensures Inv(Register(reg, peer, name, sigOk).1)
  {
    SameMirror(reg, Register(reg, peer, name, sigOk).1);
  }

  lemma CreateKeepsRows(reg: Reg, caller: Caller, share: ShareId, sigOk: bool)
    requires Rows(reg)
    ensures Rows(CreateShare(reg, caller, share, sigOk).1)
  {
  }

  lemma CreateKeepsInv(reg: Reg, caller: Caller, share: ShareId, sigOk: bool)
    requires Inv(reg)
    ensures Inv(CreateShare(reg, caller, share, sigOk).1)
  {
    CreateKeepsRows(reg, caller, share, sigOk);
    SameMirror(reg, CreateShare(reg, caller, share, sigOk).1);
  }

  lemma AddKeepsRows(reg: Reg, caller: Caller, share: ShareId, peer: PeerId, perm: Permission)
    requires Rows(reg)
    ensures Rows(AddPeer(reg, caller, share, peer, perm).1)
  {
  }

  lemma AddKeepsInv(reg: Reg, caller: Caller, share: ShareId, peer: PeerId, perm: Permission)
    requires Inv(reg)
    ensures Inv(AddPeer(reg, caller, share, peer, perm).1)
  {
    AddKeepsRows(reg, caller, share, peer, perm);
    SameMirror(reg, AddPeer(reg, caller, share, peer, perm).1);
  }

  lemma SameMirror(reg: Reg, after: Reg)
    requires Mirrors(reg) && after.log == reg.log && after.anns == reg.anns
    ensures Mirrors(after)
  {
  }

  lemma StepKeepsInv(c: Config, s: Service, op: Op)
    requires Inv(s.reg) && Admissible(s, op)
    ensures Inv(Serve(c, s, op).reg)
  {
    match op
    case Removing(caller, share, peer) => RemoveKeepsInv(s.reg, caller, share, peer);
    case SettingPolicy(caller, share) => PolicyKeepsInv(s.reg, caller, share);
    case Announcing(caller, r, sigOk, now, clock) =>
      AnnounceKeepsInv(s.reg, caller, r, sigOk, Ask(c, s.buckets, (r.peer, r.share), clock).0, now);
    case Sweeping(_, order) => ExpireAllKeepsInv(s.reg, order);
    case Registering(peer, name, sigOk) => RegisterKeepsInv(s.reg, peer, name, sigOk);
    case Creating(caller, share, sigOk) => CreateKeepsInv(s.reg, caller, share, sigOk);
    case Adding(caller, share, peer, perm) => AddKeepsInv(s.reg, caller, share, peer, perm);
  }

  lemma {:induction false} RunKeepsInv(c: Config, s: Service, ops: seq<Op>)
    requires Inv(s.reg) && IsRun(c, s, ops)
    ensures Inv(Run(c, s, ops).reg)
    decreases |ops|
  {
    if ops != [] {
      StepKeepsInv(c, s, ops[0]);
      RunKeepsInv(c, Serve(c, s, ops[0]), ops[1..]);
    }
  }

  // ----- the events tell who is online ------------------------------------------------------------

  /**
   Main result: in every reachable state a watcher's replay is the snapshot at `now` exactly
   when the share has no expired row waiting for a sweep.
   */
  lemma ReplayIsSnapshotIff(c: Config, ops: seq<Op>, share: ShareId, now: real)
    requires IsRun(c, Empty, ops)
    ensures var reg := Run(c, Empty, ops).reg;
            Replay(reg.log, share) == Snapshot(reg, share, now) <==>
              forall m :: m in reg.anns && m.0 == share ==> reg.anns[m].expiresAt > now
  {
    RunKeepsInv(c, Empty, ops);
    ReplayAgainstSnapshot(Run(c, Empty, ops).reg, share, now);
  }

  lemma ReplayAgainstSnapshot(reg: Reg, share: ShareId, now: real)
    requires Inv(reg)
    ensures Replay(reg.log, share) == Snapshot(reg, share, now) <==>
              forall m :: m in reg.anns && m.0 == share ==> reg.anns[m].expiresAt > now
  {
    var replay, snapshot := Replay(reg.log, share), Snapshot(reg, share, now);
    forall p: PeerId
      ensures p in replay <==> (share, p) in reg.anns
      ensures p in snapshot <==> WasOnline(reg, (share, p), now)
      ensures p in replay && p in snapshot ==> replay[p] == snapshot[p]
    {
      var m := (share, p);
      assert m.1 in Replay(reg.log, m.0) <==> m in reg.anns;
    }
    if replay == snapshot {
      forall m | m in reg.anns && m.0 == share
        ensures reg.anns[m].expiresAt > now
      {
        assert m == (share, m.1) && m.1 in replay;
      }
    }
  }

  /** Main result: right after a sweep the replayed events are the snapshot, for every share. */
  lemma SweepSettles(c: Config, ops: seq<Op>, now: real, order: seq<Member>, share: ShareId)
    requires IsRun(c, Empty, ops) && Admissible(Run(c, Empty, ops), Sweeping(now, order))
    ensures var reg := Serve(c, Run(c, Empty, ops), Sweeping(now, order)).reg;
            Replay(reg.log, share) == Snapshot(reg, share, now)
  {
    RunKeepsInv(c, Empty, ops);
    var reg := Run(c, Empty, ops).reg;
    ExpireAllKeepsInv(reg, order);
    ExpireAllEffect(reg, order);
    ReplayAgainstSnapshot(ExpireAll(reg, order), share, now);
  }

  // ----- who may change what ---------------------------------------------------------------------

  /** Main result: a membership changes only at the word of the share's registered owner, or when its share is created. */
  lemma OnlyOwnersChangeMembers(c: Config, s: Service, op: Op, m: Member)
    requires Rows(s.reg)
    requires var after := Serve(c, s, op).reg;
             (m in after.members) != (m in s.reg.members) ||
             (m in after.members && m in s.reg.members && after.members[m] != s.reg.members[m])
    ensures op.Adding? || op.Removing? ==>
              && m == (op.share, op.peer) && m.0 in s.reg.owners
              && op.caller == Some(s.reg.owners[m.0]) && s.reg.owners[m.0] in s.reg.peers
    ensures op.Adding? || op.Removing? ||
              (op.Creating? && m.0 == op.share && m.0 !in s.reg.owners && op.caller == Some(m.1) && m.1 in s.reg.peers)
  {
    if !op.Adding? && !op.Removing? && !op.Creating? {
      OthersKeepMembers(c, s, op);
    }
  }

  lemma OthersKeepMembers(c: Config, s: Service, op: Op)
    requires !op.Adding? && !op.Removing? && !op.Creating?
    ensures Serve(c, s, op).reg.members == s.reg.members
  {
    match op
    case Sweeping(_, order) => ExpireAllEffect(s.reg, order);
    case Registering(_, _, _) =>
    case SettingPolicy(_, _) =>
    case Announcing(_, _, _, _, _) =>
  }

  // ----- the history of one member ---------------------------------------------------------------

  predicate Concerns(e: Event, m: Member) {
    e.kind != PolicyUpdated && e.share == m.0 && e.peer == m.1
  }

  /** The kinds of the events published about a member, oldest first. */
  function History(log: seq<Event>, m: Member): seq<Kind> {
    if log == [] then [] else
      var k := |log| - 1;
      History(log[..k], m) + if Concerns(log[k], m) then [log[k].kind] else []
  }

  lemma HistoryOne(log: seq<Event>, e: Event, m: Member)
    ensures History(log + [e], m) == History(log, m) + if Concerns(e, m) then [e.kind] else []
  {
    assert (log + [e])[..|log|] == log;
  }

  /** The caller proved to be the member, so the limiter is asked. */
  predicate Announces(s: Service, op: Op, m: Member) {
    op.Announcing? && (op.r.share, op.r.peer) == m && AnnounceCheck(s.reg, op.caller, op.r, op.sigOk) == Ok
  }

  predicate Removes(s: Service, op: Op, m: Member) {
    op.Removing? && (op.share, op.peer) == m && RemovePeer(s.reg, op.caller, op.share, op.peer).0 == Ok
  }

  predicate Has(s: Service, m: Member, deadline: real) {
    m in s.reg.anns && s.reg.anns[m].expiresAt == deadline
  }

  lemma ExpireReports(reg: Reg, row: Member, m: Member)
    requires row in reg.members
    ensures History(Expire(reg, row).log, m) == History(reg.log, m) + if row == m then [Offline] else []
  {
    HistoryOne(reg.log, Event(row.0, Offline, row.1, [], ""), m);
  }

  lemma LastOccursOnce(order: seq<Member>, m: Member)
    requires order != [] && forall i, j :: 0 <= i < j < |order| ==> order[i] != order[j]
    ensures var k := |order| - 1;
            && (m in order[..k] ==> order[k] != m)
            && (m in order <==> m in order[..k] || order[k] == m)
  {
  }

  lemma {:induction false} SweepReports(reg: Reg, order: seq<Member>, m: Member)
    requires Rooted(reg) && Distinct(reg, order)
    ensures History(ExpireAll(reg, order).log, m) == History(reg.log, m) + if m in order then [Offline] else []
  {
    if order != [] {
      var k := |order| - 1;
      SweepReports(reg, order[..k], m);
      ExpireAllEffect(reg, order[..k]);
      ExpireReports(ExpireAll(reg, order[..k]), order[k], m);
      LastOccursOnce(order, m);
    }
  }

  /** A sweep reports a member offline once when its row is expired, and otherwise leaves it alone. */
  lemma SweepStep(c: Config, s: Service, op: Op, m: Member)
    requires Rooted(s.reg) && Admissible(s, op) && op.Sweeping?
    ensures var after, gone := Serve(c, s, op), m in s.reg.anns && s.reg.anns[m].expiresAt <= op.now;
            && History(after.reg.log, m) == History(s.reg.log, m) + (if gone then [Offline] else [])
            && (m in after.reg.anns <==> m in s.reg.anns && !gone)
            && (m in after.reg.anns ==> after.reg.anns[m] == s.reg.anns[m])
            && after.buckets == s.buckets
  {
    SweepReports(s.reg, op.order, m);
    ExpireAllEffect(s.reg, op.order);
  }

  ghost predicate Untouched(reg: Reg, after: Reg, m: Member) {
    && History(after.log, m) == History(reg.log, m)
    && (m in after.anns <==> m in reg.anns)
    && (m in reg.anns ==> after.anns[m] == reg.anns[m])
  }

  predicate SameBucket(s: Service, after: Service, m: Member) {
    && ((m.1, m.0) in after.buckets <==> (m.1, m.0) in s.buckets)
    && ((m.1, m.0) in s.buckets ==> after.buckets[(m.1, m.0)] == s.buckets[(m.1, m.0)])
  }

  /** Nothing else touches a member's row, bucket or history but its own announcements and its removal. */
  lemma OtherStep(c: Config, s: Service, op: Op, m: Member)
    requires !op.Sweeping? && !Announces(s, op, m) && !Removes(s, op, m)
    ensures Untouched(s.reg, Serve(c, s, op).reg, m) && SameBucket(s, Serve(c, s, op), m)
  {
    match op
    case Registering(_, _, _) =>
    case Creating(_, _, _) =>
    case Adding(_, _, _, _) =>
    case Removing(caller, share, peer) => OtherRemove(s.reg, caller, share, peer, m);
    case SettingPolicy(caller, share) => HistoryOne(s.reg.log, Event(share, PolicyUpdated, "", [], ""), m);
    case Announcing(_, _, _, _, _) => OtherAnnounce(c, s, op, m);
    case Sweeping(_, _) =>
  }

  lemma OtherAnnounce(c: Config, s: Service, op: Op, m: Member)
    requires op.Announcing? && !Announces(s, op, m)
    ensures Untouched(s.reg, Serve(c, s, op).reg, m) && SameBucket(s, Serve(c, s, op), m)
  {
    if AnnounceCheck(s.reg, op.caller, op.r, op.sigOk) == Ok {
      OtherRecord(s.reg, op.r, op.now, m);
    }
  }

  lemma OtherRemove(reg: Reg, caller: Caller, share: ShareId, peer: PeerId, m: Member)
    requires (share, peer) != m || RemovePeer(reg, caller, share, peer).0 != Ok
    ensures Untouched(reg, RemovePeer(reg, caller, share, peer).1, m)
  {
    HistoryOne(reg.log, Event(share, Removed, peer, [], ""), m);
  }

  lemma OtherRecord(reg: Reg, r: Request, now: real, m: Member)
    requires (r.share, r.peer) != m
    ensures Untouched(reg, Record(reg, r, now), m)
  {
    HistoryOne(reg.log, Record(reg, r, now).log[|reg.log|], m);
  }

  lemma StepKeepsRooted(c: Config, s: Service, op: Op)
    requires Rooted(s.reg)
    ensures Rooted(Serve(c, s, op).reg)
  {
    if op.Sweeping? {
      ExpireAllEffect(s.reg, op.order);
    }
  }

  ghost predicate Drops(s: Service, op: Op, m: Member) {
    op.Sweeping? && m in s.reg.anns && s.reg.anns[m].expiresAt <= op.now
  }

  /** A step in which the member neither announces nor is removed. */
  lemma QuietStep(c: Config, s: Service, op: Op, m: Member)
    requires Rooted(s.reg) && Admissible(s, op) && !Announces(s, op, m) && !Removes(s, op, m)
    ensures var after := Serve(c, s, op);
            && Rooted(after.reg)
            && History(after.reg.log, m) == History(s.reg.log, m) + (if Drops(s, op, m) then [Offline] else [])
            && (m in after.reg.anns <==> m in s.reg.anns && !Drops(s, op, m))
            && (m in after.reg.anns ==> after.reg.anns[m] == s.reg.anns[m])
            && ((m.1, m.0) in after.buckets <==> (m.1, m.0) in s.buckets)
            && ((m.1, m.0) in s.buckets ==> after.buckets[(m.1, m.0)] == s.buckets[(m.1, m.0)])
  {
    StepKeepsRooted(c, s, op);
    if op.Sweeping? {
      SweepStep(c, s, op, m);
    } else {
      OtherStep(c, s, op, m);
    }
  }

  lemma AnnounceStep(c: Config, s: Service, op: Op, m: Member)
    requires Announces(s, op, m) && Ask(c, s.buckets, (m.1, m.0), op.clock).0
    ensures var after := Serve(c, s, op);
            && Has(after, m, op.now + Ttl(op.r.ttl) as real)
            && after.buckets == Ask(c, s.buckets, (m.1, m.0), op.clock).1
            && History(after.reg.log, m) ==
               History(s.reg.log, m) + [if WasOnline(s.reg, m, op.now) then Updated else Online]
  {
    var log, after := s.reg.log, Serve(c, s, op);
    HistoryOne(log, after.reg.log[|log|], m);
  }

  // ----- silence ----------------------------------------------------------------------------------

  ghost predicate Silent(c: Config, s: Service, ops: seq<Op>, m: Member)
    decreases |ops|
  {
    ops == [] || (
      && !Announces(s, ops[0], m)
      && !Removes(s, ops[0], m)
      && Silent(c, Serve(c, s, ops[0]), ops[1..], m))
  }

  /** Some sweep runs at or past the deadline. */
  predicate SweptBy(ops: seq<Op>, deadline: real) {
    exists i :: 0 <= i < |ops| && ops[i].Sweeping? && ops[i].now >= deadline
  }

  lemma SweptByFirst(ops: seq<Op>, deadline: real)
    requires ops != []
    ensures SweptBy(ops, deadline) <==> (ops[0].Sweeping? && ops[0].now >= deadline) || SweptBy(ops[1..], deadline)
  {
    if i :| 0 <= i < |ops[1..]| && ops[1..][i].Sweeping? && ops[1..][i].now >= deadline {
      assert ops[i + 1] == ops[1..][i];
    }
    if i :| 1 <= i < |ops| && ops[i].Sweeping? && ops[i].now >= deadline {
      assert ops[i] == ops[1..][i - 1];
    }
  }

  lemma {:induction false} AbsentStaysQuiet(c: Config, s: Service, ops: seq<Op>, m: Member)
    requires Rooted(s.reg) && IsRun(c, s, ops) && Silent(c, s, ops, m) && m !in s.reg.anns
    ensures History(Run(c, s, ops).reg.log, m) == History(s.reg.log, m)
    decreases |ops|
  {
    if ops != [] {
      QuietStep(c, s, ops[0], m);
      AbsentStaysQuiet(c, Serve(c, s, ops[0]), ops[1..], m);
    }
  }

  /**
   Main result: a member that stops announcing is reported offline by the first sweep at or
   past its expiry, once, and nothing else is published about it.
   */
  lemma {:induction false} SilenceIsReportedOnce(c: Config, s: Service, ops: seq<Op>, m: Member, deadline: real)
    requires Rooted(s.reg) && IsRun(c, s, ops) && Silent(c, s, ops, m) && Has(s, m, deadline)
    ensures History(Run(c, s, ops).reg.log, m) ==
            History(s.reg.log, m) + if SweptBy(ops, deadline) then [Offline] else []
    decreases |ops|
  {
    if ops != [] {
      var next := Serve(c, s, ops[0]);
      SweptByFirst(ops, deadline);
      QuietStep(c, s, ops[0], m);
      if ops[0].Sweeping? && ops[0].now >= deadline {
        AbsentStaysQuiet(c, next, ops[1..], m);
      } else {
        SilenceIsReportedOnce(c, next, ops[1..], m, deadline);
      }
    }
  }

  // ----- heartbeat --------------------------------------------------------------------------------

  /** Wall-clock time never runs backwards. */
  predicate InOrder(ops: seq<Op>, from: real) {
    ops == [] ||
      if ops[0].Announcing? || ops[0].Sweeping? then ops[0].now >= from && InOrder(ops[1..], ops[0].now)
      else InOrder(ops[1..], from)
  }

  predicate Spaced(c: Config, earlier: real, later: real) {
    c.rpm > 0 ==> later - earlier >= 60.0 / c.rpm as real
  }

  /**
   The member announces before its deadline, each time at least 60 / rpm seconds after the
   last time, and is not removed.
   */
  ghost predicate Regular(c: Config, s: Service, ops: seq<Op>, m: Member, last: real, deadline: real)
    decreases |ops|
  {
    ops == [] || (
      var op, next := ops[0], Serve(c, s, ops[0]);
      && !Removes(s, op, m)
      && if Announces(s, op, m) then
           && op.now < deadline
           && Spaced(c, last, op.clock)
           && Regular(c, next, ops[1..], m, op.clock, op.now + Ttl(op.r.ttl) as real)
         else Regular(c, next, ops[1..], m, last, deadline))
  }

  function Beats(c: Config, s: Service, ops: seq<Op>, m: Member): nat
    decreases |ops|
  {
    if ops == [] then 0 else
      (if Announces(s, ops[0], m) then 1 else 0) + Beats(c, Serve(c, s, ops[0]), ops[1..], m)
  }

  ghost predicate EndsOnBeat(c: Config, s: Service, ops: seq<Op>, m: Member)
    decreases |ops|
  {
    ops != [] &&
      if |ops| == 1 then Announces(s, ops[0], m) else EndsOnBeat(c, Serve(c, s, ops[0]), ops[1..], m)
  }

  function Times(n: nat, k: Kind): (ks: seq<Kind>)
    ensures |ks| == n && forall i :: 0 <= i < n ==> ks[i] == k
  {
    if n == 0 then [] else [k] + Times(n - 1, k)
  }

  /** The limiter last passed this member at `last` and owes it nothing. */
  predicate Credited(c: Config, s: Service, m: Member, last: real) {
    c.rpm > 0 ==>
      && (m.1, m.0) in s.buckets
      && s.buckets[(m.1, m.0)].tokens >= 0.0
      && s.buckets[(m.1, m.0)].last == last
  }

  lemma SpacedIsAllowed(c: Config, s: Service, m: Member, last: real, clock: real)
    requires c.rpm > 0 ==> c.burst >= 1
    requires Credited(c, s, m, last) && Spaced(c, last, clock)
    ensures Ask(c, s.buckets, (m.1, m.0), clock).0
  {
    if c.rpm > 0 {
      OneTokenPerPeriod(c, clock - last);
    }
  }

  /** An announcement that passes the limiter starts a heartbeat. */
  lemma FirstBeat(c: Config, s: Service, op: Op, m: Member)
    requires Announces(s, op, m) && Ask(c, s.buckets, (m.1, m.0), op.clock).0
    ensures Has(Serve(c, s, op), m, op.now + Ttl(op.r.ttl) as real) && Credited(c, Serve(c, s, op), m, op.clock)
  {
    AnnounceStep(c, s, op, m);
  }

  lemma Beat(c: Config, s: Service, op: Op, m: Member, last: real, deadline: real)
    requires c.rpm > 0 ==> c.burst >= 1
    requires Rooted(s.reg) && Has(s, m, deadline) && Credited(c, s, m, last)
    requires Announces(s, op, m) && op.now < deadline && Spaced(c, last, op.clock)
    ensures var after := Serve(c, s, op);
            && Rooted(after.reg)
            && Has(after, m, op.now + Ttl(op.r.ttl) as real)
            && Credited(c, after, m, op.clock)
            && History(after.reg.log, m) == History(s.reg.log, m) + [Updated]
  {
    SpacedIsAllowed(c, s, m, last, op.clock);
    AnnounceStep(c, s, op, m);
    FirstBeat(c, s, op, m);
    StepKeepsRooted(c, s, op);
  }

  lemma BetweenBeats(c: Config, s: Service, op: Op, m: Member, last: real, deadline: real)
    requires Rooted(s.reg) && Has(s, m, deadline) && Credited(c, s, m, last) && Admissible(s, op)
    requires !Announces(s, op, m) && !Removes(s, op, m) && (op.Sweeping? ==> op.now < deadline)
    ensures var after := Serve(c, s, op);
            && Rooted(after.reg)
            && Has(after, m, deadline)
            && Credited(c, after, m, last)
            && History(after.reg.log, m) == History(s.reg.log, m)
  {
    QuietStep(c, s, op, m);
  }

  lemma {:induction false} BeatIsAhead(
    c: Config, s: Service, ops: seq<Op>, m: Member, last: real, deadline: real, from: real)
    requires EndsOnBeat(c, s, ops, m) && Regular(c, s, ops, m, last, deadline) && InOrder(ops, from)
    ensures from < deadline
    decreases |ops|
  {
    if |ops| > 1 && !Announces(s, ops[0], m) {
      var from' := if ops[0].Announcing? || ops[0].Sweeping? then ops[0].now else from;
      BeatIsAhead(c, Serve(c, s, ops[0]), ops[1..], m, last, deadline, from');
    }
  }

  /**
   Main result: up to its last announcement, a member that announces regularly is never
   denied and never reported offline: every announcement publishes UPDATED, and no other
   event about it is published.
   */
  lemma {:induction false} HeartbeatStaysOnline(
    c: Config, s: Service, ops: seq<Op>, m: Member, last: real, deadline: real, from: real)
    requires c.rpm > 0 ==> c.burst >= 1
    requires Rooted(s.reg) && IsRun(c, s, ops) && InOrder(ops, from)
    requires Has(s, m, deadline) && Credited(c, s, m, last)
    requires Regular(c, s, ops, m, last, deadline) && EndsOnBeat(c, s, ops, m)
    ensures History(Run(c, s, ops).reg.log, m) ==
            History(s.reg.log, m) + Times(Beats(c, s, ops, m), Updated)
    decreases |ops|
  {
    var op, next, rest := ops[0], Serve(c, s, ops[0]), ops[1..];
    var from' := if op.Announcing? || op.Sweeping? then op.now else from;
    if Announces(s, op, m) {
      Beat(c, s, op, m, last, deadline);
      if rest != [] {
        HeartbeatStaysOnline(c, next, rest, m, op.clock, op.now + Ttl(op.r.ttl) as real, from');
      }
    } else {
      BeatIsAhead(c, next, rest, m, last, deadline, from');
      BetweenBeats(c, s, op, m, last, deadline);
      HeartbeatStaysOnline(c, next, rest, m, last, deadline, from');
    }
  }
}
