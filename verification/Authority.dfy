/**
 Who may write what in the registry, in terms of the request alone (registry/registry/servicer/
 registry.py:528-646). A row of the announcement table is written by nothing but a signed
 announcement of the very peer it is about, and every row of every reachable state has such
 an announcement behind it.
 */
module Authority {
  import opened Registry
  import RateLimiter
  import opened Wrappers
  import opened Presence

  // ----- the announcement ------------------------------------------------------------------------

  /** A member that is registered announces itself, and the signature is good. */
  predicate Entitled(reg: Reg, op: Op, m: Member) {
    && op.Announcing? && (op.r.share, op.r.peer) == m
    && op.caller == Some(m.1) && m.1 in reg.peers
    && op.sigOk
    && m in reg.members
  }

  predicate Passes(c: RateLimiter.Config, s: Service, op: Op, m: Member)
    requires op.Announcing?
  {
    RateLimiter.Ask(c, s.buckets, (m.1, m.0), op.clock).0
  }

  /** The requested seconds inside 60 to 600, the nearer bound outside; 0 asks for 60. */
  predicate Grants(requested: nat, seconds: real) {
    && (60 <= requested <= 600 ==> seconds == requested as real)
    && (requested < 60 ==> seconds == 60.0)
    && (requested > 600 ==> seconds == 600.0)
  }

  /** The addresses sent, and after them the one seen on the connection when it has a host. */
  predicate Lists(r: Request, addrs: seq<Addr>) {
    match r.external
    case Some((host, port)) =>
      if |host| > 0 then addrs == r.internal + [Addr(host, port, false)] else addrs == r.internal
    case None => addrs == r.internal
  }

  /** An announcement without a hash leaves the one that is known. */
  predicate Names(reg: Reg, r: Request, m: Member, hash: string) {
    if |r.infoHash| > 0 then hash == r.infoHash
    else if m in reg.anns then hash == reg.anns[m].infoHash
    else hash == ""
  }

  predicate Records(reg: Reg, op: Op, m: Member, row: Announcement)
    requires op.Announcing?
  {
    && row.internal == op.r.internal && row.external == op.r.external
    && Names(reg, op.r, m, row.infoHash)
    && row.announcedAt == op.now
    && Grants(op.r.ttl, row.expiresAt - op.now)
  }

  predicate Reports(reg: Reg, op: Op, m: Member, e: Event)
    requires op.Announcing?
  {
    && e.share == m.0 && e.peer == m.1 && e.infoHash == op.r.infoHash
    && e.kind == (if m in reg.anns && reg.anns[m].expiresAt > op.now then Updated else Online)
    && Lists(op.r, e.addrs)
  }

  /** Main result: the answer to an announcement, from the request and the tables alone. */
  lemma AnnounceStatus(reg: Reg, op: Op, allowed: bool)
    requires op.Announcing?
    ensures var m := (op.r.share, op.r.peer);
            var status := Announce(reg, op.caller, op.r, op.sigOk, allowed, op.now).0;
            var known := op.caller.Some? && op.caller.value in reg.peers;
            && (status == Ok <==> Entitled(reg, op, m) && allowed)
            && (status == ResourceExhausted <==> Entitled(reg, op, m) && !allowed)
            && (status == Unauthenticated <==> !known || (op.caller == Some(m.1) && !op.sigOk))
            && (status == PermissionDenied <==>
                  known && (op.caller != Some(m.1) || (op.sigOk && m !in reg.members)))
  {
  }

  /**
   Main result: a member's signed announcement that the limiter passes writes that member's
   row, publishes one event about it and changes nothing else.
   */
  lemma EntitledIsRecorded(c: RateLimiter.Config, s: Service, op: Op, m: Member)
    requires Entitled(s.reg, op, m) && Passes(c, s, op, m)
    ensures Announce(s.reg, op.caller, op.r, op.sigOk, true, op.now).0 == Ok
    ensures var after := Serve(c, s, op).reg;
            && m in after.anns && Records(s.reg, op, m, after.anns[m])
            && after.anns == s.reg.anns[m := after.anns[m]]
            && |after.log| == |s.reg.log| + 1 && after.log[..|s.reg.log|] == s.reg.log
            && Reports(s.reg, op, m, after.log[|s.reg.log|])
            && after.peers == s.reg.peers && after.owners == s.reg.owners && after.members == s.reg.members
  {
  }

  /** Main result: any other announcement changes no table, and is charged only when it was entitled. */
  lemma OthersAreRefused(c: RateLimiter.Config, s: Service, op: Op)
    requires op.Announcing?
    ensures var m := (op.r.share, op.r.peer);
            && (!Entitled(s.reg, op, m) ==> Serve(c, s, op) == s)
            && (Entitled(s.reg, op, m) && !Passes(c, s, op, m) ==> Serve(c, s, op).reg == s.reg)
            && (Entitled(s.reg, op, m) ==> Serve(c, s, op).buckets == RateLimiter.Ask(c, s.buckets, (m.1, m.0), op.clock).1)
  {
  }

  // ----- nothing else writes a row ---------------------------------------------------------------

  predicate WritesRow(reg: Reg, after: Reg, m: Member) {
    m in after.anns && (m !in reg.anns || after.anns[m] != reg.anns[m])
  }

  predicate IsPresence(e: Event, m: Member) {
    e.share == m.0 && e.peer == m.1 && (e.kind == Online || e.kind == Updated)
  }

  predicate PublishesPresence(reg: Reg, after: Reg, m: Member) {
    exists i :: |reg.log| <= i < |after.log| && IsPresence(after.log[i], m)
  }

  lemma {:induction false} SweepPublishesOffline(reg: Reg, order: seq<Member>)
    ensures var log := ExpireAll(reg, order).log;
            && |reg.log| <= |log| && log[..|reg.log|] == reg.log
            && forall i :: |reg.log| <= i < |log| ==> log[i].kind == Offline
  {
    if order != [] {
      SweepPublishesOffline(reg, order[..|order| - 1]);
    }
  }

  /**
   Main result: a step that writes a member's row, or reports it online or updated, is a
   signed announcement by that member that passed the limiter.
   */
  lemma OnlyMembersAnnounceThemselves(c: RateLimiter.Config, s: Service, op: Op, m: Member)
    requires WritesRow(s.reg, Serve(c, s, op).reg, m) || PublishesPresence(s.reg, Serve(c, s, op).reg, m)
    ensures Entitled(s.reg, op, m) && Passes(c, s, op, m)
  {
    match op
    case Announcing(_, r, _, _, _) => OthersAreRefused(c, s, op);
    case Sweeping(_, order) =>
      ExpireAllEffect(s.reg, order);
      SweepPublishesOffline(s.reg, order);
    case Removing(_, _, _) =>
    case SettingPolicy(_, _) =>
    case Registering(_, _, _) =>
    case Creating(_, _, _) =>
    case Adding(_, _, _, _) =>
  }

  // ----- runs --------------------------------------------------------------------------------------

  /** Step i of the run is the announcement that wrote this row. */
  ghost predicate Wrote(c: RateLimiter.Config, s: Service, ops: seq<Op>, i: nat, m: Member, row: Announcement)
    requires i < |ops|
  {
    var before := Run(c, s, ops[..i]);
    Entitled(before.reg, ops[i], m) && Passes(c, before, ops[i], m) && Records(before.reg, ops[i], m, row)
  }

  ghost predicate HasOrigin(c: RateLimiter.Config, s: Service, ops: seq<Op>, m: Member, row: Announcement) {
    exists i :: 0 <= i < |ops| && Wrote(c, s, ops, i, m, row)
  }

  lemma LaterOrigin(c: RateLimiter.Config, s: Service, ops: seq<Op>, m: Member, row: Announcement)
    requires ops != [] && HasOrigin(c, Serve(c, s, ops[0]), ops[1..], m, row)
    ensures HasOrigin(c, s, ops, m, row)
  {
    var next, rest := Serve(c, s, ops[0]), ops[1..];
    var i :| 0 <= i < |rest| && Wrote(c, next, rest, i, m, row);
    assert ops[..i + 1][1..] == rest[..i] && ops[..i + 1][0] == ops[0];
    assert Wrote(c, s, ops, i + 1, m, row);
  }

  lemma {:induction false} RowsHaveOrigins(c: RateLimiter.Config, s: Service, ops: seq<Op>, m: Member)
    requires m in Run(c, s, ops).reg.anns
    ensures var row := Run(c, s, ops).reg.anns[m];
            (m in s.reg.anns && s.reg.anns[m] == row) || HasOrigin(c, s, ops, m, row)
    decreases |ops|
  {
    if ops != [] {
      var next, row := Serve(c, s, ops[0]), Run(c, s, ops).reg.anns[m];
      RowsHaveOrigins(c, next, ops[1..], m);
      if HasOrigin(c, next, ops[1..], m, row) {
        LaterOrigin(c, s, ops, m, row);
      } else if WritesRow(s.reg, next.reg, m) {
        OnlyMembersAnnounceThemselves(c, s, ops[0], m);
        EntitledIsRecorded(c, s, ops[0], m);
        assert ops[..0] == [];
        assert Wrote(c, s, ops, 0, m, row);
      }
    }
  }

  /** Step i is a signed announcement of the member, less than 600 seconds before `now`. */
  ghost predicate Announced(c: RateLimiter.Config, ops: seq<Op>, i: nat, m: Member, now: real) {
    i < |ops| && Entitled(Run(c, Empty, ops[..i]).reg, ops[i], m) && now < ops[i].now + 600.0
  }

  /**
   Main result: in every run from an empty registry, whoever a snapshot calls online sent a
   signed announcement as a member, less than 600 seconds before, and the addresses listed
   are the ones it sent or was seen with.
   */
  lemma OnlineMeansAnnounced(c: RateLimiter.Config, ops: seq<Op>, share: ShareId, peer: PeerId, now: real)
    requires peer in Snapshot(Run(c, Empty, ops).reg, share, now)
    ensures exists i :: && 0 <= i < |ops| && Announced(c, ops, i, (share, peer), now)
                        && Lists(ops[i].r, Snapshot(Run(c, Empty, ops).reg, share, now)[peer])
  {
    var m := (share, peer);
    var row := Run(c, Empty, ops).reg.anns[m];
    RowsHaveOrigins(c, Empty, ops, m);
    var i :| 0 <= i < |ops| && Wrote(c, Empty, ops, i, m, row);
    assert Announced(c, ops, i, m, now);
  }

  // ----- the other requests ----------------------------------------------------------------------

  /** The peer table changes exactly by a signed registration, which sets one name. */
  lemma OnlySignedRegistrations(c: RateLimiter.Config, s: Service, op: Op)
    ensures Serve(c, s, op).reg.peers ==
            if op.Registering? && op.sigOk then s.reg.peers[op.peer := op.name] else s.reg.peers
  {
    if op.Sweeping? {
      SweepKeepsTables(s.reg, op.order);
    }
  }

  /** A share comes into being exactly by a signed request of a registered peer, who owns it and joins it. */
  lemma OnlySignedCreations(c: RateLimiter.Config, s: Service, op: Op)
    ensures var after := Serve(c, s, op).reg;
            if op.Creating? && op.sigOk && op.caller.Some? && op.caller.value in s.reg.peers
               && op.share !in s.reg.owners
            then && after.owners == s.reg.owners[op.share := op.caller.value]
                 && after.members == s.reg.members[(op.share, op.caller.value) := ReadWrite]
            else after.owners == s.reg.owners
  {
    if op.Sweeping? {
      SweepKeepsTables(s.reg, op.order);
    }
  }

  lemma {:induction false} SweepKeepsTables(reg: Reg, order: seq<Member>)
    ensures ExpireAll(reg, order).peers == reg.peers && ExpireAll(reg, order).owners == reg.owners
  {
    if order != [] {
      SweepKeepsTables(reg, order[..|order| - 1]);
    }
  }

  predicate ByOwner(reg: Reg, caller: Caller, share: ShareId) {
    share in reg.owners && caller == Some(reg.owners[share]) && reg.owners[share] in reg.peers
  }

  /**
   What the owner's word does: a registered peer is added with the given permission; anyone
   but the owner is removed, row and all, and reported as removed; a policy change is
   reported. The same requests from anyone else change nothing.
   */
  lemma OwnersWord(c: RateLimiter.Config, s: Service, op: Op)
    requires op.Adding? || op.Removing? || op.SettingPolicy?
    ensures var after := Serve(c, s, op).reg;
            if !ByOwner(s.reg, op.caller, op.share) then after == s.reg
            else match op
              case Adding(_, share, peer, perm) =>
                after == s.reg.(members := if peer in s.reg.peers then s.reg.members[(share, peer) := perm]
                                           else s.reg.members)
              case Removing(_, share, peer) =>
                if peer == s.reg.owners[share] then after == s.reg else
                  && (share, peer) !in after.members && (share, peer) !in after.anns
                  && (forall m :: m in s.reg.members && m != (share, peer) ==>
                        m in after.members && after.members[m] == s.reg.members[m])
                  && (forall m :: m in s.reg.anns && m != (share, peer) ==>
                        m in after.anns && after.anns[m] == s.reg.anns[m])
                  && after.members.Keys <= s.reg.members.Keys && after.anns.Keys <= s.reg.anns.Keys
                  && after.log == s.reg.log + [Event(share, Removed, peer, [], "")]
              case SettingPolicy(_, share) =>
                after == s.reg.(log := s.reg.log + [Event(share, PolicyUpdated, "", [], "")])
              case _ => true
  {
  }
}
