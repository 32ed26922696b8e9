/**
 What whole reactions do, in terms of rows, handles, saved files and conflicts alone: remote
 updates under each conflict strategy (daemon/daemon/sync/peer_handler.py:102-394), activation
 and conflict resolution (daemon/daemon/sync/coordinator.py:605-796), rebuild and the small
 commands. A reaction leaves every share it does not name as it was.
 */
module Reactions {
  import opened Wrappers
  import opened DaemonState
  import opened Coordinator
  import HandleAgreement

  // ----- conflict ids ------------------------------------------------------------------------------

  ghost predicate Rising(cs: seq<Conflict>) {
    forall i, j :: 0 <= i < j < |cs| ==> cs[i].id < cs[j].id
  }

  /** Ids are given out once, in order. */
  ghost predicate IdsGood(db: Db) {
    Rising(db.conflicts) && forall i :: 0 <= i < |db.conflicts| ==> db.conflicts[i].id < db.nextConflict
  }

  /** One more conflict, with an id that none had, about these hashes. */
  ghost predicate OneMoreConflict(db: Db, db': Db, id: ShareId, peer: PeerId, remote: Hash, localHash: Hash) {
    && |db'.conflicts| == |db.conflicts| + 1
    && db'.conflicts[..|db.conflicts|] == db.conflicts
    && var c := db'.conflicts[|db.conflicts|];
       && (forall i :: 0 <= i < |db.conflicts| ==> db.conflicts[i].id != c.id)
       && c.shareId == id && c.remotePeer == peer && c.remoteHash == remote && c.localHash == localHash
  }

  /** The share's torrent state and its marks are as they were. */
  ghost predicate SameTorrent(d: Daemon, d': Daemon, id: ShareId) {
    && (id in d'.lt.handles <==> id in d.lt.handles) && (id in d.lt.handles ==> d'.lt.handles[id] == d.lt.handles[id])
    && (id in d'.lt.cached <==> id in d.lt.cached) && (id in d.lt.cached ==> d'.lt.cached[id] == d.lt.cached[id])
    && (id in d'.switching <==> id in d.switching)
  }

  ghost predicate SameShare(d: Daemon, d': Daemon, id: ShareId) {
    && SameTorrent(d, d', id)
    && (id in d'.db.shares <==> id in d.db.shares) && (id in d.db.shares ==> d'.db.shares[id] == d.db.shares[id])
  }

  /** Nothing but the record that this peer was seen. */
  ghost predicate OnlySeen(d: Daemon, d': Daemon, id: ShareId, peer: PeerId) {
    d' == d.(db := d.db.(known := d.db.known[(id, peer) := true]))
  }

  /** The share now follows this hash: row, state, conflicts, and the handle unless the add failed. */
  ghost predicate Follows(d: Daemon, d': Daemon, id: ShareId, hash: InfoHash, number: nat, env: Env) {
    && id in d'.db.shares && d'.db.shares[id].infoHash == hash && d'.db.shares[id].seqNo == number
    && d'.db.shares[id].state == Syncing && d'.db.conflicts == d.db.conflicts && id !in d'.switching
    && (env.raises ==> id !in d'.lt.handles)
    && (!env.raises && !env.unlinkFails ==> id in d'.lt.handles && d'.lt.handles[id] == hash && id !in d'.lt.cached)
  }

  // ----- one LAN entry ------------------------------------------------------------------------------

  /** Registry shares listen only to peers on their list. */
  predicate Listens(d: Daemon, id: ShareId, peer: PeerId) {
    id in d.db.shares && (d.db.shares[id].localOnly || (id, peer) in d.db.known)
  }

  /** Main result: an entry from a peer that is not listened to changes nothing at all. */
  lemma StrangersAreIgnored(d: Daemon, peer: PeerId, e: LanEntry, env: Env)
    requires !Listens(d, e.share, peer)
    ensures Lan(d, peer, e, env) == d
  {
  }

  /** An entry with nothing new: no hash, the same hash, or a lower number than a share with another hash. */
  predicate Stale(row: LocalShare, e: LanEntry) {
    e.hash == "" || e.hash == row.infoHash || (row.infoHash != "" && e.seqNo < row.seqNo)
  }

  /** Main result: an entry with nothing new only marks its peer as seen. */
  lemma StaleEntriesOnlyMarkPeer(d: Daemon, peer: PeerId, e: LanEntry, env: Env)
    requires Listens(d, e.share, peer) && Stale(d.db.shares[e.share], e)
    ensures OnlySeen(d, Lan(d, peer, e, env), e.share, peer)
  {
  }

  /** Main result: under the ask strategy a share with a hash records the conflict, pauses, and keeps its torrent. */
  lemma AskRecordsAndPauses(d: Daemon, peer: PeerId, e: LanEntry, env: Env)
    requires Listens(d, e.share, peer) && !Stale(d.db.shares[e.share], e) && IdsGood(d.db)
    requires d.db.shares[e.share].strategy == Ask && d.db.shares[e.share].infoHash != ""
    ensures var d' := Lan(d, peer, e, env);
            && SameTorrent(d, d', e.share) && e.share in d'.db.shares && d'.switching == d.switching && d'.lt == d.lt
            && d'.db.shares[e.share] == d.db.shares[e.share].(state := Paused, lastError := None, seqNo := e.seqNo)
            && OneMoreConflict(d.db, d'.db, e.share, peer, e.hash, d.db.shares[e.share].infoHash)
  {
  }

  lemma SwitchFollows(d: Daemon, id: ShareId, hash: InfoHash, env: Env)
    requires id in d.db.shares && id !in d.switching
    ensures Follows(d, Finish(SwitchBegin(d, id, hash, env), env), id, hash, d.db.shares[id].seqNo, env)
  {
  }

  /** Main result: any other strategy, or a share without a hash, follows the entry. */
  lemma OthersFollow(d: Daemon, peer: PeerId, e: LanEntry, env: Env)
    requires Listens(d, e.share, peer) && !Stale(d.db.shares[e.share], e) && e.share !in d.switching
    requires d.db.shares[e.share].strategy != Ask || d.db.shares[e.share].infoHash == ""
    ensures e.hash != "" && Follows(d, Lan(d, peer, e, env), e.share, e.hash, e.seqNo, env)
  {
    var seen := d.(db := UpsertPeer(d.db, e.share, peer, true));
    SwitchFollows(seen, e.share, e.hash, env);
    SwitchFollows(seen.(db := SetSeq(seen.db, e.share, e.seqNo)), e.share, e.hash, env);
  }

  lemma SwitchChangesOneShare(d: Daemon, id: ShareId, hash: InfoHash, env: Env, x: ShareId)
    requires x != id
    ensures SameShare(d, Finish(SwitchBegin(d, id, hash, env), env), x)
  {
  }

  lemma UpdateChangesOneShare(d: Daemon, id: ShareId, hash: InfoHash, peer: PeerId, row: LocalShare, env: Env, x: ShareId)
    requires x != id
    ensures SameShare(d, Finish(RemoteUpdateBegin(d, id, hash, peer, row, env), env), x)
  {
    SwitchChangesOneShare(d, id, hash, env, x);
  }

  /** An entry changes no other share. */
  lemma EntryChangesOneShare(d: Daemon, peer: PeerId, e: LanEntry, env: Env, x: ShareId)
    requires x != e.share
    ensures SameShare(d, Lan(d, peer, e, env), x)
  {
    if !Listens(d, e.share, peer) {
      StrangersAreIgnored(d, peer, e, env);
    } else if Stale(d.db.shares[e.share], e) {
      StaleEntriesOnlyMarkPeer(d, peer, e, env);
    } else {
      var seen := d.(db := UpsertPeer(d.db, e.share, peer, true));
      var told := seen.(db := SetSeq(seen.db, e.share, e.seqNo));
      var row := d.db.shares[e.share];
      SwitchChangesOneShare(told, e.share, e.hash, env, x);
      UpdateChangesOneShare(seen, e.share, e.hash, peer, row, env, x);
      UpdateChangesOneShare(told, e.share, e.hash, peer, row, env, x);
    }
  }

  // ----- whole announcements --------------------------------------------------------------------------

  /** An ask share with a hash keeps its hash and torrent, whatever it hears. */
  lemma AskKeepsTorrent(d: Daemon, peer: PeerId, e: LanEntry, env: Env, id: ShareId)
    requires id in d.db.shares && d.db.shares[id].strategy == Ask && d.db.shares[id].infoHash != ""
    ensures var d' := Lan(d, peer, e, env);
            && SameTorrent(d, d', id) && id in d'.db.shares
            && d'.db.shares[id].infoHash == d.db.shares[id].infoHash && d'.db.shares[id].strategy == Ask
  {
    if e.share != id {
      EntryChangesOneShare(d, peer, e, env, id);
    }
  }

  /** Main result: no announcement, however long, moves an ask share with a hash to other content or starts a switch of it. */
  lemma {:induction false} AskOutlastsAnnouncements(d: Daemon, peer: PeerId, es: seq<LanEntry>, envs: seq<Env>, id: ShareId)
    requires |es| == |envs| && id in d.db.shares && d.db.shares[id].strategy == Ask && d.db.shares[id].infoHash != ""
    ensures var d' := LanAll(d, peer, es, envs);
            && SameTorrent(d, d', id) && id in d'.db.shares
            && d'.db.shares[id].infoHash == d.db.shares[id].infoHash && d'.db.shares[id].strategy == Ask
  {
    if es != [] {
      var k := |es| - 1;
      AskOutlastsAnnouncements(d, peer, es[..k], envs[..k], id);
      AskKeepsTorrent(LanAll(d, peer, es[..k], envs[..k]), peer, es[k], envs[k], id);
    }
  }

  lemma {:induction false} AnnouncementChangesItsShares(d: Daemon, peer: PeerId, es: seq<LanEntry>, envs: seq<Env>, x: ShareId)
    requires |es| == |envs| && forall i :: 0 <= i < |es| ==> es[i].share != x
    ensures SameShare(d, LanAll(d, peer, es, envs), x)
  {
    if es != [] {
      var k := |es| - 1;
      AnnouncementChangesItsShares(d, peer, es[..k], envs[..k], x);
      EntryChangesOneShare(LanAll(d, peer, es[..k], envs[..k]), peer, es[k], envs[k], x);
    }
  }

  // ----- the registry stream -----------------------------------------------------------------------------

  function Online(d: Daemon, id: ShareId, peer: PeerId, hash: Hash, env: Env): Daemon {
    Finish(RegistryOnlineBegin(d, id, peer, hash, env), env)
  }

  /** The event names a hash other than the one the share has. */
  predicate Differs(d: Daemon, id: ShareId, hash: Hash) {
    id in d.db.shares && hash != "" && d.db.shares[id].infoHash != "" && hash != d.db.shares[id].infoHash
  }

  /** Main result: one's own events change nothing, and an event without another hash only marks its peer. */
  lemma RegistryEventsWithoutNews(d: Daemon, id: ShareId, peer: PeerId, hash: Hash, env: Env)
    ensures peer == d.me ==> Online(d, id, peer, hash, env) == d
    ensures peer != d.me && !Differs(d, id, hash) ==> OnlySeen(d, Online(d, id, peer, hash, env), id, peer)
  {
  }

  /** Main result: under the ask strategy another hash at the registry is recorded as a conflict and nothing is switched. */
  lemma AskAtRegistry(d: Daemon, id: ShareId, peer: PeerId, hash: Hash, env: Env)
    requires peer != d.me && Differs(d, id, hash) && d.db.shares[id].strategy == Ask && IdsGood(d.db)
    ensures var d' := Online(d, id, peer, hash, env);
            && id in d'.db.shares && d'.switching == d.switching && d'.lt == d.lt
            && d'.db.shares[id] == d.db.shares[id].(state := Paused, lastError := None)
            && OneMoreConflict(d.db, d'.db, id, peer, hash, d.db.shares[id].infoHash)
  {
  }

  /** Main result: under the other strategies the share follows the registry's hash and keeps its number. */
  lemma OthersFollowRegistry(d: Daemon, id: ShareId, peer: PeerId, hash: Hash, env: Env)
    requires peer != d.me && Differs(d, id, hash) && d.db.shares[id].strategy != Ask && id !in d.switching
    ensures hash != "" && Follows(d, Online(d, id, peer, hash, env), id, hash, d.db.shares[id].seqNo, env)
  {
  }

  // ----- activation ----------------------------------------------------------------------------------------

  /** What an activation loads: the handle, else the saved file, else -- for want of files -- a peer's hash, else a build. */
  function Content(d: Daemon, id: ShareId, hasFiles: bool, peerHash: Option<InfoHash>, env: Env): InfoHash {
    if id in d.lt.handles then d.lt.handles[id]
    else if id in d.lt.cached then d.lt.cached[id]
    else if !hasFiles && peerHash.Some? then peerHash.value
    else env.built
  }

  /** A share with nothing on disk waits: a local-only one always, a registry one while no peer tells a hash. */
  predicate Waits(d: Daemon, id: ShareId, scan: Scan)
    requires id in d.db.shares
  {
    !scan.hasFiles && id !in d.lt.cached && (d.db.shares[id].localOnly || scan.peerHash.None?)
  }

  lemma WaitingChangesState(d: Daemon, id: ShareId, scan: Scan, env: Env)
    requires id in d.db.shares && Waits(d, id, scan)
    ensures var d' := Activate(d, id, scan, env);
            && d'.lt == d.lt && d'.switching == d.switching && d'.db.conflicts == d.db.conflicts
            && d'.db.shares == d.db.shares[id := d.db.shares[id].(state := Syncing, lastError := None)]
  {
    assert d.db.shares[id := d.db.shares[id].(state := Syncing, lastError := None)][id] ==
           d.db.shares[id].(state := Syncing, lastError := None);
  }

  /** Main result: what an activation ends with, for local-only and registry shares alike. */
  lemma ActivationLoads(d: Daemon, id: ShareId, scan: Scan, env: Env)
    requires id in d.db.shares && !Waits(d, id, scan) && !env.raises
    ensures var d', h := Activate(d, id, scan, env), Content(d, id, scan.hasFiles, scan.peerHash, env);
            && id in d'.lt.handles && d'.lt.handles[id] == h && id in d'.db.shares
            && d'.db.shares[id].infoHash == h
            && d'.db.shares[id].state == (if scan.hasFiles then Seeding else Syncing)
            && d'.db.shares[id].seqNo == d.db.shares[id].seqNo + (if scan.hasFiles && d.db.shares[id].seqNo == 0 then 1 else 0)
            && d'.switching == d.switching && d'.db.conflicts == d.db.conflicts
  {
  }

  lemma FailedActivation(d: Daemon, id: ShareId, scan: Scan, env: Env)
    requires id in d.db.shares && !Waits(d, id, scan) && env.raises
    ensures var d' := Activate(d, id, scan, env);
            && d'.lt.handles == d.lt.handles && id in d'.db.shares
            && d'.db.shares[id] == d.db.shares[id].(state := Error, lastError := Some(scan.error))
            && d'.switching == d.switching && d'.db.conflicts == d.db.conflicts
  {
  }

  // ----- conflict resolution ---------------------------------------------------------------------------------

  /** Exactly the conflict with this id is gone. */
  ghost predicate OnlyResolved(db: Db, db': Db, id: nat) {
    && |db'.conflicts| + 1 == |db.conflicts|
    && forall c :: c in db'.conflicts <==> c in db.conflicts && c.id != id
  }

  lemma {:induction false} ResolvedOne(cs: seq<Conflict>, id: nat)
    requires Rising(cs)
    ensures |WithoutConflict(cs, id)| == |cs| - if exists c :: c in cs && c.id == id then 1 else 0
  {
    if cs != [] {
      ResolvedOne(cs[1..], id);
      if cs[0].id == id {
        assert forall i :: 0 < i < |cs| ==> cs[i].id != id;
        assert forall c :: c in cs[1..] ==> c.id != id;
        assert cs[0] in cs;
      } else {
        assert forall c :: c in cs && c.id == id ==> c in cs[1..];
      }
    }
  }

  /** Main result: keeping the remote content makes an unmarked share follow the conflict's remote hash. */
  lemma KeepRemoteFollows(d: Daemon, c: Conflict, scan: Scan, env: Env)
    requires Pending(d.db, c.id, c) && IdsGood(d.db) && c.shareId !in d.switching
    ensures var d' := Resolve(d, c, KeepRemote, scan, env);
            && OnlyResolved(d.db, d'.db, c.id)
            && Follows(d.(db := d'.db), d', c.shareId, c.remoteHash, d.db.shares[c.shareId].seqNo, env)
  {
    ResolvedOne(d.db.conflicts, c.id);
  }

  /**
   Main result: keeping the local content leaves an existing handle alone, never lowers the
   number, and ends with the hash of the handle, the saved file or what is there to load.
   */
  lemma KeepLocalKeeps(d: Daemon, c: Conflict, scan: Scan, env: Env)
    requires Pending(d.db, c.id, c) && IdsGood(d.db)
    ensures var d', id := Resolve(d, c, KeepLocal, scan, env), c.shareId;
            && OnlyResolved(d.db, d'.db, c.id) && id in d'.db.shares && d'.switching == d.switching
            && (id in d.lt.handles ==> id in d'.lt.handles && d'.lt.handles[id] == d.lt.handles[id])
            && d'.db.shares[id].seqNo >= d.db.shares[id].seqNo
            && d'.db.shares[id].infoHash ==
                 (if Waits(d, id, scan) || env.raises then d.db.shares[id].infoHash
                  else Content(d, id, scan.hasFiles, scan.peerHash, env))
  {
    ResolvedOne(d.db.conflicts, c.id);
    var e := d.(db := DeleteConflict(d.db, c.id));
    if Waits(e, c.shareId, scan) {
      WaitingChangesState(e, c.shareId, scan, env);
    } else if env.raises {
      FailedActivation(e, c.shareId, scan, env);
    } else {
      ActivationLoads(e, c.shareId, scan, env);
    }
  }

  // ----- rebuild, status and commands ------------------------------------------------------------------------

  /** Main result: a rebuild that does not fail seeds a new build under the next number. */
  lemma RebuildSeedsNewBuild(d: Daemon, id: ShareId, env: Env)
    requires id in d.db.shares
    ensures var d' := Rebuild(d, id, env);
            && id in d'.db.shares && d'.switching == d.switching && d'.db.conflicts == d.db.conflicts
            && (env.raises ==> id !in d'.lt.handles && d'.db == d.db)
            && (!env.raises ==>
                  var h := if env.unlinkFails && id in d.lt.cached then d.lt.cached[id] else env.built;
                  && id in d'.lt.handles && d'.lt.handles[id] == h && id in d'.lt.cached && d'.lt.cached[id] == h
                  && d'.db.shares[id] == d.db.shares[id].(
                       state := Seeding, lastError := None, infoHash := h, seqNo := d.db.shares[id].seqNo + 1))
  {
  }

  /** The small commands: what they store, and that they leave handles alone. */
  lemma SmallCommands(d: Daemon, id: ShareId, finished: bool, hash: InfoHash)
    requires id in d.db.shares
    ensures Pause(d, id) == d.(db := d.db.(shares := d.db.shares[id := d.db.shares[id].(state := Paused, lastError := None)]))
    ensures var d' := StatusUpdate(d, id, finished, hash);
            if finished && d.db.shares[id].state == Syncing then
              d' == d.(db := d.db.(shares := d.db.shares[id :=
                      d.db.shares[id].(state := Seeding, lastError := None, infoHash := hash)]))
            else d' == d
    ensures var d' := Remove(d, id);
            && id !in d'.db.shares && id !in d'.lt.handles && d'.lt.cached == d.lt.cached
            && d'.db.conflicts == d.db.conflicts && d'.switching == d.switching
  {
  }

  lemma OfflineOnlyMarksPeer(d: Daemon, id: ShareId, peer: PeerId)
    ensures RegistryOffline(d, id, peer) ==
            if peer == d.me then d else d.(db := d.db.(known := d.db.known[(id, peer) := false]))
  {
  }

  // ----- the frame over all reactions ----------------------------------------------------------------------------

  /** The shares a reaction is about. */
  ghost predicate About(op: HandleAgreement.Op, x: ShareId) {
    match op
    case Announcement(_, es, _) => exists i :: 0 <= i < |es| && es[i].share == x
    case ResolveConflict(c, _, _, _) => c.shareId == x
    case _ => op.id == x
  }

  lemma ActivationChangesOneShare(d: Daemon, id: ShareId, scan: Scan, env: Env, x: ShareId)
    requires x != id
    ensures SameShare(d, Activate(d, id, scan, env), x)
  {
  }

  lemma OnlineChangesOneShare(d: Daemon, id: ShareId, peer: PeerId, hash: Hash, env: Env, x: ShareId)
    requires x != id
    ensures SameShare(d, Online(d, id, peer, hash, env), x)
  {
  }

  lemma ResolvingChangesOneShare(d: Daemon, c: Conflict, how: Resolution, scan: Scan, env: Env, x: ShareId)
    requires x != c.shareId && Pending(d.db, c.id, c)
    ensures SameShare(d, Resolve(d, c, how, scan, env), x)
  {
    ActivationChangesOneShare(d.(db := DeleteConflict(d.db, c.id)), c.shareId, scan, env, x);
  }

  /** Main result: a reaction changes nothing of a share it is not about. */
  lemma OtherSharesUntouched(d: Daemon, op: HandleAgreement.Op, x: ShareId)
    requires HandleAgreement.Enabled(d, op) && !About(op, x)
    ensures SameShare(d, HandleAgreement.Apply(d, op), x)
  {
    match op
    case Announcement(peer, es, envs) => AnnouncementChangesItsShares(d, peer, es, envs, x);
    case Add(id, strategy, localOnly, scan, env) =>
      ActivationChangesOneShare(d.(db := AddRow(d.db, id, strategy, localOnly)), id, scan, env, x);
    case Start(id, scan, env) => ActivationChangesOneShare(d, id, scan, env, x);
    case Resume(id, scan, env) =>
      ActivationChangesOneShare(d.(db := SetState(d.db, id, Syncing, None, None)), id, scan, env, x);
    case Online(id, peer, hash, env) => OnlineChangesOneShare(d, id, peer, hash, env, x);
    case ResolveConflict(c, how, scan, env) => ResolvingChangesOneShare(d, c, how, scan, env, x);
    case _ => SmallOpsChangeOneShare(d, op, x);
  }

  lemma SmallOpsChangeOneShare(d: Daemon, op: HandleAgreement.Op, x: ShareId)
    requires HandleAgreement.Enabled(d, op) && !About(op, x)
    requires op.Delete? || op.Stop? || op.Strategize? || op.Offline? || op.LocalChange? || op.Status?
    ensures SameShare(d, HandleAgreement.Apply(d, op), x)
  {
    match op
    case Delete(_) =>
    case Stop(_) =>
    case Strategize(_, _) =>
    case Offline(_, _) =>
    case LocalChange(_, _) =>
    case Status(_, _) =>
  }

  // ----- conflict ids over runs --------------------------------------------------------------------------------------

  lemma RisingCons(c: Conflict, cs: seq<Conflict>)
    requires Rising(cs) && forall o :: o in cs ==> c.id < o.id
    ensures Rising([c] + cs)
  {
  }

  lemma {:induction false} DeletedRises(cs: seq<Conflict>, id: nat)
    requires Rising(cs)
    ensures Rising(WithoutConflict(cs, id))
  {
    if cs != [] {
      DeletedRises(cs[1..], id);
      RisingCons(cs[0], WithoutConflict(cs[1..], id));
      assert [] + WithoutConflict(cs[1..], id) == WithoutConflict(cs[1..], id);
    }
  }

  lemma DeletingKeepsIds(db: Db, id: nat)
    requires IdsGood(db)
    ensures IdsGood(DeleteConflict(db, id))
  {
    DeletedRises(db.conflicts, id);
    var r := WithoutConflict(db.conflicts, id);
    forall i | 0 <= i < |r|
      ensures r[i].id < db.nextConflict
    {
      assert r[i] in r;
      assert r[i] in db.conflicts;
    }
  }

  ghost predicate SameConflicts(d: Daemon, d': Daemon) {
    d'.db.conflicts == d.db.conflicts && d'.db.nextConflict == d.db.nextConflict
  }

  lemma SwitchKeepsConflicts(d: Daemon, id: ShareId, hash: InfoHash, env: Env)
    ensures SameConflicts(d, Finish(SwitchBegin(d, id, hash, env), env))
  {
  }

  lemma UpdateKeepsIds(d: Daemon, id: ShareId, hash: InfoHash, peer: PeerId, row: LocalShare, env: Env)
    requires IdsGood(d.db)
    ensures IdsGood(Finish(RemoteUpdateBegin(d, id, hash, peer, row, env), env).db)
  {
    SwitchKeepsConflicts(d, id, hash, env);
  }

  lemma LanKeepsIds(d: Daemon, peer: PeerId, e: LanEntry, env: Env)
    requires IdsGood(d.db)
    ensures IdsGood(Lan(d, peer, e, env).db)
  {
    if !Listens(d, e.share, peer) {
      StrangersAreIgnored(d, peer, e, env);
    } else if Stale(d.db.shares[e.share], e) {
      StaleEntriesOnlyMarkPeer(d, peer, e, env);
    } else {
      var seen := d.(db := UpsertPeer(d.db, e.share, peer, true));
      var told := seen.(db := SetSeq(seen.db, e.share, e.seqNo));
      var row := d.db.shares[e.share];
      SwitchKeepsConflicts(told, e.share, e.hash, env);
      UpdateKeepsIds(seen, e.share, e.hash, peer, row, env);
      UpdateKeepsIds(told, e.share, e.hash, peer, row, env);
    }
  }

  lemma {:induction false} LanAllKeepsIds(d: Daemon, peer: PeerId, es: seq<LanEntry>, envs: seq<Env>)
    requires |es| == |envs| && IdsGood(d.db)
    ensures IdsGood(LanAll(d, peer, es, envs).db)
  {
    if es != [] {
      var k := |es| - 1;
      LanAllKeepsIds(d, peer, es[..k], envs[..k]);
      LanKeepsIds(LanAll(d, peer, es[..k], envs[..k]), peer, es[k], envs[k]);
    }
  }

  lemma ActivationKeepsConflicts(d: Daemon, id: ShareId, scan: Scan, env: Env)
    ensures SameConflicts(d, Activate(d, id, scan, env))
  {
  }

  lemma OnlineKeepsIds(d: Daemon, id: ShareId, peer: PeerId, hash: Hash, env: Env)
    requires IdsGood(d.db)
    ensures IdsGood(Online(d, id, peer, hash, env).db)
  {
  }

  lemma ResolvingKeepsIds(d: Daemon, c: Conflict, how: Resolution, scan: Scan, env: Env)
    requires IdsGood(d.db) && Pending(d.db, c.id, c)
    ensures IdsGood(Resolve(d, c, how, scan, env).db)
  {
    DeletingKeepsIds(d.db, c.id);
    ActivationKeepsConflicts(d.(db := DeleteConflict(d.db, c.id)), c.shareId, scan, env);
  }

  lemma SmallOpsKeepConflicts(d: Daemon, op: HandleAgreement.Op)
    requires HandleAgreement.Enabled(d, op)
    requires op.Delete? || op.Stop? || op.Strategize? || op.Offline? || op.LocalChange? || op.Status?
    ensures SameConflicts(d, HandleAgreement.Apply(d, op))
  {
    match op
    case Delete(_) =>
    case Stop(_) =>
    case Strategize(_, _) =>
    case Offline(_, _) =>
    case LocalChange(_, _) =>
    case Status(_, _) =>
  }

  /** Main result: every reaction keeps the conflict ids in order, so a new conflict is never confused with an old one. */
  lemma IdsStayGood(d: Daemon, op: HandleAgreement.Op)
    requires HandleAgreement.Enabled(d, op) && IdsGood(d.db)
    ensures IdsGood(HandleAgreement.Apply(d, op).db)
  {
    match op
    case Announcement(peer, es, envs) => LanAllKeepsIds(d, peer, es, envs);
    case ResolveConflict(c, how, scan, env) => ResolvingKeepsIds(d, c, how, scan, env);
    case Online(id, peer, hash, env) => OnlineKeepsIds(d, id, peer, hash, env);
    case Add(id, strategy, localOnly, scan, env) =>
      ActivationKeepsConflicts(d.(db := AddRow(d.db, id, strategy, localOnly)), id, scan, env);
    case Start(id, scan, env) => ActivationKeepsConflicts(d, id, scan, env);
    case Resume(id, scan, env) =>
      ActivationKeepsConflicts(d.(db := SetState(d.db, id, Syncing, None, None)), id, scan, env);
    case _ => SmallOpsKeepConflicts(d, op);
  }
}
