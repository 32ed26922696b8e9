/**
 Over every sequence of reactions that do not overlap, a torrent handle carries the
 info hash that the database stores for its share.

 The one way to break it is a switch whose old .torrent file could not be unlinked:
 the file is then loaded in place of the remote hash (daemon/daemon/sync/torrent_mgr.py:156-181).
 */
module HandleAgreement {
  import opened Wrappers
  import opened DaemonState
  import opened Coordinator

  datatype Op =
    | Add(id: ShareId, strategy: Strategy, localOnly: bool, scan: Scan, env: Env)
    | Delete(id: ShareId)
    | Start(id: ShareId, scan: Scan, env: Env)
    | Resume(id: ShareId, scan: Scan, env: Env)
    | Stop(id: ShareId)
    | Strategize(id: ShareId, strategy: Strategy)
    | Announcement(peer: PeerId, es: seq<LanEntry>, envs: seq<Env>)
    | Online(id: ShareId, peer: PeerId, hash: Hash, env: Env)
    | Offline(id: ShareId, peer: PeerId)
    | LocalChange(id: ShareId, env: Env)
    | ResolveConflict(c: Conflict, how: Resolution, scan: Scan, env: Env)
    | Status(id: ShareId, finished: bool)

  /** Commands on a share without a row are refused; a status reports an existing handle. */
  ghost predicate Enabled(d: Daemon, op: Op) {
    match op
    case Start(id, _, _) => id in d.db.shares
    case Resume(id, _, _) => id in d.db.shares
    case Announcement(_, es, envs) => |es| == |envs|
    case LocalChange(id, _) => id in d.db.shares
    case ResolveConflict(c, _, _, _) => Pending(d.db, c.id, c)
    case Status(id, _) => id in d.lt.handles
    case _ => true
  }

  function Apply(d: Daemon, op: Op): Daemon
    requires Enabled(d, op)
  {
    match op
    case Add(id, strategy, localOnly, scan, env) =>
      Activate(d.(db := AddRow(d.db, id, strategy, localOnly)), id, scan, env)
    case Delete(id) => Remove(d, id)
    case Start(id, scan, env) => Activate(d, id, scan, env)
    case Resume(id, scan, env) => Activate(d.(db := SetState(d.db, id, Syncing, None, None)), id, scan, env)
    case Stop(id) => Pause(d, id)
    case Strategize(id, strategy) => d.(db := SetStrategy(d.db, id, strategy))
    case Announcement(peer, es, envs) => LanAll(d, peer, es, envs)
    case Online(id, peer, hash, env) => Finish(RegistryOnlineBegin(d, id, peer, hash, env), env)
    case Offline(id, peer) => RegistryOffline(d, id, peer)
    case LocalChange(id, env) => Rebuild(d, id, env)
    case ResolveConflict(c, how, scan, env) => Resolve(d, c, how, scan, env)
    case Status(id, finished) => StatusUpdate(d, id, finished, d.lt.handles[id])
  }

  ghost predicate Agree(d: Daemon) {
    forall id :: id in d.lt.handles ==> id in d.db.shares && d.db.shares[id].infoHash == d.lt.handles[id]
  }

  predicate Unlinks(env: Env) { !env.unlinkFails }

  /** Every switch this step may perform gets rid of the old .torrent file. */
  predicate CleanDisk(op: Op) {
    match op
    case Announcement(_, _, envs) => forall env :: env in envs ==> Unlinks(env)
    case Online(_, _, _, env) => Unlinks(env)
    case ResolveConflict(_, _, _, env) => Unlinks(env)
    case _ => true
  }

  /** A switch that starts keeps the agreement exactly when the stale file does not get in its way. */
  lemma SwitchAgreesIff(d: Daemon, id: ShareId, ih: InfoHash, env: Env)
    requires Agree(d) && SwitchStarts(d, id)
    ensures Agree(Finish(SwitchBegin(d, id, ih, env), env)) <==>
            (env.raises || (env.unlinkFails && id in d.lt.cached ==> d.lt.cached[id] == ih))
  {
    var d' := Finish(SwitchBegin(d, id, ih, env), env);
    if !env.raises {
      assert id in d'.lt.handles && d'.db.shares[id].infoHash == ih;
    }
  }

  lemma SwitchAgrees(d: Daemon, id: ShareId, ih: InfoHash, env: Env)
    requires Agree(d) && Unlinks(env)
    ensures Agree(Finish(SwitchBegin(d, id, ih, env), env))
  {
    if SwitchStarts(d, id) {
      SwitchAgreesIff(d, id, ih, env);
    }
  }

  lemma RemoteUpdateAgrees(d: Daemon, id: ShareId, ih: InfoHash, peer: PeerId, row: LocalShare, env: Env)
    requires Agree(d) && Unlinks(env)
    ensures Agree(Finish(RemoteUpdateBegin(d, id, ih, peer, row, env), env))
  {
    SwitchAgrees(d, id, ih, env);
  }

  lemma LanAgrees(d: Daemon, peer: PeerId, e: LanEntry, env: Env)
    requires Agree(d) && Unlinks(env)
    ensures Agree(Lan(d, peer, e, env))
  {
    if Admitted(d, peer, e.share) {
      var row := d.db.shares[e.share];
      var seen := d.(db := UpsertPeer(d.db, e.share, peer, true));
      var numbered := seen.(db := SetSeq(seen.db, e.share, e.seqNo));
      match Classify(row, e)
      case Bootstrap => SwitchAgrees(numbered, e.share, e.hash, env);
      case Accept => RemoteUpdateAgrees(numbered, e.share, e.hash, peer, row, env);
      case Tie => RemoteUpdateAgrees(seen, e.share, e.hash, peer, row, env);
      case SeedToThem =>
      case Inject =>
    }
  }

  lemma {:induction false} LanAllAgrees(d: Daemon, peer: PeerId, es: seq<LanEntry>, envs: seq<Env>)
    requires Agree(d) && |es| == |envs|
    requires forall env :: env in envs ==> Unlinks(env)
    ensures Agree(LanAll(d, peer, es, envs))
  {
    if es != [] {
      var k := |es| - 1;
      LanAllAgrees(d, peer, es[..k], envs[..k]);
      LanAgrees(LanAll(d, peer, es[..k], envs[..k]), peer, es[k], envs[k]);
    }
  }

  /** `AddTorrent` may hand back a handle that was already there: activation stores its hash. */
  lemma ActivateAgrees(d: Daemon, id: ShareId, scan: Scan, env: Env)
    requires Agree(d) && id in d.db.shares
    ensures Agree(Activate(d, id, scan, env))
  {
  }

  lemma StepAgrees(d: Daemon, op: Op)
    requires Agree(d) && Enabled(d, op) && CleanDisk(op)
    ensures Agree(Apply(d, op))
  {
    match op
    case Add(id, strategy, localOnly, scan, env) =>
      ActivateAgrees(d.(db := AddRow(d.db, id, strategy, localOnly)), id, scan, env);
    case Delete(id) =>
    case Start(id, scan, env) => ActivateAgrees(d, id, scan, env);
    case Resume(id, scan, env) => ActivateAgrees(d.(db := SetState(d.db, id, Syncing, None, None)), id, scan, env);
    case Stop(id) =>
    case Strategize(id, strategy) =>
    case Announcement(peer, es, envs) => LanAllAgrees(d, peer, es, envs);
    case Online(id, peer, hash, env) =>
      if peer != d.me && id in d.db.shares && hash != "" {
        RemoteUpdateAgrees(d.(db := UpsertPeer(d.db, id, peer, true)), id, hash, peer, d.db.shares[id], env);
      }
    case Offline(id, peer) =>
    case LocalChange(id, env) =>
    case ResolveConflict(c, how, scan, env) =>
      var d' := d.(db := DeleteConflict(d.db, c.id));
      match how {
        case KeepLocal => ActivateAgrees(d', c.shareId, scan, env);
        case KeepRemote => SwitchAgrees(d', c.shareId, c.remoteHash, env);
      }
    case Status(id, finished) =>
  }

  ghost predicate Run(d: Daemon, ops: seq<Op>, end: Daemon)
    decreases |ops|
  {
    if ops == [] then d == end else
      Enabled(d, ops[0]) && Run(Apply(d, ops[0]), ops[1..], end)
  }

  /** Main result: from an agreeing state, every run whose switches clean the disk ends agreeing. */
  lemma {:induction false} RunsAgree(d: Daemon, ops: seq<Op>, end: Daemon)
    requires Agree(d) && Run(d, ops, end)
    requires forall op :: op in ops ==> CleanDisk(op)
    ensures Agree(end)
    decreases |ops|
  {
    if ops != [] {
      StepAgrees(d, ops[0]);
      RunsAgree(Apply(d, ops[0]), ops[1..], end);
    }
  }

  /** With a stale file that cannot be unlinked, the database says "new" and the handle says "old". */
  lemma StaleFileBreaksAgreement(row: LocalShare, env: Env) returns (d: Daemon)
    requires row.infoHash == "old" && env.unlinkFails && !env.raises
    ensures Agree(d)
    ensures var d' := Finish(SwitchBegin(d, "s", "new", env), env);
            !Agree(d') && d'.lt.handles["s"] == "old" && d'.db.shares["s"].infoHash == "new"
  {
    d := Daemon("me", Db(map["s" := row], [], 0, map[]), Torrents(map["s" := "old"], map["s" := "old"]), {});
    SwitchAgreesIff(d, "s", "new", env);
  }

  /**
   A status taken from the queue after the handle changed breaks the agreement, and nothing
   else about a status does: exactly a finished status for a downloading share with a hash
   other than the handle's.
   */
  lemma StatusAgreesIff(d: Daemon, id: ShareId, finished: bool, hash: InfoHash)
    requires Agree(d) && id in d.lt.handles
    ensures Agree(StatusUpdate(d, id, finished, hash)) <==>
            (finished && d.db.shares[id].state == Syncing ==> hash == d.lt.handles[id])
  {
  }
}
