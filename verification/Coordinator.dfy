/**
 The daemon's reactions to announcements, registry events, local changes and commands
 (daemon/daemon/sync/coordinator.py, daemon/daemon/sync/peer_handler.py, daemon/daemon/sync/torrent_mgr.py).

 A coroutine runs without interruption up to its first suspension. Each `...Begin`
 function is such a stretch; when it leaves a torrent switch in flight, it says so in
 `Begun.job`. `Finish` runs the rest, so `Finish(...Begin(...))` is the whole reaction
 with nothing in between.
 */
module Coordinator {
  import opened Wrappers
  import opened DaemonState

  datatype Daemon = Daemon(me: PeerId, db: Db, lt: Torrents, switching: set<ShareId>)

  datatype SwitchJob = SwitchJob(share: ShareId, hash: InfoHash)

  datatype Begun = Begun(d: Daemon, job: Option<SwitchJob>)

  /** One (share_id, info_hash, seq) entry of a LAN announcement. */
  datatype LanEntry = LanEntry(share: ShareId, hash: Hash, seqNo: nat)

  // ----- switching to a remote torrent ---------------------------------------

  predicate SwitchStarts(d: Daemon, id: ShareId) {
    id !in d.switching && id in d.db.shares
  }

  function SwitchBegin(d: Daemon, id: ShareId, ih: InfoHash, env: Env): Begun {
    if !SwitchStarts(d, id) then Begun(d, None) else
      Begun(Daemon(d.me,
                   SetState(d.db, id, Syncing, None, Some(ih)),
                   DropTorrent(Unlink(d.lt, id, env), id),
                   d.switching + {id}),
            Some(SwitchJob(id, ih)))
  }

  function SwitchEnd(d: Daemon, job: SwitchJob, env: Env): Daemon {
    d.(lt := AddTorrent(d.lt, job.share, false, Some(job.hash), env),
       switching := d.switching - {job.share})
  }

  function Finish(b: Begun, env: Env): Daemon {
    if b.job.Some? then SwitchEnd(b.d, b.job.value, env) else b.d
  }

  // ----- conflict strategies --------------------------------------------------

  function RemoteUpdateBegin(d: Daemon, id: ShareId, ih: InfoHash, peer: PeerId, local: LocalShare, env: Env): Begun {
    match local.strategy
    case LastWriteWins => SwitchBegin(d, id, ih, env)
    case RenameConflict => SwitchBegin(d, id, ih, env)
    case Ask =>
      var db := AddConflict(d.db, id, peer, ih, local.infoHash);
      Begun(d.(db := SetState(db, id, Paused, None, None)), None)
  }

  // ----- LAN announcements ----------------------------------------------------

  datatype LanBranch = Bootstrap | Accept | Tie | SeedToThem | Inject

  function Classify(row: LocalShare, e: LanEntry): LanBranch {
    if e.hash != "" && row.infoHash == "" then Bootstrap
    else if e.hash != "" && row.infoHash != "" && e.hash != row.infoHash then
      if e.seqNo > row.seqNo then Accept
      else if e.seqNo == row.seqNo then Tie
      else SeedToThem
    else Inject
  }

  /** Registry shares admit only peers of the ACL cache; local-only shares admit anyone. */
  predicate Admitted(d: Daemon, peer: PeerId, id: ShareId) {
    id in d.db.shares && (d.db.shares[id].localOnly || (id, peer) in d.db.known)
  }

  function LanBegin(d: Daemon, peer: PeerId, e: LanEntry, env: Env): Begun {
    if !Admitted(d, peer, e.share) then Begun(d, None) else
      var row := d.db.shares[e.share];
      var seen := d.(db := UpsertPeer(d.db, e.share, peer, true));
      match Classify(row, e)
      case Bootstrap => SwitchBegin(seen.(db := SetSeq(seen.db, e.share, e.seqNo)), e.share, e.hash, env)
      case Accept => RemoteUpdateBegin(seen.(db := SetSeq(seen.db, e.share, e.seqNo)), e.share, e.hash, peer, row, env)
      case Tie => RemoteUpdateBegin(seen, e.share, e.hash, peer, row, env)
      case SeedToThem => Begun(seen, None)
      case Inject => Begun(seen, None)
  }

  function Lan(d: Daemon, peer: PeerId, e: LanEntry, env: Env): Daemon {
    Finish(LanBegin(d, peer, e, env), env)
  }

  /** A whole announcement, entry by entry, each with its own environment. */
  function LanAll(d: Daemon, peer: PeerId, es: seq<LanEntry>, envs: seq<Env>): Daemon
    requires |es| == |envs|
  {
    if es == [] then d else
      var k := |es| - 1;
      Lan(LanAll(d, peer, es[..k], envs[..k]), peer, es[k], envs[k])
  }

  // ----- registry stream -------------------------------------------------------

  function RegistryOnlineBegin(d: Daemon, id: ShareId, peer: PeerId, hash: Hash, env: Env): Begun {
    if peer == d.me then Begun(d, None) else
      var seen := d.(db := UpsertPeer(d.db, id, peer, true));
      if id in d.db.shares && hash != "" && d.db.shares[id].infoHash != "" && hash != d.db.shares[id].infoHash then
        RemoteUpdateBegin(seen, id, hash, peer, d.db.shares[id], env)
      else Begun(seen, None)
  }

  function RegistryOffline(d: Daemon, id: ShareId, peer: PeerId): Daemon {
    if peer == d.me then d else d.(db := UpsertPeer(d.db, id, peer, false))
  }

  // ----- rebuild after a local change -------------------------------------------

  function RebuildBegin(d: Daemon, id: ShareId, env: Env): Daemon {
    d.(lt := DropTorrent(Unlink(d.lt, id, env), id))
  }

  function RebuildCommit(d: Daemon, id: ShareId, ih: InfoHash): Daemon {
    d.(db := SetState(IncrementSeq(d.db, id), id, Seeding, None, Some(ih)))
  }

  function Rebuild(d: Daemon, id: ShareId, env: Env): Daemon {
    var begun := RebuildBegin(d, id, env);
    var added := begun.(lt := AddTorrent(begun.lt, id, true, None, env));
    if env.raises then added else RebuildCommit(added, id, added.lt.handles[id])
  }

  // ----- activation ---------------------------------------------------------------

  /** What the directory scan and the registry query report. */
  datatype Scan = Scan(hasFiles: bool, peerHash: Option<InfoHash>, error: string)

  function PeerHash(d: Daemon, id: ShareId, scan: Scan): Option<InfoHash> {
    var localOnly := id in d.db.shares && d.db.shares[id].localOnly;
    if !scan.hasFiles && id !in d.lt.cached && !localOnly then scan.peerHash else None
  }

  /** Nothing to seed and nothing to fetch: wait for a LAN announcement. */
  predicate NothingToAdd(d: Daemon, id: ShareId, scan: Scan) {
    !scan.hasFiles && PeerHash(d, id, scan).None? && id !in d.lt.cached
  }

  function StoredSeq(d: Daemon, id: ShareId): nat {
    if id in d.db.shares then d.db.shares[id].seqNo else 0
  }

  /** `seenSeq` is the sequence number read before the torrent was added. */
  function ActivateCommit(d: Daemon, id: ShareId, hasFiles: bool, seenSeq: nat, ih: InfoHash): Daemon {
    var db := SetState(d.db, id, if hasFiles then Seeding else Syncing, None, Some(ih));
    d.(db := if hasFiles && seenSeq == 0 then IncrementSeq(db, id) else db)
  }

  function Wait(d: Daemon, id: ShareId): Daemon {
    d.(db := SetState(d.db, id, Syncing, None, None))
  }

  function ActivateFail(d: Daemon, id: ShareId, error: string): Daemon {
    d.(db := SetState(d.db, id, Error, Some(error), None))
  }

  function Activate(d: Daemon, id: ShareId, scan: Scan, env: Env): Daemon {
    if NothingToAdd(d, id, scan) then Wait(d, id)
    else
      var added := d.(lt := AddTorrent(d.lt, id, scan.hasFiles, PeerHash(d, id, scan), env));
      if env.raises then ActivateFail(added, id, scan.error)
      else ActivateCommit(added, id, scan.hasFiles, StoredSeq(d, id), added.lt.handles[id])
  }

  // ----- status and commands --------------------------------------------------------

  function StatusUpdate(d: Daemon, id: ShareId, finished: bool, hash: InfoHash): Daemon {
    if finished && id in d.db.shares && d.db.shares[id].state == Syncing then
      d.(db := SetState(d.db, id, Seeding, None, Some(hash)))
    else d
  }

  function Pause(d: Daemon, id: ShareId): Daemon {
    d.(db := SetState(d.db, id, Paused, None, None))
  }

  function Remove(d: Daemon, id: ShareId): Daemon {
    if id !in d.db.shares then d else
      d.(lt := DropTorrent(d.lt, id), db := RemoveRow(d.db, id))
  }

  /** The pending conflict with this id whose share still has a row. */
  ghost predicate Pending(db: Db, conflict: nat, c: Conflict) {
    c in db.conflicts && c.id == conflict && c.shareId in db.shares
  }

  datatype Resolution = KeepLocal | KeepRemote

  function Resolve(d: Daemon, c: Conflict, how: Resolution, scan: Scan, env: Env): Daemon {
    var d' := d.(db := DeleteConflict(d.db, c.id));
    match how
    case KeepLocal => Activate(d', c.shareId, scan, env)
    case KeepRemote => Finish(SwitchBegin(d', c.shareId, c.remoteHash, env), env)
  }

  // ----- the objects ------------------------------------------------------------------

  class SyncCoordinator {
    const me: PeerId
    const db: StateDb
    const lt: LibtorrentSession
    var switching: set<ShareId>

    ghost function View(): Daemon
      reads this, db, lt
    {
      Daemon(me, db.View(), lt.View(), switching)
    }

    constructor (me: PeerId, db: StateDb, lt: LibtorrentSession)
      ensures this.me == me && this.db == db && this.lt == lt
      ensures View() == Daemon(me, db.View(), lt.View(), {})
    {
      this.me, this.db, this.lt, switching := me, db, lt, {};
    }

    method SwitchToRemoteTorrent(id: ShareId, ih: InfoHash, env: Env)
      modifies this, db, lt
      ensures View() == Finish(SwitchBegin(old(View()), id, ih, env), env)
    {
      if id in switching {
        return;
      }
      switching := switching + {id};
      if id in db.shares {
        db.SetShareState(id, Syncing, None, Some(ih));
        lt.UnlinkTorrentFile(id, env);
        lt.RemoveShare(id);
        var _ := lt.AddShare(id, false, Some(ih), env);
      }
      switching := switching - {id};
      assert switching == old(switching);
      assert old(switching) + {id} - {id} == old(switching);
    }

    method HandleRemoteUpdate(id: ShareId, ih: InfoHash, peer: PeerId, local: LocalShare, env: Env)
      modifies this, db, lt
      ensures View() == Finish(RemoteUpdateBegin(old(View()), id, ih, peer, local, env), env)
    {
      match local.strategy
      case LastWriteWins =>
        SwitchToRemoteTorrent(id, ih, env);
      case RenameConflict =>
        SwitchToRemoteTorrent(id, ih, env);
      case Ask =>
        var _ := db.RecordConflict(id, peer, ih, local.infoHash);
        db.SetShareState(id, Paused, None, None);
    }

    method HandleLanEntry(peer: PeerId, e: LanEntry, env: Env)
      modifies this, db, lt
      ensures View() == Lan(old(View()), peer, e, env)
    {
      if e.share !in db.shares {
        return;
      }
      var local := db.shares[e.share];
      if !local.localOnly && (e.share, peer) !in db.known {
        return;
      }
      db.UpsertKnownPeer(e.share, peer, true);
      if e.hash != "" && local.infoHash == "" {
        db.SetShareSeq(e.share, e.seqNo);
        SwitchToRemoteTorrent(e.share, e.hash, env);
      } else if e.hash != "" && local.infoHash != "" && e.hash != local.infoHash {
        if e.seqNo > local.seqNo {
          db.SetShareSeq(e.share, e.seqNo);
          HandleRemoteUpdate(e.share, e.hash, peer, local, env);
        } else if e.seqNo == local.seqNo {
          HandleRemoteUpdate(e.share, e.hash, peer, local, env);
        }
      }
    }

    method HandleLanPeer(peer: PeerId, es: seq<LanEntry>, envs: seq<Env>)
      requires |es| == |envs|
      modifies this, db, lt
      ensures View() == LanAll(old(View()), peer, es, envs)
    {
      for i := 0 to |es|
        invariant View() == LanAll(old(View()), peer, es[..i], envs[..i])
      {
        HandleLanEntry(peer, es[i], envs[i]);
        assert es[..i + 1][..i] == es[..i] && envs[..i + 1][..i] == envs[..i];
      }
      assert es[..|es|] == es && envs[..|envs|] == envs;
    }

    method HandleRegistryOnline(id: ShareId, peer: PeerId, hash: Hash, env: Env)
      modifies this, db, lt
      ensures View() == Finish(RegistryOnlineBegin(old(View()), id, peer, hash, env), env)
    {
      if peer == me {
        return;
      }
      db.UpsertKnownPeer(id, peer, true);
      var localHash := if id in db.shares then db.shares[id].infoHash else "";
      if hash != "" && localHash != "" && hash != localHash {
        HandleRemoteUpdate(id, hash, peer, db.shares[id], env);
      }
    }

    method RebuildShare(id: ShareId, env: Env)
      modifies db, lt
      ensures View() == Rebuild(old(View()), id, env)
    {
      lt.UnlinkTorrentFile(id, env);
      lt.RemoveShare(id);
      var ih := lt.AddShare(id, true, None, env);
      if ih.Some? {
        var _ := db.IncrementShareSeq(id);
        db.SetShareState(id, Seeding, None, Some(ih.value));
      }
    }

    method ActivateShare(id: ShareId, scan: Scan, env: Env)
      modifies db, lt
      ensures View() == Activate(old(View()), id, scan, env)
    {
      var localOnly := id in db.shares && db.shares[id].localOnly;
      var seenSeq := if id in db.shares then db.shares[id].seqNo else 0;
      var peerHash := None;
      if !scan.hasFiles && id !in lt.cached && !localOnly {
        peerHash := scan.peerHash;
      }
      if !scan.hasFiles && peerHash.None? && id !in lt.cached {
        db.SetShareState(id, Syncing, None, None);
      } else {
        var ih := lt.AddShare(id, scan.hasFiles, peerHash, env);
        if ih.None? {
          db.SetShareState(id, Error, Some(scan.error), None);
        } else {
          db.SetShareState(id, if scan.hasFiles then Seeding else Syncing, None, Some(ih.value));
          if scan.hasFiles && seenSeq == 0 {
            var _ := db.IncrementShareSeq(id);
          }
        }
      }
    }

    method HandleStatus(id: ShareId, finished: bool, hash: InfoHash)
      modifies db
      ensures View() == StatusUpdate(old(View()), id, finished, hash)
    {
      if finished && id in db.shares && db.shares[id].state == Syncing {
        db.SetShareState(id, Seeding, None, Some(hash));
      }
    }

    method PauseShare(id: ShareId)
      modifies db
      ensures View() == Pause(old(View()), id)
    {
      db.SetShareState(id, Paused, None, None);
    }

    /** False is the source's KeyError: no row for this share. */
    method RemoveShare(id: ShareId) returns (ok: bool)
      modifies db, lt
      ensures View() == Remove(old(View()), id)
      ensures ok <==> id in old(db.shares)
    {
      ok := id in db.shares;
      if ok {
        lt.RemoveShare(id);
        db.RemoveShare(id);
      }
    }

    /** False is the source's KeyError: no such conflict on a share we still have. */
    method ResolveConflict(conflict: nat, how: Resolution, scan: Scan, env: Env) returns (ok: bool)
      modifies this, db, lt
      ensures ok <==> exists c :: Pending(old(db.View()), conflict, c)
      ensures !ok ==> View() == old(View())
      ensures ok ==> exists c ::
        Pending(old(db.View()), conflict, c) && View() == Resolve(old(View()), c, how, scan, env)
    {
      ghost var db0 := db.View();
      ok := false;
      var k := 0;
      while k < |db.conflicts| && !(db.conflicts[k].id == conflict && db.conflicts[k].shareId in db.shares)
        invariant 0 <= k <= |db.conflicts|
        invariant forall j :: 0 <= j < k ==> !Pending(db0, conflict, db.conflicts[j])
      {
        k := k + 1;
      }
      if k < |db.conflicts| {
        ok := true;
        var c := db.conflicts[k];
        assert Pending(db0, conflict, c);
        db.DropConflict(conflict);
        match how
        case KeepLocal => ActivateShare(c.shareId, scan, env);
        case KeepRemote => SwitchToRemoteTorrent(c.shareId, c.remoteHash, env);
      }
    }
  }
}
