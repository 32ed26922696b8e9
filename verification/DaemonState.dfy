/**
 The daemon's persistent rows (daemon/daemon/state/db.py) and its libtorrent handles
 (daemon/daemon/torrent/session.py), each as a value with its update functions and as the
 object whose methods perform them.
 */
module DaemonState {
  import opened Wrappers

  type ShareId = string
  type PeerId = string

  /** "" stands for a share that has no info hash yet (NULL and "" alike). */
  type Hash = string

  /** A hash that libtorrent or a peer reports: never empty. */
  type InfoHash = h: string | |h| > 0 witness "0"

  datatype ShareState = Syncing | Seeding | Paused | Error

  datatype Strategy = LastWriteWins | RenameConflict | Ask

  datatype LocalShare = LocalShare(
    state: ShareState,
    infoHash: Hash,
    seqNo: nat,
    lastError: Option<string>,
    strategy: Strategy,
    localOnly: bool)

  datatype Conflict = Conflict(id: nat, shareId: ShareId, remotePeer: PeerId, remoteHash: InfoHash, localHash: Hash)

  /** `known` maps a cached (share, peer) row to its online flag. */
  datatype Db = Db(
    shares: map<ShareId, LocalShare>,
    conflicts: seq<Conflict>,
    nextConflict: nat,
    known: map<(ShareId, PeerId), bool>)

  // Row updates. Each leaves the database alone when the share has no row.

  function SetState(db: Db, id: ShareId, state: ShareState, error: Option<string>, hash: Option<Hash>): Db {
    if id !in db.shares then db else
      var row := db.shares[id].(state := state, lastError := error);
      db.(shares := db.shares[id := if hash.Some? then row.(infoHash := hash.value) else row])
  }

  function IncrementSeq(db: Db, id: ShareId): Db {
    if id !in db.shares then db else
      db.(shares := db.shares[id := db.shares[id].(seqNo := db.shares[id].seqNo + 1)])
  }

  function SetSeq(db: Db, id: ShareId, n: nat): Db {
    if id !in db.shares then db else db.(shares := db.shares[id := db.shares[id].(seqNo := n)])
  }

  function SetStrategy(db: Db, id: ShareId, strategy: Strategy): Db {
    if id !in db.shares then db else db.(shares := db.shares[id := db.shares[id].(strategy := strategy)])
  }

  /** An existing row keeps its state, hash, seq, strategy and mode. */
  function AddRow(db: Db, id: ShareId, strategy: Strategy, localOnly: bool): Db {
    if id in db.shares then db else
      db.(shares := db.shares[id := LocalShare(Syncing, "", 0, None, strategy, localOnly)])
  }

  function RemoveRow(db: Db, id: ShareId): Db {
    db.(shares := db.shares - {id})
  }

  function UpsertPeer(db: Db, id: ShareId, peer: PeerId, online: bool): Db {
    db.(known := db.known[(id, peer) := online])
  }

  function AddConflict(db: Db, id: ShareId, peer: PeerId, remoteHash: InfoHash, localHash: Hash): Db {
    db.(conflicts := db.conflicts + [Conflict(db.nextConflict, id, peer, remoteHash, localHash)],
        nextConflict := db.nextConflict + 1)
  }

  function WithoutConflict(cs: seq<Conflict>, id: nat): (r: seq<Conflict>)
    ensures forall c :: c in r <==> c in cs && c.id != id
  {
    if cs == [] then [] else
      (if cs[0].id == id then [] else [cs[0]]) + WithoutConflict(cs[1..], id)
  }

  function DeleteConflict(db: Db, id: nat): Db {
    db.(conflicts := WithoutConflict(db.conflicts, id))
  }

  class StateDb {
    var shares: map<ShareId, LocalShare>
    var conflicts: seq<Conflict>
    var nextConflict: nat
    var known: map<(ShareId, PeerId), bool>

    ghost function View(): Db
      reads this
    {
      Db(shares, conflicts, nextConflict, known)
    }

    constructor ()
      ensures View() == Db(map[], [], 0, map[])
    {
      shares, conflicts, nextConflict, known := map[], [], 0, map[];
    }

    method SetShareState(id: ShareId, state: ShareState, error: Option<string>, hash: Option<Hash>)
      modifies this
      ensures View() == SetState(old(View()), id, state, error, hash)
    {
      if id in shares {
        var row := shares[id].(state := state, lastError := error);
        if hash.Some? {
          row := row.(infoHash := hash.value);
        }
        shares := shares[id := row];
      }
    }

    method IncrementShareSeq(id: ShareId) returns (next: nat)
      modifies this
      ensures View() == IncrementSeq(old(View()), id)
      ensures next == if id in old(shares) then old(shares)[id].seqNo + 1 else 0
    {
      next := 0;
      if id in shares {
        next := shares[id].seqNo + 1;
        shares := shares[id := shares[id].(seqNo := next)];
      }
    }

    method SetShareSeq(id: ShareId, n: nat)
      modifies this
      ensures View() == SetSeq(old(View()), id, n)
    {
      if id in shares {
        shares := shares[id := shares[id].(seqNo := n)];
      }
    }

    method AddShare(id: ShareId, strategy: Strategy, localOnly: bool)
      modifies this
      ensures View() == AddRow(old(View()), id, strategy, localOnly)
    {
      if id !in shares {
        shares := shares[id := LocalShare(Syncing, "", 0, None, strategy, localOnly)];
      }
    }

    method RemoveShare(id: ShareId)
      modifies this
      ensures View() == RemoveRow(old(View()), id)
    {
      shares := shares - {id};
    }

    method UpsertKnownPeer(id: ShareId, peer: PeerId, online: bool)
      modifies this
      ensures View() == UpsertPeer(old(View()), id, peer, online)
    {
      known := known[(id, peer) := online];
    }

    method RecordConflict(id: ShareId, peer: PeerId, remoteHash: InfoHash, localHash: Hash) returns (conflict: nat)
      modifies this
      ensures View() == AddConflict(old(View()), id, peer, remoteHash, localHash)
      ensures conflict == old(nextConflict)
    {
      conflict := nextConflict;
      conflicts := conflicts + [Conflict(conflict, id, peer, remoteHash, localHash)];
      nextConflict := nextConflict + 1;
    }

    method DropConflict(id: nat)
      modifies this
      ensures View() == DeleteConflict(old(View()), id)
    {
      conflicts := WithoutConflict(conflicts, id);
    }
  }

  // ----- libtorrent session ---------------------------------------------------

  /** `handles` is the session's handle per share, `cached` the .torrent file on disk per share. */
  datatype Torrents = Torrents(handles: map<ShareId, InfoHash>, cached: map<ShareId, InfoHash>)

  /**
   What the operating system and libtorrent decide during one add: the hash a torrent
   built from the directory gets, whether unlinking the old .torrent file fails, whether
   the add raises, and whether an add that raises had saved what it built.
   */
  datatype Env = Env(built: InfoHash, unlinkFails: bool, raises: bool, saved: bool)

  /** The hash the torrent parameters carry: saved file first, then magnet, then a fresh build. */
  function OfferedHash(t: Torrents, id: ShareId, seedMode: bool, magnet: Option<InfoHash>, env: Env): InfoHash {
    if id in t.cached then t.cached[id]
    else if magnet.Some? && !seedMode then magnet.value
    else env.built
  }

  /** A fresh build is saved before the session is asked to add it. */
  function SaveBuilt(t: Torrents, id: ShareId, seedMode: bool, magnet: Option<InfoHash>, env: Env): Torrents {
    if id !in t.cached && !(magnet.Some? && !seedMode) then t.(cached := t.cached[id := env.built]) else t
  }

  /** A handle that is already there wins over the offered hash. */
  function AddTorrent(t: Torrents, id: ShareId, seedMode: bool, magnet: Option<InfoHash>, env: Env): Torrents {
    if env.raises then (if env.saved then SaveBuilt(t, id, seedMode, magnet, env) else t)
    else
      var h := OfferedHash(t, id, seedMode, magnet, env);
      SaveBuilt(t, id, seedMode, magnet, env).(handles := if id in t.handles then t.handles else t.handles[id := h])
  }

  function DropTorrent(t: Torrents, id: ShareId): Torrents {
    t.(handles := t.handles - {id})
  }

  function Unlink(t: Torrents, id: ShareId, env: Env): Torrents {
    if env.unlinkFails then t else t.(cached := t.cached - {id})
  }

  class LibtorrentSession {
    var handles: map<ShareId, InfoHash>
    var cached: map<ShareId, InfoHash>

    ghost function View(): Torrents
      reads this
    {
      Torrents(handles, cached)
    }

    constructor ()
      ensures View() == Torrents(map[], map[])
    {
      handles, cached := map[], map[];
    }

    /** None is the source's exception. */
    method AddShare(id: ShareId, seedMode: bool, magnet: Option<InfoHash>, env: Env) returns (ih: Option<InfoHash>)
      modifies this
      ensures View() == AddTorrent(old(View()), id, seedMode, magnet, env)
      ensures ih.None? <==> env.raises
      ensures ih.Some? ==> id in handles && ih.value == handles[id]
    {
      if env.raises && !env.saved {
        return None;
      }
      var h := env.built;
      if id in cached {
        h := cached[id];
      } else if magnet.Some? && !seedMode {
        h := magnet.value;
      } else {
        cached := cached[id := h];
      }
      if env.raises {
        return None;
      }
      if id !in handles {
        handles := handles[id := h];
      }
      ih := Some(handles[id]);
    }

    method RemoveShare(id: ShareId)
      modifies this
      ensures View() == DropTorrent(old(View()), id)
    {
      handles := handles - {id};
    }

    method UnlinkTorrentFile(id: ShareId, env: Env)
      modifies this
      ensures View() == Unlink(old(View()), id, env)
    {
      if !env.unlinkFails {
        cached := cached - {id};
      }
    }
  }
}
