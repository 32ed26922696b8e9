/**
 Registry presence: membership, announcements with a time to live, the sweep that expires
 them, and the log of events published to watchers (registry/registry/servicer/registry.py,
 registry/registry/ttl.py). Each RPC and each sweep is one step; wall-clock time is a real.

 A watcher that replays the published events of a share from nothing holds exactly the
 peers of the announcement table with the addresses a snapshot would list.
 */
module Registry {
  import opened Wrappers
  import RateLimiter

  type PeerId = string
  type ShareId = string
  type Member = (ShareId, PeerId)

  const TTL_MIN: int := 60
  const TTL_MAX: int := 600

  datatype Permission = ReadWrite | ReadOnly | Encrypted

  datatype Addr = Addr(host: string, port: int, isLan: bool)

  /** `external` is the address seen on the connection. */
  datatype Announcement = Announcement(
    internal: seq<Addr>, external: Option<(string, int)>, infoHash: string, announcedAt: real, expiresAt: real)

  datatype Kind = Online | Updated | Offline | Removed | PolicyUpdated

  datatype Event = Event(share: ShareId, kind: Kind, peer: PeerId, addrs: seq<Addr>, infoHash: string)

  datatype Reg = Reg(
    peers: map<PeerId, string>,
    owners: map<ShareId, PeerId>,
    members: map<Member, Permission>,
    anns: map<Member, Announcement>,
    log: seq<Event>)

  datatype Status =
    | Ok | Unauthenticated | PermissionDenied | NotFound | AlreadyExists | InvalidArgument | ResourceExhausted

  /** The caller a bearer token belongs to, if any. */
  type Caller = Option<PeerId>

  predicate Authenticated(reg: Reg, caller: Caller) {
    caller.Some? && caller.value in reg.peers
  }

  function Publish(reg: Reg, e: Event): Reg {
    reg.(log := reg.log + [e])
  }

  // ----- addresses and time to live ------------------------------------------------------

  function WithExternal(internal: seq<Addr>, external: Option<(string, int)>): seq<Addr> {
    if external.Some? && external.value.0 != "" then internal + [Addr(external.value.0, external.value.1, false)]
    else internal
  }

  function ClampTtl(requested: int): (ttl: int)
    ensures TTL_MIN <= ttl <= TTL_MAX
    ensures TTL_MIN <= requested <= TTL_MAX ==> ttl == requested
    ensures requested < TTL_MIN ==> ttl == TTL_MIN
    ensures requested > TTL_MAX ==> ttl == TTL_MAX
  {
    var capped := if requested < TTL_MAX then requested else TTL_MAX;
    if capped > TTL_MIN then capped else TTL_MIN
  }

  /** A time to live of 0 asks for the minimum. */
  function Ttl(requested: nat): int {
    ClampTtl(if requested == 0 then TTL_MIN else requested)
  }

  // ----- the RPCs on values -----------------------------------------------------------------

  function Register(reg: Reg, peer: PeerId, name: string, sigOk: bool): (Status, Reg) {
    if !sigOk then (Unauthenticated, reg) else (Ok, reg.(peers := reg.peers[peer := name]))
  }

  function CreateShare(reg: Reg, caller: Caller, share: ShareId, sigOk: bool): (Status, Reg) {
    if !Authenticated(reg, caller) || !sigOk then (Unauthenticated, reg)
    else if share in reg.owners then (AlreadyExists, reg)
    else (Ok, reg.(owners := reg.owners[share := caller.value],
                   members := reg.members[(share, caller.value) := ReadWrite]))
  }

  /** Ok when the caller owns the share. */
  function OwnerCheck(reg: Reg, caller: Caller, share: ShareId): Status {
    if !Authenticated(reg, caller) then Unauthenticated
    else if share !in reg.owners then NotFound
    else if reg.owners[share] != caller.value then PermissionDenied
    else Ok
  }

  function AddPeer(reg: Reg, caller: Caller, share: ShareId, peer: PeerId, perm: Permission): (Status, Reg) {
    var check := OwnerCheck(reg, caller, share);
    if check != Ok then (check, reg)
    else if peer !in reg.peers then (NotFound, reg)
    else (Ok, reg.(members := reg.members[(share, peer) := perm]))
  }

  function RemovePeer(reg: Reg, caller: Caller, share: ShareId, peer: PeerId): (Status, Reg) {
    var check := OwnerCheck(reg, caller, share);
    if check != Ok then (check, reg)
    else if peer == caller.value then (InvalidArgument, reg)
    else (Ok, Publish(reg.(members := reg.members - {(share, peer)}, anns := reg.anns - {(share, peer)}),
                      Event(share, Removed, peer, [], "")))
  }

  function SetPolicy(reg: Reg, caller: Caller, share: ShareId): (Status, Reg) {
    var check := OwnerCheck(reg, caller, share);
    if check != Ok then (check, reg) else (Ok, Publish(reg, Event(share, PolicyUpdated, "", [], "")))
  }

  datatype Request = Request(
    peer: PeerId, share: ShareId, internal: seq<Addr>, external: Option<(string, int)>, ttl: nat, infoHash: string)

  /** Everything checked before the rate limiter is asked. */
  function AnnounceCheck(reg: Reg, caller: Caller, r: Request, sigOk: bool): Status {
    if !Authenticated(reg, caller) then Unauthenticated
    else if caller.value != r.peer then PermissionDenied
    else if !sigOk then Unauthenticated
    else if (r.share, r.peer) !in reg.members then PermissionDenied
    else Ok
  }

  predicate WasOnline(reg: Reg, m: Member, now: real) {
    m in reg.anns && reg.anns[m].expiresAt > now
  }

  function Record(reg: Reg, r: Request, now: real): Reg {
    var m := (r.share, r.peer);
    var kept := if r.infoHash == "" && m in reg.anns then reg.anns[m].infoHash else r.infoHash;
    var row := Announcement(r.internal, r.external, kept, now, now + Ttl(r.ttl) as real);
    Publish(reg.(anns := reg.anns[m := row]),
            Event(r.share, if WasOnline(reg, m, now) then Updated else Online, r.peer,
                  WithExternal(r.internal, r.external), r.infoHash))
  }

  function Announce(reg: Reg, caller: Caller, r: Request, sigOk: bool, allowed: bool, now: real): (Status, Reg) {
    var check := AnnounceCheck(reg, caller, r, sigOk);
    if check != Ok then (check, reg)
    else if !allowed then (ResourceExhausted, reg)
    else (Ok, Record(reg, r, now))
  }

  // ----- the sweep -----------------------------------------------------------------------------

  /** The expired rows, each once, in whatever order the table yields them. */
  ghost predicate Expired(reg: Reg, now: real, order: seq<Member>) {
    && (forall m :: m in order <==> m in reg.anns && reg.anns[m].expiresAt <= now)
    && (forall i, j :: 0 <= i < j < |order| ==> order[i] != order[j])
  }

  /** A row without a membership goes silently; any other is announced as offline. */
  function Expire(reg: Reg, m: Member): Reg {
    var gone := reg.(anns := reg.anns - {m});
    if m in reg.members then Publish(gone, Event(m.0, Offline, m.1, [], "")) else gone
  }

  function ExpireAll(reg: Reg, order: seq<Member>): Reg {
    if order == [] then reg else Expire(ExpireAll(reg, order[..|order| - 1]), order[|order| - 1])
  }

  // ----- the servicer ----------------------------------------------------------------------------

  class RegistryServicer {
    var peers: map<PeerId, string>
    var owners: map<ShareId, PeerId>
    var members: map<Member, Permission>
    var anns: map<Member, Announcement>
    var log: seq<Event>
    const limiter: RateLimiter.Limiter

    ghost function View(): Reg
      reads this
    {
      Reg(peers, owners, members, anns, log)
    }

    constructor (limiter: RateLimiter.Limiter)
      ensures View() == Reg(map[], map[], map[], map[], []) && this.limiter == limiter
    {
      peers, owners, members, anns, log := map[], map[], map[], map[], [];
      this.limiter := limiter;
    }

    method RegisterPeer(peer: PeerId, name: string, sigOk: bool) returns (status: Status)
      modifies this
      ensures (status, View()) == Register(old(View()), peer, name, sigOk)
    {
      if !sigOk {
        return Unauthenticated;
      }
      peers := peers[peer := name];
      status := Ok;
    }

    method CreateNewShare(caller: Caller, share: ShareId, sigOk: bool) returns (status: Status)
      modifies this
      ensures (status, View()) == CreateShare(old(View()), caller, share, sigOk)
    {
      if caller.None? || caller.value !in peers {
        return Unauthenticated;
      }
      if !sigOk {
        return Unauthenticated;
      }
      if share in owners {
        return AlreadyExists;
      }
      owners := owners[share := caller.value];
      members := members[(share, caller.value) := ReadWrite];
      status := Ok;
    }

    method RequireOwner(caller: Caller, share: ShareId) returns (status: Status)
      ensures status == OwnerCheck(View(), caller, share)
    {
      if caller.None? || caller.value !in peers {
        return Unauthenticated;
      }
      if share !in owners {
        return NotFound;
      }
      if owners[share] != caller.value {
        return PermissionDenied;
      }
      status := Ok;
    }

    method AddPeerToShare(caller: Caller, share: ShareId, peer: PeerId, perm: Permission) returns (status: Status)
      modifies this
      ensures (status, View()) == AddPeer(old(View()), caller, share, peer, perm)
    {
      status := RequireOwner(caller, share);
      if status != Ok {
        return;
      }
      if peer !in peers {
        return NotFound;
      }
      members := members[(share, peer) := perm];
    }

    method RemovePeerFromShare(caller: Caller, share: ShareId, peer: PeerId) returns (status: Status)
      modifies this
      ensures (status, View()) == RemovePeer(old(View()), caller, share, peer)
    {
      status := RequireOwner(caller, share);
      if status != Ok {
        return;
      }
      if peer == caller.value {
        return InvalidArgument;
      }
      members := members - {(share, peer)};
      anns := anns - {(share, peer)};
      log := log + [Event(share, Removed, peer, [], "")];
    }

    method SetSharePolicy(caller: Caller, share: ShareId) returns (status: Status)
      modifies this
      ensures (status, View()) == SetPolicy(old(View()), caller, share)
    {
      status := RequireOwner(caller, share);
      if status == Ok {
        log := log + [Event(share, PolicyUpdated, "", [], "")];
      }
    }

    /** The limiter is charged only for a caller that passed every other check. */
    method AnnouncePeer(caller: Caller, r: Request, sigOk: bool, now: real, clock: real) returns (status: Status)
      modifies this, limiter
      ensures var checked := AnnounceCheck(old(View()), caller, r, sigOk) == Ok;
              var answer := RateLimiter.Ask(limiter.config, old(limiter.buckets), (r.peer, r.share), clock);
              && (status, View()) == Announce(old(View()), caller, r, sigOk, answer.0, now)
              && limiter.buckets == if checked then answer.1 else old(limiter.buckets)
    {
      if caller.None? || caller.value !in peers {
        status := Unauthenticated;
      } else if caller.value != r.peer {
        status := PermissionDenied;
      } else if !sigOk {
        status := Unauthenticated;
      } else if (r.share, r.peer) !in members {
        status := PermissionDenied;
      } else {
        var allowed, retryAfter := limiter.IsAllowed((r.peer, r.share), clock);
        if !allowed {
          return ResourceExhausted;
        }
        var m := (r.share, r.peer);
        var expires := now + Ttl(r.ttl) as real;
        var wasOnline := false;
        if m in anns {
          wasOnline := anns[m].expiresAt > now;
          var hash := if r.infoHash != "" then r.infoHash else anns[m].infoHash;
          anns := anns[m := Announcement(r.internal, r.external, hash, now, expires)];
        } else {
          anns := anns[m := Announcement(r.internal, r.external, r.infoHash, now, expires)];
        }
        var addrs := WithExternal(r.internal, r.external);
        log := log + [Event(r.share, if wasOnline then Updated else Online, r.peer, addrs, r.infoHash)];
        status := Ok;
      }
    }

    method Sweep(now: real) returns (ghost order: seq<Member>)
      modifies this
      ensures Expired(old(View()), now, order) && View() == ExpireAll(old(View()), order)
    {
      var todo := set m | m in anns && anns[m].expiresAt <= now;
      ghost var all := todo;
      order := [];
      while todo != {}
        invariant forall m :: m in all <==> m in order || m in todo
        invariant forall m :: m in order ==> m !in todo
        invariant forall i, j :: 0 <= i < j < |order| ==> order[i] != order[j]
        invariant View() == ExpireAll(old(View()), order)
        decreases todo
      {
        var m :| m in todo;
        todo := todo - {m};
        assert (order + [m])[..|order|] == order;
        order := order + [m];
        anns := anns - {m};
        if m in members {
          log := log + [Event(m.0, Offline, m.1, [], "")];
        }
      }
    }
  }
}
