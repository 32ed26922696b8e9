/**
 Fan-out of published events to bounded subscriber queues (registry/registry/events.py).
 A full queue drops the event; publishing never waits.

 One subscriber sees an ordered subsequence of what was published for its share while it was
 subscribed, all of it exactly when nothing was dropped, and then, starting from the peers
 known when it subscribed, it holds what a replay of the whole log gives.
 */
module EventBus {
  import opened Registry
  import Presence

  const MAXSIZE := 64

  /** `taken` is what each subscriber has read from its queue so far. */
  datatype Bus = Bus(
    subscribers: map<ShareId, seq<nat>>, queues: map<nat, seq<Event>>, taken: map<nat, seq<Event>>)

  datatype Op =
    | Subscribe(id: nat, share: ShareId)
    | Unsubscribe(id: nat, share: ShareId)
    | Publish(event: Event)
    | Get(id: nat)

  function Listeners(b: Bus, share: ShareId): seq<nat> {
    if share in b.subscribers then b.subscribers[share] else []
  }

  function Put(queue: seq<Event>, e: Event): seq<Event> {
    if |queue| < MAXSIZE then queue + [e] else queue
  }

  function Without(ids: seq<nat>, id: nat): seq<nat> {
    if ids == [] then [] else if ids[0] == id then ids[1..] else [ids[0]] + Without(ids[1..], id)
  }

  function Take(b: Bus, op: Op): Bus {
    match op
    case Subscribe(id, share) =>
      if id in b.queues then b
      else b.(subscribers := b.subscribers[share := Listeners(b, share) + [id]],
              queues := b.queues[id := []],
              taken := b.taken[id := []])
    case Unsubscribe(id, share) =>
      b.(subscribers := b.subscribers[share := Without(Listeners(b, share), id)])
    case Publish(e) =>
      b.(queues := map id | id in b.queues ::
           if id in Listeners(b, e.share) then Put(b.queues[id], e) else b.queues[id])
    case Get(id) =>
      if id in b.queues && b.queues[id] != [] && id in b.taken then
        b.(queues := b.queues[id := b.queues[id][1..]], taken := b.taken[id := b.taken[id] + [b.queues[id][0]]])
      else b
  }

  function Run(b: Bus, ops: seq<Op>): Bus {
    if ops == [] then b else Take(Run(b, ops[..|ops| - 1]), ops[|ops| - 1])
  }

  const Empty := Bus(map[], map[], map[])

  predicate NoRepeat(ids: seq<nat>) {
    forall i, j :: 0 <= i < j < |ids| ==> ids[i] != ids[j]
  }

  /** Each queue is in one list, once. */
  ghost predicate Single(b: Bus) {
    && b.queues.Keys == b.taken.Keys
    && (forall s, id :: id in Listeners(b, s) ==> id in b.queues)
    && (forall s :: NoRepeat(Listeners(b, s)))
    && (forall s, t, id :: id in Listeners(b, s) && id in Listeners(b, t) ==> s == t)
  }

  class Fanout {
    var subscribers: map<ShareId, seq<nat>>
    var queues: map<nat, seq<Event>>
    var taken: map<nat, seq<Event>>

    ghost function View(): Bus
      reads this
    {
      Bus(subscribers, queues, taken)
    }

    constructor ()
      ensures View() == Empty
    {
      subscribers, queues, taken := map[], map[], map[];
    }

    method SubscribeTo(id: nat, share: ShareId)
      requires id !in queues
      modifies this
      ensures View() == Take(old(View()), Subscribe(id, share))
    {
      var ids := if share in subscribers then subscribers[share] else [];
      subscribers := subscribers[share := ids + [id]];
      queues := queues[id := []];
      taken := taken[id := []];
    }

    method PublishEvent(e: Event)
      requires Single(View())
      modifies this`queues
      ensures View() == Take(old(View()), Publish(e))
    {
      var ids := if e.share in subscribers then subscribers[e.share] else [];
      ghost var before := queues;
      assert ids == Listeners(View(), e.share) && NoRepeat(ids);
      for i := 0 to |ids|
        invariant queues.Keys == before.Keys
        invariant forall k :: 0 <= k < i ==> queues[ids[k]] == Put(before[ids[k]], e)
        invariant forall id :: id in before && id !in ids[..i] ==> queues[id] == before[id]
      {
        var id := ids[i];
        assert id !in ids[..i];
        if |queues[id]| < MAXSIZE {
          queues := queues[id := queues[id] + [e]];
        }
      }
      assert ids[..|ids|] == ids;
      forall id | id in before
        ensures queues[id] == if id in ids then Put(before[id], e) else before[id]
      {
        if id in ids {
          var k :| 0 <= k < |ids| && ids[k] == id;
        }
      }
      assert queues == Take(old(View()), Publish(e)).queues;
    }
  }

  // ----- what one subscriber sees ----------------------------------------------------------------------

  predicate Reaches(b: Bus, op: Op, id: nat) {
    op.Publish? && id in Listeners(b, op.event.share)
  }

  predicate Full(b: Bus, id: nat) {
    id in b.queues && |b.queues[id]| >= MAXSIZE
  }

  /** Everything published for its share while it was subscribed. */
  function Offered(ops: seq<Op>, id: nat): seq<Event> {
    if ops == [] then [] else
      var k := |ops| - 1;
      var before := Run(Empty, ops[..k]);
      Offered(ops[..k], id) + if Reaches(before, ops[k], id) then [ops[k].event] else []
  }

  function Dropped(ops: seq<Op>, id: nat): nat {
    if ops == [] then 0 else
      var k := |ops| - 1;
      var before := Run(Empty, ops[..k]);
      Dropped(ops[..k], id) + if Reaches(before, ops[k], id) && Full(before, id) then 1 else 0
  }

  /** What it has read and what waits in its queue. */
  function Seen(b: Bus, id: nat): seq<Event> {
    if id in b.queues && id in b.taken then b.taken[id] + b.queues[id] else []
  }

  ghost predicate Subsequence(a: seq<Event>, b: seq<Event>)
    decreases |b|
  {
    a == [] || (b != [] && (
      || (a[|a| - 1] == b[|b| - 1] && Subsequence(a[..|a| - 1], b[..|b| - 1]))
      || Subsequence(a, b[..|b| - 1])))
  }

  lemma {:induction false} WithoutKeeps(ids: seq<nat>, id: nat)
    requires NoRepeat(ids)
    ensures forall x :: x in Without(ids, id) ==> x in ids
    ensures NoRepeat(Without(ids, id))
  {
    if ids != [] && ids[0] != id {
      WithoutKeeps(ids[1..], id);
      assert ids[0] !in Without(ids[1..], id);
    }
  }

  lemma ListenersAfter(b: Bus, op: Op, share: ShareId)
    ensures Listeners(Take(b, op), share) ==
      match op
      case Subscribe(id, s) => if id !in b.queues && s == share then Listeners(b, share) + [id] else Listeners(b, share)
      case Unsubscribe(id, s) => if s == share then Without(Listeners(b, share), id) else Listeners(b, share)
      case _ => Listeners(b, share)
  {
  }

  /** Who listens after a step listened before, unless it is the new queue. */
  lemma ListenerFrom(b: Bus, op: Op, share: ShareId)
    requires Single(b)
    ensures NoRepeat(Listeners(Take(b, op), share))
    ensures forall id :: id in Listeners(Take(b, op), share) ==>
              id in Listeners(b, share) || (op == Subscribe(id, share) && id !in b.queues)
  {
    ListenersAfter(b, op, share);
    assert NoRepeat(Listeners(b, share));
    if op.Unsubscribe? {
      WithoutKeeps(Listeners(b, share), op.id);
    }
  }

  lemma QueuesStay(b: Bus, op: Op)
    requires Single(b)
    ensures var c := Take(b, op); b.queues.Keys <= c.queues.Keys && c.queues.Keys == c.taken.Keys
    ensures op.Subscribe? ==> op.id in Take(b, op).queues
  {
  }

  lemma TakeKeepsSingle(b: Bus, op: Op)
    requires Single(b)
    ensures Single(Take(b, op))
  {
    QueuesStay(b, op);
    forall s
      ensures NoRepeat(Listeners(Take(b, op), s))
    {
      ListenerFrom(b, op, s);
    }
    forall s, id | id in Listeners(Take(b, op), s)
      ensures id in Take(b, op).queues
    {
      ListenerFrom(b, op, s);
    }
    forall s, t, id | id in Listeners(Take(b, op), s) && id in Listeners(Take(b, op), t)
      ensures s == t
    {
      ListenerFrom(b, op, s);
      ListenerFrom(b, op, t);
    }
  }

  lemma {:induction false} RunKeepsSingle(ops: seq<Op>)
    ensures Single(Run(Empty, ops))
  {
    if ops != [] {
      RunKeepsSingle(ops[..|ops| - 1]);
      TakeKeepsSingle(Run(Empty, ops[..|ops| - 1]), ops[|ops| - 1]);
    }
  }

  /** One operation adds at most the published event to what a subscriber sees. */
  lemma SeenStep(b: Bus, op: Op, id: nat)
    requires Single(b)
    ensures Seen(Take(b, op), id) ==
            Seen(b, id) +
              if Reaches(b, op, id) && !Full(b, id) then [op.event] else []
  {
    if op.Get? && op.id == id && id in b.queues && b.queues[id] != [] {
      assert b.queues[id] == [b.queues[id][0]] + b.queues[id][1..];
    }
  }

  lemma SubsequenceMore(a: seq<Event>, b: seq<Event>, e: Event)
    requires Subsequence(a, b)
    ensures Subsequence(a, b + [e]) && Subsequence(a + [e], b + [e])
  {
    assert (b + [e])[..|b|] == b && (a + [e])[..|a|] == a;
  }

  lemma OneOffer(seen: seq<Event>, offered: seq<Event>, dropped: nat, e: Event, full: bool)
    requires Subsequence(seen, offered) && |offered| == |seen| + dropped
    ensures var seen', offered', dropped' :=
              seen + (if full then [] else [e]), offered + [e], dropped + if full then 1 else 0;
            Subsequence(seen', offered') && |offered'| == |seen'| + dropped'
  {
    SubsequenceMore(seen, offered, e);
    assert seen + [] == seen;
  }

  lemma OfferedLast(ops: seq<Op>, id: nat)
    requires ops != [] && Reaches(Run(Empty, ops[..|ops| - 1]), ops[|ops| - 1], id)
    ensures var k := |ops| - 1;
            && Offered(ops, id) == Offered(ops[..k], id) + [ops[k].event]
            && Dropped(ops, id) == Dropped(ops[..k], id) + if Full(Run(Empty, ops[..k]), id) then 1 else 0
  {
  }

  lemma OfferedSame(ops: seq<Op>, id: nat)
    requires ops != [] && !Reaches(Run(Empty, ops[..|ops| - 1]), ops[|ops| - 1], id)
    ensures Offered(ops, id) == Offered(ops[..|ops| - 1], id) && Dropped(ops, id) == Dropped(ops[..|ops| - 1], id)
  {
  }

  lemma {:induction false} SeenOffered(ops: seq<Op>, id: nat)
    ensures Subsequence(Seen(Run(Empty, ops), id), Offered(ops, id))
    ensures |Offered(ops, id)| == |Seen(Run(Empty, ops), id)| + Dropped(ops, id)
  {
    if ops != [] {
      var front, op := ops[..|ops| - 1], ops[|ops| - 1];
      var before := Run(Empty, front);
      SeenOffered(front, id);
      RunKeepsSingle(front);
      SeenStep(before, op, id);
      if Reaches(before, op, id) {
        OfferedLast(ops, id);
        OneOffer(Seen(before, id), Offered(front, id), Dropped(front, id), op.event, Full(before, id));
      } else {
        OfferedSame(ops, id);
        assert Seen(before, id) + [] == Seen(before, id);
      }
    }
  }

  lemma {:induction false} SubsequenceShorter(a: seq<Event>, b: seq<Event>)
    requires Subsequence(a, b)
    ensures |a| <= |b| && (|a| == |b| ==> a == b)
    decreases |b|
  {
    if a != [] {
      var a', b' := a[..|a| - 1], b[..|b| - 1];
      assert a == a' + [a[|a| - 1]] && b == b' + [b[|b| - 1]];
      if a[|a| - 1] == b[|b| - 1] && Subsequence(a', b') {
        SubsequenceShorter(a', b');
      } else {
        SubsequenceShorter(a, b');
      }
    }
  }

  /** Main result: a subscriber sees what it was offered, in order, and all of it exactly when nothing was dropped. */
  lemma SubscriberSees(ops: seq<Op>, id: nat)
    ensures Subsequence(Seen(Run(Empty, ops), id), Offered(ops, id))
    ensures Seen(Run(Empty, ops), id) == Offered(ops, id) <==> Dropped(ops, id) == 0
  {
    SeenOffered(ops, id);
    SubsequenceShorter(Seen(Run(Empty, ops), id), Offered(ops, id));
  }

  // ----- who is offered what --------------------------------------------------------------------------------

  predicate Created(ops: seq<Op>, id: nat) {
    ops != [] && (Created(ops[..|ops| - 1], id) || (ops[|ops| - 1].Subscribe? && ops[|ops| - 1].id == id))
  }

  /** From the operations alone: the queue was created for this share and has not been unsubscribed from it since. */
  predicate Subscribed(ops: seq<Op>, id: nat, share: ShareId) {
    ops != [] && (
      var front, op := ops[..|ops| - 1], ops[|ops| - 1];
      if op == Unsubscribe(id, share) then false
      else Subscribed(front, id, share) || (op == Subscribe(id, share) && !Created(front, id)))
  }

  lemma {:induction false} WithoutGone(ids: seq<nat>, id: nat)
    requires NoRepeat(ids)
    ensures id !in Without(ids, id)
  {
    if ids != [] && ids[0] != id {
      WithoutGone(ids[1..], id);
    }
  }

  lemma {:induction false} QueueIffCreated(ops: seq<Op>, id: nat)
    ensures id in Run(Empty, ops).queues <==> Created(ops, id)
  {
    if ops != [] {
      QueueIffCreated(ops[..|ops| - 1], id);
    }
  }

  /** Main result: the listeners of a share are the queues that were subscribed to it and have not left. */
  lemma {:induction false} ListeningIff(ops: seq<Op>, id: nat, share: ShareId)
    ensures id in Listeners(Run(Empty, ops), share) <==> Subscribed(ops, id, share)
  {
    if ops != [] {
      var front, op := ops[..|ops| - 1], ops[|ops| - 1];
      var before := Run(Empty, front);
      ListeningIff(front, id, share);
      QueueIffCreated(front, id);
      RunKeepsSingle(front);
      ListenersAfter(before, op, share);
      if op.Unsubscribe? && op.share == share {
        LeavingOnlyRemoves(Listeners(before, share), op.id, id);
      }
    }
  }

  lemma LeavingOnlyRemoves(ids: seq<nat>, gone: nat, id: nat)
    requires NoRepeat(ids)
    ensures id in Without(ids, gone) <==> id in ids && id != gone
  {
    WithoutKeeps(ids, gone);
    WithoutGone(ids, gone);
    if id in ids && id != gone {
      WithoutOther(ids, id, gone);
    }
  }

  /** The events published while the queue was subscribed to their share. */
  function PublishedWhileSubscribed(ops: seq<Op>, id: nat): seq<Event> {
    if ops == [] then [] else
      var front, op := ops[..|ops| - 1], ops[|ops| - 1];
      PublishedWhileSubscribed(front, id) +
        if op.Publish? && Subscribed(front, id, op.event.share) then [op.event] else []
  }

  /** Main result: a queue is offered exactly what is published while it is subscribed. */
  lemma {:induction false} OfferedIsPublished(ops: seq<Op>, id: nat)
    ensures Offered(ops, id) == PublishedWhileSubscribed(ops, id)
  {
    if ops != [] {
      var front, op := ops[..|ops| - 1], ops[|ops| - 1];
      OfferedIsPublished(front, id);
      if op.Publish? {
        ListeningIff(front, id, op.event.share);
      }
    }
  }

  // ----- from a snapshot on --------------------------------------------------------------------------------

  /** What the operations from the n-th on publish. */
  function PublishedFrom(ops: seq<Op>, n: nat): seq<Event> {
    if |ops| <= n then [] else
      PublishedFrom(ops[..|ops| - 1], n) + if ops[|ops| - 1].Publish? then [ops[|ops| - 1].event] else []
  }

  /** Events applied in order to what was known before. */
  function Watch(seen: Presence.Online, events: seq<Event>, share: ShareId): Presence.Online {
    if events == [] then seen
    else Presence.Apply(Watch(seen, events[..|events| - 1], share), events[|events| - 1], share)
  }

  lemma WatchOne(seen: Presence.Online, events: seq<Event>, e: Event, share: ShareId)
    ensures Watch(seen, events + [e], share) == Presence.Apply(Watch(seen, events, share), e, share)
  {
    assert (events + [e])[..|events|] == events;
  }

  predicate Listening(ops: seq<Op>, id: nat, share: ShareId) {
    id in Listeners(Run(Empty, ops), share)
  }

  /** Subscribed by the first n operations, offered nothing yet, and subscribed ever since. */
  ghost predicate JoinedAt(ops: seq<Op>, n: nat, id: nat, share: ShareId) {
    && n <= |ops|
    && Listening(ops[..n], id, share)
    && Offered(ops[..n], id) == []
    && forall i :: n <= i < |ops| ==> ops[i] != Unsubscribe(id, share)
  }

  lemma {:induction false} WithoutOther(ids: seq<nat>, id: nat, other: nat)
    requires id in ids && other != id
    ensures id in Without(ids, other)
  {
    if ids[0] != other && ids[0] != id {
      WithoutOther(ids[1..], id, other);
    }
  }

  lemma TakeStays(b: Bus, op: Op, id: nat, share: ShareId)
    requires id in Listeners(b, share) && op != Unsubscribe(id, share)
    ensures id in Listeners(Take(b, op), share)
  {
    if op.Unsubscribe? && op.share == share {
      WithoutOther(Listeners(b, share), id, op.id);
    }
  }

  lemma JoinedBefore(ops: seq<Op>, n: nat, id: nat, share: ShareId)
    requires JoinedAt(ops, n, id, share) && n < |ops|
    ensures JoinedAt(ops[..|ops| - 1], n, id, share)
  {
    assert ops[..|ops| - 1][..n] == ops[..n];
  }

  lemma {:induction false} StaysListening(ops: seq<Op>, n: nat, id: nat, share: ShareId)
    requires JoinedAt(ops, n, id, share)
    ensures Listening(ops, id, share)
  {
    if |ops| == n {
      assert ops[..n] == ops;
    } else {
      var k := |ops| - 1;
      JoinedBefore(ops, n, id, share);
      StaysListening(ops[..k], n, id, share);
      TakeStays(Run(Empty, ops[..k]), ops[k], id, share);
    }
  }

  lemma OnlyOneShare(ops: seq<Op>, id: nat, s: ShareId, t: ShareId)
    requires Listening(ops, id, s)
    ensures Listening(ops, id, t) <==> s == t
  {
    RunKeepsSingle(ops);
  }

  /** While it is subscribed a subscriber is offered the events of its share and no others. */
  lemma OfferedNext(ops: seq<Op>, id: nat, share: ShareId)
    requires ops != [] && Listening(ops[..|ops| - 1], id, share)
    ensures var k := |ops| - 1;
            Offered(ops, id) ==
              Offered(ops[..k], id) + if ops[k].Publish? && ops[k].event.share == share then [ops[k].event] else []
  {
    var k := |ops| - 1;
    if ops[k].Publish? {
      OnlyOneShare(ops[..k], id, share, ops[k].event.share);
    }
    if Reaches(Run(Empty, ops[..k]), ops[k], id) {
      OfferedLast(ops, id);
    } else {
      OfferedSame(ops, id);
      assert Offered(ops[..k], id) + [] == Offered(ops[..k], id);
    }
  }

  /** Applying what was offered gives what a replay of everything published gives. */
  ghost predicate Agree(offered: seq<Event>, published: seq<Event>, share: ShareId, log: seq<Event>) {
    Watch(Presence.Replay(log, share), offered, share) == Presence.Replay(log + published, share)
  }

  /** Events of other shares change nothing it knows. */
  lemma AgreeOne(offered: seq<Event>, published: seq<Event>, e: Event, share: ShareId, log: seq<Event>)
    requires Agree(offered, published, share, log)
    ensures Agree(offered + if e.share == share then [e] else [], published + [e], share, log)
  {
    WatchOne(Presence.Replay(log, share), offered, e, share);
    Presence.ReplayOne(log + published, e, share);
    assert offered + [] == offered;
    assert log + (published + [e]) == (log + published) + [e];
  }

  lemma {:induction false} OfferedAgrees(ops: seq<Op>, n: nat, id: nat, share: ShareId, log: seq<Event>)
    requires JoinedAt(ops, n, id, share)
    ensures Agree(Offered(ops, id), PublishedFrom(ops, n), share, log)
  {
    if |ops| == n {
      assert ops[..n] == ops && log + [] == log;
    } else {
      var front, op := ops[..|ops| - 1], ops[|ops| - 1];
      JoinedBefore(ops, n, id, share);
      StaysListening(front, n, id, share);
      OfferedAgrees(front, n, id, share, log);
      OfferedNext(ops, id, share);
      if op.Publish? {
        AgreeOne(Offered(front, id), PublishedFrom(front, n), op.event, share, log);
      } else {
        assert Offered(front, id) + [] == Offered(front, id);
        assert PublishedFrom(front, n) + [] == PublishedFrom(front, n);
      }
    }
  }

  /**
   Main result: a subscriber that nothing was dropped for, and that started from the peers
   known when it subscribed, knows what a replay of the whole log gives.
   */
  lemma LosslessWatcherKnows(ops: seq<Op>, n: nat, id: nat, share: ShareId, log: seq<Event>)
    requires JoinedAt(ops, n, id, share) && Dropped(ops, id) == 0
    ensures Watch(Presence.Replay(log, share), Seen(Run(Empty, ops), id), share) ==
            Presence.Replay(log + PublishedFrom(ops, n), share)
  {
    SubscriberSees(ops, id);
    OfferedAgrees(ops, n, id, share, log);
  }
}
