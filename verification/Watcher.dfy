/**
 Debouncing of file events for one share (daemon/daemon/watcher/fs.py:47-140). Observer
 threads call `_debounce`; every timer that fires runs `_flush` on a thread of its own, and
 a timer that has fired can no longer be cancelled, so several flushes can be under way at
 once. Each section under the lock, each report and each reading of the clock is one step.
 */
module Watcher {
  import opened Wrappers

  const DEBOUNCE := 0.5

  type Path = string

  datatype Kind = Created | Modified | Deleted | Moved

  datatype Touch = Touch(kind: Kind, dest: Option<Path>, deadline: real)

  datatype Report = Report(path: Path, kind: Kind, dest: Option<Path>)

  datatype Flush =
    | Fired                                                // past cancelling, the clock is not read yet
    | Started(now: real)                                   // the clock is read, the lock is not taken yet
    | Reporting(left: map<Path, Touch>, again: bool)
    | Done

  /** `armed` is when the timer is due, if one is waiting. */
  datatype Handler = Handler(
    clock: real, pending: map<Path, Touch>, armed: Option<real>, flushes: seq<Flush>, emitted: seq<Report>)

  datatype Step =
    | Tick(dt: real)
    | Debounce(path: Path, kind: Kind, dest: Option<Path>, read: real)
    | Fire
    | ReadClock(id: nat)
    | Collect(id: nat)
    | Emit(id: nat, path: Path)
    | Finish(id: nat)

  // ----- steps ------------------------------------------------------------------------------------

  function Ready(pending: map<Path, Touch>, now: real): map<Path, Touch> {
    map p | p in pending && pending[p].deadline <= now :: pending[p]
  }

  predicate Deletes(pending: map<Path, Touch>, path: Path) {
    path in pending && pending[path].kind == Deleted
  }

  function Reschedule(h: Handler): Handler {
    h.(armed := Some(h.clock + DEBOUNCE))
  }

  function ReportOf(p: Path, t: Touch): Report {
    Report(p, t.kind, t.dest)
  }

  predicate Enabled(h: Handler, s: Step) {
    match s
    case Tick(dt) => dt >= 0.0
    case Debounce(_, _, _, read) => read <= h.clock
    case Fire => h.armed.Some? && h.armed.value <= h.clock
    case ReadClock(id) => id < |h.flushes| && h.flushes[id].Fired?
    case Collect(id) => id < |h.flushes| && h.flushes[id].Started?
    case Emit(id, path) => id < |h.flushes| && h.flushes[id].Reporting? && path in h.flushes[id].left
    case Finish(id) => id < |h.flushes| && h.flushes[id].Reporting? && h.flushes[id].left == map[]
  }

  function Take(h: Handler, s: Step): Handler
    requires Enabled(h, s)
  {
    match s
    case Tick(dt) => h.(clock := h.clock + dt)
    case Debounce(path, kind, dest, read) =>
      if Deletes(h.pending, path) then h
      else Reschedule(h.(pending := h.pending[path := Touch(kind, dest, read + DEBOUNCE)]))
    case Fire => h.(armed := None, flushes := h.flushes + [Fired])
    case ReadClock(id) => h.(flushes := h.flushes[id := Started(h.clock)])
    case Collect(id) =>
      var ready := Ready(h.pending, h.flushes[id].now);
      var rest := h.pending - ready.Keys;
      h.(pending := rest, flushes := h.flushes[id := Reporting(ready, rest != map[])])
    case Emit(id, path) =>
      var f := h.flushes[id];
      h.(flushes := h.flushes[id := f.(left := f.left - {path})],
         emitted := h.emitted + [ReportOf(path, f.left[path])])
    case Finish(id) =>
      var done := h.(flushes := h.flushes[id := Done]);
      if h.flushes[id].again then Reschedule(done) else done
  }

  ghost predicate IsRun(h: Handler, steps: seq<Step>)
    decreases |steps|
  {
    steps == [] || (
      var k := |steps| - 1;
      IsRun(h, steps[..k]) && Enabled(Run(h, steps[..k]), steps[k]))
  }

  function Run(h: Handler, steps: seq<Step>): Handler
    decreases |steps|
  {
    if steps == [] then h else
      var k := |steps| - 1;
      var before := Run(h, steps[..k]);
      if Enabled(before, steps[k]) then Take(before, steps[k]) else before
  }

  function Start(clock: real): Handler {
    Handler(clock, map[], None, [], [])
  }

  // ----- the handler ------------------------------------------------------------------------------

  class ShareHandler {
    var clock: real
    var pending: map<Path, Touch>
    var timer: Option<real>
    var flushes: seq<Flush>
    var emitted: seq<Report>

    ghost function View(): Handler
      reads this
    {
      Handler(clock, pending, timer, flushes, emitted)
    }

    constructor (clock: real)
      ensures View() == Start(clock)
    {
      this.clock := clock;
      pending, timer, flushes, emitted := map[], None, [], [];
    }

    /** Cancels the waiting timer, if any, and starts another. */
    method RescheduleTimer()
      modifies this`timer
      ensures View() == Reschedule(old(View()))
    {
      timer := Some(clock + DEBOUNCE);
    }

    method DebounceEvent(path: Path, kind: Kind, dest: Option<Path>, read: real)
      requires read <= clock
      modifies this`pending, this`timer
      ensures View() == Take(old(View()), Debounce(path, kind, dest, read))
    {
      if path in pending && pending[path].kind == Deleted {
        return;
      }
      pending := pending[path := Touch(kind, dest, read + DEBOUNCE)];
      RescheduleTimer();
    }

    /** The first section of a flush under the lock. */
    method CollectReady(id: nat)
      requires Enabled(View(), Collect(id))
      modifies this`pending, this`flushes
      ensures View() == Take(old(View()), Collect(id))
    {
      var ready := map p | p in pending && pending[p].deadline <= flushes[id].now :: pending[p];
      pending := pending - ready.Keys;
      flushes := flushes[id := Reporting(ready, pending != map[])];
    }

    /** Reports everything collected. Other threads may run between the reports; here none does. */
    method ReportReady(id: nat) returns (ghost steps: seq<Step>)
      requires id < |flushes| && flushes[id].Reporting?
      modifies this`flushes, this`emitted
      ensures IsRun(old(View()), steps) && View() == Run(old(View()), steps)
      ensures flushes == old(flushes)[id := Reporting(map[], old(flushes)[id].again)]
      ensures |emitted| == |old(emitted)| + |old(flushes)[id].left|
    {
      steps := [];
      while flushes[id].left != map[]
        invariant id < |flushes| && flushes[id].Reporting?
        invariant flushes == old(flushes)[id := Reporting(flushes[id].left, old(flushes)[id].again)]
        invariant IsRun(old(View()), steps) && View() == Run(old(View()), steps)
        invariant |emitted| + |flushes[id].left| == |old(emitted)| + |old(flushes)[id].left|
        decreases |flushes[id].left|
      {
        var path :| path in flushes[id].left;
        ghost var left := flushes[id].left;
        ghost var next := steps + [Emit(id, path)];
        assert next[..|steps|] == steps;
        emitted := emitted + [ReportOf(path, flushes[id].left[path])];
        flushes := flushes[id := flushes[id].(left := flushes[id].left - {path})];
        assert left == flushes[id].left[path := left[path]];
        steps := next;
      }
    }

    /** The end of a flush: re-arm if something was still pending when it collected. */
    method FinishFlush(id: nat)
      requires Enabled(View(), Finish(id))
      modifies this`timer, this`flushes
      ensures View() == Take(old(View()), Finish(id))
    {
      var again := flushes[id].again;
      flushes := flushes[id := Done];
      if again {
        RescheduleTimer();
      }
    }
  }

  // ----- nothing pending is forgotten ------------------------------------------------------------------

  /** A flush that has not collected yet, or that will re-arm the timer. */
  predicate WillLook(f: Flush) {
    f.Fired? || f.Started? || (f.Reporting? && f.again)
  }

  ghost predicate Watched(h: Handler) {
    h.pending != map[] ==> h.armed.Some? || exists i :: 0 <= i < |h.flushes| && WillLook(h.flushes[i])
  }

  /** A waiting timer is due no earlier than anything pending. */
  ghost predicate Covers(h: Handler) {
    && (forall p :: p in h.pending ==> h.pending[p].deadline <= h.clock + DEBOUNCE)
    && (h.armed.Some? ==> forall p :: p in h.pending ==> h.pending[p].deadline <= h.armed.value)
  }

  lemma TakeKeepsWatched(h: Handler, s: Step)
    requires Watched(h) && Enabled(h, s)
    ensures Watched(Take(h, s))
  {
    var g := Take(h, s);
    if g.pending != map[] && g.armed.None? {
      match s
      case Fire => assert WillLook(g.flushes[|h.flushes|]);
      case ReadClock(id) => assert WillLook(g.flushes[id]);
      case Collect(id) => assert WillLook(g.flushes[id]);
      case _ =>
        assert h.pending != map[] && h.armed.None?;
        var i :| 0 <= i < |h.flushes| && WillLook(h.flushes[i]);
        assert WillLook(g.flushes[i]);
    }
  }

  lemma TakeKeepsCovers(h: Handler, s: Step)
    requires Covers(h) && Enabled(h, s)
    ensures Covers(Take(h, s))
  {
  }

  lemma {:induction false} RunWatched(clock: real, steps: seq<Step>)
    requires IsRun(Start(clock), steps)
    ensures Watched(Run(Start(clock), steps)) && Covers(Run(Start(clock), steps))
    decreases |steps|
  {
    if steps != [] {
      var k := |steps| - 1;
      RunWatched(clock, steps[..k]);
      TakeKeepsWatched(Run(Start(clock), steps[..k]), steps[k]);
      TakeKeepsCovers(Run(Start(clock), steps[..k]), steps[k]);
    }
  }

  /**
   Main result: in every interleaving, while something is pending a timer is waiting or a
   flush is about to look or to re-arm one; and a timer that fires now collects everything
   that is pending now.
   */
  lemma NothingForgotten(clock: real, steps: seq<Step>)
    requires IsRun(Start(clock), steps)
    ensures var h := Run(Start(clock), steps);
            && (h.pending != map[] ==>
                  h.armed.Some? || exists i :: 0 <= i < |h.flushes| && WillLook(h.flushes[i]))
            && (Enabled(h, Fire) ==>
                  var i := |h.flushes|;
                  var g := Take(Take(h, Fire), ReadClock(i));
                  && Enabled(g, Collect(i))
                  && Take(g, Collect(i)).pending == map[]
                  && Take(g, Collect(i)).flushes[i] == Reporting(h.pending, false))
  {
    RunWatched(clock, steps);
    var h := Run(Start(clock), steps);
    if Enabled(h, Fire) {
      assert Ready(h.pending, h.clock) == h.pending;
      assert h.pending - h.pending.Keys == map[];
    }
  }

  // ----- what is reported ----------------------------------------------------------------------------------

  /** The events of each path since it was last collected, and a report for each batch that was. */
  datatype Batches = Batches(open: map<Path, seq<Touch>>, closed: multiset<Report>)

  ghost predicate HasDelete(batch: seq<Touch>) {
    exists i :: 0 <= i < |batch| && batch[i].kind == Deleted
  }

  function FirstDelete(batch: seq<Touch>): (t: Option<Touch>)
    ensures t.Some? <==> HasDelete(batch)
    ensures t.Some? ==> t.value in batch && t.value.kind == Deleted
  {
    if batch == [] then None
    else if batch[0].kind == Deleted then Some(batch[0])
    else
      var r := FirstDelete(batch[1..]);
      assert HasDelete(batch) <==> HasDelete(batch[1..]) by {
        if i :| 0 <= i < |batch| && batch[i].kind == Deleted { assert batch[1..][i - 1].kind == Deleted; }
        if i :| 0 <= i < |batch| - 1 && batch[1..][i].kind == Deleted { assert batch[i + 1].kind == Deleted; }
      }
      r
  }

  /**
   What one event does to what is pending: half a second after the last event of a path it is
   due, and so is the timer, unless a delete of that path is still pending.
   */
  lemma EventRestartsWait(h: Handler, path: Path, kind: Kind, dest: Option<Path>, read: real)
    requires read <= h.clock
    ensures var g, kept := Take(h, Debounce(path, kind, dest, read)), path in h.pending && h.pending[path].kind == Deleted;
            && (kept ==> g == h)
            && (!kept ==> g.armed == Some(h.clock + 0.5) && path in g.pending &&
                          g.pending[path] == Touch(kind, dest, read + 0.5))
            && (forall p :: p in h.pending && p != path ==> p in g.pending && g.pending[p] == h.pending[p])
            && g.pending.Keys == h.pending.Keys + {path}
            && g.flushes == h.flushes && g.emitted == h.emitted
  {
    if path in h.pending {
      assert h.pending.Keys + {path} == h.pending.Keys;
    }
  }

  /** The end of a flush arms the timer, half a second on, exactly when it left something pending. */
  lemma FlushRearmsIff(h: Handler, id: nat)
    requires Enabled(h, Collect(id))
    ensures var g := Take(h, Collect(id));
            && g.flushes[id].Reporting? && g.armed == h.armed
            && (g.flushes[id].again <==> exists p :: p in h.pending && h.pending[p].deadline > h.flushes[id].now)
            && (forall p :: p in g.pending <==> p in h.pending && h.pending[p].deadline > h.flushes[id].now)
            && (forall p :: p in g.flushes[id].left <==> p in h.pending && h.pending[p].deadline <= h.flushes[id].now)
    ensures forall g: Handler, again :: id < |g.flushes| && g.flushes[id] == Reporting(map[], again) ==>
              Take(g, Finish(id)) == g.(flushes := g.flushes[id := Done],
                                        armed := if again then Some(g.clock + 0.5) else g.armed)
  {
    var g := Take(h, Collect(id));
    if p :| p in h.pending && h.pending[p].deadline > h.flushes[id].now {
      assert p in g.pending;
    }
    if g.pending != map[] {
      var p :| p in g.pending;
      assert h.pending[p].deadline > h.flushes[id].now;
    }
  }

  /** A delete settles a batch; otherwise its latest event does. */
  function Deciding(batch: seq<Touch>): (t: Touch)
    requires batch != []
    ensures t in batch
    ensures HasDelete(batch) ==> t.kind == Deleted
    ensures !HasDelete(batch) ==> t == batch[|batch| - 1]
  {
    var d := FirstDelete(batch);
    if d.Some? then d.value else batch[|batch| - 1]
  }

  ghost predicate Proper(b: Batches) {
    forall p :: p in b.open ==> b.open[p] != []
  }

  function Reports(m: map<Path, Touch>): multiset<Report> {
    multiset(set p | p in m :: Report(p, m[p].kind, m[p].dest))
  }

  ghost function Decided(b: Batches, now: real): map<Path, Touch>
    requires Proper(b)
  {
    map p | p in b.open && Deciding(b.open[p]).deadline <= now :: Deciding(b.open[p])
  }

  ghost function Follow(b: Batches, h: Handler, s: Step): Batches
    requires Proper(b) && Enabled(h, s)
  {
    match s
    case Debounce(path, kind, dest, read) =>
      var before := if path in b.open then b.open[path] else [];
      b.(open := b.open[path := before + [Touch(kind, dest, read + DEBOUNCE)]])
    case Collect(id) =>
      var due := Decided(b, h.flushes[id].now);
      Batches(b.open - due.Keys, b.closed + Reports(due))
    case _ => b
  }

  ghost function History(clock: real, steps: seq<Step>): (b: Batches)
    requires IsRun(Start(clock), steps)
    ensures Proper(b)
    decreases |steps|
  {
    if steps == [] then Batches(map[], multiset{}) else
      var k := |steps| - 1;
      Follow(History(clock, steps[..k]), Run(Start(clock), steps[..k]), steps[k])
  }

  function Held(f: Flush): multiset<Report> {
    if f.Reporting? then Reports(f.left) else multiset{}
  }

  function InHand(fs: seq<Flush>): multiset<Report> {
    if fs == [] then multiset{} else InHand(fs[..|fs| - 1]) + Held(fs[|fs| - 1])
  }

  lemma Rearrange<T>(a: multiset<T>, b: multiset<T>, c: multiset<T>, d: multiset<T>, more: multiset<T>)
    requires a + b == c + d
    ensures (a + more) + b == (c + more) + d
  {
    forall r
      ensures ((a + more) + b)[r] == ((c + more) + d)[r]
    {
      assert (a + b)[r] == (c + d)[r];
    }
  }

  lemma {:induction false} InHandAt(fs: seq<Flush>, i: nat, f: Flush)
    requires i < |fs|
    ensures InHand(fs[i := f]) + Held(fs[i]) == InHand(fs) + Held(f)
  {
    var k := |fs| - 1;
    var next := fs[i := f];
    if i < k {
      InHandAt(fs[..k], i, f);
      assert next[..k] == fs[..k][i := f];
      Rearrange(InHand(next[..k]), Held(fs[i]), InHand(fs[..k]), Held(f), Held(fs[k]));
    } else {
      assert next[..k] == fs[..k];
    }
  }

  lemma ReportsWithout(m: map<Path, Touch>, p: Path)
    requires p in m
    ensures Reports(m) == Reports(m - {p}) + multiset{ReportOf(p, m[p])}
  {
    var left := m - {p};
    var all := set q | q in m :: Report(q, m[q].kind, m[q].dest);
    var rest := set q | q in left :: Report(q, left[q].kind, left[q].dest);
    forall r | r in all
      ensures r in rest || r == ReportOf(p, m[p])
    {
      var q :| q in m && r == Report(q, m[q].kind, m[q].dest);
      assert q != p ==> q in left;
    }
    assert all == rest + {ReportOf(p, m[p])};
    assert ReportOf(p, m[p]) !in rest;
  }

  ghost predicate Mirrors(h: Handler, b: Batches)
    requires Proper(b)
  {
    && h.pending.Keys == b.open.Keys
    && forall p :: p in h.pending ==> h.pending[p] == Deciding(b.open[p])
  }

  ghost predicate Accounted(h: Handler, b: Batches) {
    multiset(h.emitted) + InHand(h.flushes) == b.closed
  }

  lemma {:induction false} FirstDeleteStays(batch: seq<Touch>, t: Touch)
    ensures FirstDelete(batch + [t]) ==
      if FirstDelete(batch).Some? then FirstDelete(batch) else if t.kind == Deleted then Some(t) else None
  {
    if batch == [] {
      assert ([t])[1..] == [];
    } else {
      FirstDeleteStays(batch[1..], t);
      assert (batch + [t])[1..] == batch[1..] + [t];
    }
  }

  /** One more event in a batch: the handler's rule is the rule of the batch. */
  lemma DecidingGrows(batch: seq<Touch>, t: Touch)
    ensures Deciding(batch + [t]) == if batch != [] && Deciding(batch).kind == Deleted then Deciding(batch) else t
  {
    FirstDeleteStays(batch, t);
    if batch != [] && Deciding(batch).kind == Deleted {
      assert HasDelete(batch);
    }
  }

  lemma TakeKeepsMirror(h: Handler, b: Batches, s: Step)
    requires Proper(b) && Mirrors(h, b) && Enabled(h, s)
    ensures Mirrors(Take(h, s), Follow(b, h, s))
  {
    if s.Debounce? {
      var before := if s.path in b.open then b.open[s.path] else [];
      DecidingGrows(before, Touch(s.kind, s.dest, s.read + DEBOUNCE));
    }
  }

  lemma Collected(h: Handler, b: Batches, id: nat)
    requires Proper(b) && Mirrors(h, b) && Enabled(h, Collect(id))
    ensures Take(h, Collect(id)).flushes[id].left == Decided(b, h.flushes[id].now)
  {
  }

  lemma CollectAccount(h: Handler, b: Batches, id: nat)
    requires Proper(b) && Mirrors(h, b) && Accounted(h, b) && Enabled(h, Collect(id))
    ensures Accounted(Take(h, Collect(id)), Follow(b, h, Collect(id)))
  {
    var g := Take(h, Collect(id));
    var due := Reports(Decided(b, h.flushes[id].now));
    InHandAt(h.flushes, id, g.flushes[id]);
    Collected(h, b, id);
    Settle(multiset(h.emitted), InHand(h.flushes), InHand(g.flushes), due, b.closed);
  }

  lemma Settle<T>(emitted: multiset<T>, hand: multiset<T>, hand': multiset<T>, due: multiset<T>, closed: multiset<T>)
    requires emitted + hand == closed && hand' + multiset{} == hand + due
    ensures emitted + hand' == closed + due
  {
    Rearrange(emitted, hand, closed, multiset{}, due);
    assert hand' == hand + due;
  }

  lemma EmitAccount(h: Handler, b: Batches, id: nat, path: Path)
    requires Accounted(h, b) && Enabled(h, Emit(id, path))
    ensures Accounted(Take(h, Emit(id, path)), b)
  {
    var g := Take(h, Emit(id, path));
    InHandAt(h.flushes, id, g.flushes[id]);
    ReportsWithout(h.flushes[id].left, path);
    assert multiset(g.emitted) == multiset(h.emitted) + multiset{ReportOf(path, h.flushes[id].left[path])};
    Cancel(InHand(g.flushes), Held(g.flushes[id]), multiset{ReportOf(path, h.flushes[id].left[path])}, InHand(h.flushes));
  }

  lemma Cancel<T>(a: multiset<T>, b: multiset<T>, c: multiset<T>, d: multiset<T>)
    requires a + (b + c) == d + b
    ensures a + c == d
  {
    forall r
      ensures (a + c)[r] == d[r]
    {
      assert (a + (b + c))[r] == (d + b)[r];
    }
  }

  lemma FinishAccount(h: Handler, b: Batches, id: nat)
    requires Accounted(h, b) && Enabled(h, Finish(id))
    ensures Accounted(Take(h, Finish(id)), b)
  {
    var fs := h.flushes[id := Done];
    InHandAt(h.flushes, id, Done);
    assert Held(h.flushes[id]) == multiset{};
    Cancel(InHand(fs), multiset{}, multiset{}, InHand(h.flushes));
    assert InHand(fs) == InHand(h.flushes);
    assert Take(h, Finish(id)).flushes == fs;
  }

  lemma ReadAccount(h: Handler, b: Batches, id: nat)
    requires Accounted(h, b) && Enabled(h, ReadClock(id))
    ensures Accounted(Take(h, ReadClock(id)), b)
  {
    var fs := h.flushes[id := Started(h.clock)];
    InHandAt(h.flushes, id, Started(h.clock));
    Cancel(InHand(fs), multiset{}, multiset{}, InHand(h.flushes));
    assert InHand(fs) == InHand(h.flushes);
    assert Take(h, ReadClock(id)).flushes == fs;
  }

  lemma TakeKeepsAccount(h: Handler, b: Batches, s: Step)
    requires Proper(b) && Mirrors(h, b) && Accounted(h, b) && Enabled(h, s)
    ensures Accounted(Take(h, s), Follow(b, h, s))
  {
    match s
    case Fire =>
      assert (h.flushes + [Fired])[..|h.flushes|] == h.flushes;
    case ReadClock(id) => ReadAccount(h, b, id);
    case Collect(id) => CollectAccount(h, b, id);
    case Emit(id, path) => EmitAccount(h, b, id, path);
    case Finish(id) => FinishAccount(h, b, id);
    case _ =>
  }

  lemma {:induction false} RunFollows(clock: real, steps: seq<Step>)
    requires IsRun(Start(clock), steps)
    ensures Mirrors(Run(Start(clock), steps), History(clock, steps))
    ensures Accounted(Run(Start(clock), steps), History(clock, steps))
    decreases |steps|
  {
    if steps != [] {
      var k := |steps| - 1;
      var h, b := Run(Start(clock), steps[..k]), History(clock, steps[..k]);
      RunFollows(clock, steps[..k]);
      TakeKeepsMirror(h, b, steps[k]);
      TakeKeepsAccount(h, b, steps[k]);
    }
  }

  /**
   Main result: in every interleaving each batch that was collected has been reported once or
   is in the hands of one flush, as deleted if it had a delete and as its latest event
   otherwise; and what is pending is exactly the open batches.
   */
  lemma EveryBatchOnce(clock: real, steps: seq<Step>)
    requires IsRun(Start(clock), steps)
    ensures var h, b := Run(Start(clock), steps), History(clock, steps);
            && multiset(h.emitted) + InHand(h.flushes) == b.closed
            && h.pending.Keys == b.open.Keys
            && forall p :: p in b.open ==> h.pending[p] == Deciding(b.open[p])
  {
    RunFollows(clock, steps);
  }

  lemma {:induction false} NothingInHand(fs: seq<Flush>)
    requires forall i :: 0 <= i < |fs| ==> !(fs[i].Reporting? && fs[i].left != map[])
    ensures InHand(fs) == multiset{}
  {
    if fs != [] {
      NothingInHand(fs[..|fs| - 1]);
    }
  }

  /** Main result: once no timer waits and every flush has ended, every event belongs to a batch reported once. */
  lemma AtRestAllReported(clock: real, steps: seq<Step>)
    requires IsRun(Start(clock), steps)
    requires var h := Run(Start(clock), steps);
             h.armed.None? && forall i :: 0 <= i < |h.flushes| ==> h.flushes[i].Done?
    ensures var h, b := Run(Start(clock), steps), History(clock, steps);
            b.open == map[] && multiset(h.emitted) == b.closed
  {
    RunWatched(clock, steps);
    RunFollows(clock, steps);
    NothingInHand(Run(Start(clock), steps).flushes);
  }
}
