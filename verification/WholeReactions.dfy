/**
 The overlapping daemon of `Interleavings` can run every whole reaction of `Coordinator`: from
 any state there is a run whose stretches, taken without a pause, end with exactly the daemon
 the whole reaction gives and with the same switches and jobs in flight as before.
 */
module WholeReactions {
  import opened Wrappers
  import opened DaemonState
  import opened Coordinator
  import opened Interleavings
  import HandleAgreement

  ghost predicate Runs(s: Sys, steps: seq<Step>)
    decreases |steps|
  {
    steps == [] || (Interleavings.Enabled(s, steps[0]) && Runs(Next(s, steps[0]), steps[1..]))
  }

  function After(s: Sys, steps: seq<Step>): Sys
    decreases |steps|
  {
    if steps == [] then s else After(Next(s, steps[0]), steps[1..])
  }

  /** A run of these steps has the effect of a whole reaction that leaves this daemon. */
  ghost predicate Gives(s: Sys, steps: seq<Step>, d: Daemon) {
    Runs(s, steps) && After(s, steps) == s.(d := d)
  }

  lemma Unfold(s: Sys, step: Step, rest: seq<Step>)
    ensures Runs(s, [step] + rest) <==> Interleavings.Enabled(s, step) && Runs(Next(s, step), rest)
    ensures After(s, [step] + rest) == After(Next(s, step), rest)
  {
    assert ([step] + rest)[1..] == rest && ([step] + rest)[0] == step;
  }

  lemma {:induction false} Compose(s: Sys, first: seq<Step>, second: seq<Step>)
    requires Runs(s, first) && Runs(After(s, first), second)
    ensures Runs(s, first + second) && After(s, first + second) == After(After(s, first), second)
    decreases |first|
  {
    if first == [] {
      assert first + second == second;
    } else {
      var step, rest := first[0], first[1..];
      assert first == [step] + rest && first + second == [step] + (rest + second);
      Unfold(s, step, rest);
      Unfold(s, step, rest + second);
      Compose(Next(s, step), rest, second);
    }
  }

  lemma OneStep(s: Sys, step: Step)
    ensures After(s, [step]) == Next(s, step) && (Interleavings.Enabled(s, step) ==> Runs(s, [step]))
  {
    assert After(Next(s, step), []) == Next(s, step);
    assert [step][1..] == [];
  }

  // ----- switches ------------------------------------------------------------------------------------

  function Tail(b: Begun, env: Env): seq<Step> {
    if b.job.Some? then [SwitchEnds(b.job.value, env)] else []
  }

  lemma SwitchWhole(s: Sys, b: Begun, env: Env)
    ensures Runs(Spawn(s, b), Tail(b, env))
    ensures After(Spawn(s, b), Tail(b, env)) == s.(d := Finish(b, env))
  {
    if b.job.Some? {
      OneStep(Spawn(s, b), SwitchEnds(b.job.value, env));
      assert s.switches + multiset{b.job.value} - multiset{b.job.value} == s.switches;
    }
  }

  lemma BegunWhole(s: Sys, step: Step, s0: Sys, b: Begun, env: Env)
    requires Interleavings.Enabled(s, step) && Next(s, step) == Spawn(s0, b) && s0 == s.(d := s0.d)
    ensures Gives(s, [step] + Tail(b, env), Finish(b, env))
  {
    OneStep(s, step);
    SwitchWhole(s0, b, env);
    Compose(s, [step], Tail(b, env));
  }

  function LanSteps(d: Daemon, peer: PeerId, e: LanEntry, env: Env): seq<Step> {
    [LanArrives(peer, e, env)] + Tail(LanBegin(d, peer, e, env), env)
  }

  lemma LanWhole(s: Sys, peer: PeerId, e: LanEntry, env: Env)
    ensures Gives(s, LanSteps(s.d, peer, e, env), Lan(s.d, peer, e, env))
  {
    BegunWhole(s, LanArrives(peer, e, env), s, LanBegin(s.d, peer, e, env), env);
  }

  function AnnouncementSteps(d: Daemon, peer: PeerId, es: seq<LanEntry>, envs: seq<Env>): seq<Step>
    requires |es| == |envs|
  {
    if es == [] then [] else
      var k := |es| - 1;
      AnnouncementSteps(d, peer, es[..k], envs[..k]) + LanSteps(LanAll(d, peer, es[..k], envs[..k]), peer, es[k], envs[k])
  }

  lemma {:induction false} AnnouncementWhole(s: Sys, peer: PeerId, es: seq<LanEntry>, envs: seq<Env>)
    requires |es| == |envs|
    ensures Gives(s, AnnouncementSteps(s.d, peer, es, envs), LanAll(s.d, peer, es, envs))
  {
    if es != [] {
      var k := |es| - 1;
      var d := LanAll(s.d, peer, es[..k], envs[..k]);
      AnnouncementWhole(s, peer, es[..k], envs[..k]);
      LanWhole(s.(d := d), peer, es[k], envs[k]);
      Compose(s, AnnouncementSteps(s.d, peer, es[..k], envs[..k]), LanSteps(d, peer, es[k], envs[k]));
    }
  }

  // ----- activations and rebuilds ----------------------------------------------------------------------

  function ActivationTail(d: Daemon, id: ShareId, scan: Scan, env: Env): seq<Step> {
    if NothingToAdd(d, id, scan) then [] else
      var first := Continues(Activating(id, scan.hasFiles, PeerHash(d, id, scan), StoredSeq(d, id)), env, scan.error);
      var lt := AddTorrent(d.lt, id, scan.hasFiles, PeerHash(d, id, scan), env);
      if env.raises then [first]
      else [first, Continues(Activated(id, scan.hasFiles, StoredSeq(d, id), lt.handles[id]), env, scan.error)]
  }

  lemma JobDone(jobs: multiset<Job>, job: Job)
    ensures jobs + multiset{job} - multiset{job} == jobs
  {
  }

  /** Two stretches one after the other. */
  lemma TwoSteps(s: Sys, first: Step, second: Step)
    requires Interleavings.Enabled(s, first) && Interleavings.Enabled(Next(s, first), second)
    ensures Runs(s, [first, second]) && After(s, [first, second]) == Next(Next(s, first), second)
  {
    OneStep(s, first);
    OneStep(Next(s, first), second);
    Compose(s, [first], [second]);
    assert [first, second] == [first] + [second];
  }

  lemma ActivationWhole(s: Sys, d: Daemon, id: ShareId, scan: Scan, env: Env)
    ensures Runs(StartActivation(s, d, id, scan), ActivationTail(d, id, scan, env))
    ensures After(StartActivation(s, d, id, scan), ActivationTail(d, id, scan, env)) ==
            s.(d := Activate(d, id, scan, env))
  {
    if !NothingToAdd(d, id, scan) {
      var t := StartActivation(s, d, id, scan);
      var job := Activating(id, scan.hasFiles, PeerHash(d, id, scan), StoredSeq(d, id));
      var first := Continues(job, env, scan.error);
      JobDone(s.jobs, job);
      if env.raises {
        OneStep(t, first);
      } else {
        var u := Next(t, first);
        var last := Activated(id, scan.hasFiles, StoredSeq(d, id), u.d.lt.handles[id]);
        JobDone(s.jobs, last);
        TwoSteps(t, first, Continues(last, env, scan.error));
      }
    }
  }

  lemma ActivatedBy(s: Sys, step: Step, d: Daemon, id: ShareId, scan: Scan, env: Env)
    requires Interleavings.Enabled(s, step) && Next(s, step) == StartActivation(s, d, id, scan)
    ensures Gives(s, [step] + ActivationTail(d, id, scan, env), Activate(d, id, scan, env))
  {
    OneStep(s, step);
    ActivationWhole(s, d, id, scan, env);
    Compose(s, [step], ActivationTail(d, id, scan, env));
  }

  function RebuildSteps(d: Daemon, id: ShareId, env: Env): seq<Step> {
    var lt := AddTorrent(RebuildBegin(d, id, env).lt, id, true, None, env);
    [RebuildStarts(id, env)] +
    if env.raises then [Continues(Rebuilding(id), env, "")]
    else [Continues(Rebuilding(id), env, ""), Continues(Rebuilt(id, lt.handles[id]), env, "")]
  }

  lemma RebuildWhole(s: Sys, id: ShareId, env: Env)
    ensures Gives(s, RebuildSteps(s.d, id, env), Rebuild(s.d, id, env))
  {
    var t := Next(s, RebuildStarts(id, env));
    var first := Continues(Rebuilding(id), env, "");
    OneStep(s, RebuildStarts(id, env));
    JobDone(s.jobs, Rebuilding(id));
    if env.raises {
      OneStep(t, first);
      Compose(s, [RebuildStarts(id, env)], [first]);
    } else {
      var last := Rebuilt(id, Next(t, first).d.lt.handles[id]);
      JobDone(s.jobs, last);
      TwoSteps(t, first, Continues(last, env, ""));
      Compose(s, [RebuildStarts(id, env)], [first, Continues(last, env, "")]);
    }
  }

  // ----- every whole reaction ----------------------------------------------------------------------------

  /** The steps of one reaction, with nothing in between. */
  function Steps(d: Daemon, op: HandleAgreement.Op): seq<Step>
    requires op.Announcement? ==> |op.es| == |op.envs|
    requires op.Status? ==> op.id in d.lt.handles
  {
    match op
    case Add(id, strategy, localOnly, scan, env) =>
      [AddsRow(id, strategy, localOnly), ActivationStarts(id, scan)] +
      ActivationTail(d.(db := AddRow(d.db, id, strategy, localOnly)), id, scan, env)
    case Delete(id) => [RemovesRow(id)]
    case Start(id, scan, env) => [ActivationStarts(id, scan)] + ActivationTail(d, id, scan, env)
    case Resume(id, scan, env) =>
      [Resumes(id, scan)] + ActivationTail(d.(db := SetState(d.db, id, Syncing, None, None)), id, scan, env)
    case Stop(id) => [Pauses(id)]
    case Strategize(id, strategy) => [Strategizes(id, strategy)]
    case Announcement(peer, es, envs) => AnnouncementSteps(d, peer, es, envs)
    case Online(id, peer, hash, env) =>
      [OnlineArrives(id, peer, hash, env)] + Tail(RegistryOnlineBegin(d, id, peer, hash, env), env)
    case Offline(id, peer) => [OfflineArrives(id, peer)]
    case LocalChange(id, env) => RebuildSteps(d, id, env)
    case ResolveConflict(c, how, scan, env) => ResolveSteps(d, c, how, scan, env)
    case Status(id, finished) => [StatusArrives(id, finished, d.lt.handles[id])]
  }

  function ResolveSteps(d: Daemon, c: Conflict, how: Resolution, scan: Scan, env: Env): seq<Step> {
    var d' := d.(db := DeleteConflict(d.db, c.id));
    [Resolves(c, how, scan, env)] +
    match how
    case KeepLocal => ActivationTail(d', c.shareId, scan, env)
    case KeepRemote => Tail(SwitchBegin(d', c.shareId, c.remoteHash, env), env)
  }

  lemma ResolveWhole(s: Sys, c: Conflict, how: Resolution, scan: Scan, env: Env)
    requires Pending(s.d.db, c.id, c)
    ensures Gives(s, ResolveSteps(s.d, c, how, scan, env), Resolve(s.d, c, how, scan, env))
  {
    var d, step := s.d.(db := DeleteConflict(s.d.db, c.id)), Resolves(c, how, scan, env);
    match how
    case KeepLocal => ActivatedBy(s, step, d, c.shareId, scan, env);
    case KeepRemote => BegunWhole(s, step, s, SwitchBegin(d, c.shareId, c.remoteHash, env), env);
  }

  lemma AddWhole(s: Sys, id: ShareId, strategy: Strategy, localOnly: bool, scan: Scan, env: Env)
    ensures var op := HandleAgreement.Add(id, strategy, localOnly, scan, env);
            Gives(s, Steps(s.d, op), HandleAgreement.Apply(s.d, op))
  {
    var step, start := AddsRow(id, strategy, localOnly), ActivationStarts(id, scan);
    var t := Next(s, step);
    var tail := ActivationTail(t.d, id, scan, env);
    OneStep(s, step);
    ActivatedBy(t, start, t.d, id, scan, env);
    Compose(s, [step], [start] + tail);
    assert [step] + ([start] + tail) == [step, start] + tail;
  }

  /** Main result: every whole reaction is a run of its stretches, with nothing of it left in flight. */
  lemma UninterruptedIsWhole(s: Sys, op: HandleAgreement.Op)
    requires HandleAgreement.Enabled(s.d, op)
    ensures Gives(s, Steps(s.d, op), HandleAgreement.Apply(s.d, op))
  {
    match op
    case Add(id, strategy, localOnly, scan, env) => AddWhole(s, id, strategy, localOnly, scan, env);
    case Start(id, scan, env) => ActivatedBy(s, ActivationStarts(id, scan), s.d, id, scan, env);
    case Resume(id, scan, env) =>
      ActivatedBy(s, Resumes(id, scan), s.d.(db := SetState(s.d.db, id, Syncing, None, None)), id, scan, env);
    case Announcement(peer, es, envs) => AnnouncementWhole(s, peer, es, envs);
    case Online(id, peer, hash, env) =>
      BegunWhole(s, OnlineArrives(id, peer, hash, env), s, RegistryOnlineBegin(s.d, id, peer, hash, env), env);
    case LocalChange(id, env) => RebuildWhole(s, id, env);
    case ResolveConflict(c, how, scan, env) => ResolveWhole(s, c, how, scan, env);
    case Delete(id) => OneStep(s, RemovesRow(id));
    case Stop(id) => OneStep(s, Pauses(id));
    case Strategize(id, strategy) => OneStep(s, Strategizes(id, strategy));
    case Offline(id, peer) => OneStep(s, OfflineArrives(id, peer));
    case Status(id, finished) => OneStep(s, StatusArrives(id, finished, s.d.lt.handles[id]));
  }
}
