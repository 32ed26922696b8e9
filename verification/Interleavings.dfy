/**
 One daemon whose reactions do overlap: between the stretches of a switch, a rebuild or an
 activation, any other reaction may run. `switches` and `jobs` hold what is suspended in the executor.

 Whatever the interleaving, at most one switch per share is in flight, and while a share
 keeps its row its sequence number never decreases and its info hash never becomes empty
 again -- unless it was deleted and added again while a switch for it was still in flight.
 */
module Interleavings {
  import opened Wrappers
  import opened DaemonState
  import opened Coordinator

  datatype Job =
    | Rebuilding(id: ShareId)
    | Rebuilt(id: ShareId, hash: InfoHash)
    | Activating(id: ShareId, hasFiles: bool, peerHash: Option<InfoHash>, seenSeq: nat)
    | Activated(id: ShareId, hasFiles: bool, seenSeq: nat, hash: InfoHash)

  datatype Sys = Sys(d: Daemon, switches: multiset<SwitchJob>, jobs: multiset<Job>)

  datatype Step =
    | LanArrives(peer: PeerId, e: LanEntry, env: Env)
    | OnlineArrives(id: ShareId, peer: PeerId, hash: Hash, env: Env)
    | OfflineArrives(id: ShareId, peer: PeerId)
    | StatusArrives(id: ShareId, finished: bool, reported: InfoHash)
    | RebuildStarts(id: ShareId, env: Env)
    | ActivationStarts(id: ShareId, scan: Scan)
    | SwitchEnds(switch: SwitchJob, env: Env)
    | Continues(job: Job, env: Env, error: string)
    | AddsRow(id: ShareId, strategy: Strategy, localOnly: bool)
    | RemovesRow(id: ShareId)
    | Pauses(id: ShareId)
    | Resumes(id: ShareId, scan: Scan)
    | Strategizes(id: ShareId, strategy: Strategy)
    | Resolves(c: Conflict, how: Resolution, scan: Scan, env: Env)

  function Spawn(s: Sys, b: Begun): Sys {
    s.(d := b.d, switches := if b.job.Some? then s.switches + multiset{b.job.value} else s.switches)
  }

  function StartActivation(s: Sys, d: Daemon, id: ShareId, scan: Scan): Sys {
    if NothingToAdd(d, id, scan) then s.(d := Wait(d, id)) else
      s.(d := d, jobs := s.jobs + multiset{Activating(id, scan.hasFiles, PeerHash(d, id, scan), StoredSeq(d, id))})
  }

  /** A suspended job takes its next stretch; a raised exception ends it. */
  function Resume(s: Sys, job: Job, env: Env, error: string): Sys {
    var rest := s.jobs - multiset{job};
    match job
    case Rebuilding(id) =>
      var d := s.d.(lt := AddTorrent(s.d.lt, id, true, None, env));
      s.(d := d, jobs := if env.raises then rest else rest + multiset{Rebuilt(id, d.lt.handles[id])})
    case Rebuilt(id, hash) => s.(d := RebuildCommit(s.d, id, hash), jobs := rest)
    case Activating(id, hasFiles, peerHash, seenSeq) =>
      var d := s.d.(lt := AddTorrent(s.d.lt, id, hasFiles, peerHash, env));
      if env.raises then s.(d := ActivateFail(d, id, error), jobs := rest)
      else s.(d := d, jobs := rest + multiset{Activated(id, hasFiles, seenSeq, d.lt.handles[id])})
    case Activated(id, hasFiles, seenSeq, hash) =>
      s.(d := ActivateCommit(s.d, id, hasFiles, seenSeq, hash), jobs := rest)
  }

  ghost predicate Enabled(s: Sys, step: Step) {
    match step
    case SwitchEnds(switch, _) => switch in s.switches
    case Continues(job, _, _) => job in s.jobs
    case Resolves(c, _, _, _) => Pending(s.d.db, c.id, c)
    case Resumes(id, _) => id in s.d.db.shares
    case _ => true
  }

  function Next(s: Sys, step: Step): Sys {
    match step
    case LanArrives(peer, e, env) => Spawn(s, LanBegin(s.d, peer, e, env))
    case OnlineArrives(id, peer, hash, env) => Spawn(s, RegistryOnlineBegin(s.d, id, peer, hash, env))
    case OfflineArrives(id, peer) => s.(d := RegistryOffline(s.d, id, peer))
    case StatusArrives(id, finished, hash) => s.(d := StatusUpdate(s.d, id, finished, hash))
    case RebuildStarts(id, env) => s.(d := RebuildBegin(s.d, id, env), jobs := s.jobs + multiset{Rebuilding(id)})
    case ActivationStarts(id, scan) => StartActivation(s, s.d, id, scan)
    case SwitchEnds(switch, env) => s.(d := SwitchEnd(s.d, switch, env), switches := s.switches - multiset{switch})
    case Continues(job, env, error) => Resume(s, job, env, error)
    case AddsRow(id, strategy, localOnly) => s.(d := s.d.(db := AddRow(s.d.db, id, strategy, localOnly)))
    case RemovesRow(id) => s.(d := Remove(s.d, id))
    case Pauses(id) => s.(d := Pause(s.d, id))
    case Resumes(id, scan) => StartActivation(s, s.d.(db := SetState(s.d.db, id, Syncing, None, None)), id, scan)
    case Strategizes(id, strategy) => s.(d := s.d.(db := SetStrategy(s.d.db, id, strategy)))
    case Resolves(c, how, scan, env) =>
      var d := s.d.(db := DeleteConflict(s.d.db, c.id));
      match how {
        case KeepLocal => StartActivation(s, d, c.shareId, scan)
        case KeepRemote => Spawn(s, SwitchBegin(d, c.shareId, c.remoteHash, env))
      }
  }

  // ----- the invariants ------------------------------------------------------------

  ghost predicate OneSwitch(switches: multiset<SwitchJob>, switching: set<ShareId>) {
    && (forall j :: j in switches ==> switches[j] == 1 && j.share in switching)
    && (forall i, j :: i in switches && j in switches && i.share == j.share ==> i == j)
  }

  /** A share without a hash has number 0, and a switch in flight has given its share a hash. */
  ghost predicate Good(d: Daemon, id: ShareId) {
    id in d.db.shares && d.db.shares[id].infoHash == "" ==> d.db.shares[id].seqNo == 0 && id !in d.switching
  }

  /** What no step may undo for a share that has a row before and after it. */
  ghost predicate Progress(d: Daemon, d': Daemon, id: ShareId) {
    id in d.db.shares && id in d'.db.shares ==>
      && d.db.shares[id].seqNo <= d'.db.shares[id].seqNo
      && (d.db.shares[id].infoHash != "" ==> d'.db.shares[id].infoHash != "")
  }

  ghost predicate Forward(d: Daemon, d': Daemon, id: ShareId) {
    Good(d', id) && Progress(d, d', id)
  }

  /** A stretch that starts a switch found the share unmarked and marked it. */
  ghost predicate Guarded(d: Daemon, b: Begun) {
    if b.job.Some? then b.job.value.share !in d.switching && b.d.switching == d.switching + {b.job.value.share}
    else b.d.switching == d.switching
  }

  /** The step does not add this share back while an old switch for it is in flight. */
  predicate NoReAdd(s: Sys, step: Step, id: ShareId) {
    step.AddsRow? && step.id == id ==> id in s.d.db.shares || id !in s.d.switching
  }

  // ----- at most one switch ----------------------------------------------------------

  lemma SpawnKeepsOne(s: Sys, b: Begun)
    requires OneSwitch(s.switches, s.d.switching) && Guarded(s.d, b)
    ensures OneSwitch(Spawn(s, b).switches, b.d.switching)
  {
  }

  lemma EndKeepsOne(s: Sys, j: SwitchJob)
    requires OneSwitch(s.switches, s.d.switching) && j in s.switches
    ensures OneSwitch(s.switches - multiset{j}, s.d.switching - {j.share})
  {
  }

  lemma BeginsGuarded(d: Daemon, peer: PeerId, e: LanEntry, id: ShareId, hash: Hash, env: Env)
    ensures Guarded(d, LanBegin(d, peer, e, env)) && Guarded(d, RegistryOnlineBegin(d, id, peer, hash, env))
  {
  }

  /** No other step touches the marks or the switches in flight. */
  lemma OthersKeepSwitches(s: Sys, step: Step)
    requires !step.LanArrives? && !step.OnlineArrives? && !step.SwitchEnds? && !step.Resolves?
    ensures Next(s, step).switches == s.switches && Next(s, step).d.switching == s.d.switching
  {
    if step.Continues? {
      ResumingKeepsSwitches(s, step.job, step.env, step.error);
    }
  }

  lemma ResumingKeepsSwitches(s: Sys, job: Job, env: Env, error: string)
    ensures Resume(s, job, env, error).switches == s.switches
    ensures Resume(s, job, env, error).d.switching == s.d.switching
  {
    match job
    case Rebuilding(_) =>
    case Rebuilt(_, _) =>
    case Activating(_, _, _, _) =>
    case Activated(_, _, _, _) =>
  }

  lemma ResolveKeepsOne(s: Sys, c: Conflict, how: Resolution, scan: Scan, env: Env)
    requires OneSwitch(s.switches, s.d.switching)
    ensures var t := Next(s, Resolves(c, how, scan, env)); OneSwitch(t.switches, t.d.switching)
  {
    var d := s.d.(db := DeleteConflict(s.d.db, c.id));
    SpawnKeepsOne(s.(d := d), SwitchBegin(d, c.shareId, c.remoteHash, env));
  }

  lemma StepKeepsOne(s: Sys, step: Step)
    requires OneSwitch(s.switches, s.d.switching) && Enabled(s, step)
    ensures OneSwitch(Next(s, step).switches, Next(s, step).d.switching)
  {
    match step
    case LanArrives(peer, e, env) =>
      BeginsGuarded(s.d, peer, e, e.share, "", env);
      SpawnKeepsOne(s, LanBegin(s.d, peer, e, env));
    case OnlineArrives(id, peer, hash, env) =>
      BeginsGuarded(s.d, peer, LanEntry(id, "", 0), id, hash, env);
      SpawnKeepsOne(s, RegistryOnlineBegin(s.d, id, peer, hash, env));
    case SwitchEnds(switch, env) => EndKeepsOne(s, switch);
    case Resolves(c, how, scan, env) => ResolveKeepsOne(s, c, how, scan, env);
    case _ => OthersKeepSwitches(s, step);
  }

  // ----- every share moves forward ------------------------------------------------------

  /** The exact guard: adding a row keeps the invariant if and only if no switch for it is in flight. */
  lemma AddRowKeepsGoodIff(s: Sys, id: ShareId, strategy: Strategy, localOnly: bool)
    requires Good(s.d, id)
    ensures Good(Next(s, AddsRow(id, strategy, localOnly)).d, id) <==>
            NoReAdd(s, AddsRow(id, strategy, localOnly), id)
  {
  }

  /** The switch gives the share a hash, so its own number is free to be anything beforehand. */
  lemma SwitchBeginForward(d: Daemon, n: nat, id: ShareId, ih: InfoHash, env: Env, x: ShareId)
    requires Good(d, x)
    requires x == id && id in d.db.shares ==>
      d.db.shares[id].seqNo <= n && (d.db.shares[id].infoHash != "" || id !in d.switching)
    ensures Forward(d, SwitchBegin(d.(db := SetSeq(d.db, id, n)), id, ih, env).d, x)
  {
  }

  lemma RemoteUpdateForward(
    d: Daemon, n: nat, id: ShareId, ih: InfoHash, peer: PeerId, row: LocalShare, env: Env, x: ShareId)
    requires Good(d, x) && id in d.db.shares && d.db.shares[id].infoHash != "" && d.db.shares[id].seqNo <= n
    ensures Forward(d, RemoteUpdateBegin(d.(db := SetSeq(d.db, id, n)), id, ih, peer, row, env).d, x)
  {
    SwitchBeginForward(d, n, id, ih, env, x);
  }

  lemma SetSameSeq(db: Db, id: ShareId)
    requires id in db.shares
    ensures SetSeq(db, id, db.shares[id].seqNo) == db
  {
    assert db.shares[id := db.shares[id].(seqNo := db.shares[id].seqNo)] == db.shares;
  }

  lemma LanForward(d: Daemon, peer: PeerId, e: LanEntry, env: Env, x: ShareId)
    requires Good(d, x) && (x == e.share ==> Good(d, e.share))
    ensures Forward(d, LanBegin(d, peer, e, env).d, x)
  {
    if Admitted(d, peer, e.share) {
      var row := d.db.shares[e.share];
      var seen := d.(db := UpsertPeer(d.db, e.share, peer, true));
      match Classify(row, e)
      case Bootstrap =>
        if x == e.share || e.share !in d.switching {
          SwitchBeginForward(seen, e.seqNo, e.share, e.hash, env, x);
        }
      case Accept => RemoteUpdateForward(seen, e.seqNo, e.share, e.hash, peer, row, env, x);
      case Tie =>
        SetSameSeq(seen.db, e.share);
        RemoteUpdateForward(seen, row.seqNo, e.share, e.hash, peer, row, env, x);
      case SeedToThem =>
      case Inject =>
    }
  }

  lemma OnlineForward(d: Daemon, id: ShareId, peer: PeerId, hash: Hash, env: Env, x: ShareId)
    requires Good(d, x)
    ensures Forward(d, RegistryOnlineBegin(d, id, peer, hash, env).d, x)
  {
    var seen := d.(db := UpsertPeer(d.db, id, peer, true));
    if id in d.db.shares && hash != "" && d.db.shares[id].infoHash != "" {
      SetSameSeq(seen.db, id);
      RemoteUpdateForward(seen, d.db.shares[id].seqNo, id, hash, peer, d.db.shares[id], env, x);
    }
  }

  lemma ResumeForward(s: Sys, job: Job, env: Env, error: string, x: ShareId)
    requires Good(s.d, x)
    ensures Forward(s.d, Resume(s, job, env, error).d, x)
  {
    match job
    case Rebuilding(_) =>
    case Rebuilt(_, _) =>
    case Activating(_, _, _, _) =>
    case Activated(_, _, _, _) =>
  }

  lemma StartActivationForward(s: Sys, d: Daemon, id: ShareId, scan: Scan, x: ShareId)
    requires Good(d, x)
    ensures Forward(d, StartActivation(s, d, id, scan).d, x)
  {
  }

  lemma ResolveForward(s: Sys, c: Conflict, how: Resolution, scan: Scan, env: Env, x: ShareId)
    requires Good(s.d, x) && Pending(s.d.db, c.id, c)
    ensures Forward(s.d, Next(s, Resolves(c, how, scan, env)).d, x)
  {
    var d := s.d.(db := DeleteConflict(s.d.db, c.id));
    match how {
      case KeepLocal => StartActivationForward(s, d, c.shareId, scan, x);
      case KeepRemote =>
        if x == c.shareId || c.shareId !in d.switching {
          SetSameSeq(d.db, c.shareId);
          SwitchBeginForward(d, d.db.shares[c.shareId].seqNo, c.shareId, c.remoteHash, env, x);
        }
    }
  }

  /** One step of any kind, whatever it does to other shares. */
  lemma StepMovesForward(s: Sys, step: Step, x: ShareId)
    requires Good(s.d, x) && Enabled(s, step) && NoReAdd(s, step, x)
    ensures Forward(s.d, Next(s, step).d, x)
  {
    match step
    case LanArrives(peer, e, env) => LanForward(s.d, peer, e, env, x);
    case OnlineArrives(id, peer, hash, env) => OnlineForward(s.d, id, peer, hash, env, x);
    case Continues(job, env, error) => ResumeForward(s, job, env, error, x);
    case ActivationStarts(id, scan) => StartActivationForward(s, s.d, id, scan, x);
    case Resumes(id, scan) =>
      StartActivationForward(s, s.d.(db := SetState(s.d.db, id, Syncing, None, None)), id, scan, x);
    case Resolves(c, how, scan, env) => ResolveForward(s, c, how, scan, env, x);
    case AddsRow(id, strategy, localOnly) =>
      if id == x {
        AddRowKeepsGoodIff(s, id, strategy, localOnly);
      }
    case _ => RowStepMovesForward(s, step, x);
  }

  /** Steps that touch neither a number nor a hash, or store a reported hash. */
  lemma RowStepMovesForward(s: Sys, step: Step, x: ShareId)
    requires Good(s.d, x)
    requires step.OfflineArrives? || step.StatusArrives? || step.RebuildStarts? || step.SwitchEnds? ||
             step.RemovesRow? || step.Pauses? || step.Strategizes?
    ensures Forward(s.d, Next(s, step).d, x)
  {
    match step
    case OfflineArrives(_, _) =>
    case StatusArrives(_, _, _) =>
    case RebuildStarts(_, _) =>
    case SwitchEnds(_, _) =>
    case RemovesRow(_) =>
    case Pauses(_) =>
    case Strategizes(_, _) =>
  }

  // ----- whole runs -------------------------------------------------------------------

  /** `states` is a run: every pair of neighbours is an enabled step, re-adds included. */
  ghost predicate Run(states: seq<Sys>, steps: seq<Step>) {
    && |states| == |steps| + 1
    && forall k {:trigger steps[k]} :: 0 <= k < |steps| ==>
        Enabled(states[k], steps[k]) && states[k + 1] == Next(states[k], steps[k])
  }

  /** A daemon that has just started: nothing in flight. */
  ghost predicate Fresh(s: Sys) {
    s.switches == multiset{} && s.jobs == multiset{} && s.d.switching == {} && forall id :: Good(s.d, id)
  }

  /** Up to state k this share is not added back while an old switch for it is in flight. */
  ghost predicate NeverReAdded(states: seq<Sys>, steps: seq<Step>, id: ShareId, k: nat)
    requires |states| == |steps| + 1 && k <= |steps|
  {
    forall j {:trigger steps[j]} :: 0 <= j < k ==> NoReAdd(states[j], steps[j], id)
  }

  /** From state i to state k the share has a row. */
  ghost predicate KeepsRow(states: seq<Sys>, id: ShareId, i: nat, k: nat)
    requires k < |states|
  {
    forall j :: i <= j <= k ==> id in states[j].d.db.shares
  }

  lemma {:induction false} RunKeepsOne(states: seq<Sys>, steps: seq<Step>, k: nat)
    requires Run(states, steps) && Fresh(states[0]) && k <= |steps|
    ensures OneSwitch(states[k].switches, states[k].d.switching)
  {
    if k > 0 {
      RunKeepsOne(states, steps, k - 1);
      assert Enabled(states[k - 1], steps[k - 1]);
      StepKeepsOne(states[k - 1], steps[k - 1]);
    }
  }

  /** Main result: in every state of every run at most one switch per share is in flight. */
  lemma OneSwitchInFlight(states: seq<Sys>, steps: seq<Step>, k: nat, i: SwitchJob, j: SwitchJob)
    requires Run(states, steps) && Fresh(states[0]) && k <= |steps|
    requires i in states[k].switches && j in states[k].switches && i.share == j.share
    ensures i == j && states[k].switches[i] == 1
  {
    RunKeepsOne(states, steps, k);
  }

  lemma {:induction false} RunKeepsGood(states: seq<Sys>, steps: seq<Step>, id: ShareId, k: nat)
    requires Run(states, steps) && Fresh(states[0]) && k <= |steps| && NeverReAdded(states, steps, id, k)
    ensures Good(states[k].d, id)
  {
    if k > 0 {
      RunKeepsGood(states, steps, id, k - 1);
      assert Enabled(states[k - 1], steps[k - 1]) && NoReAdd(states[k - 1], steps[k - 1], id);
      StepMovesForward(states[k - 1], steps[k - 1], id);
    }
  }

  lemma NeighboursProgress(states: seq<Sys>, steps: seq<Step>, id: ShareId, k: nat)
    requires Run(states, steps) && 0 < k <= |steps| && Good(states[k - 1].d, id)
    requires id in states[k - 1].d.db.shares
    ensures Forward(states[k - 1].d, states[k].d, id)
  {
    assert Enabled(states[k - 1], steps[k - 1]);
    StepMovesForward(states[k - 1], steps[k - 1], id);
  }

  /**
   Main result: while a share keeps its row it only moves forward, in every run in which it
   was not added back during its own switch before that. Other shares may do anything.
   */
  lemma {:induction false} SharesOnlyMoveForward(states: seq<Sys>, steps: seq<Step>, id: ShareId, i: nat, k: nat)
    requires Run(states, steps) && Fresh(states[0]) && i <= k <= |steps|
    requires NeverReAdded(states, steps, id, i) && KeepsRow(states, id, i, k)
    ensures states[i].d.db.shares[id].seqNo <= states[k].d.db.shares[id].seqNo
    ensures states[i].d.db.shares[id].infoHash != "" ==> states[k].d.db.shares[id].infoHash != ""
    ensures states[k].d.db.shares[id].infoHash == "" ==> states[k].d.db.shares[id].seqNo == 0
    ensures Good(states[k].d, id)
    decreases k - i
  {
    if i == k {
      RunKeepsGood(states, steps, id, k);
    } else {
      SharesOnlyMoveForward(states, steps, id, i, k - 1);
      NeighboursProgress(states, steps, id, k);
    }
  }

  // ----- what the guard rules out --------------------------------------------------------

  /** A LAN entry for a hashless local-only share whose old switch is in flight only sets the number. */
  lemma StrayNumber(s: Sys, peer: PeerId, e: LanEntry, env: Env)
    requires e.share in s.d.switching && e.share in s.d.db.shares && e.hash != ""
    requires s.d.db.shares[e.share].localOnly && s.d.db.shares[e.share].infoHash == ""
    ensures var t := Next(s, LanArrives(peer, e, env));
            && t.d.switching == s.d.switching && e.share in t.d.db.shares
            && t.d.db.shares[e.share] == s.d.db.shares[e.share].(seqNo := e.seqNo)
  {
  }

  /**
   What the guard rules out: remove a share during its switch, add it back, and two LAN
   announcements leave the number of a hashless share at 5 and then at 3.
   */
  lemma ReAddLosesNumbers(s: Sys, id: ShareId, j: SwitchJob, peer: PeerId, env: Env) returns (t: Sys, u: Sys)
    requires OneSwitch(s.switches, s.d.switching) && j in s.switches && j.share == id && id in s.d.db.shares
    ensures var s1 := Next(s, RemovesRow(id));
            var s2 := Next(s1, AddsRow(id, LastWriteWins, true));
            t == Next(s2, LanArrives(peer, LanEntry(id, "g", 5), env))
    ensures u == Next(t, LanArrives(peer, LanEntry(id, "f", 3), env))
    ensures id in t.d.db.shares && t.d.db.shares[id].infoHash == "" && t.d.db.shares[id].seqNo == 5
    ensures id in u.d.db.shares && u.d.db.shares[id].infoHash == "" && u.d.db.shares[id].seqNo == 3
  {
    var s2 := Next(Next(s, RemovesRow(id)), AddsRow(id, LastWriteWins, true));
    assert s2.d.db.shares[id] == LocalShare(Syncing, "", 0, None, LastWriteWins, true);
    t := Next(s2, LanArrives(peer, LanEntry(id, "g", 5), env));
    StrayNumber(s2, peer, LanEntry(id, "g", 5), env);
    u := Next(t, LanArrives(peer, LanEntry(id, "f", 3), env));
    StrayNumber(t, peer, LanEntry(id, "f", 3), env);
  }
}
