/**
 Whole daemons behind the pairs of `VersionProtocol`: N daemons with all their state that
 each hold one local-only, last-write-wins share. Every reaction runs without interruption.

 A step of the daemons is a step of the pairs or leaves the pairs alone. Storing a hash
 without raising the number breaks that, so activations and status reports carry the exact
 condition under which they do not.
 */
module ClusterProtocol {
  import opened Wrappers
  import opened DaemonState
  import opened Coordinator
  import opened VersionProtocol
  import HandleAgreement

  function PairOf(d: Daemon, id: ShareId): Pair {
    if id in d.db.shares then Pair(d.db.shares[id].infoHash, d.db.shares[id].seqNo) else Pair("", 0)
  }

  /** A local-only last-write-wins share with no switch in flight. */
  predicate Plain(d: Daemon, id: ShareId) {
    id in d.db.shares && id !in d.switching && d.db.shares[id].localOnly && d.db.shares[id].strategy == LastWriteWins
  }

  datatype Cluster = Cluster(daemons: seq<Daemon>, sent: set<Pair>)

  /** `Activates` is a start, and with `resumed` a resume. */
  datatype Action =
    | Broadcasts(p: nat)
    | Hears(p: nat, from: PeerId, a: Pair, env: Env)
    | Rebuilds(p: nat, env: Env)
    | Activates(p: nat, scan: Scan, env: Env, resumed: bool)
    | Pauses(p: nat)
    | Reports(p: nat, finished: bool, hash: InfoHash)

  function Abs(c: Cluster, id: ShareId): Net {
    Net(seq(|c.daemons|, k requires 0 <= k < |c.daemons| => PairOf(c.daemons[k], id)), c.sent)
  }

  function Woken(d: Daemon, id: ShareId, resumed: bool): Daemon {
    if resumed then d.(db := SetState(d.db, id, Syncing, None, None)) else d
  }

  // ----- when storing a hash leaves the pair alone ---------------------------------------------

  /** The hash an activation of a local-only share stores: the handle's, else the saved file's, else a new build's. */
  function Loads(d: Daemon, id: ShareId, env: Env): InfoHash {
    if id in d.lt.handles then d.lt.handles[id] else if id in d.lt.cached then d.lt.cached[id] else env.built
  }

  /** Nothing is added, the add fails, or what is loaded is what is stored under a number already. */
  predicate KeepsPair(d: Daemon, id: ShareId, scan: Scan, env: Env) {
    || NothingToAdd(d, id, scan)
    || env.raises
    || (Loads(d, id, env) == PairOf(d, id).hash && !(scan.hasFiles && PairOf(d, id).seqNo == 0))
  }

  /** Main result: an activation or a resume leaves the pair alone exactly then. */
  lemma ActivationKeepsPairIff(d: Daemon, id: ShareId, scan: Scan, env: Env, resumed: bool)
    requires Plain(d, id)
    ensures var d' := Activate(Woken(d, id, resumed), id, scan, env);
            Plain(d', id) && (PairOf(d', id) == PairOf(d, id) <==> KeepsPair(d, id, scan, env))
  {
  }

  /** So it does whenever handle and row agree and there is a handle, or the saved file is the stored torrent. */
  lemma HandleKeepsPair(d: Daemon, id: ShareId, scan: Scan, env: Env)
    requires Plain(d, id) && HandleAgreement.Agree(d) && PairOf(d, id).seqNo > 0
    requires id in d.lt.handles || (id in d.lt.cached && d.lt.cached[id] == PairOf(d, id).hash)
    ensures KeepsPair(d, id, scan, env)
  {
  }

  lemma FirstActivationIsChange(d: Daemon, id: ShareId, scan: Scan, env: Env, resumed: bool)
    requires Plain(d, id) && scan.hasFiles && PairOf(d, id) == Pair("", 0)
    ensures var d' := Activate(Woken(d, id, resumed), id, scan, env);
            Plain(d', id) && PairOf(d', id) == if env.raises then Pair("", 0) else Pair(Loads(d, id, env), 1)
  {
  }

  predicate StatusKeepsPair(d: Daemon, id: ShareId, finished: bool, hash: InfoHash) {
    finished && id in d.db.shares && d.db.shares[id].state == Syncing ==> hash == d.db.shares[id].infoHash
  }

  lemma StatusKeepsPairIff(d: Daemon, id: ShareId, finished: bool, hash: InfoHash)
    requires Plain(d, id)
    ensures var d' := StatusUpdate(d, id, finished, hash);
            Plain(d', id) && (PairOf(d', id) == PairOf(d, id) <==> StatusKeepsPair(d, id, finished, hash))
  {
  }

  /** A report of the handle a daemon has, where handle and row agree, is such a status. */
  lemma HandleReportKeepsPair(d: Daemon, id: ShareId, finished: bool)
    requires Plain(d, id) && HandleAgreement.Agree(d) && id in d.lt.handles
    ensures StatusKeepsPair(d, id, finished, d.lt.handles[id])
  {
  }

  // ----- steps ------------------------------------------------------------------------------------

  ghost predicate Allowed(c: Cluster, id: ShareId, act: Action) {
    && act.p < |c.daemons|
    && match act
       case Broadcasts(_) => true
       case Hears(_, _, a, _) => a in c.sent
       case Rebuilds(p, _) => Newest(Abs(c, id), p)
       case Activates(p, scan, env, _) =>
         || KeepsPair(c.daemons[p], id, scan, env)
         || (Newest(Abs(c, id), p) && scan.hasFiles && PairOf(c.daemons[p], id) == Pair("", 0))
       case Pauses(_) => true
       case Reports(p, finished, hash) => StatusKeepsPair(c.daemons[p], id, finished, hash)
  }

  /** A paused share is left out of the broadcast (daemon/daemon/sync/coordinator.py:1041-1047). */
  function Act(c: Cluster, id: ShareId, act: Action): Cluster
    requires act.p < |c.daemons|
  {
    var d := c.daemons[act.p];
    match act
    case Broadcasts(p) =>
      if id in d.db.shares && d.db.shares[id].state != Paused then c.(sent := c.sent + {PairOf(d, id)}) else c
    case Hears(p, from, a, env) =>
      c.(daemons := c.daemons[p := Lan(d, from, LanEntry(id, a.hash, a.seqNo), env)])
    case Rebuilds(p, env) => c.(daemons := c.daemons[p := Rebuild(d, id, env)])
    case Activates(p, scan, env, resumed) =>
      c.(daemons := c.daemons[p := Activate(Woken(d, id, resumed), id, scan, env)])
    case Pauses(p) => c.(daemons := c.daemons[p := Pause(d, id)])
    case Reports(p, finished, hash) => c.(daemons := c.daemons[p := StatusUpdate(d, id, finished, hash)])
  }

  /** What one whole LAN reaction does to a plain share is `Receive`. */
  lemma LanIsReceive(d: Daemon, from: PeerId, id: ShareId, a: Pair, env: Env)
    requires Plain(d, id)
    ensures var d' := Lan(d, from, LanEntry(id, a.hash, a.seqNo), env);
            Plain(d', id) && PairOf(d', id) == Receive(PairOf(d, id), a)
  {
  }

  lemma RebuildIsChange(d: Daemon, id: ShareId, env: Env)
    requires Plain(d, id)
    ensures var d' := Rebuild(d, id, env);
            Plain(d', id) && PairOf(d', id) ==
              if env.raises then PairOf(d, id) else Pair(d'.lt.handles[id], PairOf(d, id).seqNo + 1)
  {
  }

  ghost predicate AllPlain(c: Cluster, id: ShareId) {
    forall p :: 0 <= p < |c.daemons| ==> Plain(c.daemons[p], id)
  }

  /** The step of pairs that a step of daemons performs; None when no pair and no message changes. */
  function StepOf(c: Cluster, id: ShareId, act: Action): Option<Step>
    requires act.p < |c.daemons|
  {
    var d := c.daemons[act.p];
    match act
    case Broadcasts(p) => if id in d.db.shares && d.db.shares[id].state != Paused then Some(Announce(p)) else None
    case Hears(p, _, a, _) => Some(Deliver(p, a))
    case Rebuilds(p, env) => if env.raises then None else Some(Change(p, Rebuild(d, id, env).lt.handles[id]))
    case Activates(p, scan, env, _) =>
      if KeepsPair(d, id, scan, env) then None else Some(Change(p, Loads(d, id, env)))
    case Pauses(_) => None
    case Reports(_, _, _) => None
  }

  lemma ActivatesRefines(c: Cluster, id: ShareId, p: nat, scan: Scan, env: Env, resumed: bool)
    requires AllPlain(c, id) && Allowed(c, id, Activates(p, scan, env, resumed))
    ensures var act := Activates(p, scan, env, resumed);
            && AllPlain(Act(c, id, act), id)
            && match StepOf(c, id, act)
               case None => Abs(Act(c, id, act), id) == Abs(c, id)
               case Some(step) => Enabled(Abs(c, id), step) && Abs(Act(c, id, act), id) == Next(Abs(c, id), step)
  {
    ActivationKeepsPairIff(c.daemons[p], id, scan, env, resumed);
    if !KeepsPair(c.daemons[p], id, scan, env) {
      FirstActivationIsChange(c.daemons[p], id, scan, env, resumed);
    }
  }

  /** Refinement: daemons that react atomically move exactly as the pairs do. */
  lemma DaemonsRefinePairs(c: Cluster, id: ShareId, act: Action)
    requires AllPlain(c, id) && Allowed(c, id, act)
    ensures AllPlain(Act(c, id, act), id)
    ensures match StepOf(c, id, act)
            case None => Abs(Act(c, id, act), id) == Abs(c, id)
            case Some(step) => Enabled(Abs(c, id), step) && Abs(Act(c, id, act), id) == Next(Abs(c, id), step)
  {
    var d := c.daemons[act.p];
    match act
    case Broadcasts(p) =>
    case Hears(p, from, a, env) => LanIsReceive(d, from, id, a, env);
    case Rebuilds(p, env) => RebuildIsChange(d, id, env);
    case Activates(p, scan, env, resumed) => ActivatesRefines(c, id, p, scan, env, resumed);
    case Pauses(p) =>
    case Reports(p, finished, hash) => StatusKeepsPairIff(d, id, finished, hash);
  }

  // ----- runs of daemons ----------------------------------------------------------------------------

  ghost predicate ClusterRun(cs: seq<Cluster>, acts: seq<Action>, id: ShareId) {
    && |cs| == |acts| + 1
    && forall k {:trigger acts[k]} :: 0 <= k < |acts| ==>
         Allowed(cs[k], id, acts[k]) && cs[k + 1] == Act(cs[k], id, acts[k])
  }

  ghost predicate Starts(c: Cluster, id: ShareId) {
    AllPlain(c, id) && Empty(Abs(c, id))
  }

  /** The hashes of the first k steps that changed the content, in order. */
  ghost function ContentHistory(cs: seq<Cluster>, acts: seq<Action>, id: ShareId, k: nat): seq<InfoHash>
    requires ClusterRun(cs, acts, id) && k <= |acts|
  {
    if k == 0 then [] else
      assert Allowed(cs[k - 1], id, acts[k - 1]);
      var step := StepOf(cs[k - 1], id, acts[k - 1]);
      ContentHistory(cs, acts, id, k - 1) + if step.Some? && step.value.Change? then [step.value.hash] else []
  }

  lemma ClusterStep(c: Cluster, id: ShareId, act: Action, history: seq<InfoHash>)
    requires AllPlain(c, id) && Allowed(c, id, act) && Inv(Abs(c, id), history)
    ensures var step := StepOf(c, id, act);
            && AllPlain(Act(c, id, act), id)
            && Inv(Abs(Act(c, id, act), id),
                   history + if step.Some? && step.value.Change? then [step.value.hash] else [])
  {
    DaemonsRefinePairs(c, id, act);
    var step := StepOf(c, id, act);
    if step.Some? {
      VersionProtocol.StepKeepsInv(Abs(c, id), step.value, history);
    } else {
      assert history + [] == history;
    }
  }

  lemma {:induction false} ClusterKeepsInv(cs: seq<Cluster>, acts: seq<Action>, id: ShareId, k: nat)
    requires ClusterRun(cs, acts, id) && Starts(cs[0], id) && k <= |acts|
    ensures AllPlain(cs[k], id) && Inv(Abs(cs[k], id), ContentHistory(cs, acts, id, k))
  {
    if k > 0 {
      ClusterKeepsInv(cs, acts, id, k - 1);
      assert Allowed(cs[k - 1], id, acts[k - 1]);
      ClusterStep(cs[k - 1], id, acts[k - 1], ContentHistory(cs, acts, id, k - 1));
    }
  }

  /** Main result, on whole daemons: equal numbers mean equal hashes, and no entry in flight ties with a row. */
  lemma DaemonsAgree(cs: seq<Cluster>, acts: seq<Action>, id: ShareId, k: nat, p: nat, q: nat, a: Pair)
    requires ClusterRun(cs, acts, id) && Starts(cs[0], id) && k <= |acts|
    requires p < |cs[k].daemons| && q < |cs[k].daemons| && a in cs[k].sent
    ensures id in cs[k].daemons[p].db.shares && id in cs[k].daemons[q].db.shares
    ensures var row, other := cs[k].daemons[p].db.shares[id], cs[k].daemons[q].db.shares[id];
            && (row.seqNo == other.seqNo ==> row.infoHash == other.infoHash)
            && Classify(row, LanEntry(id, a.hash, a.seqNo)) != Tie
  {
    ClusterKeepsInv(cs, acts, id, k);
    var net, history := Abs(cs[k], id), ContentHistory(cs, acts, id, k);
    assert Names(net.peers[p], history) && Names(net.peers[q], history) && Names(a, history);
  }

  // ----- convergence of daemons --------------------------------------------------------------------------

  /** How many of the steps from i to k changed some daemon's pair. */
  function PairSwitches(cs: seq<Cluster>, id: ShareId, i: nat, k: nat): nat
    requires k < |cs|
  {
    if k <= i then 0 else
      PairSwitches(cs, id, i, k - 1) + if Abs(cs[k], id).peers != Abs(cs[k - 1], id).peers then 1 else 0
  }

  /** No step from i on changes the content. */
  ghost predicate ContentRests(cs: seq<Cluster>, acts: seq<Action>, id: ShareId, i: nat)
    requires ClusterRun(cs, acts, id)
  {
    forall j {:trigger acts[j]} :: i <= j < |acts| ==>
      acts[j].p < |cs[j].daemons| &&
      (StepOf(cs[j], id, acts[j]).Some? ==> !StepOf(cs[j], id, acts[j]).value.Change?)
  }

  lemma StepUsesGap(c: Cluster, id: ShareId, act: Action, history: seq<InfoHash>)
    requires AllPlain(c, id) && Allowed(c, id, act) && Inv(Abs(c, id), history)
    requires StepOf(c, id, act).Some? ==> !StepOf(c, id, act).value.Change?
    ensures var d := Act(c, id, act);
            && AllPlain(d, id) && Inv(Abs(d, id), history)
            && (if Abs(d, id).peers != Abs(c, id).peers then 1 else 0) + TotalGap(Abs(d, id).peers, |history|)
               <= TotalGap(Abs(c, id).peers, |history|)
  {
    DaemonsRefinePairs(c, id, act);
    if StepOf(c, id, act).Some? {
      StepShrinksGap(Abs(c, id), StepOf(c, id, act).value, history);
    }
  }

  lemma {:induction false} PairSwitchesUseGap(
    cs: seq<Cluster>, acts: seq<Action>, id: ShareId, i: nat, k: nat, history: seq<InfoHash>)
    requires ClusterRun(cs, acts, id) && i <= k <= |acts| && ContentRests(cs, acts, id, i)
    requires AllPlain(cs[i], id) && Inv(Abs(cs[i], id), history)
    ensures AllPlain(cs[k], id) && Inv(Abs(cs[k], id), history)
    ensures PairSwitches(cs, id, i, k) + TotalGap(Abs(cs[k], id).peers, |history|)
            <= TotalGap(Abs(cs[i], id).peers, |history|)
    decreases k
  {
    if i < k {
      PairSwitchesUseGap(cs, acts, id, i, k - 1, history);
      assert Allowed(cs[k - 1], id, acts[k - 1]);
      StepUsesGap(cs[k - 1], id, acts[k - 1], history);
    }
  }

  /** Main result, on whole daemons: once the content rests, at most N * (changes + 1) steps change any of them. */
  lemma DaemonsSettle(cs: seq<Cluster>, acts: seq<Action>, id: ShareId, i: nat)
    requires ClusterRun(cs, acts, id) && Starts(cs[0], id) && i <= |acts| && ContentRests(cs, acts, id, i)
    ensures PairSwitches(cs, id, i, |acts|) <= |cs[i].daemons| * (|ContentHistory(cs, acts, id, i)| + 1)
  {
    var history := ContentHistory(cs, acts, id, i);
    ClusterKeepsInv(cs, acts, id, i);
    PairSwitchesUseGap(cs, acts, id, i, |acts|, history);
    TotalGapBound(Abs(cs[i], id).peers, |history|);
  }

  /** Main result, on whole daemons: no current pair would change anything exactly when all hold the last content. */
  lemma DaemonsQuiescentIff(cs: seq<Cluster>, acts: seq<Action>, id: ShareId, k: nat)
    requires ClusterRun(cs, acts, id) && Starts(cs[0], id) && k <= |acts|
    ensures Quiescent(Abs(cs[k], id)) <==>
              forall p :: 0 <= p < |cs[k].daemons| ==>
                PairOf(cs[k].daemons[p], id).hash == Latest(ContentHistory(cs, acts, id, k))
  {
    ClusterKeepsInv(cs, acts, id, k);
    QuiescentIffLatest(Abs(cs[k], id), ContentHistory(cs, acts, id, k));
    var net := Abs(cs[k], id);
    assert |net.peers| == |cs[k].daemons|;
    assert forall p :: 0 <= p < |cs[k].daemons| ==> net.peers[p] == PairOf(cs[k].daemons[p], id);
  }

  // ----- the activation that breaks it ---------------------------------------------------------------------

  /**
   A failed rebuild has dropped handle and saved file. The resume after it builds a new
   torrent and stores its hash under the old number.
   */
  lemma ResumeAfterFailedRebuild(d: Daemon, id: ShareId, env: Env, scan: Scan, env': Env)
    requires Plain(d, id) && PairOf(d, id).seqNo > 0
    requires env.raises && !env.unlinkFails && !env.saved && scan.hasFiles && !env'.raises
    ensures var e := Rebuild(d, id, env);
            && PairOf(e, id) == PairOf(d, id)
            && PairOf(Activate(Woken(e, id, true), id, scan, env'), id) == Pair(env'.built, PairOf(d, id).seqNo)
            && (KeepsPair(e, id, scan, env') <==> env'.built == PairOf(d, id).hash)
  {
    var e := Rebuild(d, id, env);
    assert id !in e.lt.handles && id !in e.lt.cached;
  }

  /** So two daemons that held one pair hold different contents under its number. */
  lemma FailedRebuildBreaksAgreement(c: Cluster, id: ShareId, p: nat, q: nat, env: Env, scan: Scan, env': Env)
    requires AllPlain(c, id) && p < |c.daemons| && q < |c.daemons| && p != q
    requires PairOf(c.daemons[p], id) == PairOf(c.daemons[q], id) && PairOf(c.daemons[p], id).seqNo > 0
    requires env.raises && !env.unlinkFails && !env.saved && scan.hasFiles && !env'.raises
    requires env'.built != PairOf(c.daemons[p], id).hash
    ensures var e := Act(Act(c, id, Rebuilds(p, env)), id, Activates(p, scan, env', true));
            && PairOf(e.daemons[p], id).seqNo == PairOf(e.daemons[q], id).seqNo
            && PairOf(e.daemons[p], id).hash != PairOf(e.daemons[q], id).hash
  {
    ResumeAfterFailedRebuild(c.daemons[p], id, env, scan, env');
  }
}
