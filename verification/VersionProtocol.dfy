/**
 N peers of one local-only, last-write-wins share. Announcements travel over UDP: `sent`
 only grows, and any sent pair may reach any peer at any time, again and again, or never.

 A local change takes the changing peer's number plus one. If every change happens at a
 peer whose number is the largest, numbers name changes: the pair (h, s) held or announced
 anywhere means that h was the s-th change of the run. Agreement, the unreachability of
 the tie branch and convergence all follow from that.
 */
module VersionProtocol {
  import opened Wrappers
  import opened DaemonState
  import opened Coordinator

  datatype Pair = Pair(hash: Hash, seqNo: nat)

  datatype Net = Net(peers: seq<Pair>, sent: set<Pair>)

  datatype Step =
    | Announce(p: nat)
    | Deliver(p: nat, a: Pair)
    | Change(p: nat, hash: InfoHash)

  /** The effect of one announced pair on the receiver's pair. */
  function Receive(own: Pair, a: Pair): Pair {
    if a.hash == "" || a.hash == own.hash then own
    else if own.hash == "" || a.seqNo > own.seqNo then a
    else if a.seqNo == own.seqNo then Pair(a.hash, own.seqNo)
    else own
  }

  ghost predicate Newest(net: Net, p: nat) {
    p < |net.peers| && forall q :: 0 <= q < |net.peers| ==> net.peers[q].seqNo <= net.peers[p].seqNo
  }

  ghost predicate Enabled(net: Net, step: Step) {
    match step
    case Announce(p) => p < |net.peers|
    case Deliver(p, a) => p < |net.peers| && a in net.sent
    case Change(p, _) => Newest(net, p)
  }

  function Next(net: Net, step: Step): Net
    requires step.p < |net.peers|
  {
    var own := net.peers[step.p];
    match step
    case Announce(p) => net.(sent := net.sent + {own})
    case Deliver(p, a) => net.(peers := net.peers[p := Receive(own, a)])
    case Change(p, hash) => net.(peers := net.peers[p := Pair(hash, own.seqNo + 1)])
  }

  ghost predicate Run(nets: seq<Net>, steps: seq<Step>) {
    && |nets| == |steps| + 1
    && forall k {:trigger steps[k]} :: 0 <= k < |steps| ==>
         Enabled(nets[k], steps[k]) && nets[k + 1] == Next(nets[k], steps[k])
  }

  /** Nobody has files, nothing is in flight. */
  ghost predicate Empty(net: Net) {
    net.sent == {} && forall p :: 0 <= p < |net.peers| ==> net.peers[p] == Pair("", 0)
  }

  /** The hashes of the local changes of a run, in order. */
  function History(steps: seq<Step>): seq<InfoHash> {
    if steps == [] then [] else
      var last := steps[|steps| - 1];
      History(steps[..|steps| - 1]) + if last.Change? then [last.hash] else []
  }

  // ----- numbers name changes ---------------------------------------------------------

  /** The pair's number is the position of its hash in the history; no hash means number 0. */
  predicate Names(a: Pair, history: seq<InfoHash>) {
    if a.hash == "" then a.seqNo == 0
    else 1 <= a.seqNo <= |history| && history[a.seqNo - 1] == a.hash
  }

  ghost predicate Inv(net: Net, history: seq<InfoHash>) {
    && (forall p :: 0 <= p < |net.peers| ==> Names(net.peers[p], history))
    && (forall a :: a in net.sent ==> Names(a, history))
    && (history != [] ==> exists p :: 0 <= p < |net.peers| && net.peers[p].seqNo == |history|)
  }

  lemma ReceiveNames(own: Pair, a: Pair, history: seq<InfoHash>)
    requires Names(own, history) && Names(a, history)
    ensures Names(Receive(own, a), history)
    ensures own.seqNo <= Receive(own, a).seqNo
    ensures Receive(own, a) != own ==> Gap(Receive(own, a), |history|) < Gap(own, |history|)
  {
  }

  lemma DeliverKeepsInv(net: Net, p: nat, a: Pair, history: seq<InfoHash>)
    requires Inv(net, history) && Enabled(net, Deliver(p, a))
    ensures Inv(Next(net, Deliver(p, a)), history)
  {
    var net' := Next(net, Deliver(p, a));
    ReceiveNames(net.peers[p], a, history);
    if history != [] {
      var top :| 0 <= top < |net.peers| && net.peers[top].seqNo == |history|;
      assert net'.peers[top].seqNo == |history|;
    }
  }

  lemma ChangeKeepsInv(net: Net, p: nat, hash: InfoHash, history: seq<InfoHash>)
    requires Inv(net, history) && Newest(net, p)
    ensures Inv(Next(net, Change(p, hash)), history + [hash])
  {
    var net' := Next(net, Change(p, hash));
    assert net.peers[p].seqNo == |history| by {
      if history != [] {
        var top :| 0 <= top < |net.peers| && net.peers[top].seqNo == |history|;
      }
    }
    assert net'.peers[p].seqNo == |history + [hash]|;
  }

  lemma StepKeepsInv(net: Net, step: Step, history: seq<InfoHash>)
    requires Inv(net, history) && Enabled(net, step)
    ensures Inv(Next(net, step), history + if step.Change? then [step.hash] else [])
  {
    assert history + [] == history;
    match step
    case Announce(p) =>
      if history != [] {
        var top :| 0 <= top < |net.peers| && net.peers[top].seqNo == |history|;
        assert Next(net, step).peers[top].seqNo == |history|;
      }
    case Deliver(p, a) => DeliverKeepsInv(net, p, a, history);
    case Change(p, hash) => ChangeKeepsInv(net, p, hash, history);
  }

  /** Main result: in every state of a run, held and announced numbers name the run's changes. */
  lemma {:induction false} NumbersNameChanges(nets: seq<Net>, steps: seq<Step>, k: nat)
    requires Run(nets, steps) && Empty(nets[0]) && k <= |steps|
    ensures Inv(nets[k], History(steps[..k]))
  {
    if k > 0 {
      NumbersNameChanges(nets, steps, k - 1);
      StepKeepsInv(nets[k - 1], steps[k - 1], History(steps[..k - 1]));
      assert steps[..k][..k - 1] == steps[..k - 1];
    }
  }

  ghost predicate Somewhere(net: Net, a: Pair) {
    a in net.peers || a in net.sent
  }

  /** Equal numbers, at peers or in flight, mean equal hashes. */
  lemma Agreement(nets: seq<Net>, steps: seq<Step>, k: nat, a: Pair, b: Pair)
    requires Run(nets, steps) && Empty(nets[0]) && k <= |steps|
    requires Somewhere(nets[k], a) && Somewhere(nets[k], b) && a.seqNo == b.seqNo
    ensures a.hash == b.hash && (a.hash == "" <==> a.seqNo == 0)
  {
    NumbersNameChanges(nets, steps, k);
  }

  /** The branch for equal numbers and different hashes is never taken. */
  lemma TieUnreachable(nets: seq<Net>, steps: seq<Step>, k: nat, p: nat, a: Pair, row: LocalShare, id: ShareId)
    requires Run(nets, steps) && Empty(nets[0]) && k <= |steps|
    requires Enabled(nets[k], Deliver(p, a))
    requires nets[k].peers[p] == Pair(row.infoHash, row.seqNo)
    ensures Classify(row, LanEntry(id, a.hash, a.seqNo)) != Tie
  {
    assert nets[k].peers[p] in nets[k].peers;
    if a.seqNo == row.seqNo {
      Agreement(nets, steps, k, a, nets[k].peers[p]);
    }
  }

  // ----- convergence ---------------------------------------------------------------------

  /** How many more changes a peer can still go through. */
  function Gap(own: Pair, n: nat): nat {
    if own.hash == "" then n + 1 else if own.seqNo <= n then n - own.seqNo else 0
  }

  function TotalGap(peers: seq<Pair>, n: nat): nat {
    if peers == [] then 0 else Gap(peers[0], n) + TotalGap(peers[1..], n)
  }

  lemma {:induction false} TotalGapUpdate(peers: seq<Pair>, p: nat, own: Pair, n: nat)
    requires p < |peers|
    ensures TotalGap(peers[p := own], n) == TotalGap(peers, n) - Gap(peers[p], n) + Gap(own, n)
  {
    if p > 0 {
      TotalGapUpdate(peers[1..], p - 1, own, n);
      assert peers[p := own][1..] == peers[1..][p - 1 := own];
    } else {
      assert peers[p := own][1..] == peers[1..];
    }
  }

  lemma {:induction false} TotalGapBound(peers: seq<Pair>, n: nat)
    ensures TotalGap(peers, n) <= |peers| * (n + 1)
  {
    if peers != [] {
      TotalGapBound(peers[1..], n);
      assert |peers| * (n + 1) == (n + 1) + (|peers| - 1) * (n + 1);
    }
  }

  /** How often some peer's pair changed along a run. */
  function Switches(nets: seq<Net>): nat {
    if |nets| < 2 then 0 else
      var k := |nets| - 1;
      Switches(nets[..k]) + if nets[k].peers != nets[k - 1].peers then 1 else 0
  }

  /** A step without a local change that changes a peer closes some of the gap. */
  lemma StepShrinksGap(net: Net, step: Step, history: seq<InfoHash>)
    requires Inv(net, history) && Enabled(net, step) && !step.Change?
    ensures var next := Next(net, step);
            && Inv(next, history)
            && (if next.peers == net.peers then 0 else 1) + TotalGap(next.peers, |history|) <= TotalGap(net.peers, |history|)
  {
    StepKeepsInv(net, step, history);
    assert history + [] == history;
    if step.Deliver? {
      ReceiveNames(net.peers[step.p], step.a, history);
      TotalGapUpdate(net.peers, step.p, Receive(net.peers[step.p], step.a), |history|);
      assert net.peers[step.p := net.peers[step.p]] == net.peers;
    }
  }

  lemma {:induction false} SwitchesUseUpTheGap(nets: seq<Net>, steps: seq<Step>, history: seq<InfoHash>)
    requires Run(nets, steps) && Inv(nets[0], history)
    requires forall k :: 0 <= k < |steps| ==> !steps[k].Change?
    ensures Inv(nets[|steps|], history)
    ensures Switches(nets) + TotalGap(nets[|steps|].peers, |history|) <= TotalGap(nets[0].peers, |history|)
    decreases |steps|
  {
    if steps != [] {
      var k := |steps| - 1;
      SwitchesUseUpTheGap(nets[..k + 1], steps[..k], history);
      StepShrinksGap(nets[k], steps[k], history);
      assert nets[k + 1] == Next(nets[k], steps[k]);
      assert nets[..k + 1][k] == nets[k] && nets[..|nets| - 1] == nets[..k + 1];
    }
  }

  /** Main result: once local changes stop after k steps, at most N * (changes + 1) deliveries matter. */
  lemma OnlyFinitelyManySwitches(nets: seq<Net>, steps: seq<Step>, k: nat)
    requires Run(nets, steps) && Empty(nets[0]) && k <= |steps|
    requires forall j :: k <= j < |steps| ==> !steps[j].Change?
    ensures Switches(nets[k..]) <= |nets[k].peers| * (|History(steps[..k])| + 1)
  {
    var history := History(steps[..k]);
    var rest, later := nets[k..], steps[k..];
    NumbersNameChanges(nets, steps, k);
    TotalGapBound(nets[k].peers, |history|);
    assert rest[0] == nets[k];
    assert Run(rest, later) by {
      forall j | 0 <= j < |later|
        ensures Enabled(rest[j], later[j]) && rest[j + 1] == Next(rest[j], later[j])
      {
        assert rest[j] == nets[k + j] && rest[j + 1] == nets[k + j + 1] && later[j] == steps[k + j];
      }
    }
    SwitchesUseUpTheGap(rest, later, history);
  }

  /** No peer's current pair would change any peer. */
  ghost predicate Quiescent(net: Net) {
    forall p, q :: 0 <= p < |net.peers| && 0 <= q < |net.peers| ==>
      Receive(net.peers[p], net.peers[q]) == net.peers[p]
  }

  function Latest(history: seq<InfoHash>): Hash {
    if history == [] then "" else history[|history| - 1]
  }

  lemma QuiescentIffLatest(net: Net, history: seq<InfoHash>)
    requires Inv(net, history)
    ensures Quiescent(net) <==> forall p :: 0 <= p < |net.peers| ==> net.peers[p].hash == Latest(history)
  {
    if history != [] {
      var top :| 0 <= top < |net.peers| && net.peers[top].seqNo == |history|;
      forall p | Quiescent(net) && 0 <= p < |net.peers|
        ensures net.peers[p].hash == Latest(history)
      {
        assert Receive(net.peers[p], net.peers[top]) == net.peers[p];
      }
    }
  }

  /** Main result: a reached state is quiescent exactly when everyone holds the last change's content. */
  lemma QuiescentIffLatestEverywhere(nets: seq<Net>, steps: seq<Step>, k: nat)
    requires Run(nets, steps) && Empty(nets[0]) && k <= |steps|
    ensures Quiescent(nets[k]) <==>
              forall p :: 0 <= p < |nets[k].peers| ==> nets[k].peers[p].hash == Latest(History(steps[..k]))
  {
    NumbersNameChanges(nets, steps, k);
    QuiescentIffLatest(nets[k], History(steps[..k]));
  }

  /** A peer that has heard the newest pair keeps it against everything in flight. */
  lemma NewestPairIsFinal(nets: seq<Net>, steps: seq<Step>, k: nat, p: nat, a: Pair)
    requires Run(nets, steps) && Empty(nets[0]) && k <= |steps|
    requires Enabled(nets[k], Deliver(p, a)) && nets[k].peers[p].seqNo == |History(steps[..k])|
    ensures Next(nets[k], Deliver(p, a)).peers == nets[k].peers
  {
    NumbersNameChanges(nets, steps, k);
    ReceiveNames(nets[k].peers[p], a, History(steps[..k]));
    assert nets[k].peers[p := nets[k].peers[p]] == nets[k].peers;
  }

  // ----- without the assumption on local changes ---------------------------------------------

  /** A change may happen at any peer. */
  ghost predicate Possible(net: Net, step: Step) {
    step.p < |net.peers| && (step.Deliver? ==> step.a in net.sent)
  }

  ghost predicate FreeRun(nets: seq<Net>, steps: seq<Step>) {
    && |nets| == |steps| + 1
    && forall k {:trigger steps[k]} :: 0 <= k < |steps| ==>
         Possible(nets[k], steps[k]) && nets[k + 1] == Next(nets[k], steps[k])
  }

  lemma Extend(nets: seq<Net>, steps: seq<Step>, step: Step) returns (nets': seq<Net>, steps': seq<Step>)
    requires FreeRun(nets, steps) && Possible(nets[|steps|], step)
    ensures FreeRun(nets', steps') && steps' == steps + [step] && nets' == nets + [Next(nets[|steps|], step)]
    ensures Switches(nets') ==
              Switches(nets) + if Next(nets[|steps|], step).peers != nets[|steps|].peers then 1 else 0
  {
    nets', steps' := nets + [Next(nets[|steps|], step)], steps + [step];
    assert nets'[..|nets|] == nets;
    forall k | 0 <= k < |steps'|
      ensures Possible(nets'[k], steps'[k]) && nets'[k + 1] == Next(nets'[k], steps'[k])
    {
      if k < |steps| {
        assert Possible(nets[k], steps[k]) && nets[k + 1] == Next(nets[k], steps[k]);
      }
    }
  }

  /** Peers 0 and 1 hold different contents under one number. */
  predicate Tied(net: Net, s: nat) {
    && |net.peers| >= 2
    && net.peers[0].seqNo == s && net.peers[1].seqNo == s
    && net.peers[0].hash != net.peers[1].hash && net.peers[0].hash != "" && net.peers[1].hash != ""
  }

  ghost predicate NoChange(steps: seq<Step>, from: nat) {
    forall k :: from <= k < |steps| ==> !steps[k].Change?
  }

  /** Both announce, both hear the other: their contents are exchanged. */
  lemma OneExchange(nets: seq<Net>, steps: seq<Step>, s: nat, from: nat)
    returns (nets': seq<Net>, steps': seq<Step>)
    requires FreeRun(nets, steps) && Tied(nets[|steps|], s) && from <= |steps| && NoChange(steps, from)
    ensures FreeRun(nets', steps') && Tied(nets'[|steps'|], s) && nets <= nets' && steps <= steps'
    ensures NoChange(steps', from) && Switches(nets') >= Switches(nets) + 2
  {
    var a, b := nets[|steps|].peers[0], nets[|steps|].peers[1];
    nets', steps' := Extend(nets, steps, Announce(0));
    nets', steps' := Extend(nets', steps', Announce(1));
    nets', steps' := Extend(nets', steps', Deliver(0, b));
    nets', steps' := Extend(nets', steps', Deliver(1, a));
  }

  lemma {:induction false} Exchanges(nets: seq<Net>, steps: seq<Step>, s: nat, from: nat, n: nat)
    returns (nets': seq<Net>, steps': seq<Step>)
    requires FreeRun(nets, steps) && Tied(nets[|steps|], s) && from <= |steps| && NoChange(steps, from)
    ensures FreeRun(nets', steps') && nets <= nets' && steps <= steps'
    ensures NoChange(steps', from) && Switches(nets') >= Switches(nets) + 2 * n
    decreases n
  {
    nets', steps' := nets, steps;
    if n > 0 {
      nets', steps' := OneExchange(nets, steps, s, from);
      nets', steps' := Exchanges(nets', steps', s, from, n - 1);
    }
  }

  /**
   Main result: from peers without files, two first changes at one number are enough. For
   every n some run after them, of announcements and deliveries only, switches n times.
   */
  lemma ConcurrentWritersSwap(net: Net, g: InfoHash, h: InfoHash, n: nat)
    returns (nets: seq<Net>, steps: seq<Step>)
    requires Empty(net) && |net.peers| >= 2 && g != h
    ensures FreeRun(nets, steps) && nets[0] == net && |steps| >= 2
    ensures steps[0] == Change(0, g) && steps[1] == Change(1, h) && NoChange(steps, 2)
    ensures nets[2].peers[0] == Pair(g, 1) && nets[2].peers[1] == Pair(h, 1)
    ensures Switches(nets) >= n
  {
    nets, steps := Extend([net], [], Change(0, g));
    nets, steps := Extend(nets, steps, Change(1, h));
    var tied := nets;
    var done := steps;
    nets, steps := Exchanges(nets, steps, 1, 2, n);
    assert nets[2] == tied[2] && steps[0] == done[0] && steps[1] == done[1];
  }

  ghost predicate AllAgree(net: Net) {
    forall a, b :: Somewhere(net, a) && Somewhere(net, b) && a.seqNo == b.seqNo ==> a.hash == b.hash
  }

  /**
   A change to content nobody has seen keeps agreement exactly when the changing peer's next
   number is unused, by peers and in flight. The largest number is never followed by a used one.
   */
  lemma ChangeKeepsAgreementIff(net: Net, p: nat, hash: InfoHash)
    requires AllAgree(net) && p < |net.peers|
    requires forall a :: Somewhere(net, a) ==> a.hash != hash
    ensures AllAgree(Next(net, Change(p, hash))) <==>
            (forall a :: Somewhere(net, a) ==> a.seqNo != net.peers[p].seqNo + 1)
  {
    var net' := Next(net, Change(p, hash));
    var mine := Pair(hash, net.peers[p].seqNo + 1);
    assert net'.peers[p] == mine;
    forall a | Somewhere(net, a)
      ensures a == net.peers[p] || Somewhere(net', a)
    {
      if a in net.peers {
        var q :| 0 <= q < |net.peers| && net.peers[q] == a;
        assert q == p || net'.peers[q] == a;
      }
    }
    forall a | Somewhere(net', a)
      ensures a == mine || Somewhere(net, a)
    {
      if a in net'.peers {
        var q :| 0 <= q < |net'.peers| && net'.peers[q] == a;
        assert q == p || net.peers[q] == a;
      }
    }
  }
}
