/** Left alone, a rollout runs out of steps, and where it then stands. "Left alone" means that only the
    operator and KMM act: no edits, no failures, no other writers, and no wake-up from outside. */
module Liveness {
  import opened Options
  import opened NodeState
  import opened Rollout
  import opened Sums
  import opened Disruption
  import opened Progress
  import opened WakeUp
  import Eviction

  /** A step of the operator or of KMM. */
  predicate OwnStep(s: Step) {
    s.List? || s.Uncordon? || s.Cordon? || s.Kickoff? || s.Kmm?
  }

  ghost predicate LeftAlone(w: World, steps: seq<Step>) {
    forall q :: 0 <= q < |steps| ==> OwnStep(steps[q]) && Enabled(Exec(w, steps[..q]), steps[q])
  }

  /** Neither the operator nor KMM can do anything. */
  ghost predicate Quiet(w: World) {
    forall s :: OwnStep(s) ==> !Enabled(w, s)
  }

  // ----- Every run ends -----

  /** How often KMM can still change a ready label while the version label stands. */
  function ReadyRank(n: NodeView): nat {
    if n.ready == n.version then 0 else if n.ready.None? then 1 else 2
  }

  function ReadyRanks(nodes: seq<NodeView>): seq<nat> {
    seq(|nodes|, i requires 0 <= i < |nodes| => ReadyRank(nodes[i]))
  }

  function StageRank(p: Phase): nat {
    match p
    case Idle => 0
    case Running(_, _, ToUncordon) => 3
    case Running(_, _, ToCordon) => 2
    case Running(_, _, ToKickoff) => 1
  }

  function Potential(w: World): nat {
    15 * Measure(w.nodes, w.spec) + 5 * Sum(ReadyRanks(w.nodes)) + (if w.pending then 4 else 0) + StageRank(w.phase)
  }

  lemma RanksUpdate(nodes: seq<NodeView>, i: nat, n: NodeView)
    requires i < |nodes|
    ensures Sum(ReadyRanks(nodes[i := n])) + ReadyRank(nodes[i]) == Sum(ReadyRanks(nodes)) + ReadyRank(n)
  {
    SumUpdate(ReadyRanks(nodes), i, ReadyRank(n));
    assert ReadyRanks(nodes[i := n]) == ReadyRanks(nodes)[i := ReadyRank(n)];
  }

  lemma SameRanks(a: seq<NodeView>, b: seq<NodeView>)
    requires |a| == |b| && forall i :: 0 <= i < |a| ==> SameLabels(a[i], b[i])
    ensures Sum(ReadyRanks(a)) == Sum(ReadyRanks(b))
  {
    assert forall i :: 0 <= i < |a| ==> ReadyRank(a[i]) == ReadyRank(b[i]) by {
      assert forall i :: 0 <= i < |a| ==> SameLabels(a[i], b[i]);
    }
    assert ReadyRanks(a) == ReadyRanks(b);
  }

  lemma OwnStepLowers(w: World, s: Step)
    requires AtSpec(w) && OwnStep(s) && Enabled(w, s)
    ensures AtSpec(Next(w, s)) && Next(w, s).spec == w.spec
    ensures Potential(Next(w, s)) + (if s == Uncordon && Effective(w, s) then 5 else 0) < Potential(w)
  {
    hide Sum, Measure, Weights, ReadyRanks, AtSpec;
    StepProgress(w, s);
    match s
    case Kmm(i, ready) => RanksUpdate(w.nodes, i, w.nodes[i].(ready := ready));
    case Kickoff =>
      var j := NodeForUpgrade(w.phase.snap, w.phase.v);
      if j.Some? && j.value < |w.nodes| {
        RanksUpdate(w.nodes, j.value, w.nodes[j.value].(version := Some(w.phase.v)));
      }
    case _ => SameRanks(w.nodes, Next(w, s).nodes);
  }

  lemma {:induction false} RunLowers(w: World, steps: seq<Step>)
    requires AtSpec(w) && LeftAlone(w, steps)
    ensures AtSpec(Exec(w, steps)) && Exec(w, steps).spec == w.spec
    ensures |steps| + Potential(Exec(w, steps)) <= Potential(w)
  {
    if steps != [] {
      var n := |steps| - 1;
      PrefixLeftAlone(w, steps, n);
      RunLowers(w, steps[..n]);
      OwnStepLowers(Exec(w, steps[..n]), steps[n]);
    }
  }

  lemma PrefixLeftAlone(w: World, steps: seq<Step>, n: nat)
    requires LeftAlone(w, steps) && n <= |steps|
    ensures LeftAlone(w, steps[..n])
  {
    forall q | 0 <= q < n ensures OwnStep(steps[..n][q]) && Enabled(Exec(w, steps[..n][..q]), steps[..n][q]) {
      assert steps[..n][..q] == steps[..q];
    }
  }

  /** Left alone, N nodes take at most 55 N + 7 steps, whether or not a step changes anything. */
  lemma RunsEnd(w: World, steps: seq<Step>)
    requires AtSpec(w) && LeftAlone(w, steps)
    ensures |steps| <= 55 * |w.nodes| + 7
  {
    RunLowers(w, steps);
    SumBound(Weights(w.nodes, w.spec), 3);
    SumBound(ReadyRanks(w.nodes), 2);
  }

  // ----- Where it ends -----

  /** Nothing is left to do exactly if the operator is idle with nothing queued and KMM agrees with every node. */
  lemma QuietIff(w: World)
    ensures Quiet(w) <==> w.phase.Idle? && !w.pending && forall i :: 0 <= i < |w.nodes| ==> w.nodes[i].ready == w.nodes[i].version
  {
    if Quiet(w) {
      assert !Enabled(w, List) && !Enabled(w, Uncordon) && !Enabled(w, Cordon) && !Enabled(w, Kickoff) by {
        assert OwnStep(List) && OwnStep(Uncordon) && OwnStep(Cordon) && OwnStep(Kickoff);
      }
      forall i | 0 <= i < |w.nodes| ensures w.nodes[i].ready == w.nodes[i].version {
        var ready := if w.nodes[i].ready.None? then w.nodes[i].version else None;
        assert OwnStep(Kmm(i, ready)) && !Enabled(w, Kmm(i, ready));
      }
    }
  }

  /** Then the rollout is complete or stranded. */
  lemma QuietEnds(w: World)
    requires w.spec != "" && Quiet(w)
    ensures w.phase.Idle? && !w.pending && (Complete(w.nodes, w.spec) || Stranded(w))
  {
    QuietIff(w);
  }

  /** A List that loses the wake-up is never made good: from it on nothing is queued, all nodes stay upgraded
      and some node stays tainted. */
  ghost predicate Lost(w: World) {
    && AtSpec(w) && w.spec != "" && !w.pending
    && AllUpgraded(w.nodes, w.spec) && !Complete(w.nodes, w.spec)
    && (w.phase.Running? ==>
          && AllUpgraded(w.phase.snap, w.spec)
          && (w.phase.stage == ToUncordon ==> w.phase.snap == w.nodes && TwoFinished(w.nodes, w.spec)))
  }

  lemma LosingListIsLost(w: World)
    requires AtSpec(w) && w.spec != "" && Enabled(w, List) && Losing(w.nodes, w.spec)
    ensures Lost(Next(w, List))
  {
    StepProgress(w, List);
    var i, j :| 0 <= i < j < |w.nodes| && Finished(w.nodes[i], w.spec) && Finished(w.nodes[j], w.spec);
    assert !(State(w.nodes[i], w.spec) == Upgraded && !Tainted(w.nodes[i].taints));
  }

  lemma LostStaysLost(w: World, s: Step)
    requires Lost(w) && OwnStep(s) && Enabled(w, s)
    ensures Lost(Next(w, s))
  {
    StepProgress(w, s);
    match s
    case Uncordon =>
      AllUpgradedStranded(w.nodes, w.spec);
      WakeUp.AfterUncordonAt(w.nodes, w.spec);
      assert forall i :: 0 <= i < |w.nodes| ==> SameLabels(w.nodes[i], Next(w, s).nodes[i]);
    case Cordon => assert NodeForUpgrade(w.phase.snap, w.phase.v).None?;
    case Kickoff => assert NodeForUpgrade(w.phase.snap, w.phase.v).None?;
    case _ =>
  }

  lemma LastStep(w: World, steps: seq<Step>)
    requires LeftAlone(w, steps) && steps != []
    ensures var init, s := steps[..|steps| - 1], steps[|steps| - 1];
            LeftAlone(w, init) && OwnStep(s) && Enabled(Exec(w, init), s) && Exec(w, steps) == Next(Exec(w, init), s)
  {
    PrefixLeftAlone(w, steps, |steps| - 1);
  }

  lemma {:induction false} LostRun(w: World, steps: seq<Step>, q: nat)
    requires AtSpec(w) && w.spec != "" && LeftAlone(w, steps)
    requires q < |steps| && steps[q] == List && Losing(Exec(w, steps[..q]).nodes, Exec(w, steps[..q]).spec)
    ensures Lost(Exec(w, steps))
  {
    hide *;
    var init, s := steps[..|steps| - 1], steps[|steps| - 1];
    LastStep(w, steps);
    RunLowers(w, init);
    if q < |init| {
      assert init[..q] == steps[..q];
      LostRun(w, init, q);
      LostStaysLost(Exec(w, init), s);
    } else {
      LosingListIsLost(Exec(w, init));
    }
  }

  /** Every rollout that is left alone to its end is complete if and only if none of its reconciles listed
      all nodes upgraded and two of them still tainted. */
  lemma EndsCompleteIff(w: World, steps: seq<Step>)
    requires w.phase.Idle? && w.pending && w.spec != "" && WellTainted(w.nodes)
    requires LeftAlone(w, steps) && Quiet(Exec(w, steps))
    ensures Complete(Exec(w, steps).nodes, w.spec) <==> ListsSafe(w, steps)
  {
    RunLowers(w, steps);
    QuietEnds(Exec(w, steps));
    if ListsSafe(w, steps) {
      NoLostWakeUp(w, steps);
    } else {
      var q :| 0 <= q < |steps| && steps[q] == List && Losing(Exec(w, steps[..q]).nodes, Exec(w, steps[..q]).spec);
      LostRun(w, steps, q);
    }
  }

  lemma {:induction false} LeftAloneKeepsSpec(w: World, steps: seq<Step>)
    requires LeftAlone(w, steps)
    ensures SpecChanges(steps) == 0
  {
    if steps != [] {
      PrefixLeftAlone(w, steps, |steps| - 1);
      LeftAloneKeepsSpec(w, steps[..|steps| - 1]);
    }
  }

  /** A rollout over an untainted cluster finishes by its own steps, after whatever has happened for one
      version, failed writes, outside events and other writers included: however reconciles and KMM then take
      turns, they run out of steps, and when neither can act any more every node is upgraded and untainted. */
  lemma RolloutFinishes(w: World, before: seq<Step>, own: seq<Step>)
    requires w.phase.Idle? && w.pending && w.spec != ""
    requires forall i :: 0 <= i < |w.nodes| ==> !Tainted(w.nodes[i].taints)
    requires SpecChanges(before) == 0 && LeftAlone(Exec(w, before), own)
    ensures |own| <= 55 * |w.nodes| + 7
    ensures Quiet(Exec(w, before + own)) ==> Complete(Exec(w, before + own).nodes, w.spec)
  {
    UntaintedCluster(w.nodes);
    assert AtSpec(w);
    hide Exec, Potential, Quiet, Stranded, LeftAlone, Complete, Tainted, WellTainted, Evicting, AtSpec;
    var mid := Exec(w, before);
    RunProgress(w, before);
    Eviction.RunLength(w, before);
    RunsEnd(mid, own);
    RunLowers(mid, own);
    LeftAloneKeepsSpec(mid, own);
    SpecChangesAppend(before, own);
    ExecAppend(w, before, own);
    FirstRolloutNeverStranded(w, before + own);
    if Quiet(Exec(mid, own)) { QuietEnds(Exec(mid, own)); }
  }
}
