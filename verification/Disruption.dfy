/** How many targeted nodes evict their workloads at once, over every run. */
module Disruption {
  import opened Options
  import opened Cluster
  import opened NodeState
  import opened Rollout
  import opened Sums

  function EvictFlags(nodes: seq<NodeView>): (r: seq<nat>) {
    seq(|nodes|, i requires 0 <= i < |nodes| => if Evicts(nodes[i].taints) then 1 else 0)
  }

  /** The number of nodes evicting their workloads. */
  function Evicting(nodes: seq<NodeView>): nat {
    Sum(EvictFlags(nodes))
  }

  lemma EvictingUpdate(nodes: seq<NodeView>, i: nat, n: NodeView)
    requires i < |nodes|
    ensures Evicting(nodes[i := n]) + (if Evicts(nodes[i].taints) then 1 else 0)
         == Evicting(nodes) + (if Evicts(n.taints) then 1 else 0)
  {
    SumUpdate(EvictFlags(nodes), i, if Evicts(n.taints) then 1 else 0);
    assert EvictFlags(nodes[i := n]) == EvictFlags(nodes)[i := if Evicts(n.taints) then 1 else 0];
  }

  ghost predicate WellTainted(nodes: seq<NodeView>) {
    forall i :: 0 <= i < |nodes| ==> KeyMeansEvict(nodes[i].taints)
  }

  /** Nobody else writes the upgrade taint, so wherever its key appears it evicts. */
  ghost predicate WorldWellTainted(w: World) {
    WellTainted(w.nodes) && (w.phase.Running? ==> WellTainted(w.phase.snap))
  }

  lemma UncordonKeepsWellTainted(ts: seq<Taint>)
    requires KeyMeansEvict(ts)
    ensures KeyMeansEvict(Uncordoned(ts))
  {
  }

  lemma WellTaintedStep(w: World, s: Step)
    requires WorldWellTainted(w)
    ensures WorldWellTainted(Next(w, s))
  {
    match s
    case Uncordon =>
      if Enabled(w, s) {
        var u := FirstFinished(w.phase.snap, w.phase.v);
        if u.Some? { UncordonKeepsWellTainted(w.phase.snap[u.value].taints); }
      }
    case Cordon =>
    case Foreign(i, taints, _) =>
    case _ =>
  }

  /** A node that accounts for the one eviction that a version may add. */
  predicate Accounted(nodes: seq<NodeView>, v: string, x: nat) {
    && x < |nodes|
    && Evicts(nodes[x].taints)
    && (State(nodes[x], v) != Before || IsLastBefore(nodes, v, x))
  }

  predicate CordonWillTaint(w: World) {
    && Enabled(w, Cordon)
    && var j := NodeForUpgrade(w.phase.snap, w.phase.v);
       j.Some? && j.value < |w.nodes| && !IsNew(w.phase.snap[j.value]) && !Evicts(w.nodes[j.value].taints)
  }

  /** The budget is `bound`; a reconcile for `cur` uses the last unit only for an accounted node. */
  ghost predicate Budget(w: World, cur: string, bound: nat) {
    && Inv(w) && WorldWellTainted(w)
    && (w.phase.Running? ==> w.phase.v == cur)
    && Evicting(w.nodes) <= bound
    && (Evicting(w.nodes) == bound ==> exists x: nat :: Accounted(w.nodes, cur, x))
    && (CordonWillTaint(w) ==> Evicting(w.nodes) < bound)
  }

  lemma BudgetUncordon(w: World, cur: string, bound: nat)
    requires Budget(w, cur, bound) && Enabled(w, Uncordon)
    ensures Budget(Next(w, Uncordon), cur, bound)
  {
    var w' := Next(w, Uncordon);
    var snap, v := w.phase.snap, w.phase.v;
    InvStep(w, Uncordon);
    WellTaintedStep(w, Uncordon);
    var u, j := FirstFinished(snap, v), NodeForUpgrade(snap, v);
    if u.Some? {
      FinishedEvicts(w);
      EvictingUpdate(w.nodes, u.value, w'.nodes[u.value]);
    } else {
      forall x: nat | Accounted(w.nodes, cur, x) ensures j.Some? ==> j == Some(x) {
        AccountedIsPick(w, x);
      }
    }
  }

  /** With nothing to uncordon, the accounted node can only be the one picked for upgrade. */
  lemma AccountedIsPick(w: World, x: nat)
    requires Inv(w) && WorldWellTainted(w) && Enabled(w, Uncordon)
    requires FirstFinished(w.phase.snap, w.phase.v).None? && Accounted(w.nodes, w.phase.v, x)
    ensures var j := NodeForUpgrade(w.phase.snap, w.phase.v); j.Some? ==> j == Some(x)
  {
    var snap, v := w.phase.snap, w.phase.v;
    var j := NodeForUpgrade(snap, v);
    if j.Some? {
      StatesStand(w);
      assert Evicts(w.nodes[x].taints) == ExpectEvicts(w.phase, x);
      TaintTestsAgree(snap[x].taints);
      assert !Finished(snap[x], v);
      assert State(w.nodes[x], v) == State(snap[x], v) == Before;
      assert State(w.nodes[j.value], v) == State(snap[j.value], v) == Before;
    }
  }

  /** The node picked for uncordoning evicts right up to the write, and not after it. */
  lemma FinishedEvicts(w: World)
    requires Inv(w) && WorldWellTainted(w) && Enabled(w, Uncordon)
    requires FirstFinished(w.phase.snap, w.phase.v).Some?
    ensures var u := FirstFinished(w.phase.snap, w.phase.v).value;
            && u < |w.nodes| && Evicts(w.nodes[u].taints)
            && Next(w, Uncordon).nodes == w.nodes[u := w.nodes[u].(taints := Uncordoned(w.phase.snap[u].taints))]
  {
    var u := FirstFinished(w.phase.snap, w.phase.v).value;
    var ts := w.phase.snap[u].taints;
    TaintTestsAgree(ts);
    TaintRoundTrip(ts);
    assert Evicts(w.nodes[u].taints) == ExpectEvicts(w.phase, u);
  }

  lemma BudgetCordon(w: World, cur: string, bound: nat)
    requires Budget(w, cur, bound) && Enabled(w, Cordon)
    ensures Budget(Next(w, Cordon), cur, bound)
  {
    hide Sum, EvictFlags, Evicts;
    var w' := Next(w, Cordon);
    var snap, v := w.phase.snap, w.phase.v;
    InvStep(w, Cordon);
    WellTaintedStep(w, Cordon);
    var j := NodeForUpgrade(snap, v);
    if j.Some? && w'.nodes != w.nodes {
      PicksDiffer(snap, v);
      assert Evicts(w.nodes[j.value].taints) == ExpectEvicts(w.phase, j.value);
      assert !Evicts(snap[j.value].taints);
      EvictingUpdate(w.nodes, j.value, w'.nodes[j.value]);
      StatesStand(w);
      assert forall i :: 0 <= i < |w.nodes| ==> State(w'.nodes[i], v) == State(w.nodes[i], v) == State(snap[i], v);
      assert IsLastBefore(w'.nodes, v, j.value);
      assert Accounted(w'.nodes, cur, j.value);
    }
  }

  lemma BudgetKickoff(w: World, cur: string, bound: nat)
    requires Budget(w, cur, bound) && Enabled(w, Kickoff)
    ensures Budget(Next(w, Kickoff), cur, bound)
  {
    hide Sum, EvictFlags, Evicts, KeyMeansEvict, LastBefore;
    var w' := Next(w, Kickoff);
    var snap, v := w.phase.snap, w.phase.v;
    InvStep(w, Kickoff);
    WellTaintedStep(w, Kickoff);
    var j := NodeForUpgrade(snap, v);
    if j.Some? {
      EvictingUpdate(w.nodes, j.value, w'.nodes[j.value]);
      if Evicting(w.nodes) == bound {
        StatesStand(w);
        var x: nat :| Accounted(w.nodes, cur, x);
        assert State(w.nodes[j.value], v) == State(snap[j.value], v) == Before;
        if x != j.value {
          assert State(w.nodes[x], v) == State(snap[x], v);
          assert State(w.nodes[x], v) != Before;
        }
        assert Accounted(w'.nodes, cur, x);
      }
    }
  }

  /** A change of one node that moves neither its eviction nor its being before upgrade or not. */
  lemma AccountedStands(nodes: seq<NodeView>, v: string, i: nat, n: NodeView, x: nat)
    requires i < |nodes| && Accounted(nodes, v, x)
    requires Evicts(n.taints) == Evicts(nodes[i].taints) && (State(n, v) == Before <==> State(nodes[i], v) == Before)
    ensures Accounted(nodes[i := n], v, x)
  {
  }

  lemma BudgetNode(w: World, s: Step, cur: string, bound: nat)
    requires Budget(w, cur, bound) && Enabled(w, s) && (s.Kmm? || s.Foreign?)
    ensures Budget(Next(w, s), cur, bound)
  {
    var w' := Next(w, s);
    InvStep(w, s);
    WellTaintedStep(w, s);
    EvictingUpdate(w.nodes, s.i, w'.nodes[s.i]);
    forall x: nat | Accounted(w.nodes, cur, x) ensures Accounted(w'.nodes, cur, x) {
      AccountedStands(w.nodes, cur, s.i, w'.nodes[s.i], x);
    }
  }

  lemma BudgetOther(w: World, s: Step, cur: string, bound: nat)
    requires Budget(w, cur, bound)
    requires s.SetSpec? || s.Poke? || s.Fail? || s.Kmm? || s.Foreign?
    ensures Budget(Next(w, s), cur, bound)
  {
    if Enabled(w, s) && (s.Kmm? || s.Foreign?) {
      BudgetNode(w, s, cur, bound);
    } else {
      InvStep(w, s);
      WellTaintedStep(w, s);
    }
  }

  /** Only a List that reads a new version can need a larger budget, and then one more is enough. */
  lemma BudgetList(w: World, cur: string, bound: nat)
    requires Budget(w, cur, bound) && Enabled(w, List)
    ensures Budget(Next(w, List), cur, bound) || Budget(Next(w, List), w.spec, bound + 1)
    ensures w.spec == cur ==> Budget(Next(w, List), cur, bound)
  {
    InvStep(w, List);
    WellTaintedStep(w, List);
    var w' := Next(w, List);
  }

  function SpecChanges(steps: seq<Step>): nat {
    if steps == [] then 0
    else SpecChanges(steps[..|steps| - 1]) + if steps[|steps| - 1].SetSpec? then 1 else 0
  }

  /** Along a run from an idle world the budget grows by one for each version that a reconcile reads;
      `k` versions have been read and `cur` was the last. */
  lemma {:induction false} BudgetRun(w: World, steps: seq<Step>) returns (cur: string, k: nat)
    requires w.phase.Idle? && WellTainted(w.nodes)
    ensures k <= SpecChanges(steps) + 1
    ensures k == SpecChanges(steps) + 1 ==> cur == Exec(w, steps).spec
    ensures k > 0 ==> Budget(Exec(w, steps), cur, Evicting(w.nodes) + k)
    ensures k == 0 ==> Exec(w, steps).phase.Idle? && Evicting(Exec(w, steps).nodes) == Evicting(w.nodes)
                       && WellTainted(Exec(w, steps).nodes)
  {
    if steps == [] {
      cur, k := "", 0;
    } else {
      var s, init := steps[|steps| - 1], steps[..|steps| - 1];
      var before := Exec(w, init);
      cur, k := BudgetRun(w, init);
      var bound := Evicting(w.nodes) + k;
      if k == 0 {
        cur, k := BudgetStarts(before, s, bound);
      } else if s == List && Enabled(before, s) {
        BudgetList(before, cur, bound);
        if !Budget(Next(before, s), cur, bound) {
          cur, k := before.spec, k + 1;
        }
      } else if Enabled(before, s) {
        if s == Uncordon { BudgetUncordon(before, cur, bound); }
        else if s == Cordon { BudgetCordon(before, cur, bound); }
        else if s == Kickoff { BudgetKickoff(before, cur, bound); }
        else { BudgetOther(before, s, cur, bound); }
      }
    }
  }

  lemma BudgetStarts(w: World, s: Step, count: nat) returns (cur: string, k: nat)
    requires w.phase.Idle? && WellTainted(w.nodes) && Evicting(w.nodes) == count
    ensures k <= 1
    ensures k == 1 ==> cur == w.spec == Next(w, s).spec && Budget(Next(w, s), cur, count + 1)
    ensures k == 0 ==> Next(w, s).phase.Idle? && Evicting(Next(w, s).nodes) == count && WellTainted(Next(w, s).nodes)
  {
    cur, k := w.spec, 0;
    WellTaintedStep(w, s);
    if s == List && Enabled(w, s) {
      InvStep(w, s);
      k := 1;
    } else if (s.Kmm? || s.Foreign?) && Enabled(w, s) {
      EvictingUpdate(w.nodes, s.i, Next(w, s).nodes[s.i]);
    }
  }

  /** The disruption bound: with n nodes evicting at the start and k changes of version since, at most
      n + k + 1 nodes evict at any point; from an untainted cluster, at most one per version wanted. */
  lemma DisruptionBound(w: World, steps: seq<Step>)
    requires w.phase.Idle? && WellTainted(w.nodes)
    ensures Evicting(Exec(w, steps).nodes) <= Evicting(w.nodes) + 1 + SpecChanges(steps)
  {
    var cur, k := BudgetRun(w, steps);
  }

  /** Within one version: at most one more than at the start, and when that one is in use some evicting
      node is in upgrade, upgraded, or the last one waiting in the list. */
  lemma OneVersionDisruption(w: World, steps: seq<Step>)
    requires w.phase.Idle? && WellTainted(w.nodes) && SpecChanges(steps) == 0
    ensures Evicting(Exec(w, steps).nodes) <= Evicting(w.nodes) + 1
    ensures Evicting(Exec(w, steps).nodes) == Evicting(w.nodes) + 1 ==>
      exists x: nat :: Accounted(Exec(w, steps).nodes, Exec(w, steps).spec, x)
  {
    var cur, k := BudgetRun(w, steps);
  }

  lemma UntaintedCluster(nodes: seq<NodeView>)
    requires forall i :: 0 <= i < |nodes| ==> !Tainted(nodes[i].taints)
    ensures WellTainted(nodes) && Evicting(nodes) == 0
  {
    forall i | 0 <= i < |nodes| ensures KeyMeansEvict(nodes[i].taints) && !Evicts(nodes[i].taints) {
      TaintTestsAgree(nodes[i].taints);
    }
    SumZero(EvictFlags(nodes));
  }

  /** From an untainted cluster, after k wanted versions at most k nodes evict. */
  lemma AtMostOnePerVersion(w: World, steps: seq<Step>)
    requires w.phase.Idle? && forall i :: 0 <= i < |w.nodes| ==> !Tainted(w.nodes[i].taints)
    ensures Evicting(Exec(w, steps).nodes) <= 1 + SpecChanges(steps)
  {
    UntaintedCluster(w.nodes);
    DisruptionBound(w, steps);
  }
}
