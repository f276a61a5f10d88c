/** Workloads are evicted before a loaded driver is replaced, and stay evicted until the new one is ready. */
module Eviction {
  import opened Options
  import opened NodeState
  import opened Rollout

  /** The kickoff about to be written replaces another version on node j. */
  predicate Overwrites(w: World, j: nat) {
    && Enabled(w, Kickoff)
    && NodeForUpgrade(w.phase.snap, w.phase.v) == Some(j)
    && j < |w.nodes|
    && w.nodes[j].version.Some?
  }

  /** The write about to be made removes node i's taint, and KMM has reported on node i the version
      that the reconcile wants. */
  predicate UncordonsReady(w: World, i: nat) {
    && Enabled(w, Uncordon)
    && FirstFinished(w.phase.snap, w.phase.v) == Some(i)
    && i < |w.nodes|
    && w.nodes[i].version == w.nodes[i].ready == Some(w.phase.v)
  }

  lemma EvictedBeforeOverwrite(w: World, steps: seq<Step>, j: nat)
    requires w.phase.Idle?
    requires Overwrites(Exec(w, steps), j)
    ensures var now := Exec(w, steps);
            Evicts(now.nodes[j].taints) && now.nodes[j].version != Some(now.phase.v)
  {
    InvRun(w, steps);
    var now := Exec(w, steps);
    assert Drift(now.phase.snap[j], now.nodes[j]);
    assert Evicts(now.nodes[j].taints) == ExpectEvicts(now.phase, j);
    PicksDiffer(now.phase.snap, now.phase.v);
  }

  lemma StepFreesOnlyReady(w: World, s: Step, i: nat)
    requires Inv(w) && i < |w.nodes| && Evicts(w.nodes[i].taints)
    ensures |Next(w, s).nodes| == |w.nodes|
    ensures !Evicts(Next(w, s).nodes[i].taints) ==> s == Uncordon && UncordonsReady(w, i)
  {
    match s
    case Uncordon =>
      if Enabled(w, s) {
        var u := FirstFinished(w.phase.snap, w.phase.v);
        if u == Some(i) { assert Drift(w.phase.snap[i], w.nodes[i]); }
      }
    case Cordon =>
      if Enabled(w, s) { var j := NodeForUpgrade(w.phase.snap, w.phase.v); }
    case _ =>
  }

  /** An evicting node stops evicting only through an uncordon, at a time q when its labels agree. */
  lemma {:induction false} HeldUntilReady(w: World, steps: seq<Step>, i: nat) returns (q: nat)
    requires Inv(w) && i < |w.nodes| && Evicts(w.nodes[i].taints)
    ensures |Exec(w, steps).nodes| == |w.nodes|
    ensures !Evicts(Exec(w, steps).nodes[i].taints) ==>
      q < |steps| && steps[q] == Uncordon && UncordonsReady(Exec(w, steps[..q]), i)
  {
    q := 0;
    if steps != [] {
      var n := |steps| - 1;
      q := HeldUntilReady(w, steps[..n], i);
      var before := Exec(w, steps[..n]);
      if Evicts(before.nodes[i].taints) {
        InvRun(w, steps[..n]);
        StepFreesOnlyReady(before, steps[n], i);
        q := n;
      } else {
        assert steps[..n][..q] == steps[..q];
        SetLength(before, steps[n]);
      }
    }
  }

  lemma SetLength(w: World, s: Step)
    ensures |Next(w, s).nodes| == |w.nodes|
  {
  }

  lemma {:induction false} RunLength(w: World, steps: seq<Step>)
    ensures |Exec(w, steps).nodes| == |w.nodes|
  {
    if steps != [] {
      RunLength(w, steps[..|steps| - 1]);
      SetLength(Exec(w, steps[..|steps| - 1]), steps[|steps| - 1]);
    }
  }

  /** Over every run, cut at any kickoff that replaces a version on node j: node j evicts there; and if it
      no longer evicts at the end, then at a time q in between KMM had reported the wanted version on it
      and a reconcile saw that. */
  lemma DriverChangesUnderTaint(w: World, before: seq<Step>, after: seq<Step>, j: nat) returns (q: nat)
    requires w.phase.Idle? && after != [] && after[0] == Kickoff
    requires Overwrites(Exec(w, before), j)
    ensures Evicts(Exec(w, before).nodes[j].taints)
    ensures j < |Exec(w, before + after).nodes|
    ensures !Evicts(Exec(w, before + after).nodes[j].taints) ==>
      0 < q < |after| && after[q] == Uncordon && UncordonsReady(Exec(w, before + after[..q]), j)
  {
    EvictedBeforeOverwrite(w, before, j);
    InvRun(w, before);
    q := HeldUntilReady(Exec(w, before), after, j);
    ExecAppend(w, before, after);
    if q < |after| { ExecAppend(w, before, after[..q]); }
  }

  ghost predicate NewNodesUntainted(nodes: seq<NodeView>) {
    forall i :: 0 <= i < |nodes| && IsNew(nodes[i]) ==> !Evicts(nodes[i].taints)
  }

  lemma StepSparesNew(w: World, s: Step)
    requires Inv(w) && NewNodesUntainted(w.nodes)
    ensures NewNodesUntainted(Next(w, s).nodes)
  {
    if s == Cordon && Enabled(w, s) {
      var j := NodeForUpgrade(w.phase.snap, w.phase.v);
      if j.Some? { assert Drift(w.phase.snap[j.value], w.nodes[j.value]); }
    } else if s == Uncordon && Enabled(w, s) {
      var u := FirstFinished(w.phase.snap, w.phase.v);
    }
  }

  /** A node on which no driver was ever rolled out is never tainted. */
  lemma {:induction false} NewNodesNeverTainted(w: World, steps: seq<Step>)
    requires w.phase.Idle? && NewNodesUntainted(w.nodes)
    ensures NewNodesUntainted(Exec(w, steps).nodes)
  {
    if steps != [] {
      NewNodesNeverTainted(w, steps[..|steps| - 1]);
      InvRun(w, steps[..|steps| - 1]);
      StepSparesNew(Exec(w, steps[..|steps| - 1]), steps[|steps| - 1]);
    }
  }
}
