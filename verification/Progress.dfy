/** A rollout to a fixed version finishes: a measure that no step raises and every effective step lowers. */
module Progress {
  import opened Options
  import opened Cluster
  import opened NodeState
  import opened Rollout
  import opened Sums
  import opened Disruption

  function Weight(n: NodeView, v: string): nat {
    match State(n, v)
    case Before => 3
    case InUpgrade => 2
    case Upgraded => if Tainted(n.taints) then 1 else 0
  }

  function Weights(nodes: seq<NodeView>, v: string): seq<nat> {
    seq(|nodes|, i requires 0 <= i < |nodes| => Weight(nodes[i], v))
  }

  function Measure(nodes: seq<NodeView>, v: string): nat {
    Sum(Weights(nodes, v))
  }

  predicate Complete(nodes: seq<NodeView>, v: string) {
    forall i :: 0 <= i < |nodes| ==> State(nodes[i], v) == Upgraded && !Tainted(nodes[i].taints)
  }

  lemma MeasureUpdate(nodes: seq<NodeView>, v: string, i: nat, n: NodeView)
    requires i < |nodes|
    ensures Measure(nodes[i := n], v) + Weight(nodes[i], v) == Measure(nodes, v) + Weight(n, v)
  {
    SumUpdate(Weights(nodes, v), i, Weight(n, v));
    assert Weights(nodes[i := n], v) == Weights(nodes, v)[i := Weight(n, v)];
  }

  /** The steps that move a node towards the version: a real uncordon, a real kickoff, a node becoming ready. */
  predicate Effective(w: World, s: Step) {
    && Enabled(w, s)
    && match s
       case Uncordon => FirstFinished(w.phase.snap, w.phase.v).Some?
       case Kickoff => NodeForUpgrade(w.phase.snap, w.phase.v).Some?
       case Kmm(i, ready) => State(w.nodes[i], w.spec) == InUpgrade && ready == Some(w.spec)
       case _ => false
  }

  ghost predicate AtSpec(w: World) {
    Inv(w) && WorldWellTainted(w) && (w.phase.Running? ==> w.phase.v == w.spec)
  }

  lemma UncordonProgress(w: World)
    requires AtSpec(w) && Enabled(w, Uncordon)
    ensures Measure(Next(w, Uncordon).nodes, w.spec) + (if Effective(w, Uncordon) then 1 else 0) <= Measure(w.nodes, w.spec)
  {
    var u := FirstFinished(w.phase.snap, w.phase.v);
    if u.Some? {
      FinishedEvicts(w);
      assert Drift(w.phase.snap[u.value], w.nodes[u.value]);
      TaintTestsAgree(w.nodes[u.value].taints);
      MeasureUpdate(w.nodes, w.spec, u.value, Next(w, Uncordon).nodes[u.value]);
    }
  }

  lemma CordonProgress(w: World)
    requires AtSpec(w) && Enabled(w, Cordon)
    ensures Measure(Next(w, Cordon).nodes, w.spec) == Measure(w.nodes, w.spec)
  {
    var j := NodeForUpgrade(w.phase.snap, w.phase.v);
    if j.Some? {
      assert Drift(w.phase.snap[j.value], w.nodes[j.value]);
      MeasureUpdate(w.nodes, w.spec, j.value, Next(w, Cordon).nodes[j.value]);
    }
  }

  lemma StepProgress(w: World, s: Step)
    requires AtSpec(w) && !s.SetSpec?
    ensures AtSpec(Next(w, s)) && Next(w, s).spec == w.spec
    ensures Measure(Next(w, s).nodes, w.spec) + (if Effective(w, s) then 1 else 0) <= Measure(w.nodes, w.spec)
  {
    hide Sum, Weights, UpgradeTaints;
    InvStep(w, s);
    WellTaintedStep(w, s);
    if Enabled(w, s) {
      if s == Uncordon {
        UncordonProgress(w);
      } else if s == Cordon {
        CordonProgress(w);
      } else if s == Kickoff {
        var j := NodeForUpgrade(w.phase.snap, w.phase.v);
        if j.Some? {
          assert Drift(w.phase.snap[j.value], w.nodes[j.value]);
          MeasureUpdate(w.nodes, w.spec, j.value, Next(w, s).nodes[j.value]);
        }
      } else if s.Kmm? || s.Foreign? {
        assert s.Foreign? ==> Tainted(s.taints) == Tainted(w.nodes[s.i].taints);
        MeasureUpdate(w.nodes, w.spec, s.i, Next(w, s).nodes[s.i]);
      }
    }
  }

  function EffectiveSteps(w: World, steps: seq<Step>): nat {
    if steps == [] then 0
    else
      var init := steps[..|steps| - 1];
      EffectiveSteps(w, init) + if Effective(Exec(w, init), steps[|steps| - 1]) then 1 else 0
  }

  lemma {:induction false} RunProgress(w: World, steps: seq<Step>)
    requires AtSpec(w) && SpecChanges(steps) == 0
    ensures AtSpec(Exec(w, steps)) && Exec(w, steps).spec == w.spec
    ensures EffectiveSteps(w, steps) + Measure(Exec(w, steps).nodes, w.spec) <= Measure(w.nodes, w.spec)
  {
    if steps != [] {
      RunProgress(w, steps[..|steps| - 1]);
      StepProgress(Exec(w, steps[..|steps| - 1]), steps[|steps| - 1]);
    }
  }

  /** For a fixed version, N nodes need at most 3N effective steps, whatever else happens. */
  lemma AtMostThreeStepsPerNode(w: World, steps: seq<Step>)
    requires w.phase.Idle? && WellTainted(w.nodes) && SpecChanges(steps) == 0
    ensures EffectiveSteps(w, steps) + Measure(Exec(w, steps).nodes, w.spec) <= 3 * |w.nodes|
  {
    RunProgress(w, steps);
    SumBound(Weights(w.nodes, w.spec), 3);
  }

  /** Exactly the complete clusters leave neither the operator nor KMM anything to do. */
  lemma NothingLeftIffComplete(nodes: seq<NodeView>, v: string)
    ensures Complete(nodes, v) <==>
      FirstFinished(nodes, v).None? && NodeForUpgrade(nodes, v).None? && !AnyInUpgrade(nodes, v)
    ensures Complete(nodes, v) <==> Measure(nodes, v) == 0
  {
    SumZero(Weights(nodes, v));
    assert forall i :: 0 <= i < |nodes| ==> Weights(nodes, v)[i] == Weight(nodes[i], v);
    if FirstFinished(nodes, v).None? && NodeForUpgrade(nodes, v).None? && !AnyInUpgrade(nodes, v) {
      forall i | 0 <= i < |nodes| ensures State(nodes[i], v) == Upgraded && !Tainted(nodes[i].taints) {
        assert State(nodes[i], v) != InUpgrade;
        assert !Finished(nodes[i], v);
      }
    }
  }

  /** One undisturbed reconcile. */
  const PASS := [List, Uncordon, Cordon, Kickoff]

  function AfterPass(w: World): World {
    Next(Next(Next(Next(w, List), Uncordon), Cordon), Kickoff)
  }

  lemma FourSteps(w: World, a: Step, b: Step, c: Step, d: Step)
    ensures Exec(w, [a, b, c, d]) == Next(Next(Next(Next(w, a), b), c), d)
  {
    var steps := [a, b, c, d];
    assert steps[..3] == [a, b, c] && [a, b, c][..2] == [a, b] && [a, b][..1] == [a] && [a][..0] == [];
    assert Exec(w, [a]) == Next(w, a);
    assert Exec(w, [a, b]) == Next(Next(w, a), b);
    assert Exec(w, [a, b, c]) == Next(Next(Next(w, a), b), c);
  }

  /** An undisturbed reconcile of a cluster that is not complete and has nothing in upgrade makes progress. */
  lemma PassProgress(w: World)
    requires AtSpec(w) && w.phase.Idle? && w.pending && w.spec != ""
    requires !Complete(w.nodes, w.spec) && !AnyInUpgrade(w.nodes, w.spec)
    ensures var w' := AfterPass(w);
            AtSpec(w') && w'.phase.Idle? && w'.spec == w.spec && Measure(w'.nodes, w.spec) < Measure(w.nodes, w.spec)
  {
    var w1 := Next(w, List);
    StepProgress(w, List);
    WritesProgress(w1);
  }

  lemma WritesProgress(w: World)
    requires AtSpec(w) && Enabled(w, Uncordon) && w.phase.snap == w.nodes
    requires !Complete(w.nodes, w.spec) && !AnyInUpgrade(w.nodes, w.spec)
    ensures var w' := Next(Next(Next(w, Uncordon), Cordon), Kickoff);
            AtSpec(w') && w'.phase.Idle? && w'.spec == w.spec && Measure(w'.nodes, w.spec) < Measure(w.nodes, w.spec)
  {
    NothingLeftIffComplete(w.nodes, w.spec);
    StepProgress(w, Uncordon);
    CordonKickoffProgress(Next(w, Uncordon));
  }

  lemma CordonKickoffProgress(w: World)
    requires AtSpec(w) && Enabled(w, Cordon)
    ensures var w' := Next(Next(w, Cordon), Kickoff);
            && AtSpec(w') && w'.phase.Idle? && w'.spec == w.spec
            && Measure(w'.nodes, w.spec) + (if NodeForUpgrade(w.phase.snap, w.phase.v).Some? then 1 else 0)
               <= Measure(w.nodes, w.spec)
  {
    StepProgress(w, Cordon);
    StepProgress(Next(w, Cordon), Kickoff);
  }

  lemma {:induction false} SpecChangesAppend(a: seq<Step>, b: seq<Step>)
    ensures SpecChanges(a + b) == SpecChanges(a) + SpecChanges(b)
  {
    if b == [] {
      assert a + b == a;
    } else {
      assert (a + b)[..|a + b| - 1] == a + b[..|b| - 1];
      SpecChangesAppend(a, b[..|b| - 1]);
    }
  }

  /** From every idle state, in particular every reachable one, stranded or not, the rollout to the wanted
      version can be finished by KMM readiness and undisturbed reconciles, each of them woken by one event
      from outside (a `Poke`). What the rollout does without such events is told in `Liveness`. */
  lemma RolloutCanFinish(w: World) returns (steps: seq<Step>)
    requires AtSpec(w) && w.phase.Idle? && w.spec != ""
    ensures SpecChanges(steps) == 0 && |steps| <= 5 * Measure(w.nodes, w.spec)
    ensures forall q :: 0 <= q < |steps| ==> !steps[q].Foreign?
    ensures Exec(w, steps).phase.Idle? && Complete(Exec(w, steps).nodes, w.spec)
    decreases Measure(w.nodes, w.spec)
  {
    NothingLeftIffComplete(w.nodes, w.spec);
    if Complete(w.nodes, w.spec) {
      steps := [];
    } else {
      var first := NextMove(w);
      var rest := RolloutCanFinish(Exec(w, first));
      steps := first + rest;
      ExecAppend(w, first, rest);
      SpecChangesAppend(first, rest);
    }
  }

  lemma NextMove(w: World) returns (steps: seq<Step>)
    requires AtSpec(w) && w.phase.Idle? && w.spec != "" && !Complete(w.nodes, w.spec)
    ensures SpecChanges(steps) == 0 && |steps| <= 5
    ensures forall q :: 0 <= q < |steps| ==> !steps[q].Foreign?
    ensures var w' := Exec(w, steps);
            AtSpec(w') && w'.phase.Idle? && w'.spec == w.spec && Measure(w'.nodes, w.spec) < Measure(w.nodes, w.spec)
  {
    if i :| 0 <= i < |w.nodes| && State(w.nodes[i], w.spec) == InUpgrade {
      steps := [Kmm(i, Some(w.spec))];
      StepProgress(w, steps[0]);
      assert Exec(w, steps[..0]) == w;
      assert Effective(w, steps[0]);
    } else {
      StepProgress(w, Poke);
      var poked := Next(w, Poke);
      PassProgress(poked);
      FourSteps(poked, List, Uncordon, Cordon, Kickoff);
      ExecAppend(w, [Poke], PASS);
      assert Exec(w, [Poke][..0]) == w && Exec(w, [Poke]) == poked;
      steps := [Poke] + PASS;
      SpecChangesOfPass();
      SpecChangesAppend([Poke], PASS);
    }
  }

  lemma SpecChangesOfPass()
    ensures SpecChanges(PASS) == 0 && SpecChanges([Poke]) == 0
  {
    SpecChangesAppend([List, Uncordon], [Cordon, Kickoff]);
    assert PASS == [List, Uncordon] + [Cordon, Kickoff];
  }

  // ----- A taint with the upgrade key but another effect -----

  function WrongEffect(v: string): NodeView {
    NodeView(Some(v), Some(v), [Taint(UPGRADE_TAINT_KEY, "true", NoSchedule)])
  }

  /** The first node carries the wrong effect, and every list in use shows it. */
  predicate FirstIsWrong(w: World, v: string) {
    && w.spec == v && w.nodes != [] && w.nodes[0] == WrongEffect(v)
    && (w.phase.Running? ==> w.phase.v == v && w.phase.snap != [] && w.phase.snap[0] == WrongEffect(v))
  }

  lemma WrongIsPicked(nodes: seq<NodeView>, v: string)
    requires nodes != [] && nodes[0] == WrongEffect(v)
    ensures FirstFinished(nodes, v) == Some(0) && NodeForUpgrade(nodes, v) != Some(0)
    ensures Uncordoned(nodes[0].taints) == nodes[0].taints
    ensures !Complete(nodes, v)
  {
    assert HasUpgradeKey(nodes[0].taints[0]);
    assert Finished(nodes[0], v);
  }

  lemma WrongStepStays(w: World, s: Step, v: string)
    requires FirstIsWrong(w, v) && !s.SetSpec? && !(s.Foreign? && s.i == 0)
    ensures FirstIsWrong(Next(w, s), v)
  {
    if w.phase.Running? { WrongIsPicked(w.phase.snap, v); }
  }

  /** Without the assumption on the upgrade key the rollout can stall: over every run in which nobody else
      writes that node and the version stays, a node whose upgrade-key taint does not evict is picked for
      uncordoning at every List, keeps its taint, and the rollout is never complete. */
  lemma {:induction false} WrongEffectStalls(w: World, steps: seq<Step>)
    requires w.phase.Idle? && w.nodes != [] && w.nodes[0] == WrongEffect(w.spec)
    requires forall q :: 0 <= q < |steps| ==> !steps[q].SetSpec? && !(steps[q].Foreign? && steps[q].i == 0)
    ensures FirstIsWrong(Exec(w, steps), w.spec)
    ensures FirstFinished(Exec(w, steps).nodes, w.spec) == Some(0) && !Complete(Exec(w, steps).nodes, w.spec)
  {
    if steps != [] {
      var n := |steps| - 1;
      WrongEffectStalls(w, steps[..n]);
      WrongStepStays(Exec(w, steps[..n]), steps[n], w.spec);
    }
    WrongIsPicked(Exec(w, steps).nodes, w.spec);
  }
}
