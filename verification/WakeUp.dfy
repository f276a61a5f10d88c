/** Whether a rollout that is waiting for nothing can be left without a request on the queue by the events of
    the DeviceConfig and of the nodes. The events of owned objects are in `Owned`. */
module WakeUp {
  import opened Options
  import opened NodeState
  import opened Rollout
  import opened Sums
  import opened Disruption
  import opened Progress

  ghost predicate TwoFinished(nodes: seq<NodeView>, v: string) {
    exists i, j :: 0 <= i < j < |nodes| && Finished(nodes[i], v) && Finished(nodes[j], v)
  }

  predicate AllUpgraded(nodes: seq<NodeView>, v: string) {
    forall i :: 0 <= i < |nodes| ==> State(nodes[i], v) == Upgraded
  }

  /** A list on which a reconcile loses the wake-up: every node upgraded, two of them still tainted. */
  ghost predicate Losing(nodes: seq<NodeView>, v: string) {
    AllUpgraded(nodes, v) && TwoFinished(nodes, v)
  }

  /** No request is queued, no node is being upgraded, and yet the rollout is not complete: the next
      step towards completion waits for an event that no node label and no edit will cause. */
  predicate Stranded(w: World) {
    && w.phase.Idle? && !w.pending && w.spec != ""
    && !AnyInUpgrade(w.nodes, w.spec)
    && !Complete(w.nodes, w.spec)
  }

  predicate SameLabels(a: NodeView, b: NodeView) {
    a.version == b.version && a.ready == b.ready
  }

  ghost predicate Watched(w: World) {
    && Inv(w) && WorldWellTainted(w)
    && !Stranded(w)
    && (w.phase.Running? ==> !Losing(w.phase.snap, w.phase.v))
    && (w.phase.Running? && !w.pending ==>
          && w.spec == w.phase.v
          && forall i :: 0 <= i < |w.nodes| ==> SameLabels(w.phase.snap[i], w.nodes[i]))
  }

  /** A reconcile that kicks nothing off and was not overtaken by an event leaves a complete rollout or a
      node in upgrade. */
  lemma IdleEndIsWatched(w: World)
    requires Watched(w) && Enabled(w, Kickoff) && !w.pending
    requires NodeForUpgrade(w.phase.snap, w.phase.v).None?
    ensures !Stranded(Next(w, Kickoff))
  {
    var snap, v := w.phase.snap, w.phase.v;
    if AnyInUpgrade(snap, v) {
      var i :| 0 <= i < |snap| && State(snap[i], v) == InUpgrade;
      assert SameLabels(snap[i], w.nodes[i]);
      assert State(w.nodes[i], v) == InUpgrade;
    } else {
      assert AllUpgraded(snap, v);
      forall i | 0 <= i < |w.nodes| ensures State(w.nodes[i], v) == Upgraded && !Tainted(w.nodes[i].taints) {
        assert SameLabels(snap[i], w.nodes[i]);
        assert State(snap[i], v) == Upgraded;
        assert Evicts(w.nodes[i].taints) == ExpectEvicts(w.phase, i);
        TaintTestsAgree(snap[i].taints);
        TaintTestsAgree(w.nodes[i].taints);
        assert Finished(snap[i], v) ==> FirstFinished(snap, v) == Some(i);
      }
    }
  }

  lemma NodeStepIsWatched(w: World, s: Step)
    requires Watched(w) && Enabled(w, s) && s.Foreign?
    ensures !Stranded(Next(w, s))
  {
    var w' := Next(w, s);
    assert forall i :: 0 <= i < |w.nodes| ==> State(w'.nodes[i], w.spec) == State(w.nodes[i], w.spec);
    assert forall i :: 0 <= i < |w.nodes| ==> Tainted(w'.nodes[i].taints) == Tainted(w.nodes[i].taints);
    if i :| 0 <= i < |w.nodes| && State(w.nodes[i], w.spec) == InUpgrade {
      assert State(w'.nodes[i], w.spec) == InUpgrade;
    }
  }

  lemma StepIsWatched(w: World, s: Step)
    requires Watched(w)
    requires s == List && Enabled(w, s) ==> !Losing(w.nodes, w.spec)
    ensures Watched(Next(w, s))
  {
    InvStep(w, s);
    WellTaintedStep(w, s);
    if s == Kickoff && Enabled(w, s) && !w.pending && NodeForUpgrade(w.phase.snap, w.phase.v).None? {
      IdleEndIsWatched(w);
    } else if s.Foreign? && Enabled(w, s) {
      NodeStepIsWatched(w, s);
    }
  }

  /** No List of the run sees every node upgraded and two of them still tainted. */
  ghost predicate ListsSafe(w: World, steps: seq<Step>) {
    forall q :: 0 <= q < |steps| && steps[q] == List ==>
      !Losing(Exec(w, steps[..q]).nodes, Exec(w, steps[..q]).spec)
  }

  lemma {:induction false} RunIsWatched(w: World, steps: seq<Step>)
    requires Watched(w) && ListsSafe(w, steps)
    ensures Watched(Exec(w, steps))
  {
    if steps != [] {
      var n := |steps| - 1;
      forall q | 0 <= q < n && steps[..n][q] == List
        ensures !Losing(Exec(w, steps[..n][..q]).nodes, Exec(w, steps[..n][..q]).spec)
      {
        assert steps[..n][..q] == steps[..q];
      }
      RunIsWatched(w, steps[..n]);
      StepIsWatched(Exec(w, steps[..n]), steps[n]);
    }
  }

  /** No lost wake-up: an idle operator with an unfinished rollout has a request queued or a node in
      upgrade, whose ready label will queue one. */
  lemma NoLostWakeUp(w: World, steps: seq<Step>)
    requires w.phase.Idle? && w.pending && WellTainted(w.nodes) && ListsSafe(w, steps)
    ensures !Stranded(Exec(w, steps))
  {
    RunIsWatched(w, steps);
  }

  lemma {:induction false} SumTwo(s: seq<nat>, i: nat, j: nat)
    requires i < j < |s|
    ensures Sum(s) >= s[i] + s[j]
  {
    var n := |s| - 1;
    if j < n {
      SumTwo(s[..n], i, j);
    } else {
      SumOne(s[..n], i);
    }
  }

  lemma {:induction false} SumOne(s: seq<nat>, i: nat)
    requires i < |s|
    ensures Sum(s) >= s[i]
  {
    if i < |s| - 1 { SumOne(s[..|s| - 1], i); }
  }

  lemma FewEvictingFewFinished(nodes: seq<NodeView>, v: string)
    requires WellTainted(nodes) && Evicting(nodes) <= 1
    ensures !TwoFinished(nodes, v)
  {
    forall i, j | 0 <= i < j < |nodes| && Finished(nodes[i], v) ensures !Finished(nodes[j], v) {
      TaintTestsAgree(nodes[i].taints);
      TaintTestsAgree(nodes[j].taints);
      SumTwo(EvictFlags(nodes), i, j);
    }
  }

  lemma {:induction false} NoSpecChangesInPrefix(steps: seq<Step>, q: nat)
    requires q <= |steps| && SpecChanges(steps) == 0
    ensures SpecChanges(steps[..q]) == 0
  {
    if q < |steps| {
      assert steps[..|steps| - 1][..q] == steps[..q];
      NoSpecChangesInPrefix(steps[..|steps| - 1], q);
    } else {
      assert steps[..q] == steps;
    }
  }

  /** A first rollout over an untainted cluster never loses a wake-up. */
  lemma FirstRolloutNeverStranded(w: World, steps: seq<Step>)
    requires w.phase.Idle? && w.pending && SpecChanges(steps) == 0
    requires forall i :: 0 <= i < |w.nodes| ==> !Tainted(w.nodes[i].taints)
    ensures !Stranded(Exec(w, steps))
  {
    UntaintedCluster(w.nodes);
    forall q | 0 <= q < |steps| && steps[q] == List
      ensures !Losing(Exec(w, steps[..q]).nodes, Exec(w, steps[..q]).spec)
    {
      NoSpecChangesInPrefix(steps, q);
      AtMostOnePerVersion(w, steps[..q]);
      var cur, k := BudgetRun(w, steps[..q]);
      FewEvictingFewFinished(Exec(w, steps[..q]).nodes, Exec(w, steps[..q]).spec);
    }
    NoLostWakeUp(w, steps);
  }

  // ----- Exactly when an undisturbed reconcile loses the wake-up -----

  lemma PassWrites(w: World)
    requires w.phase.Idle? && w.pending && w.spec != ""
    ensures var v, n := w.spec, w.nodes;
            AfterPass(w) == World(v, AfterKickoff(AfterCordon(AfterUncordon(n, n, v), n, v), n, v), Idle,
                                  NodeForUpgrade(n, v).Some?)
  {
    var w1 := Next(w, List);
    var w2 := Next(w1, Uncordon);
    var w3 := Next(w2, Cordon);
    assert w3.phase == Running(w.spec, w.nodes, ToKickoff);
  }

  /** An undisturbed reconcile strands the rollout if and only if every targeted node is upgraded and two
      of them are still tainted: uncordoning writes only taints, which queues nothing, and one reconcile
      uncordons one node. */
  lemma StrandedIff(w: World)
    requires w.phase.Idle? && w.pending && w.spec != "" && WellTainted(w.nodes)
    ensures Stranded(AfterPass(w)) <==> Losing(w.nodes, w.spec)
  {
    PassWrites(w);
    var v, n := w.spec, w.nodes;
    if NodeForUpgrade(n, v).None? {
      var n' := AfterUncordon(n, n, v);
      assert AfterPass(w).nodes == n';
      AfterUncordonAt(n, v);
      if AnyInUpgrade(n, v) {
        var i :| 0 <= i < |n| && State(n[i], v) == InUpgrade;
        assert State(n'[i], v) == InUpgrade;
      } else {
        assert forall i :: 0 <= i < |n| ==> State(n[i], v) == Upgraded;
        AllUpgradedStranded(n, v);
      }
    } else {
      assert AfterPass(w).pending;
    }
  }

  /** What one uncordon leaves tainted. */
  lemma AfterUncordonAt(n: seq<NodeView>, v: string)
    requires WellTainted(n)
    ensures |AfterUncordon(n, n, v)| == |n|
    ensures forall i :: 0 <= i < |n| ==>
      && SameLabels(n[i], AfterUncordon(n, n, v)[i])
      && (Tainted(AfterUncordon(n, n, v)[i].taints) <==> Tainted(n[i].taints) && FirstFinished(n, v) != Some(i))
  {
    hide Tainted, KeyMeansEvict, Uncordoned;
    var u := FirstFinished(n, v);
    if u.Some? {
      var ts := n[u.value].taints;
      assert Tainted(ts) && !Tainted(Uncordoned(ts));
    }
  }

  lemma AllUpgradedStranded(n: seq<NodeView>, v: string)
    requires WellTainted(n) && forall i :: 0 <= i < |n| ==> State(n[i], v) == Upgraded
    ensures !AnyInUpgrade(AfterUncordon(n, n, v), v)
    ensures !Complete(AfterUncordon(n, n, v), v) <==> TwoFinished(n, v)
  {
    hide AfterUncordon, WellTainted, NodeForUpgrade, Tainted;
    AfterUncordonAt(n, v);
    var n', u := AfterUncordon(n, n, v), FirstFinished(n, v);
    assert forall i :: 0 <= i < |n| ==> State(n'[i], v) == State(n[i], v) by {
      assert forall i :: 0 <= i < |n| ==> SameLabels(n[i], n'[i]);
    }
    if TwoFinished(n, v) {
      var i, j :| 0 <= i < j < |n| && Finished(n[i], v) && Finished(n[j], v);
      assert u != Some(j);
      assert Tainted(n'[j].taints);
    }
    if !Complete(n', v) {
      var j :| 0 <= j < |n'| && !(State(n'[j], v) == Upgraded && !Tainted(n'[j].taints));
      assert Finished(n[j], v);
      assert u.Some? && u.value < j;
    }
  }

  // ----- A run that strands a rollout -----

  lemma TaintValues()
    ensures Uncordoned([UPGRADE_TAINT]) == [] && Cordoned([]) == [UPGRADE_TAINT]
    ensures Tainted([UPGRADE_TAINT]) && Evicts([UPGRADE_TAINT]) && KeyMeansEvict([UPGRADE_TAINT])
  {
    assert HasUpgradeKey([UPGRADE_TAINT][0]) && IsUpgradeTaint([UPGRADE_TAINT][0]);
    UncordonDistributes([], [UPGRADE_TAINT]);
    assert Uncordoned([UPGRADE_TAINT]) == [];
  }

  /** The picks among two nodes. */
  lemma PickOfTwo(p: NodeView, q: NodeView, v: string)
    ensures FirstFinished([p, q], v) == (if Finished(p, v) then Some(0) else if Finished(q, v) then Some(1) else None)
    ensures NodeForUpgrade([p, q], v) ==
      if State(p, v) == InUpgrade || State(q, v) == InUpgrade then None
      else if State(q, v) == Before then Some(1)
      else if State(p, v) == Before then Some(0) else None
  {
    var n := [p, q];
    assert n[0] == p && n[1] == q;
  }

  const T := [UPGRADE_TAINT]

  /** Two nodes fully on version 1 and untainted, and the user asks for version 2. */
  const START := World("2", [NodeView(Some("1"), Some("1"), []), NodeView(Some("1"), Some("1"), [])], Idle, true)

  /** Node 1 goes to version 2. The reconcile after that uncordons it and kicks node 0 off. */
  const TO_TWO := PASS + [Kmm(1, Some("2"))] + PASS

  /** The user asks for version 3; node 1 is tainted, and the write of its label fails. */
  const TO_THREE := [SetSpec("3"), List, Uncordon, Cordon] + [Fail]

  /** The user returns to version 2, node 0 becomes ready, and a reconcile finds nothing more to do. */
  const BACK_TO_TWO := [SetSpec("2"), Kmm(0, Some("2"))] + PASS

  lemma FirstPart()
    ensures Exec(START, TO_TWO) ==
      World("2", [NodeView(Some("2"), Some("1"), T), NodeView(Some("2"), Some("2"), [])], Idle, true)
  {
    hide FirstFinished, NodeForUpgrade, Tainted, Evicts, Uncordoned, Cordoned, KeyMeansEvict;
    TaintValues();
    var a := START.nodes[0];
    PickOfTwo(a, a, "2");
    PassWrites(START);
    var w1 := AfterPass(START);
    FourSteps(START, List, Uncordon, Cordon, Kickoff);
    assert w1.nodes == [a, NodeView(Some("2"), Some("1"), T)];
    var w2 := Next(w1, Kmm(1, Some("2")));
    var b := NodeView(Some("2"), Some("2"), T);
    assert w2.nodes == [a, b];
    ExecAppend(START, PASS, [Kmm(1, Some("2"))]);
    assert Exec(w1, [Kmm(1, Some("2"))][..0]) == w1;
    ExecAppend(START, PASS + [Kmm(1, Some("2"))], PASS);
    FourSteps(w2, List, Uncordon, Cordon, Kickoff);
    PickOfTwo(a, b, "2");
    PassWrites(w2);
  }

  lemma SecondPart(w: World)
    requires w == World("2", [NodeView(Some("2"), Some("1"), T), NodeView(Some("2"), Some("2"), [])], Idle, true)
    ensures Exec(w, TO_THREE) ==
      World("3", [NodeView(Some("2"), Some("1"), T), NodeView(Some("2"), Some("2"), T)], Idle, true)
  {
    TaintValues();
    PickOfTwo(w.nodes[0], w.nodes[1], "3");
    assert w.nodes == [w.nodes[0], w.nodes[1]];
    FourSteps(w, SetSpec("3"), List, Uncordon, Cordon);
    var four := [SetSpec("3"), List, Uncordon, Cordon];
    var w1 := Next(w, SetSpec("3"));
    var w2 := Next(w1, List);
    var w3 := Next(w2, Uncordon);
    assert w3.phase == Running("3", w.nodes, ToCordon) && w3.nodes == w.nodes;
    var w4 := Next(w3, Cordon);
    assert w4.nodes == [w.nodes[0], NodeView(Some("2"), Some("2"), T)];
    ExecAppend(w, four, [Fail]);
    assert Exec(w4, [Fail][..0]) == w4;
  }

  lemma ThirdPart(w: World)
    requires w == World("3", [NodeView(Some("2"), Some("1"), T), NodeView(Some("2"), Some("2"), T)], Idle, true)
    ensures Exec(w, BACK_TO_TWO) ==
      World("2", [NodeView(Some("2"), Some("2"), []), NodeView(Some("2"), Some("2"), T)], Idle, false)
  {
    TaintValues();
    var back := [SetSpec("2"), Kmm(0, Some("2"))];
    assert back[..1] == [SetSpec("2")] && [SetSpec("2")][..0] == [];
    assert Exec(w, [SetSpec("2")]) == Next(w, SetSpec("2"));
    var w2 := Exec(w, back);
    var b := NodeView(Some("2"), Some("2"), T);
    assert w2 == World("2", [b, b], Idle, true);
    ExecAppend(w, back, PASS);
    FourSteps(w2, List, Uncordon, Cordon, Kickoff);
    PickOfTwo(b, b, "2");
    PassWrites(w2);
  }

  /** The wake-up can be lost: from a settled, untainted cluster of two nodes, two edits of the version
      and one failed write end with a tainted node that no node event of the rollout will ever free. Here an
      owned object has to wake the DeviceConfig up. */
  lemma StrandedIsReachable()
    ensures START.phase.Idle? && START.pending && Evicting(START.nodes) == 0
    ensures SpecChanges(TO_TWO + TO_THREE + BACK_TO_TWO) == 2
    ensures Stranded(Exec(START, TO_TWO + TO_THREE + BACK_TO_TWO))
  {
    UntaintedCluster(START.nodes);
    FirstPart();
    SecondPart(Exec(START, TO_TWO));
    ThirdPart(Exec(Exec(START, TO_TWO), TO_THREE));
    ExecAppend(START, TO_TWO, TO_THREE);
    ExecAppend(START, TO_TWO + TO_THREE, BACK_TO_TWO);
    var w := Exec(START, TO_TWO + TO_THREE + BACK_TO_TWO);
    TaintValues();
    assert Tainted(w.nodes[1].taints);
    CountSpecChanges();
  }

  /** On the way the disruption bound is reached: two wanted versions, two evicting nodes. */
  lemma BoundIsReached()
    ensures START.phase.Idle? && forall i :: 0 <= i < |START.nodes| ==> !Tainted(START.nodes[i].taints)
    ensures SpecChanges(TO_TWO + TO_THREE) == 1 && Evicting(Exec(START, TO_TWO + TO_THREE).nodes) == 2
  {
    FirstPart();
    SecondPart(Exec(START, TO_TWO));
    ExecAppend(START, TO_TWO, TO_THREE);
    CountSpecChanges();
    TaintValues();
    var nodes := Exec(START, TO_TWO + TO_THREE).nodes;
    assert Evicts(nodes[0].taints) && Evicts(nodes[1].taints);
    assert EvictFlags(nodes) == [1, 1] && [1, 1][..1] == [1] && [1][..0] == [];
    assert Sum([1]) == 1 && Sum([1, 1]) == 2;
  }

  lemma CountSpecChanges()
    ensures SpecChanges(TO_TWO + TO_THREE) == 1
    ensures SpecChanges(TO_TWO + TO_THREE + BACK_TO_TWO) == 2
  {
    SpecChangesOfPass();
    SpecChangesAppend(TO_TWO + TO_THREE, BACK_TO_TWO);
    SpecChangesAppend(TO_TWO, TO_THREE);
    SpecChangesAppend(PASS + [Kmm(1, Some("2"))], PASS);
    SpecChangesAppend(PASS, [Kmm(1, Some("2"))]);
    SpecChangesAppend([SetSpec("3"), List, Uncordon, Cordon], [Fail]);
    SpecChangesAppend([SetSpec("3"), List], [Uncordon, Cordon]);
    assert [SetSpec("3"), List] + [Uncordon, Cordon] == [SetSpec("3"), List, Uncordon, Cordon];
    SpecChangesAppend([SetSpec("2"), Kmm(0, Some("2"))], PASS);
  }
}
