/** Disjoint targets are not only enough for the eviction invariant, they are needed: a node that two
    DeviceConfigs target always admits a run that replaces its version while it does not evict. */
module Collision {
  import opened Options
  import opened Cluster
  import opened NodeState
  import opened DeviceConfigs
  import opened Fleets
  import opened Projection
  import opened Overlap
  import opened Steering
  import R = Rollout
  import Disruption
  import Progress
  import Eviction

  // ----- What the steps of one config leave alone -----

  /** Other configs keep their phases and specs, their labels and their requests; other nodes stay as they are. */
  ghost predicate OnlyTouches(f: Fleet, g: Fleet, c: nat) {
    && c < |f.configs| && SameTargets(f, g)
    && (forall i :: 0 <= i < |f.nodes| && !IsTarget(f.nodes[i], f.configs[c]) ==> g.nodes[i] == f.nodes[i])
    && (forall i, d :: 0 <= i < |f.nodes| && 0 <= d < |f.configs| && d != c ==> KeepsLabels(f.nodes[i], g.nodes[i], f.configs[d].id))
    && (forall d :: 0 <= d < |f.configs| && d != c ==> KeepsConfig(f.configs[d], g.configs[d]))
  }

  predicate KeepsLabels(n: Node, m: Node, id: ConfigId) {
    View(m, id).version == View(n, id).version && View(m, id).ready == View(n, id).ready
  }

  predicate KeepsConfig(k: Config, l: Config) {
    l.phase == k.phase && l.spec == k.spec && (k.pending ==> l.pending)
  }

  lemma TouchesTransitive(f: Fleet, g: Fleet, h: Fleet, c: nat)
    requires OnlyTouches(f, g, c) && OnlyTouches(g, h, c)
    ensures OnlyTouches(f, h, c)
  {
    hide IsTarget, KeepsConfig;
    forall d | 0 <= d < |f.configs| && d != c ensures KeepsConfig(f.configs[d], h.configs[d]) {
      assert KeepsConfig(f.configs[d], g.configs[d]) && KeepsConfig(g.configs[d], h.configs[d]);
      KeepsTransitive(f.configs[d], g.configs[d], h.configs[d]);
    }
    forall i, d | 0 <= i < |f.nodes| && 0 <= d < |f.configs| && d != c ensures KeepsLabels(f.nodes[i], h.nodes[i], f.configs[d].id) {
      assert KeepsLabels(f.nodes[i], g.nodes[i], f.configs[d].id) && KeepsLabels(g.nodes[i], h.nodes[i], g.configs[d].id);
    }
  }

  lemma KeepsTransitive(k: Config, l: Config, m: Config)
    requires KeepsConfig(k, l) && KeepsConfig(l, m)
    ensures KeepsConfig(k, m)
  {
  }

  /** A step of c, or of KMM for c on one of its targets. */
  ghost predicate StepOf(f: Fleet, s: Step, c: nat) {
    && c < |f.configs|
    && match s
       case Own(d, _) => d == c
       case Kmm(k, name, _) => k == c && exists l :: 0 <= l < |Targets(f.nodes, f.configs[c])| && Targets(f.nodes, f.configs[c])[l].name == name
       case Foreign(_, _) => false
  }

  lemma WriteOfStep(f: Fleet, s: Step, c: nat)
    requires Orderly(f) && StepOf(f, s, c) && Enabled(f, s) && Writes(f, s) != []
    ensures exists l :: 0 <= l < |Targets(f.nodes, f.configs[c])| && Targets(f.nodes, f.configs[c])[l].name == Writes(f, s)[0].name
    ensures forall k <- Writes(f, s)[0].patch.labels :: k == VersionLabel(f.configs[c].id) || k == ReadyLabel(f.configs[c].id)
  {
    if s.Own? { WritesNameTargets(f, c, s.s); }
  }

  lemma NamedIsTarget(f: Fleet, c: nat, name: string, i: nat)
    requires Orderly(f) && c < |f.configs| && i < |f.nodes| && f.nodes[i].name == name
    requires exists l :: 0 <= l < |Targets(f.nodes, f.configs[c])| && Targets(f.nodes, f.configs[c])[l].name == name
    ensures IsTarget(f.nodes[i], f.configs[c])
  {
    var l :| 0 <= l < |Targets(f.nodes, f.configs[c])| && Targets(f.nodes, f.configs[c])[l].name == name;
    var k := TargetInStore(f, c, l);
  }

  lemma NodesTouched(f: Fleet, s: Step, c: nat)
    requires Orderly(f) && StepOf(f, s, c) && Enabled(f, s)
    ensures var g := Next(f, s);
            && |g.nodes| == |f.nodes|
            && (forall i :: 0 <= i < |f.nodes| && !IsTarget(f.nodes[i], f.configs[c]) ==> g.nodes[i] == f.nodes[i])
            && (forall i, d :: 0 <= i < |f.nodes| && 0 <= d < |f.configs| && d != c ==> KeepsLabels(f.nodes[i], g.nodes[i], f.configs[d].id))
  {
    AfterStep(f, s);
    if Writes(f, s) != [] {
      WriteOfStep(f, s, c);
      var w, g := Writes(f, s)[0], Next(f, s);
      assert Apart(f);
      hide Writes, Next, Enabled, Matching, StepOf;
      forall i | 0 <= i < |f.nodes| && !IsTarget(f.nodes[i], f.configs[c]) ensures g.nodes[i] == f.nodes[i] {
        if f.nodes[i].name == w.name { NamedIsTarget(f, c, w.name, i); }
      }
      forall i, d | 0 <= i < |f.nodes| && 0 <= d < |f.configs| && d != c ensures KeepsLabels(f.nodes[i], g.nodes[i], f.configs[d].id) {
        ViewPatched(f.nodes[i], w.patch, f.configs[d].id);
      }
    }
  }

  lemma ConfigsTouched(f: Fleet, s: Step, c: nat)
    requires StepOf(f, s, c) && Enabled(f, s)
    ensures |Next(f, s).configs| == |f.configs|
    ensures forall d :: 0 <= d < |f.configs| && d != c ==> KeepsConfig(f.configs[d], Next(f, s).configs[d])
  {
    hide Writes, Notified, Targets, OwnNext;
  }

  lemma StepTouches(f: Fleet, s: Step, c: nat)
    requires Orderly(f) && StepOf(f, s, c) && Enabled(f, s)
    ensures Orderly(Next(f, s)) && OnlyTouches(f, Next(f, s), c)
  {
    StepKeepsOrderly(f, s);
    StepKeepsTargets(f, s);
    NodesTouched(f, s, c);
    ConfigsTouched(f, s, c);
    hide Next, Enabled, Orderly, KeepsLabels, KeepsConfig, IsTarget;
  }

  // ----- A run of one config's own system is a run of the fleet -----

  lemma LiftKmm(f: Fleet, c: nat, i: nat, ready: Option<string>) returns (s: Step)
    requires Orderly(f) && c < |f.configs| && R.Enabled(Project(f, c), R.Kmm(i, ready))
    ensures StepOf(f, s, c) && Enabled(f, s) && Project(Next(f, s), c) == R.Next(Project(f, c), R.Kmm(i, ready))
  {
    var t := Targets(f.nodes, f.configs[c]);
    s := Kmm(c, t[i].name, ready);
    var k := TargetInStore(f, c, i);
    MatchingUnique(f.nodes, MatchingLabels(f.configs[c].selector));
    assert Enabled(f, s) by { assert R.KmmMay(View(f.nodes[k], f.configs[c].id), ready); }
    assert IndexOf(t, s.name) == Some(i);
    KmmSeen(f, c, s, i);
    assert Seen(f, c, s) == [R.Kmm(i, ready)];
    Projection.ExecOne(Project(f, c), R.Kmm(i, ready));
  }

  lemma LiftStep(f: Fleet, c: nat, r: R.Step) returns (steps: seq<Step>)
    requires Orderly(f) && c < |f.configs| && R.Inv(Project(f, c)) && !r.Foreign?
    ensures var g := Exec(f, steps); Orderly(g) && OnlyTouches(f, g, c) && Project(g, c) == R.Next(Project(f, c), r)
  {
    if !R.Enabled(Project(f, c), r) {
      steps := [];
      NothingTouched(f, c);
    } else {
      var s;
      if r.Kmm? {
        s := LiftKmm(f, c, r.i, r.ready);
      } else {
        s := Own(c, r);
        OwnSeen(f, c, r);
      }
      StepTouches(f, s, c);
      steps := [s];
      OneStep(f, s);
    }
  }

  lemma NothingTouched(f: Fleet, c: nat)
    requires c < |f.configs|
    ensures OnlyTouches(f, f, c)
  {
  }

  lemma OneStep(f: Fleet, s: Step)
    ensures Exec(f, [s]) == Next(f, s)
  {
    assert [s][..0] == [];
  }

  lemma {:induction false} Lift(f: Fleet, c: nat, rs: seq<R.Step>) returns (steps: seq<Step>)
    requires Orderly(f) && c < |f.configs| && R.Inv(Project(f, c)) && Unaided(rs)
    ensures var g := Exec(f, steps); Orderly(g) && OnlyTouches(f, g, c) && Project(g, c) == R.Exec(Project(f, c), rs)
  {
    hide Orderly, OnlyTouches, Project, R.Inv, R.Next, Next;
    if rs == [] {
      steps := [];
      NothingTouched(f, c);
    } else {
      var init, r := rs[..|rs| - 1], rs[|rs| - 1];
      assert Unaided(init) && !r.Foreign?;
      var first := Lift(f, c, init);
      var g := Exec(f, first);
      TouchesCount(f, g, c);
      R.InvRun(Project(f, c), init);
      var more := LiftStep(g, c, r);
      steps := first + more;
      Fleets.ExecAppend(f, first, more);
      TouchesTransitive(f, g, Exec(g, more), c);
    }
  }

  lemma TouchesCount(f: Fleet, g: Fleet, c: nat)
    requires OnlyTouches(f, g, c)
    ensures c < |g.configs| == |f.configs|
  {
  }

  // ----- Steering two configs to a collision -----

  /** Node x and the target of c with its name. */
  lemma TargetOfNode(f: Fleet, c: nat, x: nat) returns (l: nat)
    requires Orderly(f) && c < |f.configs| && x < |f.nodes| && IsTarget(f.nodes[x], f.configs[c])
    ensures l < |Targets(f.nodes, f.configs[c])| && Targets(f.nodes, f.configs[c])[l] == f.nodes[x]
    ensures l < |Project(f, c).nodes| && Project(f, c).nodes[l] == View(f.nodes[x], f.configs[c].id)
  {
    TargetByName(f, c, x);
    l := IndexOf(Targets(f.nodes, f.configs[c]), f.nodes[x].name).value;
    var k := TargetInStore(f, c, l);
  }

  ghost predicate AllWellTainted(nodes: seq<Node>) {
    forall n <- nodes :: KeyMeansEvict(n.taints)
  }

  lemma SeenWellTainted(f: Fleet, c: nat)
    requires Orderly(f) && c < |f.configs| && AllWellTainted(f.nodes)
    ensures Disruption.WellTainted(Project(f, c).nodes)
  {
    forall l | 0 <= l < |Targets(f.nodes, f.configs[c])| ensures KeyMeansEvict(Project(f, c).nodes[l].taints) {
      var k := TargetInStore(f, c, l);
      assert f.nodes[k] in f.nodes;
    }
  }

  /** Every node that c targets is up to date and untainted. */
  ghost predicate Done(f: Fleet, c: nat, v: string) {
    && c < |f.configs|
    && forall i :: 0 <= i < |f.nodes| && IsTarget(f.nodes[i], f.configs[c]) ==>
         State(View(f.nodes[i], f.configs[c].id), v) == Upgraded && !Tainted(f.nodes[i].taints)
  }

  lemma FinishesA(f: Fleet, a: nat) returns (steps: seq<Step>)
    requires Orderly(f) && a < |f.configs| && f.configs[a].phase.Idle? && AllWellTainted(f.nodes)
    ensures var g := Exec(f, steps);
            && Orderly(g) && OnlyTouches(f, g, a) && Done(g, a, "1")
            && g.configs[a].phase.Idle? && g.configs[a].pending && g.configs[a].spec == "1"
  {
    SeenWellTainted(f, a);
    var p := Project(f, a);
    var rs := ToVersion(p, "1");
    Steering.ExecOne(R.Exec(p, rs), R.Poke);
    R.ExecAppend(p, rs, [R.Poke]);
    steps := Lift(f, a, rs + [R.Poke]);
    var g := Exec(f, steps);
    assert Project(g, a) == R.Next(R.Exec(p, rs), R.Poke);
    assert Progress.Complete(Project(g, a).nodes, "1");
    forall i | 0 <= i < |g.nodes| && IsTarget(g.nodes[i], g.configs[a])
      ensures State(View(g.nodes[i], g.configs[a].id), "1") == Upgraded && !Tainted(g.nodes[i].taints)
    {
      var l := TargetOfNode(g, a, i);
    }
  }

  /** What was well tainted stays so where nothing was touched and where all taints are gone. */
  lemma StillWellTainted(f: Fleet, g: Fleet, a: nat)
    requires OnlyTouches(f, g, a) && Done(g, a, "1") && AllWellTainted(f.nodes)
    ensures AllWellTainted(g.nodes)
  {
    forall i | 0 <= i < |g.nodes| ensures KeyMeansEvict(g.nodes[i].taints) {
      if IsTarget(g.nodes[i], g.configs[a]) {
        UntaintedMeansWell(g.nodes[i].taints);
      } else {
        assert g.nodes[i] == f.nodes[i] && f.nodes[i] in f.nodes;
      }
    }
  }

  lemma UntaintedMeansWell(ts: seq<Taint>)
    requires !Tainted(ts)
    ensures KeyMeansEvict(ts)
  {
  }

  lemma PicksB(f: Fleet, b: nat, j: nat) returns (steps: seq<Step>)
    requires Orderly(f) && b < |f.configs| && f.configs[b].phase.Idle? && AllWellTainted(f.nodes)
    requires j < |Targets(f.nodes, f.configs[b])|
    ensures var g := Exec(f, steps);
            && Orderly(g) && OnlyTouches(f, g, b)
            && g.configs[b].phase.Idle? && g.configs[b].pending && g.configs[b].spec != ""
            && |Project(g, b).nodes| == |Targets(f.nodes, f.configs[b])|
            && NodeForUpgrade(Project(g, b).nodes, g.configs[b].spec) == Some(j) && !IsNew(Project(g, b).nodes[j])
            && forall l :: 0 <= l < |Project(g, b).nodes| ==> !Tainted(Project(g, b).nodes[l].taints)
  {
    SeenWellTainted(f, b);
    var p := Project(f, b);
    var rs := MakesPick(p, j);
    steps := Lift(f, b, rs);
    var g := Exec(f, steps);
    assert Project(g, b) == R.Exec(p, rs);
  }

  /** The names of the targets stand, and so the position of a node among them. */
  lemma {:induction false} MatchingAt(nodes: seq<Node>, after: seq<Node>, sel: Labels, l: nat)
    requires |after| == |nodes| && forall i :: 0 <= i < |nodes| ==>
               after[i].name == nodes[i].name && (Selected(after[i].labels, sel) <==> Selected(nodes[i].labels, sel))
    ensures |Matching(after, sel)| == |Matching(nodes, sel)|
    ensures l < |Matching(nodes, sel)| ==> Matching(after, sel)[l].name == Matching(nodes, sel)[l].name
  {
    hide Selected;
    if nodes != [] {
      var n := |nodes| - 1;
      assert forall i :: 0 <= i < n ==> after[..n][i] == after[i] && nodes[..n][i] == nodes[i];
      MatchingAt(nodes[..n], after[..n], sel, l);
    }
  }

  /** The two configs now collide on node x. */
  lemma Collides(f: Fleet, g: Fleet, a: nat, b: nat, x: nat, j: nat) returns (i: nat)
    requires Orderly(f) && Orderly(g) && OnlyTouches(f, g, b) && a < |f.configs| && a != b && Done(f, a, "1")
    requires f.configs[a].phase.Idle? && f.configs[a].pending && f.configs[a].spec == "1"
    requires x < |f.nodes| && IsTarget(f.nodes[x], f.configs[a]) && IsTarget(f.nodes[x], f.configs[b])
    requires j < |Targets(f.nodes, f.configs[b])| && Targets(f.nodes, f.configs[b])[j] == f.nodes[x]
    requires g.configs[b].phase.Idle? && g.configs[b].pending && g.configs[b].spec != ""
    requires |Project(g, b).nodes| == |Targets(f.nodes, f.configs[b])|
    requires NodeForUpgrade(Project(g, b).nodes, g.configs[b].spec) == Some(j) && !IsNew(Project(g, b).nodes[j])
    requires forall l :: 0 <= l < |Project(g, b).nodes| ==> !Tainted(Project(g, b).nodes[l].taints)
    ensures Collide(g, a, b, i, j)
  {
    var ca, cb := g.configs[a], g.configs[b];
    var ta, tb := Targets(g.nodes, ca), Targets(g.nodes, cb);
    TargetsStandAt(f, g, b, j);
    var y := TargetInStore(g, b, j);
    assert y == x by { assert g.nodes[y].name == f.nodes[x].name; assert g.nodes[x].name == f.nodes[x].name; }
    i := TargetOfNode(g, a, x);
    SettledForA(f, g, a, b);
    assert KeepsConfig(f.configs[a], ca);
    assert Project(g, b).nodes[j] == View(tb[j], cb.id);
    UpToDate(f, g, a, b, x);
    forall l | 0 <= l < |ta| ensures !Finished(View(ta[l], ca.id), ca.spec) {
      var m := TargetInStore(g, a, l);
      assert !Tainted(g.nodes[m].taints);
    }
  }

  lemma TargetsStandAt(f: Fleet, g: Fleet, b: nat, j: nat)
    requires SameTargets(f, g) && b < |f.configs| && j < |Targets(f.nodes, f.configs[b])|
    ensures |Targets(g.nodes, g.configs[b])| == |Targets(f.nodes, f.configs[b])|
    ensures Targets(g.nodes, g.configs[b])[j].name == Targets(f.nodes, f.configs[b])[j].name
  {
    forall i | 0 <= i < |f.nodes|
      ensures Selected(g.nodes[i].labels, MatchingLabels(f.configs[b].selector))
         <==> Selected(f.nodes[i].labels, MatchingLabels(f.configs[b].selector))
    {
      assert IsTarget(g.nodes[i], g.configs[b]) <==> IsTarget(f.nodes[i], f.configs[b]);
    }
    MatchingAt(f.nodes, g.nodes, MatchingLabels(f.configs[b].selector), j);
  }

  lemma UpToDate(f: Fleet, g: Fleet, a: nat, b: nat, x: nat)
    requires OnlyTouches(f, g, b) && a < |f.configs| && a != b && Done(f, a, "1")
    requires x < |f.nodes| && IsTarget(f.nodes[x], f.configs[a])
    ensures State(View(g.nodes[x], g.configs[a].id), "1") == Upgraded
  {
    assert KeepsLabels(f.nodes[x], g.nodes[x], f.configs[a].id);
  }

  lemma SettledForA(f: Fleet, g: Fleet, a: nat, b: nat)
    requires Orderly(g) && OnlyTouches(f, g, b) && a < |f.configs| && a != b && Done(f, a, "1")
    requires forall l :: 0 <= l < |Project(g, b).nodes| ==> !Tainted(Project(g, b).nodes[l].taints)
    ensures forall m :: 0 <= m < |g.nodes| && IsTarget(g.nodes[m], g.configs[a]) ==> !Tainted(g.nodes[m].taints)
  {
    forall m | 0 <= m < |g.nodes| && IsTarget(g.nodes[m], g.configs[a]) ensures !Tainted(g.nodes[m].taints) {
      if IsTarget(g.nodes[m], g.configs[b]) {
        var l := TargetOfNode(g, b, m);
      } else {
        assert g.nodes[m] == f.nodes[m];
      }
    }
  }

  /** From any fleet with unique names, plain selectors and different identities, in which nobody has tainted
      with the upgrade key and a and b are idle: if a and b target a common node, some run of edits, KMM
      steps, reconciles and failures of the two leads to a kickoff of b that is about to replace a version on
      a node that does not evict. */
  lemma CommonTargetBreaksEviction(f: Fleet, a: nat, b: nat, x: nat) returns (steps: seq<Step>, j: nat)
    requires Orderly(f) && AllWellTainted(f.nodes) && a < |f.configs| && b < |f.configs| && a != b
    requires f.configs[a].phase.Idle? && f.configs[b].phase.Idle?
    requires x < |f.nodes| && IsTarget(f.nodes[x], f.configs[a]) && IsTarget(f.nodes[x], f.configs[b])
    ensures |Exec(f, steps).configs| == |f.configs|
    ensures Eviction.Overwrites(Project(Exec(f, steps), b), j) && !Evicts(Project(Exec(f, steps), b).nodes[j].taints)
  {
    var first := FinishesA(f, a);
    var f1 := Exec(f, first);
    assert KeepsConfig(f.configs[b], f1.configs[b]);
    StillWellTainted(f, f1, a);
    assert IsTarget(f1.nodes[x], f1.configs[a]) && IsTarget(f1.nodes[x], f1.configs[b]);
    j := TargetOfNode(f1, b, x);
    hide Orderly, AllWellTainted, Project, Done, Exec, Eviction.Overwrites, Collide, Targets, IsTarget;
    var second := PicksB(f1, b, j);
    var f2 := Exec(f1, second);
    var i := Collides(f1, f2, a, b, x, j);
    var third, g := OverlapBreaksEviction(f2, a, b, i, j);
    steps := first + second + third;
    Fleets.ExecAppend(f, first + second, third);
    Fleets.ExecAppend(f, first, second);
  }

  /** Over every run, every kickoff that replaces a version finds its node evicting. */
  ghost predicate AlwaysEvictedFirst(f: Fleet) {
    forall steps, c: nat, j: nat ::
      c < |f.configs| && |Exec(f, steps).configs| == |f.configs| && Eviction.Overwrites(Project(Exec(f, steps), c), j)
      ==> Evicts(Project(Exec(f, steps), c).nodes[j].taints)
  }

  /** So, over idle DeviceConfigs, the eviction invariant holds over all runs if and only if no two of them
      target a common node. */
  lemma EvictedFirstIff(f: Fleet)
    requires Apart(f) && AllWellTainted(f.nodes) && forall c :: 0 <= c < |f.configs| ==> f.configs[c].phase.Idle?
    ensures AlwaysEvictedFirst(f) <==> NoOverlap(f)
  {
    hide Exec, Project, Evicts, IsTarget, AllWellTainted;
    if NoOverlap(f) {
      forall steps, c: nat, j: nat |
        c < |f.configs| && |Exec(f, steps).configs| == |f.configs| && Eviction.Overwrites(Project(Exec(f, steps), c), j)
        ensures Evicts(Project(Exec(f, steps), c).nodes[j].taints)
      {
        FleetEviction(f, steps, c, j);
      }
    } else {
      var a: nat, b: nat, x: nat :| a < |f.configs| && b < |f.configs| && a != b && x < |f.nodes|
                                    && IsTarget(f.nodes[x], f.configs[a]) && IsTarget(f.nodes[x], f.configs[b]);
      var steps, j := CommonTargetBreaksEviction(f, a, b, x);
    }
  }
}
