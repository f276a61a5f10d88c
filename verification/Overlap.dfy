/** DeviceConfigs with a common target: the labels are per DeviceConfig, but the taint key is shared, so one
    of them can free a node that another is about to upgrade. */
module Overlap {
  import opened Options
  import opened Cluster
  import opened NodeState
  import opened DeviceConfigs
  import opened UpgradePlan
  import opened Fleets
  import R = Rollout
  import Eviction
  import Projection

  // ----- Writes that leave the labels alone -----

  predicate TaintsOnly(ws: seq<NodeWrite>) {
    |ws| <= 1 && (ws != [] ==> ws[0].patch.labels == map[])
  }

  lemma NodeAfter(list: seq<Node>, ws: seq<NodeWrite>, k: nat)
    requires TaintsOnly(ws) && k < |list|
    ensures |PatchAll(list, ws)| == |list|
    ensures var r := PatchAll(list, ws)[k];
            && r.name == list[k].name && r.labels == list[k].labels
            && r.taints == if ws != [] && ws[0].name == list[k].name && ws[0].patch.taints.Some? then ws[0].patch.taints.value
                           else list[k].taints
  {
    Projection.PatchAllFew(list, ws);
    if ws != [] { assert Apply(ws[0].patch, list[k]).labels == list[k].labels; }
  }

  /** Every selector sees such a write on its own nodes. */
  lemma SeenThrough(nodes: seq<Node>, sel: Labels, ws: seq<NodeWrite>)
    requires TaintsOnly(ws)
    ensures Matching(PatchAll(nodes, ws), sel) == PatchAll(Matching(nodes, sel), ws)
  {
    Projection.PatchAllFew(nodes, ws);
    Projection.PatchAllFew(Matching(nodes, sel), ws);
    if ws != [] {
      forall i | 0 <= i < |nodes| ensures Apply(ws[0].patch, nodes[i]).labels == nodes[i].labels {}
      Projection.MatchingPatched(nodes, sel, ws[0]);
    }
  }

  /** No DeviceConfig hears of such a write. */
  lemma Unnoticed(f: Fleet, ws: seq<NodeWrite>)
    requires TaintsOnly(ws)
    ensures WriteNodes(f, ws) == f.(nodes := PatchAll(f.nodes, ws))
  {
    forall i | 0 <= i < |f.nodes| ensures |PatchAll(f.nodes, ws)| == |f.nodes| && PatchAll(f.nodes, ws)[i].labels == f.nodes[i].labels {
      NodeAfter(f.nodes, ws, i);
    }
    forall d | 0 <= d < |f.configs| ensures !Notified(f.configs[d], f.nodes, PatchAll(f.nodes, ws)) {}
  }

  // ----- The steps of one config -----

  lemma Lists(f: Fleet, c: nat)
    requires c < |f.configs| && f.configs[c].phase.Idle? && f.configs[c].pending && f.configs[c].spec != ""
    ensures var k := f.configs[c];
            Next(f, Own(c, R.List)) ==
              f.(configs := f.configs[c := k.(phase := Running(k.spec, Targets(f.nodes, k), R.ToUncordon), pending := false)])
  {
    Unnoticed(f, []);
  }

  lemma Uncordons(f: Fleet, c: nat)
    requires c < |f.configs| && f.configs[c].phase.Running? && f.configs[c].phase.stage == R.ToUncordon
    ensures var k := f.configs[c];
            var ws := UncordonWrites(k.phase.list, k.id, k.phase.v);
            && TaintsOnly(ws)
            && Next(f, Own(c, R.Uncordon))
               == Fleet(PatchAll(f.nodes, ws), f.configs[c := k.(phase := k.phase.(stage := R.ToCordon))])
  {
    Unnoticed(f, Writes(f, Own(c, R.Uncordon)));
  }

  lemma Cordons(f: Fleet, c: nat)
    requires c < |f.configs| && f.configs[c].phase.Running? && f.configs[c].phase.stage == R.ToCordon
    ensures var k := f.configs[c];
            var ws := CordonWrites(k.phase.list, k.id, k.phase.v);
            && TaintsOnly(ws)
            && Next(f, Own(c, R.Cordon))
               == Fleet(PatchAll(f.nodes, ws), f.configs[c := k.(phase := k.phase.(stage := R.ToKickoff))])
  {
    Unnoticed(f, Writes(f, Own(c, R.Cordon)));
  }

  // ----- What config a sees after config b has cordoned -----

  lemma {:induction false} UncordonTaintsNothing(ts: seq<Taint>)
    ensures Tainted(Uncordoned(ts)) ==> Tainted(ts)
  {
    if ts != [] {
      var init, last := ts[..|ts| - 1], ts[|ts| - 1];
      assert ts == init + [last];
      UncordonTaintsNothing(init);
      TaintPredicatesAppend(init, last);
      TaintPredicatesAppend(Uncordoned(init), last);
    }
  }

  /** A list without a finished node, after one write that uncordons a node of another list and one that
      cordons node i, has node i as its first finished one. */
  lemma CordonedIsFirst(list: seq<Node>, id: ConfigId, v: string, i: nat, u: seq<NodeWrite>, k: seq<NodeWrite>)
    requires i < |list| && State(View(list[i], id), v) == Upgraded
    requires forall l :: 0 <= l < |list| ==> !Finished(View(list[l], id), v)
    requires forall l :: 0 <= l < |list| && list[l].name == list[i].name ==> l == i
    requires TaintsOnly(u) && TaintsOnly(k) && k != [] && k[0].name == list[i].name
    requires k[0].patch.taints == Some(Cordoned(list[i].taints))
    requires u != [] ==> forall l :: 0 <= l < |list| && list[l].name == u[0].name ==>
               l != i && (u[0].patch.taints.Some? ==> u[0].patch.taints.value == Uncordoned(list[l].taints))
    ensures var now := PatchAll(PatchAll(list, u), k);
            && |now| == |list| && now[i] == list[i].(taints := Cordoned(list[i].taints))
            && FirstFinished(Views(now, id), v) == Some(i)
  {
    hide PatchAll, Uncordoned, Cordoned, Tainted;
    var mid := PatchAll(list, u);
    var now := PatchAll(mid, k);
    NodeAfter(list, u, i);
    NodeAfter(mid, k, i);
    TaintTestsAgree(Cordoned(list[i].taints));
    forall l | 0 <= l < |list| ensures Finished(View(now[l], id), v) <==> l == i {
      NodeAfter(list, u, l);
      NodeAfter(mid, k, l);
      UncordonTaintsNothing(list[l].taints);
    }
    assert forall l :: 0 <= l < |list| ==> Views(now, id)[l] == View(now[l], id);
    assert Finished(Views(now, id)[i], v);
  }

  // ----- The counterexample -----

  /** What the two DeviceConfigs must have in common: the node that b is about to pick, and that has a version
      to replace, is the target i of a, for which it is up to date; and a has nothing to uncordon. */
  ghost predicate Collide(f: Fleet, a: nat, b: nat, i: nat, j: nat) {
    && UniqueNames(f.nodes) && a < |f.configs| && b < |f.configs| && a != b
    && var ca, cb := f.configs[a], f.configs[b];
       var ta, tb := Targets(f.nodes, ca), Targets(f.nodes, cb);
    && ca.phase.Idle? && ca.pending && ca.spec != "" && cb.phase.Idle? && cb.pending && cb.spec != ""
    && NodeForUpgrade(Views(tb, cb.id), cb.spec) == Some(j) && !IsNew(View(tb[j], cb.id))
    && i < |ta| && ta[i] == tb[j] && State(View(ta[i], ca.id), ca.spec) == Upgraded
    && forall l :: 0 <= l < |ta| ==> !Finished(View(ta[l], ca.id), ca.spec)
  }

  lemma PickIsStored(f: Fleet, a: nat, b: nat, i: nat, j: nat)
    requires Collide(f, a, b, i, j)
    ensures Targets(f.nodes, f.configs[b])[j] in f.nodes
    ensures !Tainted(Targets(f.nodes, f.configs[b])[j].taints) && !Evicts(Targets(f.nodes, f.configs[b])[j].taints)
    ensures State(View(Targets(f.nodes, f.configs[b])[j], f.configs[b].id), f.configs[b].spec) == Before
  {
    var x := Targets(f.nodes, f.configs[b])[j];
    MatchingMember(f.nodes, MatchingLabels(f.configs[b].selector), x);
    TaintTestsAgree(x.taints);
    assert Views(Targets(f.nodes, f.configs[b]), f.configs[b].id)[j] == View(x, f.configs[b].id);
  }

  /** The cordon that b writes, and that its uncordon leaves the picked node alone. */
  lemma WritesOfB(f: Fleet, a: nat, b: nat, i: nat, j: nat)
    requires Collide(f, a, b, i, j)
    ensures var cb, x := f.configs[b], Targets(f.nodes, f.configs[b])[j];
            var tb := Targets(f.nodes, cb);
            && CordonWrites(tb, cb.id, cb.spec) == [NodeWrite(x.name, NodePatch(map[], Some(Cordoned(x.taints))))]
            && var u := UncordonWrites(tb, cb.id, cb.spec);
               u != [] ==>
                 && u[0].name != x.name
                 && forall n <- f.nodes :: n.name == u[0].name && u[0].patch.taints.Some? ==>
                      u[0].patch.taints.value == Uncordoned(n.taints)
  {
    PickIsStored(f, a, b, i, j);
    var cb := f.configs[b];
    var tb, x := Targets(f.nodes, cb), Targets(f.nodes, cb)[j];
    assert Views(tb, cb.id)[j] == View(x, cb.id);
    assert Cordoned(x.taints) != x.taints;
    var u := FirstFinished(Views(tb, cb.id), cb.spec);
    if u.Some? {
      var y := tb[u.value];
      assert Views(tb, cb.id)[u.value] == View(y, cb.id);
      MatchingMember(f.nodes, MatchingLabels(cb.selector), y);
      assert forall n <- f.nodes :: n.name == y.name ==> n == y;
    }
  }

  /** For any fleet in which two DeviceConfigs collide on a node: b cordons the node, a frees it, and the next
      write of b replaces the version on a node whose workloads are not evicted. */
  lemma OverlapBreaksEviction(f: Fleet, a: nat, b: nat, i: nat, j: nat) returns (steps: seq<Step>, g: Fleet)
    requires Collide(f, a, b, i, j)
    ensures g == Exec(f, steps) && |g.configs| == |f.configs|
    ensures Eviction.Overwrites(Project(g, b), j) && !Evicts(Project(g, b).nodes[j].taints)
  {
    var ca, cb := f.configs[a], f.configs[b];
    var ta, tb := Targets(f.nodes, ca), Targets(f.nodes, cb);
    var u, k := UncordonWrites(tb, cb.id, cb.spec), CordonWrites(tb, cb.id, cb.spec);
    var b' := cb.(phase := Running(cb.spec, tb, R.ToKickoff), pending := false);
    BCordons(f, b);
    var f3 := Fleet(PatchAll(PatchAll(f.nodes, u), k), f.configs[b := b']);
    var ta3 := ASees(f, a, b, i, j);
    g := AFrees(f3, a, ta3, i);
    hide Exec, Next, PatchAll, UncordonWrites, CordonWrites, Matching, NodeForUpgrade, FirstFinished, Cordoned, Uncordoned;
    steps := [Own(b, R.List), Own(b, R.Uncordon), Own(b, R.Cordon), Own(a, R.List), Own(a, R.Uncordon)];
    FiveSteps(f, steps);
    BSees(f, g, a, b, i, j);
  }

  lemma BCordons(f: Fleet, b: nat)
    requires b < |f.configs| && f.configs[b].phase.Idle? && f.configs[b].pending && f.configs[b].spec != ""
    ensures var cb := f.configs[b];
            var tb := Targets(f.nodes, cb);
            var u, k := UncordonWrites(tb, cb.id, cb.spec), CordonWrites(tb, cb.id, cb.spec);
            && TaintsOnly(u) && TaintsOnly(k)
            && Next(Next(Next(f, Own(b, R.List)), Own(b, R.Uncordon)), Own(b, R.Cordon))
               == Fleet(PatchAll(PatchAll(f.nodes, u), k),
                        f.configs[b := cb.(phase := Running(cb.spec, tb, R.ToKickoff), pending := false)])
  {
    hide Next, PatchAll, UncordonWrites, CordonWrites, Targets;
    var f1 := Next(f, Own(b, R.List));
    var f2 := Next(f1, Own(b, R.Uncordon));
    Lists(f, b);
    Uncordons(f1, b);
    Cordons(f2, b);
    var cb := f.configs[b];
    var k := cb.(phase := Running(cb.spec, Targets(f.nodes, cb), R.ToKickoff), pending := false);
    assert Next(f2, Own(b, R.Cordon)).configs == f.configs[b := k];
  }

  /** What a lists then. */
  lemma ASees(f: Fleet, a: nat, b: nat, i: nat, j: nat) returns (ta3: seq<Node>)
    requires Collide(f, a, b, i, j)
    ensures var ca, cb := f.configs[a], f.configs[b];
            var tb := Targets(f.nodes, cb);
            var u, k := UncordonWrites(tb, cb.id, cb.spec), CordonWrites(tb, cb.id, cb.spec);
            ta3 == Targets(PatchAll(PatchAll(f.nodes, u), k), ca)
    ensures var x := Targets(f.nodes, f.configs[b])[j]; i < |ta3| && ta3[i] == x.(taints := Cordoned(x.taints))
    ensures FirstFinished(Views(ta3, f.configs[a].id), f.configs[a].spec) == Some(i)
  {
    var ca, cb := f.configs[a], f.configs[b];
    var ta, tb := Targets(f.nodes, ca), Targets(f.nodes, cb);
    var u, k := UncordonWrites(tb, cb.id, cb.spec), CordonWrites(tb, cb.id, cb.spec);
    var sel := MatchingLabels(ca.selector);
    PickIsStored(f, a, b, i, j);
    WritesOfB(f, a, b, i, j);
    hide PatchAll, UncordonWrites, CordonWrites, Matching, Cordoned, Uncordoned;
    SeenThrough(f.nodes, sel, u);
    SeenThrough(PatchAll(f.nodes, u), sel, k);
    ta3 := PatchAll(PatchAll(ta, u), k);
    Projection.MatchingUnique(f.nodes, sel);
    forall l | 0 <= l < |ta| ensures ta[l] in f.nodes {
      MatchingMember(f.nodes, sel, ta[l]);
    }
    CordonedIsFirst(ta, ca.id, ca.spec, i, u, k);
  }

  lemma AFrees(f: Fleet, a: nat, list: seq<Node>, i: nat) returns (g: Fleet)
    requires a < |f.configs| && f.configs[a].phase.Idle? && f.configs[a].pending && f.configs[a].spec != ""
    requires list == Targets(f.nodes, f.configs[a]) && i < |list|
    requires FirstFinished(Views(list, f.configs[a].id), f.configs[a].spec) == Some(i)
    ensures g == Next(Next(f, Own(a, R.List)), Own(a, R.Uncordon))
    ensures |g.configs| == |f.configs| && forall d :: 0 <= d < |f.configs| && d != a ==> g.configs[d] == f.configs[d]
    ensures var ws := [NodeWrite(list[i].name, TaintPatch(list[i].taints, Uncordoned(list[i].taints)))];
            TaintsOnly(ws) && g.nodes == PatchAll(f.nodes, ws)
  {
    hide Next, PatchAll, Targets;
    var f1 := Next(f, Own(a, R.List));
    Lists(f, a);
    Uncordons(f1, a);
    g := Next(f1, Own(a, R.Uncordon));
  }

  /** The three writes leave the picked node as it was. */
  lemma BackAgain(list: seq<Node>, j: nat, u: seq<NodeWrite>, k: seq<NodeWrite>, ws: seq<NodeWrite>)
    requires j < |list| && !Evicts(list[j].taints) && TaintsOnly(u) && (u != [] ==> u[0].name != list[j].name)
    requires k == [NodeWrite(list[j].name, NodePatch(map[], Some(Cordoned(list[j].taints))))]
    requires ws == [NodeWrite(list[j].name, TaintPatch(Cordoned(list[j].taints), Uncordoned(Cordoned(list[j].taints))))]
    ensures var now := PatchAll(PatchAll(PatchAll(list, u), k), ws);
            |now| == |list| && now[j] == list[j]
  {
    TaintRoundTrip(list[j].taints);
    hide PatchAll, Cordoned, Uncordoned;
    NodeAfter(list, u, j);
    NodeAfter(PatchAll(list, u), k, j);
    NodeAfter(PatchAll(PatchAll(list, u), k), ws, j);
  }

  lemma AboutToOverwrite(g: Fleet, b: nat, cb: Config, tb: seq<Node>, j: nat)
    requires b < |g.configs| && g.configs[b] == cb.(phase := Running(cb.spec, tb, R.ToKickoff), pending := false)
    requires NodeForUpgrade(Views(tb, cb.id), cb.spec) == Some(j) && !IsNew(View(tb[j], cb.id)) && !Evicts(tb[j].taints)
    requires j < |Targets(g.nodes, cb)| && Targets(g.nodes, cb)[j] == tb[j]
    ensures Eviction.Overwrites(Project(g, b), j) && !Evicts(Project(g, b).nodes[j].taints)
  {
    hide Matching, Evicts, NodeForUpgrade;
    assert Targets(g.nodes, g.configs[b]) == Targets(g.nodes, cb);
  }

  lemma BSees(f: Fleet, g: Fleet, a: nat, b: nat, i: nat, j: nat)
    requires Collide(f, a, b, i, j) && |g.configs| == |f.configs|
    requires var cb := f.configs[b];
             var tb := Targets(f.nodes, cb);
             var u, k := UncordonWrites(tb, cb.id, cb.spec), CordonWrites(tb, cb.id, cb.spec);
             var x := tb[j].(taints := Cordoned(tb[j].taints));
             && TaintsOnly(u) && TaintsOnly(k)
             && g.nodes == PatchAll(PatchAll(PatchAll(f.nodes, u), k), [NodeWrite(x.name, TaintPatch(x.taints, Uncordoned(x.taints)))])
             && g.configs[b] == cb.(phase := Running(cb.spec, tb, R.ToKickoff), pending := false)
    ensures Eviction.Overwrites(Project(g, b), j) && !Evicts(Project(g, b).nodes[j].taints)
  {
    var cb := f.configs[b];
    var tb, sel := Targets(f.nodes, cb), MatchingLabels(cb.selector);
    var u, k := UncordonWrites(tb, cb.id, cb.spec), CordonWrites(tb, cb.id, cb.spec);
    var x := tb[j].(taints := Cordoned(tb[j].taints));
    var ws := [NodeWrite(x.name, TaintPatch(x.taints, Uncordoned(x.taints)))];
    PickIsStored(f, a, b, i, j);
    WritesOfB(f, a, b, i, j);
    BackAgain(tb, j, u, k, ws);
    AboutToOverwrite(g, b, cb, tb, j) by {
      hide PatchAll, UncordonWrites, CordonWrites, Matching, Cordoned, Uncordoned, Evicts, NodeForUpgrade, UniqueNames, Tainted;
      SeenThrough(f.nodes, sel, u);
      SeenThrough(PatchAll(f.nodes, u), sel, k);
      SeenThrough(PatchAll(PatchAll(f.nodes, u), k), sel, ws);
    }
  }

  lemma FiveSteps(f: Fleet, s: seq<Step>)
    requires |s| == 5
    ensures Exec(f, s) == Next(Next(Next(Next(Next(f, s[0]), s[1]), s[2]), s[3]), s[4])
  {
    assert s[..4][..3] == s[..3] && s[..3][..2] == s[..2] && s[..2][..1] == s[..1] && s[..1][..0] == [];
    assert Exec(f, s[..1]) == Next(f, s[0]);
    assert Exec(f, s[..2]) == Next(Next(f, s[0]), s[1]);
    assert Exec(f, s[..3]) == Next(Exec(f, s[..2]), s[2]);
    assert Exec(f, s[..4]) == Next(Exec(f, s[..3]), s[3]);
  }
}
