/** What a reconcile leaves in the store, field by field, told without the order of its writes. */
module Effects {
  import opened Options
  import opened Plans
  import opened Cluster
  import opened NodeState
  import opened DeviceConfigs
  import opened KmmModule
  import opened UpgradePlan
  import opened Stores
  import opened LabelRemoval
  import opened ReconcilePlan

  // ----- The nodes of one upgrade -----

  lemma NodeAfterOne(nodes: seq<Node>, w: NodeWrite, i: nat)
    requires i < |nodes|
    ensures |PatchAll(nodes, [w])| == |nodes|
    ensures PatchAll(nodes, [w])[i] == if nodes[i].name == w.name then Apply(w.patch, nodes[i]) else nodes[i]
  {
    assert [w][..0] == [];
  }

  lemma LabelSet(n: Node, k: LabelKey, v: string)
    ensures Apply(LabelPatch(k, Some(v)), n) == n.(labels := n.labels[k := v])
  {
  }

  lemma TaintsSet(n: Node, before: seq<Taint>, after: seq<Taint>)
    requires n.taints == before
    ensures Apply(TaintPatch(before, after), n) == n.(taints := after)
  {
    assert Apply(TaintPatch(before, after), n).labels == n.labels;
  }

  /** The nodes that one upgrade frees and picks. */
  ghost predicate IsFreed(n: Node, list: seq<Node>, id: ConfigId, v: string) {
    var u := FirstFinished(Views(list, id), v);
    u.Some? && list[u.value] == n
  }

  ghost predicate IsPicked(n: Node, list: seq<Node>, id: ConfigId, v: string) {
    var j := NodeForUpgrade(Views(list, id), v);
    j.Some? && list[j.value] == n
  }

  lemma OneByName(nodes: seq<Node>, sel: Labels, i: nat, l: nat)
    requires UniqueNames(nodes) && i < |nodes| && l < |Matching(nodes, sel)|
    ensures Matching(nodes, sel)[l].name == nodes[i].name <==> Matching(nodes, sel)[l] == nodes[i]
  {
    MatchingMember(nodes, sel, Matching(nodes, sel)[l]);
  }

  lemma AfterUncordon(nodes: seq<Node>, id: ConfigId, sel: Labels, v: string, i: nat)
    requires UniqueNames(nodes) && i < |nodes|
    ensures var list := Matching(nodes, sel);
            var r := PatchAll(nodes, UncordonWrites(list, id, v));
            |r| == |nodes| && r[i] == if IsFreed(nodes[i], list, id, v) then nodes[i].(taints := Uncordoned(nodes[i].taints)) else nodes[i]
  {
    var list := Matching(nodes, sel);
    var u := FirstFinished(Views(list, id), v);
    if u.Some? {
      var x := list[u.value];
      NodeAfterOne(nodes, NodeWrite(x.name, TaintPatch(x.taints, Uncordoned(x.taints))), i);
      OneByName(nodes, sel, i, u.value);
      if x == nodes[i] { TaintsSet(nodes[i], x.taints, Uncordoned(x.taints)); }
    }
  }

  /** Cordon and kickoff, on nodes of which the picked one is as it was listed. */
  lemma AfterPick(nodes: seq<Node>, mid: seq<Node>, id: ConfigId, sel: Labels, v: string, i: nat)
    requires UniqueNames(nodes) && i < |nodes| && |mid| == |nodes| && mid[i].name == nodes[i].name
    requires IsPicked(nodes[i], Matching(nodes, sel), id, v) ==> mid[i] == nodes[i]
    ensures var list := Matching(nodes, sel);
            var r := PatchAll(PatchAll(mid, CordonWrites(list, id, v)), KickoffWrites(list, id, v));
            && |r| == |mid|
            && r[i] == if !IsPicked(nodes[i], list, id, v) then mid[i]
                       else mid[i].(labels := mid[i].labels[VersionLabel(id) := v],
                                    taints := if VersionLabel(id) in mid[i].labels then Cordoned(mid[i].taints) else mid[i].taints)
  {
    var list := Matching(nodes, sel);
    var j := NodeForUpgrade(Views(list, id), v);
    if j.Some? {
      var x := list[j.value];
      OneByName(nodes, sel, i, j.value);
      var mid' := PatchAll(mid, CordonWrites(list, id, v));
      if VersionLabel(id) in x.labels && !Evicts(x.taints) {
        NodeAfterOne(mid, NodeWrite(x.name, TaintPatch(x.taints, Cordoned(x.taints))), i);
        if x == nodes[i] { TaintsSet(mid[i], x.taints, Cordoned(x.taints)); }
      }
      NodeAfterOne(mid', NodeWrite(x.name, LabelPatch(VersionLabel(id), Some(v))), i);
      LabelSet(mid'[i], VersionLabel(id), v);
    }
  }

  /** Node by node: the first finished node loses its upgrade taints; the picked one gets the version label
      and, if it had one before, the upgrade taint; every other node stays as it is. */
  lemma UpgradeEffect(nodes: seq<Node>, id: ConfigId, s: Spec, i: nat)
    requires UniqueNames(nodes) && i < |nodes|
    ensures var list, v, n := Matching(nodes, MatchingLabels(s.selector)), s.driverVersion, nodes[i];
            var r := PatchAll(nodes, UpgradeWrites(nodes, id, s));
            && |r| == |nodes|
            && r[i] == if v == "" then n
                       else if IsFreed(n, list, id, v) then n.(taints := Uncordoned(n.taints))
                       else if IsPicked(n, list, id, v) then
                         n.(labels := n.labels[VersionLabel(id) := v],
                            taints := if VersionLabel(id) in n.labels then Cordoned(n.taints) else n.taints)
                       else n
  {
    var sel, v := MatchingLabels(s.selector), s.driverVersion;
    if v != "" {
      var list := Matching(nodes, sel);
      var u, k, j := UncordonWrites(list, id, v), CordonWrites(list, id, v), KickoffWrites(list, id, v);
      NotBoth(nodes, sel, id, v, i);
      AfterUncordon(nodes, id, sel, v, i);
      var mid := PatchAll(nodes, u);
      AfterPick(nodes, mid, id, sel, v, i);
      hide PatchAll, UncordonWrites, CordonWrites, KickoffWrites, IsFreed, IsPicked, Matching;
      ThenIsConcatenation(k, j);
      ThenIsConcatenation(u, Then(k, j));
      PatchAllAppend(nodes, u, k + j);
      PatchAllAppend(mid, k, j);
    }
  }

  lemma NotBoth(nodes: seq<Node>, sel: Labels, id: ConfigId, v: string, i: nat)
    requires UniqueNames(nodes) && i < |nodes|
    ensures !(IsFreed(nodes[i], Matching(nodes, sel), id, v) && IsPicked(nodes[i], Matching(nodes, sel), id, v))
  {
  }

  // ----- The Module -----

  /** The stored Module follows a spec from the one stored before, and goes on terminating if it was. */
  predicate ModuleFollows(before: ModuleState, after: ModuleState, s: Spec) {
    && !after.Absent? && (after.Terminating? <==> before.Terminating?)
    && ModesFollow(if before.Absent? then EMPTY else before.spec, after.spec, s) && LoaderFollows(after.spec, s)
  }

  lemma PutFollows(s: Store, spec: Spec)
    ensures var r := ApplyWrite(s, PutModule(spec));
            ModuleFollows(s.mod, r.mod, spec) && r == s.(mod := r.mod)
  {
    DesiredIff(SpecOf(s.mod), Desired(SpecOf(s.mod), spec), spec);
  }

  /** Over successive reconciles from an absent Module, the stored Module is what the history of specs says. */
  lemma StoredHistory(mods: seq<ModuleState>, specs: seq<Spec>)
    requires |mods| == |specs| + 1 && mods[0].Absent?
    requires forall i: nat :: i < |specs| ==> StoredAt(mods, specs, i)
    ensures FollowsHistory(SpecOf(mods[|specs|]), specs, |specs|)
  {
    var ms := seq(|mods|, i requires 0 <= i < |mods| => SpecOf(mods[i]));
    forall i: nat | i < |specs| ensures FollowsAt(ms, specs, i) {
      assert StoredAt(mods, specs, i);
    }
    ModeHistory(ms, specs, |specs|);
  }

  predicate StoredAt(mods: seq<ModuleState>, specs: seq<Spec>, i: nat) {
    i < |specs| && i + 1 < |mods| && ModuleFollows(mods[i], mods[i + 1], specs[i])
  }

  // ----- A creating reconcile -----

  /** The finalizer guard, as sent by a reconcile that read these finalizers. */
  predicate GuardSet(before: Option<ConfigMeta>, after: Option<ConfigMeta>, read: seq<string>) {
    if FINALIZER in read || before.None? then after == before
    else after == Some(before.value.(finalizers := read + [FINALIZER]))
  }

  /** What follows the node writes: nothing but scheduler, extension and metrics, in this order; scheduler and
      extension only without a DRA driver image. */
  predicate TailDone(before: Store, after: Store, s: Spec, all: bool) {
    && after == before.(scheduler := after.scheduler, extension := after.extension, metrics := after.metrics)
    && (before.scheduler ==> after.scheduler) && (before.extension ==> after.extension) && (before.metrics ==> after.metrics)
    && (s.draDriverImage != "" ==> after.scheduler == before.scheduler && after.extension == before.extension)
    && (s.draDriverImage == "" ==>
          && (after.extension != before.extension ==> after.scheduler)
          && (after.metrics != before.metrics ==> after.scheduler && after.extension)
          && (all ==> after.scheduler && after.extension))
    && (all ==> after.metrics)
  }

  /** The first k node writes of the upgrade, and what follows only after all of them. */
  ghost predicate NodesDone(before: Store, after: Store, s: Spec, ws: seq<NodeWrite>, k: nat, all: bool) {
    && k <= |ws| && after.nodes == PatchAll(before.nodes, ws[..k])
    && TailDone(before.(nodes := after.nodes), after, s, all)
    && (k < |ws| ==> after == before.(nodes := after.nodes))
    && (all ==> k == |ws|)
  }

  ghost predicate SomeNodesDone(before: Store, after: Store, s: Spec, ws: seq<NodeWrite>, all: bool) {
    exists k: nat :: NodesDone(before, after, s, ws, k, all)
  }

  /** What a creating reconcile leaves behind: without an error finalizer, ConfigMap, Module, nodes, scheduler
      and metrics all as wanted; with one some of them, and none before those named ahead of it. */
  ghost predicate Created(before: Store, after: Store, c: DeviceConfig, err: bool) {
    var ws := UpgradeWrites(before.nodes, c.id, c.spec);
    && (after.config == before.config || GuardSet(before.config, after.config, c.finalizers))
    && (before.buildMap ==> after.buildMap)
    && (after.buildMap != before.buildMap ==> GuardSet(before.config, after.config, c.finalizers))
    && (after.mod == before.mod || ModuleFollows(before.mod, after.mod, c.spec))
    && (after.mod != before.mod ==> GuardSet(before.config, after.config, c.finalizers) && after.buildMap)
    && SomeNodesDone(before.(config := after.config, buildMap := after.buildMap, mod := after.mod), after, c.spec, ws, !err)
    && (!err || after.nodes != before.nodes || after.scheduler != before.scheduler || after.extension != before.extension
        || after.metrics != before.metrics ==>
          GuardSet(before.config, after.config, c.finalizers) && after.buildMap && ModuleFollows(before.mod, after.mod, c.spec))
  }

  lemma Split(s: Store, a: seq<Write>, b: seq<Write>, done: nat)
    requires done <= |Then(a, b)|
    ensures |Then(a, b)| == |a| + |b|
    ensures ApplyAll(s, Then(a, b)[..done]) == if done <= |a| then ApplyAll(s, a[..done]) else ApplyAll(ApplyAll(s, a), b[..done - |a|])
  {
    ThenIsConcatenation(a, b);
    if done <= |a| {
      assert (a + b)[..done] == a[..done];
    } else {
      assert (a + b)[..done] == a + b[..done - |a|];
      ApplyAllAppend(s, a, b[..done - |a|]);
    }
  }

  lemma SplitOne(s: Store, w: Write, b: seq<Write>, done: nat)
    requires done <= |Then([w], b)|
    ensures |Then([w], b)| == 1 + |b|
    ensures ApplyAll(s, Then([w], b)[..done]) == if done == 0 then s else ApplyAll(ApplyWrite(s, w), b[..done - 1])
  {
    Split(s, [w], b, done);
    ApplyOne(s, w);
    if done == 1 { assert [w][..1] == [w] && b[..0] == []; }
  }

  lemma TailMeans(s: Store, spec: Spec, done: nat)
    requires done <= |AfterUpgrade(spec)|
    ensures TailDone(s, ApplyAll(s, AfterUpgrade(spec)[..done]), spec, done == |AfterUpgrade(spec)|)
  {
    if spec.draDriverImage == "" {
      var rest := Then([PutExtension], [PutMetrics]);
      assert AfterUpgrade(spec) == Then([PutScheduler], rest);
      SplitOne(s, PutScheduler, rest, done);
      if done > 0 {
        SplitOne(ApplyWrite(s, PutScheduler), PutExtension, [PutMetrics], done - 1);
        ApplyOne(ApplyWrite(ApplyWrite(s, PutScheduler), PutExtension), PutMetrics);
        assert done == 3 ==> [PutMetrics][..1] == [PutMetrics];
      }
    } else {
      assert AfterUpgrade(spec) == [PutMetrics];
      ApplyOne(s, PutMetrics);
      assert [PutMetrics][..1] == [PutMetrics] && [PutMetrics][..0] == [];
    }
  }

  lemma NodesMean(s: Store, spec: Spec, ws: seq<NodeWrite>, done: nat) returns (k: nat)
    requires done <= |Then(NodeWrites(ws), AfterUpgrade(spec))|
    ensures NodesDone(s, ApplyAll(s, Then(NodeWrites(ws), AfterUpgrade(spec))[..done]), spec, ws, k,
                      done == |Then(NodeWrites(ws), AfterUpgrade(spec))|)
  {
    hide ApplyAll, PatchAll, AfterUpgrade, NodeWrites, Then;
    var tail := AfterUpgrade(spec);
    Split(s, NodeWrites(ws), tail, done);
    assert |tail| > 0 by { TailLength(spec); }
    if done <= |ws| {
      k := done;
      NodeWritesPrefix(ws, done);
      NodeWritesTouchNodes(s, ws[..done]);
    } else {
      k := |ws|;
      assert ws[..k] == ws;
      NodeWritesTouchNodes(s, ws);
      TailMeans(ApplyAll(s, NodeWrites(ws)), spec, done - |ws|);
    }
  }

  lemma TailLength(spec: Spec)
    ensures |AfterUpgrade(spec)| > 0
  {
  }

  lemma ModuleMeans(s: Store, spec: Spec, ws: seq<NodeWrite>, done: nat) returns (k: nat)
    requires done <= |Then([PutModule(spec)], Then(NodeWrites(ws), AfterUpgrade(spec)))|
    ensures var plan := Then([PutModule(spec)], Then(NodeWrites(ws), AfterUpgrade(spec)));
            var r := ApplyAll(s, plan[..done]);
            && NodesDone(s.(mod := r.mod), r, spec, ws, k, done == |plan|)
            && |plan| > 0
            && (done == 0 ==> r == s)
            && (done > 0 ==> ModuleFollows(s.mod, r.mod, spec))
  {
    hide ApplyAll, PatchAll, AfterUpgrade, NodeWrites, Then;
    var rest := Then(NodeWrites(ws), AfterUpgrade(spec));
    SplitOne(s, PutModule(spec), rest, done);
    if done > 0 {
      PutFollows(s, spec);
      k := NodesMean(ApplyWrite(s, PutModule(spec)), spec, ws, done - 1);
    } else {
      k := 0;
      NothingPatched(s.nodes, ws);
    }
  }

  lemma NothingPatched(nodes: seq<Node>, ws: seq<NodeWrite>)
    ensures PatchAll(nodes, ws[..0]) == nodes
  {
  }

  lemma CreateMeans(before: Store, after: Store, c: DeviceConfig, done: nat, err: bool)
    requires Progressed(before, after, CreatePlan(before.nodes, c), done, err)
    ensures Created(before, after, c, err)
  {
    var ws := UpgradeWrites(before.nodes, c.id, c.spec);
    var guard, rest := GuardWrites(c.finalizers), AfterGuard(c.spec, NodeWrites(ws));
    GuardMeans(before, c.finalizers);
    NothingPatched(before.nodes, ws);
    hide ApplyAll, PatchAll, AfterUpgrade, NodeWrites, Then, UpgradeWrites, ModuleFollows;
    Split(before, guard, rest, done);
    var g := ApplyAll(before, guard);
    if done <= |guard| {
      assert after == before || after == g;
      assert err by { RestLength(c.spec, NodeWrites(ws)); }
      assert NodesDone(before.(config := after.config), after, c.spec, ws, 0, false);
    } else {
      var mod := Then([PutModule(c.spec)], Then(NodeWrites(ws), AfterUpgrade(c.spec)));
      SplitOne(g, PutBuildMap, mod, done - |guard|);
      var b := ApplyWrite(g, PutBuildMap);
      var k := ModuleMeans(b, c.spec, ws, done - |guard| - 1);
      assert after.config == g.config && after.buildMap;
      assert b.(mod := after.mod) == before.(config := after.config, buildMap := after.buildMap, mod := after.mod);
      assert NodesDone(b.(mod := after.mod), after, c.spec, ws, k, !err);
      assert SomeNodesDone(b.(mod := after.mod), after, c.spec, ws, !err);
    }
  }

  lemma RestLength(spec: Spec, upgrade: seq<Write>)
    ensures |AfterGuard(spec, upgrade)| > 0
  {
  }

  lemma GuardMeans(s: Store, read: seq<string>)
    ensures |GuardWrites(read)| <= 1
    ensures var r := ApplyAll(s, GuardWrites(read));
            GuardSet(s.config, r.config, read) && r == s.(config := r.config)
    ensures forall done :: 0 <= done <= |GuardWrites(read)| ==>
              ApplyAll(s, GuardWrites(read)[..done]) == if done == |GuardWrites(read)| then ApplyAll(s, GuardWrites(read)) else s
  {
    if FINALIZER !in read {
      var w := SetFinalizers(read + [FINALIZER]);
      ApplyOne(s, w);
      assert [w][..1] == [w] && [w][..0] == [];
    }
  }

  // ----- A finalizing reconcile -----

  /** The finalizer taken away, as sent by a reconcile that read these finalizers; with its last finalizer a
      DeviceConfig leaves the API. */
  predicate GuardTaken(before: Option<ConfigMeta>, after: Option<ConfigMeta>, read: seq<string>) {
    if FINALIZER !in read || before.None? then after == before
    else
      var left := RemoveFinalizer(read);
      if before.value.deleting && left == [] then after == None else after == Some(before.value.(finalizers := left))
  }

  /** What a finalizing reconcile leaves behind: the DaemonSet deleted if there was one, else the Module, else
      the labels removed and then the finalizer; the finalizer never before the last label. */
  ghost predicate Finalized(before: Store, after: Store, c: DeviceConfig, err: bool) {
    var id, v := c.id, c.spec.driverVersion;
    if before.metrics then
      && (after == before || after == before.(metrics := false))
      && (!err ==> !after.metrics)
    else if !before.mod.Absent? then
      && after == before.(mod := after.mod)
      && (after.mod == before.mod || after.mod.Absent? || after.mod == Terminating(before.mod.spec))
      && (!err ==> !after.mod.Present?)
    else
      && after == before.(nodes := after.nodes, config := after.config)
      && (after.config == before.config || GuardTaken(before.config, after.config, c.finalizers))
      && (!err ==> GuardTaken(before.config, after.config, c.finalizers))
      && (!err || after.config != before.config ==> !AnyHolds(after.nodes, id, v))
      && (UniqueNames(before.nodes) ==>
            && (!err || after.config != before.config ==> after.nodes == Cleaned(before.nodes, id, v))
            && |after.nodes| == |before.nodes|
            && forall i :: 0 <= i < |before.nodes| ==>
                 after.nodes[i] == before.nodes[i] || after.nodes[i] == WithoutVersion(before.nodes[i], id, v))
  }

  lemma FinalizeMeans(before: Store, after: Store, c: DeviceConfig, held: bool, done: nat, err: bool)
    requires Progressed(before, after, FinalizePlan(before, c, held), done, err)
    ensures Finalized(before, after, c, err)
  {
    if before.metrics || !before.mod.Absent? {
      var w := if before.metrics then DeleteMetrics else DeleteModule(held);
      assert FinalizePlan(before, c, held) == [w];
      ApplyOne(before, w);
      assert [w][..1] == [w] && [w][..0] == [];
    } else {
      RemovalMeans(before, after, c, done, err);
    }
  }

  /** How far a removal pass and the finalizer patch after it have come. */
  lemma RemovalStops(before: Store, after: Store, c: DeviceConfig, done: nat, err: bool) returns (k: nat)
    requires !before.metrics && before.mod.Absent?
    requires Progressed(before, after, FinalizePlan(before, c, false), done, err)
    ensures var id, v := c.id, c.spec.driverVersion;
            && k <= |Listed(before.nodes, id, v)|
            && after == before.(nodes := AfterPatches(before.nodes, id, v, k), config := after.config)
            && (after.config == before.config || GuardTaken(before.config, after.config, c.finalizers))
            && (!err ==> GuardTaken(before.config, after.config, c.finalizers))
            && (!err || after.config != before.config ==> k == |Listed(before.nodes, id, v)|)
  {
    var id, v := c.id, c.spec.driverVersion;
    var list := Listed(before.nodes, id, v);
    var ws, unguard := RemovalWrites(list, id), UnguardWrites(c.finalizers);
    assert FinalizePlan(before, c, false) == Then(NodeWrites(ws), unguard);
    k := if done <= |list| then done else |list|;
    var mid := before.(nodes := AfterPatches(before.nodes, id, v, k));
    UnguardMeans(mid, c.finalizers);
    assert ws[..|list|] == ws;
    hide ApplyAll, PatchAll, NodeWrites, RemovalWrites, Matching, Then, RemoveFinalizer, UnguardWrites, GuardTaken, FinalizePlan, RemovalSelector;
    Split(before, NodeWrites(ws), unguard, done);
    NodeWritesPrefix(ws, k);
    NodeWritesTouchNodes(before, ws[..k]);
    NodeWritesTouchNodes(before, ws);
    assert unguard[..|unguard|] == unguard;
    assert after == if done <= |list| then mid else ApplyAll(mid, unguard);
  }

  lemma RemovalMeans(before: Store, after: Store, c: DeviceConfig, done: nat, err: bool)
    requires !before.metrics && before.mod.Absent?
    requires Progressed(before, after, FinalizePlan(before, c, false), done, err)
    ensures Finalized(before, after, c, err)
  {
    hide Progressed, FinalizePlan, Listed, AfterPatches, AnyHolds, Cleaned, GuardTaken, WithoutVersion, UniqueNames;
    var id, v := c.id, c.spec.driverVersion;
    var k := RemovalStops(before, after, c, done, err);
    FullPassLeavesNone(before.nodes, id, v);
    if UniqueNames(before.nodes) {
      StopsExactly(before.nodes, id, v, k);
      FinishedPassCleans(before.nodes, id, v);
    }
  }

  lemma UnguardMeans(s: Store, read: seq<string>)
    ensures |UnguardWrites(read)| <= 1
    ensures var r := ApplyAll(s, UnguardWrites(read));
            GuardTaken(s.config, r.config, read) && r == s.(config := r.config)
    ensures UnguardWrites(read) == [] ==> GuardTaken(s.config, s.config, read)
  {
    if FINALIZER in read { ApplyOne(s, SetFinalizers(RemoveFinalizer(read))); }
  }
}
