/** DeviceConfigs with disjoint targets do not interfere: every interleaved run, seen through one of them,
    is a run of the single-config system, so whatever holds over those runs holds for each. */
module Projection {
  import opened Options
  import opened Cluster
  import opened NodeState
  import opened DeviceConfigs
  import opened Fleets
  import R = Rollout
  import InFlight
  import Eviction
  import Disruption

  // ----- One write to one node -----

  /** A write under which every node it names is selected by the same DeviceConfigs as before. */
  ghost predicate KeepsMembership(f: Fleet, w: NodeWrite) {
    forall i, d :: 0 <= i < |f.nodes| && 0 <= d < |f.configs| && f.nodes[i].name == w.name ==>
      (IsTarget(Apply(w.patch, f.nodes[i]), f.configs[d]) <==> IsTarget(f.nodes[i], f.configs[d]))
  }

  lemma {:induction false} MatchingPatched(nodes: seq<Node>, sel: Labels, w: NodeWrite)
    requires forall i :: 0 <= i < |nodes| && nodes[i].name == w.name ==>
               (Selected(Apply(w.patch, nodes[i]).labels, sel) <==> Selected(nodes[i].labels, sel))
    ensures Matching(PatchStore(nodes, w), sel) == PatchStore(Matching(nodes, sel), w)
  {
    if nodes != [] {
      var n := |nodes| - 1;
      MatchingPatched(nodes[..n], sel, w);
      assert PatchStore(nodes, w)[..n] == PatchStore(nodes[..n], w);
      var init := Matching(nodes[..n], sel);
      assert PatchStore(init + [nodes[n]], w) == PatchStore(init, w) + PatchStore([nodes[n]], w);
      assert PatchStore(init + [], w) == PatchStore(init, w);
    } else {
      assert PatchStore(nodes, w) == [];
    }
  }

  lemma {:induction false} MatchingUnique(nodes: seq<Node>, sel: Labels)
    requires UniqueNames(nodes)
    ensures UniqueNames(Matching(nodes, sel))
  {
    if nodes != [] {
      var n := |nodes| - 1;
      var init := Matching(nodes[..n], sel);
      MatchingUnique(nodes[..n], sel);
      forall i | 0 <= i < |init| ensures init[i].name != nodes[n].name {
        MatchingMember(nodes[..n], sel, init[i]);
        var k :| 0 <= k < n && nodes[..n][k] == init[i];
        assert nodes[k] == init[i];
      }
    }
  }

  lemma PatchOne(list: seq<Node>, w: NodeWrite)
    requires UniqueNames(list)
    ensures var i := IndexOf(list, w.name);
            PatchStore(list, w) == if i.None? then list else list[i.value := Apply(w.patch, list[i.value])]
  {
  }

  /** A target of c, found in the list of targets, is the node of that name in the store. */
  lemma TargetInStore(f: Fleet, c: nat, l: nat) returns (i: nat)
    requires Apart(f) && c < |f.configs| && l < |Targets(f.nodes, f.configs[c])|
    ensures i < |f.nodes| && f.nodes[i] == Targets(f.nodes, f.configs[c])[l] && IsTarget(f.nodes[i], f.configs[c])
    ensures forall k :: 0 <= k < |f.nodes| && f.nodes[k].name == f.nodes[i].name ==> k == i
  {
    var t := Targets(f.nodes, f.configs[c]);
    MatchingMember(f.nodes, MatchingLabels(f.configs[c].selector), t[l]);
    i :| 0 <= i < |f.nodes| && f.nodes[i] == t[l];
  }

  lemma TargetByName(f: Fleet, c: nat, i: nat)
    requires Apart(f) && c < |f.configs| && i < |f.nodes| && IsTarget(f.nodes[i], f.configs[c])
    ensures IndexOf(Targets(f.nodes, f.configs[c]), f.nodes[i].name).Some?
  {
    MatchingMember(f.nodes, MatchingLabels(f.configs[c].selector), f.nodes[i]);
  }

  lemma TargetsPatched(f: Fleet, c: nat, w: NodeWrite)
    requires Apart(f) && c < |f.configs| && KeepsMembership(f, w)
    ensures var t := Targets(f.nodes, f.configs[c]);
            var i := IndexOf(t, w.name);
            Targets(PatchStore(f.nodes, w), f.configs[c]) == if i.None? then t else t[i.value := Apply(w.patch, t[i.value])]
  {
    var k := f.configs[c];
    MatchingPatched(f.nodes, MatchingLabels(k.selector), w);
    MatchingUnique(f.nodes, MatchingLabels(k.selector));
    PatchOne(Targets(f.nodes, k), w);
  }

  lemma EventIffLabelsChange(f: Fleet, c: nat, w: NodeWrite)
    requires Apart(f) && c < |f.configs| && KeepsMembership(f, w)
    ensures var t := Targets(f.nodes, f.configs[c]);
            var i := IndexOf(t, w.name);
            Notified(f.configs[c], f.nodes, PatchStore(f.nodes, w)) <==> i.Some? && Apply(w.patch, t[i.value]).labels != t[i.value].labels
  {
    var k := f.configs[c];
    var t, after := Targets(f.nodes, k), PatchStore(f.nodes, w);
    if i :| 0 <= i < |f.nodes| && i < |after| && f.nodes[i].labels != after[i].labels
            && (IsTarget(f.nodes[i], k) || IsTarget(after[i], k)) {
      assert f.nodes[i].name == w.name;
      TargetByName(f, c, i);
      var j := TargetInStore(f, c, IndexOf(t, w.name).value);
      assert t[IndexOf(t, w.name).value] == f.nodes[i];
    }
    if IndexOf(t, w.name).Some? {
      var j := TargetInStore(f, c, IndexOf(t, w.name).value);
      assert after[j] == Apply(w.patch, f.nodes[j]);
    }
  }

  /** What one write does to the targets of c, and whether it is an event for c. */
  lemma OneWriteSeen(f: Fleet, c: nat, w: NodeWrite)
    requires Apart(f) && c < |f.configs| && KeepsMembership(f, w)
    ensures var k := f.configs[c];
            var t, t' := Targets(f.nodes, k), Targets(PatchStore(f.nodes, w), k);
            var i := IndexOf(t, w.name);
            && t' == (if i.None? then t else t[i.value := Apply(w.patch, t[i.value])])
            && (Notified(k, f.nodes, PatchStore(f.nodes, w)) <==>
                  i.Some? && Apply(w.patch, t[i.value]).labels != t[i.value].labels)
  {
    TargetsPatched(f, c, w);
    EventIffLabelsChange(f, c, w);
  }

  lemma LabelsOutsideSelector(n: Node, sel: Labels, p: NodePatch)
    requires (forall k <- sel :: k.Plain?) && (forall k <- p.labels :: !k.Plain?)
    ensures Selected(Apply(p, n).labels, sel) <==> Selected(n.labels, sel)
  {
    var r := Apply(p, n);
    forall k | k in sel ensures (k in r.labels <==> k in n.labels) && (k in n.labels ==> r.labels[k] == n.labels[k]) {
      assert k !in p.labels;
    }
  }

  lemma WritesKeepMembership(f: Fleet, s: Step)
    requires Apart(f) && Enabled(f, s)
    ensures |Writes(f, s)| <= 1
    ensures forall w <- Writes(f, s) :: KeepsMembership(f, w)
  {
    if !s.Foreign? && Writes(f, s) != [] {
      var w := Writes(f, s)[0];
      assert forall k <- w.patch.labels :: !k.Plain?;
      forall i, d | 0 <= i < |f.nodes| && 0 <= d < |f.configs|
        ensures IsTarget(Apply(w.patch, f.nodes[i]), f.configs[d]) <==> IsTarget(f.nodes[i], f.configs[d])
      {
        LabelsOutsideSelector(f.nodes[i], MatchingLabels(f.configs[d].selector), w.patch);
      }
    }
  }

  lemma PatchAllFew(nodes: seq<Node>, ws: seq<NodeWrite>)
    requires |ws| <= 1
    ensures PatchAll(nodes, ws) == if ws == [] then nodes else PatchStore(nodes, ws[0])
  {
    if ws != [] { assert ws[..0] == []; }
  }

  // ----- The assumptions are kept -----

  ghost predicate Orderly(f: Fleet) {
    Apart(f) && ListsTargets(f)
  }

  ghost predicate Good(f: Fleet) {
    Orderly(f) && NoOverlap(f)
  }

  /** What no step changes of the nodes and the configs. */
  ghost predicate SameTargets(f: Fleet, g: Fleet) {
    && |g.nodes| == |f.nodes| && |g.configs| == |f.configs|
    && (forall i :: 0 <= i < |f.nodes| ==> g.nodes[i].name == f.nodes[i].name)
    && (forall c :: 0 <= c < |f.configs| ==>
          g.configs[c].id == f.configs[c].id && g.configs[c].selector == f.configs[c].selector)
    && (forall i, c :: 0 <= i < |f.nodes| && 0 <= c < |f.configs| ==>
          (IsTarget(g.nodes[i], g.configs[c]) <==> IsTarget(f.nodes[i], f.configs[c])))
  }

  /** The nodes after a step, and what a step never changes of a config. */
  lemma AfterStep(f: Fleet, s: Step)
    requires Apart(f) && Enabled(f, s)
    ensures var ws, f' := Writes(f, s), Next(f, s);
            && f'.nodes == (if ws == [] then f.nodes else PatchStore(f.nodes, ws[0]))
            && |f'.configs| == |f.configs|
            && forall c :: 0 <= c < |f.configs| ==>
                 f'.configs[c].id == f.configs[c].id && f'.configs[c].selector == f.configs[c].selector
  {
    WritesKeepMembership(f, s);
    PatchAllFew(f.nodes, Writes(f, s));
  }

  lemma StepKeepsTargets(f: Fleet, s: Step)
    requires Apart(f)
    ensures SameTargets(f, Next(f, s))
  {
    if Enabled(f, s) {
      AfterStep(f, s);
      WritesKeepMembership(f, s);
      var f' := Next(f, s);
      if Writes(f, s) != [] {
        var w := Writes(f, s)[0];
        hide Writes, Next, Enabled, Apart, IsTarget;
        assert KeepsMembership(f, w) && f'.nodes == PatchStore(f.nodes, w);
        forall i, c | 0 <= i < |f.nodes| && 0 <= c < |f.configs|
          ensures IsTarget(f'.nodes[i], f'.configs[c]) <==> IsTarget(f.nodes[i], f.configs[c])
        {
          SameSelector(f'.nodes[i], f'.configs[c], f.configs[c]);
        }
      }
    }
  }

  lemma SameSelector(n: Node, c: Config, d: Config)
    requires c.selector == d.selector
    ensures IsTarget(n, c) <==> IsTarget(n, d)
  {
  }

  lemma TargetNamesStand(f: Fleet, s: Step, c: nat)
    requires Apart(f) && Enabled(f, s) && c < |f.configs|
    ensures |Next(f, s).configs| == |f.configs|
    ensures SameNames(Targets(f.nodes, f.configs[c]), Targets(Next(f, s).nodes, Next(f, s).configs[c]))
  {
    hide Writes, Apart, Next;
    AfterStep(f, s);
    WritesKeepMembership(f, s);
    if Writes(f, s) != [] { OneWriteSeen(f, c, Writes(f, s)[0]); }
  }

  lemma StepKeepsOrderly(f: Fleet, s: Step)
    requires Orderly(f)
    ensures Orderly(Next(f, s))
  {
    StepKeepsTargets(f, s);
    if Enabled(f, s) {
      forall c | 0 <= c < |f.configs| ensures SameNames(Targets(f.nodes, f.configs[c]), Targets(Next(f, s).nodes, Next(f, s).configs[c])) {
        TargetNamesStand(f, s, c);
      }
    }
  }

  lemma StepKeepsGood(f: Fleet, s: Step)
    requires Good(f)
    ensures Good(Next(f, s))
  {
    StepKeepsOrderly(f, s);
    StepKeepsTargets(f, s);
    hide Next, Orderly;
  }

  lemma {:induction false} RunKeepsGood(f: Fleet, steps: seq<Step>)
    requires Good(f)
    ensures Good(Exec(f, steps))
  {
    if steps != [] {
      RunKeepsGood(f, steps[..|steps| - 1]);
      StepKeepsGood(Exec(f, steps[..|steps| - 1]), steps[|steps| - 1]);
    }
  }

  // ----- Every fleet step is at most one step of each config's own system -----

  lemma ViewPatched(n: Node, p: NodePatch, id: ConfigId)
    ensures var r := View(Apply(p, n), id);
            && r.taints == (if p.taints.Some? then p.taints.value else n.taints)
            && r.version == (if VersionLabel(id) in p.labels then p.labels[VersionLabel(id)] else View(n, id).version)
            && r.ready == (if ReadyLabel(id) in p.labels then p.labels[ReadyLabel(id)] else View(n, id).ready)
  {
  }

  lemma ViewsUpdate(list: seq<Node>, i: nat, n: Node, id: ConfigId)
    requires i < |list|
    ensures Views(list[i := n], id) == Views(list, id)[i := View(n, id)]
  {
  }

  /** The projection after a step of KMM or of another writer. */
  lemma OthersWrite(f: Fleet, c: nat, s: Step)
    requires Orderly(f) && c < |f.configs| && Enabled(f, s) && !s.Own?
    ensures var p, w, k := Project(f, c), Writes(f, s)[0], f.configs[c];
            var t := Targets(f.nodes, k);
            var i := IndexOf(t, s.name);
            Project(Next(f, s), c) ==
              if i.None? then p
              else p.(nodes := p.nodes[i.value := View(Apply(w.patch, t[i.value]), k.id)],
                      pending := p.pending || Apply(w.patch, t[i.value]).labels != t[i.value].labels)
  {
    var w, k := Writes(f, s)[0], f.configs[c];
    AfterStep(f, s);
    WritesKeepMembership(f, s);
    PatchAllFew(f.nodes, Writes(f, s));
    OneWriteSeen(f, c, w);
    var t := Targets(f.nodes, k);
    var i := IndexOf(t, s.name);
    if i.Some? { ViewsUpdate(t, i.value, Apply(w.patch, t[i.value]), k.id); }
  }

  lemma ExecOne(w: R.World, s: R.Step)
    ensures R.Exec(w, [s]) == R.Next(w, s)
  {
    assert [s][..0] == [];
  }

  lemma KmmSeen(f: Fleet, c: nat, s: Step, i: nat)
    requires Orderly(f) && c < |f.configs| && Enabled(f, s) && s.Kmm?
    requires IndexOf(Targets(f.nodes, f.configs[c]), s.name) == Some(i)
    ensures Project(Next(f, s), c) == R.Exec(Project(f, c), Seen(f, c, s))
  {
    hide Matching, Next, Evicts, Tainted, ListsTargets;
    var w, k := Writes(f, s)[0], f.configs[c];
    var n := Targets(f.nodes, k)[i];
    OthersWrite(f, c, s);
    var g := TargetInStore(f, c, i);
    ViewPatched(n, w.patch, k.id);
    assert R.KmmMay(View(n, f.configs[s.k].id), s.ready);
    assert Lookup(Apply(w.patch, n).labels, ReadyLabel(f.configs[s.k].id)) == s.ready;
    assert Project(f, c).nodes[i] == View(n, k.id);
    ExecOne(Project(f, c), Seen(f, c, s)[0]);
  }

  lemma ForeignSeen(f: Fleet, c: nat, s: Step, i: nat)
    requires Orderly(f) && c < |f.configs| && Enabled(f, s) && s.Foreign?
    requires IndexOf(Targets(f.nodes, f.configs[c]), s.name) == Some(i)
    ensures Project(Next(f, s), c) == R.Exec(Project(f, c), Seen(f, c, s))
  {
    hide Apart, ListsTargets, Matching, Next, Evicts, Tainted;
    var w, k := Writes(f, s)[0], f.configs[c];
    var n := Targets(f.nodes, k)[i];
    OthersWrite(f, c, s);
    var g := TargetInStore(f, c, i);
    ViewPatched(n, w.patch, k.id);
    assert Project(f, c).nodes[i] == View(n, k.id);
    ExecOne(Project(f, c), Seen(f, c, s)[0]);
  }

  /** Steps of KMM and of other writers. */
  lemma OthersSeen(f: Fleet, c: nat, s: Step)
    requires Orderly(f) && c < |f.configs| && Enabled(f, s) && !s.Own?
    ensures Project(Next(f, s), c) == R.Exec(Project(f, c), Seen(f, c, s))
  {
    var i := IndexOf(Targets(f.nodes, f.configs[c]), s.name);
    if i.None? {
      OthersWrite(f, c, s);
    } else if s.Kmm? {
      KmmSeen(f, c, s, i.value);
    } else {
      ForeignSeen(f, c, s, i.value);
    }
  }

  lemma WritesNameTargets(f: Fleet, d: nat, o: R.Step)
    requires Orderly(f) && Enabled(f, Own(d, o)) && Writes(f, Own(d, o)) != []
    ensures exists l :: 0 <= l < |Targets(f.nodes, f.configs[d])|
              && Targets(f.nodes, f.configs[d])[l].name == Writes(f, Own(d, o))[0].name
  {
    var k := f.configs[d];
    var views := Views(k.phase.list, k.id);
    var l := if o.Uncordon? then FirstFinished(views, k.phase.v).value else NodeForUpgrade(views, k.phase.v).value;
    assert Targets(f.nodes, k)[l].name == k.phase.list[l].name;
  }

  /** A step of another config is not seen at all. */
  lemma StrangerUnseen(f: Fleet, c: nat, d: nat, o: R.Step)
    requires Good(f) && c < |f.configs| && c != d && Enabled(f, Own(d, o))
    ensures Project(Next(f, Own(d, o)), c) == Project(f, c)
  {
    var s := Own(d, o);
    var ws := Writes(f, s);
    WritesKeepMembership(f, s);
    PatchAllFew(f.nodes, ws);
    if ws != [] {
      OneWriteSeen(f, c, ws[0]);
      WritesNameTargets(f, d, o);
      var l :| 0 <= l < |Targets(f.nodes, f.configs[d])| && Targets(f.nodes, f.configs[d])[l].name == ws[0].name;
      var i := TargetInStore(f, d, l);
      if IndexOf(Targets(f.nodes, f.configs[c]), ws[0].name).Some? {
        var j := TargetInStore(f, c, IndexOf(Targets(f.nodes, f.configs[c]), ws[0].name).value);
        assert false;
      }
    } else {
      assert !Notified(f.configs[c], f.nodes, f.nodes);
    }
  }

  /** The write of a config's own step, on its own targets. */
  lemma OwnWriteSeen(f: Fleet, c: nat, o: R.Step, l: nat)
    requires Orderly(f) && c < |f.configs| && Enabled(f, Own(c, o)) && Writes(f, Own(c, o)) != []
    requires f.configs[c].phase.Running? && l < |f.configs[c].phase.list|
    requires Writes(f, Own(c, o))[0].name == f.configs[c].phase.list[l].name
    ensures var w, k := Writes(f, Own(c, o))[0], f.configs[c];
            var t, f' := Targets(f.nodes, k), Next(f, Own(c, o));
            && l < |t|
            && Project(f', c).nodes == Views(t, k.id)[l := View(Apply(w.patch, t[l]), k.id)]
            && (Notified(k, f.nodes, f'.nodes) <==> Apply(w.patch, t[l]).labels != t[l].labels)
  {
    var w, k := Writes(f, Own(c, o))[0], f.configs[c];
    var t := Targets(f.nodes, k);
    AfterStep(f, Own(c, o));
    WritesKeepMembership(f, Own(c, o));
    OneWriteSeen(f, c, w);
    MatchingUnique(f.nodes, MatchingLabels(k.selector));
    assert t[l].name == w.name;
    assert IndexOf(t, w.name) == Some(l);
    ViewsUpdate(t, l, Apply(w.patch, t[l]), k.id);
  }

  lemma OwnUncordonSeen(f: Fleet, c: nat)
    requires Orderly(f) && c < |f.configs| && Enabled(f, Own(c, R.Uncordon))
    ensures Project(Next(f, Own(c, R.Uncordon)), c) == R.Next(Project(f, c), R.Uncordon)
  {
    hide Apart, Matching, Evicts, Tainted;
    var k := f.configs[c];
    var t, views := Targets(f.nodes, k), Views(k.phase.list, k.id);
    var u := FirstFinished(views, k.phase.v);
    if u.Some? {
      OwnWriteSeen(f, c, R.Uncordon, u.value);
      ViewPatched(t[u.value], Writes(f, Own(c, R.Uncordon))[0].patch, k.id);
      assert Apply(Writes(f, Own(c, R.Uncordon))[0].patch, t[u.value]).labels == t[u.value].labels;
    } else {
      assert !Notified(k, f.nodes, f.nodes);
    }
  }

  lemma OwnCordonSeen(f: Fleet, c: nat)
    requires Orderly(f) && c < |f.configs| && Enabled(f, Own(c, R.Cordon))
    ensures Project(Next(f, Own(c, R.Cordon)), c) == R.Next(Project(f, c), R.Cordon)
  {
    hide Apart, Matching, Evicts, Tainted;
    var k := f.configs[c];
    var t, views := Targets(f.nodes, k), Views(k.phase.list, k.id);
    var j := NodeForUpgrade(views, k.phase.v);
    if Writes(f, Own(c, R.Cordon)) != [] {
      OwnWriteSeen(f, c, R.Cordon, j.value);
      ViewPatched(t[j.value], Writes(f, Own(c, R.Cordon))[0].patch, k.id);
      assert Apply(Writes(f, Own(c, R.Cordon))[0].patch, t[j.value]).labels == t[j.value].labels;
    } else {
      assert !Notified(k, f.nodes, f.nodes);
    }
  }

  lemma OwnKickoffSeen(f: Fleet, c: nat)
    requires Orderly(f) && c < |f.configs| && Enabled(f, Own(c, R.Kickoff)) && R.Inv(Project(f, c))
    ensures Project(Next(f, Own(c, R.Kickoff)), c) == R.Next(Project(f, c), R.Kickoff)
  {
    hide Apart, Matching, Evicts, Tainted;
    var k := f.configs[c];
    var t, views := Targets(f.nodes, k), Views(k.phase.list, k.id);
    var j := NodeForUpgrade(views, k.phase.v);
    if j.Some? {
      OwnWriteSeen(f, c, R.Kickoff, j.value);
      var p := Writes(f, Own(c, R.Kickoff))[0].patch;
      ViewPatched(t[j.value], p, k.id);
      assert R.Drift(views[j.value], Views(t, k.id)[j.value]);
      assert Lookup(Apply(p, t[j.value]).labels, VersionLabel(k.id)) == Some(k.phase.v);
      assert Lookup(t[j.value].labels, VersionLabel(k.id)) != Some(k.phase.v);
    } else {
      assert !Notified(k, f.nodes, f.nodes);
    }
  }

  /** The config's own steps, whatever other configs target. */
  lemma OwnSeen(f: Fleet, c: nat, o: R.Step)
    requires Orderly(f) && c < |f.configs| && R.Inv(Project(f, c)) && Enabled(f, Own(c, o))
    ensures Project(Next(f, Own(c, o)), c) == R.Next(Project(f, c), o)
  {
    if o.Uncordon? { OwnUncordonSeen(f, c); }
    else if o.Cordon? { OwnCordonSeen(f, c); }
    else if o.Kickoff? { OwnKickoffSeen(f, c); }
    else { assert !Notified(f.configs[c], f.nodes, f.nodes); }
  }

  lemma StepSeen(f: Fleet, c: nat, s: Step)
    requires Good(f) && c < |f.configs| && R.Inv(Project(f, c))
    ensures Project(Next(f, s), c) == R.Exec(Project(f, c), Seen(f, c, s))
  {
    if Enabled(f, s) {
      if !s.Own? {
        OthersSeen(f, c, s);
      } else if s.c != c {
        StrangerUnseen(f, c, s.c, s.s);
      } else {
        OwnSeen(f, c, s.s);
        ExecOne(Project(f, c), s.s);
      }
    }
  }

  /** Non-interference, for whole runs. */
  lemma {:induction false} RunSeen(f: Fleet, c: nat, steps: seq<Step>)
    requires Good(f) && c < |f.configs| && R.Inv(Project(f, c))
    ensures |Exec(f, steps).configs| == |f.configs|
    ensures Project(Exec(f, steps), c) == R.Exec(Project(f, c), SeenAll(f, c, steps))
  {
    SameConfigs(f, steps);
    if steps != [] {
      var init, s := steps[..|steps| - 1], steps[|steps| - 1];
      SameConfigs(f, init);
      RunSeen(f, c, init);
      RunKeepsGood(f, init);
      R.InvRun(Project(f, c), SeenAll(f, c, init));
      StepSeen(Exec(f, init), c, s);
      R.ExecAppend(Project(f, c), SeenAll(f, c, init), Seen(Exec(f, init), c, s));
    }
  }

  // ----- What every config of a fleet keeps -----

  function SpecEdits(steps: seq<Step>, c: nat): nat {
    if steps == [] then 0
    else
      var s := steps[|steps| - 1];
      SpecEdits(steps[..|steps| - 1], c) + if s.Own? && s.c == c && s.s.SetSpec? then 1 else 0
  }

  lemma {:induction false} SpecEditsSeen(f: Fleet, c: nat, steps: seq<Step>)
    requires c < |f.configs|
    ensures Disruption.SpecChanges(SeenAll(f, c, steps)) == SpecEdits(steps, c)
  {
    if steps != [] {
      var init, s := steps[..|steps| - 1], steps[|steps| - 1];
      SpecEditsSeen(f, c, init);
      SameConfigs(f, init);
      var seen := Seen(Exec(f, init), c, s);
      if seen == [] {
        assert SeenAll(f, c, init) + seen == SeenAll(f, c, init);
      } else {
        assert (SeenAll(f, c, init) + seen)[..|SeenAll(f, c, init)|] == SeenAll(f, c, init);
      }
    }
  }

  ghost predicate Start(f: Fleet) {
    Disjoint(f) && forall c :: 0 <= c < |f.configs| ==> f.configs[c].phase.Idle?
  }

  lemma FleetInFlight(f: Fleet, steps: seq<Step>, c: nat)
    requires Start(f) && c < |f.configs| && InFlight.AtMostOne(Project(f, c).nodes)
    ensures |Exec(f, steps).configs| == |f.configs|
    ensures InFlight.AtMostOne(Project(Exec(f, steps), c).nodes)
  {
    RunSeen(f, c, steps);
    InFlight.RunKeepsOne(Project(f, c), SeenAll(f, c, steps));
  }

  lemma FleetDisruption(f: Fleet, steps: seq<Step>, c: nat)
    requires Start(f) && c < |f.configs| && Disruption.WellTainted(Project(f, c).nodes)
    ensures |Exec(f, steps).configs| == |f.configs|
    ensures Disruption.Evicting(Project(Exec(f, steps), c).nodes)
         <= Disruption.Evicting(Project(f, c).nodes) + 1 + SpecEdits(steps, c)
  {
    RunSeen(f, c, steps);
    SpecEditsSeen(f, c, steps);
    Disruption.DisruptionBound(Project(f, c), SeenAll(f, c, steps));
  }

  lemma FleetEviction(f: Fleet, steps: seq<Step>, c: nat, j: nat)
    requires Start(f) && c < |f.configs|
    requires |Exec(f, steps).configs| == |f.configs| && Eviction.Overwrites(Project(Exec(f, steps), c), j)
    ensures var now := Project(Exec(f, steps), c);
            Evicts(now.nodes[j].taints) && now.nodes[j].version != Some(now.phase.v)
  {
    RunSeen(f, c, steps);
    Eviction.EvictedBeforeOverwrite(Project(f, c), SeenAll(f, c, steps), j);
  }

  /** The config's own uncordon, seen through it, takes the taint of node i, whose labels agree. */
  ghost predicate FreesReady(f: Fleet, s: Step, c: nat, i: nat)
    requires c < |f.configs|
  {
    s == Own(c, R.Uncordon) && Eviction.UncordonsReady(Project(f, c), i)
  }

  lemma FleetStepFreesOnlyReady(f: Fleet, s: Step, c: nat, i: nat)
    requires Good(f) && c < |f.configs| && R.Inv(Project(f, c))
    requires i < |Project(f, c).nodes| && Evicts(Project(f, c).nodes[i].taints)
    ensures |Next(f, s).configs| == |f.configs| && |Project(Next(f, s), c).nodes| == |Project(f, c).nodes|
    ensures !Evicts(Project(Next(f, s), c).nodes[i].taints) ==> FreesReady(f, s, c, i)
  {
    hide Apart, NoOverlap, ListsTargets, Matching, R.Inv, Writes, Evicts;
    SameConfigs(f, [s]);
    assert [s][..0] == [];
    StepSeen(f, c, s);
    var p, seen := Project(f, c), Seen(f, c, s);
    if seen != [] {
      assert seen == [seen[0]];
      ExecOne(p, seen[0]);
      Eviction.StepFreesOnlyReady(p, seen[0], i);
    }
  }

  /** Over every run of the fleet from any point at which a target of c evicts: it stops evicting only
      through an uncordon of c itself, when both its labels are the version that reconcile wants. */
  lemma {:induction false} FleetHeldUntilReady(f: Fleet, steps: seq<Step>, c: nat, i: nat) returns (q: nat)
    requires Good(f) && c < |f.configs| && R.Inv(Project(f, c))
    requires i < |Project(f, c).nodes| && Evicts(Project(f, c).nodes[i].taints)
    ensures |Exec(f, steps).configs| == |f.configs| && |Project(Exec(f, steps), c).nodes| == |Project(f, c).nodes|
    ensures !Evicts(Project(Exec(f, steps), c).nodes[i].taints) ==>
      q < |steps| && |Exec(f, steps[..q]).configs| == |f.configs| && FreesReady(Exec(f, steps[..q]), steps[q], c, i)
  {
    hide Apart, NoOverlap, ListsTargets, Matching, R.Inv, Project, FreesReady, Next, Evicts;
    q := 0;
    if steps != [] {
      var n := |steps| - 1;
      q := FleetHeldUntilReady(f, steps[..n], c, i);
      var before := Exec(f, steps[..n]);
      RunSeen(f, c, steps[..n]);
      RunKeepsGood(f, steps[..n]);
      R.InvRun(Project(f, c), SeenAll(f, c, steps[..n]));
      SameConfigs(f, steps);
      if Evicts(Project(before, c).nodes[i].taints) {
        FleetStepFreesOnlyReady(before, steps[n], c, i);
        q := n;
      } else {
        StepSeen(before, c, steps[n]);
        Eviction.RunLength(Project(before, c), Seen(before, c, steps[n]));
        assert steps[..n][..q] == steps[..q];
      }
    }
  }
}
