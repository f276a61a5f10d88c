/** What removing the version labels does to the cluster, when it finishes and when it stops halfway. */
module LabelRemoval {
  import opened Options
  import opened Cluster
  import opened NodeState
  import opened DeviceConfigs
  import opened UpgradePlan
  import opened Stores

  function Listed(nodes: seq<Node>, id: ConfigId, v: string): seq<Node> {
    Matching(nodes, RemovalSelector(id, v))
  }

  /** The cluster after the first k patches of a removal pass. */
  function AfterPatches(nodes: seq<Node>, id: ConfigId, v: string, k: nat): seq<Node>
    requires k <= |Listed(nodes, id, v)|
  {
    PatchAll(nodes, RemovalWrites(Listed(nodes, id, v), id)[..k])
  }

  predicate NameAmong(list: seq<Node>, k: nat, name: string)
    requires k <= |list|
  {
    exists m :: 0 <= m < k && list[m].name == name
  }

  lemma {:induction false} PatchesByName(nodes: seq<Node>, list: seq<Node>, id: ConfigId, k: nat)
    requires k <= |list|
    ensures var r := PatchAll(nodes, RemovalWrites(list, id)[..k]);
            && |r| == |nodes|
            && forall i :: 0 <= i < |nodes| ==>
                 r[i] == if NameAmong(list, k, nodes[i].name) then nodes[i].(labels := nodes[i].labels - {VersionLabel(id)})
                         else nodes[i]
  {
    if k > 0 {
      var ws, key := RemovalWrites(list, id), VersionLabel(id);
      PatchesByName(nodes, list, id, k - 1);
      assert ws[..k][..k - 1] == ws[..k - 1];
      var prev := PatchAll(nodes, ws[..k - 1]);
      forall i | 0 <= i < |nodes|
        ensures PatchStore(prev, ws[k - 1])[i] ==
          if NameAmong(list, k, nodes[i].name) then nodes[i].(labels := nodes[i].labels - {key}) else nodes[i]
      {
        ApplyNull(prev[i], key);
        ApplyNull(nodes[i], key);
        NameAmongNext(list, k, nodes[i].name);
      }
    }
  }

  lemma ApplyNull(n: Node, k: LabelKey)
    ensures Apply(LabelPatch(k, None), n) == n.(labels := n.labels - {k})
    ensures n.labels - {k} - {k} == n.labels - {k}
  {
  }

  lemma NameAmongNext(list: seq<Node>, k: nat, name: string)
    requires 0 < k <= |list|
    ensures NameAmong(list, k, name) <==> NameAmong(list, k - 1, name) || list[k - 1].name == name
  {
  }

  /** Stopped at a failing patch, exactly the nodes listed before it are cleaned, and they are cleaned fully. */
  lemma StopsExactly(nodes: seq<Node>, id: ConfigId, v: string, k: nat)
    requires UniqueNames(nodes) && k <= |Listed(nodes, id, v)|
    ensures var r := AfterPatches(nodes, id, v, k);
            && |r| == |nodes|
            && forall i :: 0 <= i < |nodes| ==>
                 r[i] == if nodes[i] in Listed(nodes, id, v)[..k] then WithoutVersion(nodes[i], id, v) else nodes[i]
  {
    var list := Listed(nodes, id, v);
    PatchesByName(nodes, list, id, k);
    ListedForRemoval(nodes, id, v);
    forall i | 0 <= i < |nodes| ensures NameAmong(list, k, nodes[i].name) <==> nodes[i] in list[..k] {
      if m :| 0 <= m < k && list[m].name == nodes[i].name {
        MatchingMember(nodes, RemovalSelector(id, v), list[m]);
        var j :| 0 <= j < |nodes| && nodes[j] == list[m];
        assert i == j && list[..k][m] == nodes[i];
      }
    }
  }

  predicate Holds(n: Node, id: ConfigId, v: string) {
    Lookup(n.labels, VersionLabel(id)) == Some(v)
  }

  ghost predicate AnyHolds(nodes: seq<Node>, id: ConfigId, v: string) {
    exists n <- nodes :: Holds(n, id, v)
  }

  /** After a whole pass no node holds the label, even if names are not unique. */
  lemma FullPassLeavesNone(nodes: seq<Node>, id: ConfigId, v: string)
    ensures !AnyHolds(AfterPatches(nodes, id, v, |Listed(nodes, id, v)|), id, v)
  {
    var list := Listed(nodes, id, v);
    var r := AfterPatches(nodes, id, v, |list|);
    PatchesByName(nodes, list, id, |list|);
    forall i | 0 <= i < |r| ensures !Holds(r[i], id, v) {
      if Holds(nodes[i], id, v) {
        MatchingMember(nodes, RemovalSelector(id, v), nodes[i]);
        var m :| 0 <= m < |list| && list[m] == nodes[i];
        assert NameAmong(list, |list|, nodes[i].name);
      }
    }
  }

  /** A pass that finishes cleans every node that holds this version's label, and only those. */
  lemma FinishedPassCleans(nodes: seq<Node>, id: ConfigId, v: string)
    requires UniqueNames(nodes)
    ensures AfterPatches(nodes, id, v, |Listed(nodes, id, v)|) == Cleaned(nodes, id, v)
  {
    var list := Listed(nodes, id, v);
    StopsExactly(nodes, id, v, |list|);
    assert list[..|list|] == list;
    forall i | 0 <= i < |nodes| ensures nodes[i] !in list ==> WithoutVersion(nodes[i], id, v) == nodes[i] {
      MatchingMember(nodes, RemovalSelector(id, v), nodes[i]);
    }
  }

  /** A retry after a pass that stopped anywhere reaches the state of an uninterrupted pass. */
  lemma RetryConverges(nodes: seq<Node>, id: ConfigId, v: string, k: nat)
    requires UniqueNames(nodes) && k <= |Listed(nodes, id, v)|
    ensures var r := AfterPatches(nodes, id, v, k);
            AfterPatches(r, id, v, |Listed(r, id, v)|) == AfterPatches(nodes, id, v, |Listed(nodes, id, v)|)
  {
    var r := AfterPatches(nodes, id, v, k);
    StopsExactly(nodes, id, v, k);
    assert UniqueNames(r) by {
      forall i | 0 <= i < |r| ensures r[i].name == nodes[i].name {}
    }
    FinishedPassCleans(r, id, v);
    FinishedPassCleans(nodes, id, v);
    assert Cleaned(r, id, v) == Cleaned(nodes, id, v);
  }

  /** What the contract of `RemoveUpgradeLabels` says of a call, in these terms: with an error the patches up
      to some point, without one a whole pass; nothing but the nodes changes. */
  lemma ProgressedRemoval(s0: Store, s1: Store, id: ConfigId, v: string, done: nat, err: bool)
    requires UniqueNames(s0.nodes)
    requires Progressed(s0, s1, NodeWrites(RemovalWrites(Matching(s0.nodes, RemovalSelector(id, v)), id)), done, err)
    ensures done <= |Listed(s0.nodes, id, v)| && s1 == s0.(nodes := AfterPatches(s0.nodes, id, v, done))
    ensures !err ==> s1.nodes == Cleaned(s0.nodes, id, v)
  {
    hide ApplyAll, PatchAll, Matching, Cleaned;
    var ws := RemovalWrites(Listed(s0.nodes, id, v), id);
    NodeWritesPrefix(ws, done);
    NodeWritesTouchNodes(s0, ws[..done]);
    FinishedPassCleans(s0.nodes, id, v);
  }

  /** Only this label with this value goes: every other label and every taint stays, on every node. */
  lemma RemovalIsExact(nodes: seq<Node>, id: ConfigId, v: string, i: nat, k: LabelKey)
    requires i < |nodes|
    ensures var r := Cleaned(nodes, id, v);
            && r[i].name == nodes[i].name && r[i].taints == nodes[i].taints
            && Lookup(r[i].labels, k) ==
                 if k == VersionLabel(id) && Lookup(nodes[i].labels, k) == Some(v) then None else Lookup(nodes[i].labels, k)
  {
  }

  /** Removal leaves no version label of this DeviceConfig behind if and only if no node held the label
      of another version, as after a deletion in the middle of a rollout. */
  lemma CleanIff(nodes: seq<Node>, id: ConfigId, v: string)
    ensures (forall n <- Cleaned(nodes, id, v) :: VersionLabel(id) !in n.labels) <==>
            (forall n <- nodes :: VersionLabel(id) in n.labels ==> n.labels[VersionLabel(id)] == v)
  {
    var r, k := Cleaned(nodes, id, v), VersionLabel(id);
    forall i | 0 <= i < |nodes| ensures k in r[i].labels <==> k in nodes[i].labels && nodes[i].labels[k] != v {}
    if forall n <- r :: k !in n.labels {
      forall n | n in nodes && k in n.labels ensures n.labels[k] == v {
        var i :| 0 <= i < |nodes| && nodes[i] == n;
        assert r[i] in r;
      }
    }
  }

  // ----- Deletion in the middle of a rollout -----

  /** Two nodes on version 1, for which the user now wants version 2. */
  function OnOne(name: string, id: ConfigId): Node {
    Node(name, map[VersionLabel(id) := "1", ReadyLabel(id) := "1"], [])
  }

  lemma PickLastOfTwo(id: ConfigId)
    ensures var list := [OnOne("a", id), OnOne("b", id)];
            && FirstFinished(Views(list, id), "2") == None
            && NodeForUpgrade(Views(list, id), "2") == Some(1)
  {
    var views := Views([OnOne("a", id), OnOne("b", id)], id);
    assert State(views[0], "2") == Before && State(views[1], "2") == Before;
    assert !AnyInUpgrade(views, "2");
  }

  lemma MidwayWrites(id: ConfigId, s: Spec)
    requires s.driverVersion == "2" && s.selector == None
    ensures UpgradeWrites([OnOne("a", id), OnOne("b", id)], id, s)
         == [NodeWrite("b", TaintPatch([], Cordoned([]))), NodeWrite("b", LabelPatch(VersionLabel(id), Some("2")))]
  {
    hide FirstFinished, NodeForUpgrade, Cordoned, Tainted;
    MatchingAll([OnOne("a", id), OnOne("b", id)]);
    PickLastOfTwo(id);
  }

  /** The node writes of one reconcile bring the second node to version 2 and leave the first; a deletion
      now removes the label of version 2 and leaves the label of version 1 and the taint behind. */
  lemma MidRolloutLeavesLabels(id: ConfigId, s: Spec)
    requires s.driverVersion == "2" && s.selector == None
    ensures var before := [OnOne("a", id), OnOne("b", id)];
            var midway := PatchAll(before, UpgradeWrites(before, id, s));
            && |midway| == 2
            && Lookup(midway[0].labels, VersionLabel(id)) == Some("1") && Lookup(midway[1].labels, VersionLabel(id)) == Some("2")
            && Lookup(Cleaned(midway, id, "2")[0].labels, VersionLabel(id)) == Some("1")
            && Lookup(Cleaned(midway, id, "2")[1].labels, VersionLabel(id)) == None
            && Evicts(midway[1].taints) && Evicts(Cleaned(midway, id, "2")[1].taints)
  {
    hide UpgradeWrites, Cordoned;
    MidwayWrites(id, s);
    var before := [OnOne("a", id), OnOne("b", id)];
    var cordon := NodeWrite("b", TaintPatch([], Cordoned([])));
    var kickoff := NodeWrite("b", LabelPatch(VersionLabel(id), Some("2")));
    assert [cordon, kickoff][..1] == [cordon] && [cordon][..0] == [];
    assert PatchAll(before, [cordon]) == PatchStore(before, cordon);
    assert PatchAll(before, [cordon, kickoff]) == PatchStore(PatchStore(before, cordon), kickoff);
  }
}
