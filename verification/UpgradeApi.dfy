/** The Go code of the upgrade API, on node objects that share label maps with the list they come from. */
module UpgradeApi {
  import opened Options
  import opened Cluster
  import opened NodeState
  import opened DeviceConfigs
  import opened UpgradePlan
  import opened Stores
  import opened ApiClient

  class UpgradeImpl {
    const client: Client

    constructor (client: Client)
      ensures this.client == client
    {
      this.client := client;
    }

    method GetTargetedNodes(c: DeviceConfig) returns (err: bool, nodes: seq<NodeObject>)
      ensures !err ==> Values(nodes) == Matching(client.store.nodes, MatchingLabels(c.spec.selector)) && Separate(nodes)
      ensures !err && c.spec.selector.None? ==> Values(nodes) == client.store.nodes
      ensures !err && c.spec.selector.Some? ==>
        exists at :: ListedAt(at, Values(nodes), client.store.nodes, c.spec.selector.value)
      ensures forall i :: 0 <= i < |nodes| ==> fresh(nodes[i]) && (nodes[i].labels != null ==> fresh(nodes[i].labels))
    {
      err, nodes := client.ListNodes(MatchingLabels(c.spec.selector));
      ghost var at := MatchingExact(client.store.nodes, MatchingLabels(c.spec.selector));
      MatchingAll(client.store.nodes);
    }

    /** The first upgraded and tainted node, as a struct copy that shares its label map with the list. */
    method GetUpgradedNode(c: DeviceConfig, nodes: seq<NodeObject>) returns (r: NodeObject?)
      ensures var u := FirstFinished(Views(Values(nodes), c.id), c.spec.driverVersion);
              && (r == null <==> u.None?)
              && (r != null ==> fresh(r) && r.labels == nodes[u.value].labels && r.Value() == nodes[u.value].Value())
    {
      ghost var views := Views(Values(nodes), c.id);
      for i := 0 to |nodes|
        invariant forall k :: 0 <= k < i ==> !Finished(views[k], c.spec.driverVersion)
      {
        var state := GetNodeUpgradeState(nodes[i], c);
        var tainted := IsNodeTainted(nodes[i]);
        if state == Upgraded && tainted {
          r := nodes[i].StructCopy();
          assert Finished(views[i], c.spec.driverVersion);
          return;
        }
      }
      return null;
    }

    method UncordonUpgradedNode(node: NodeObject?) returns (err: bool, ghost done: nat)
      modifies node, client
      ensures node == null ==> !err && done == 0 && client.store == old(client.store)
      ensures node != null ==>
        var w := NodeWrite(old(node.name), TaintPatch(old(node.taints), Uncordoned(old(node.taints))));
        Progressed(old(client.store), client.store, NodeWrites([w]), done, err)
    {
      if node == null {
        return false, 0;
      }
      ghost var was := node.Value();
      var newTaints := [];
      for i := 0 to |node.taints|
        invariant newTaints == Uncordoned(node.taints[..i])
      {
        assert node.taints[..i + 1][..i] == node.taints[..i];
        if UPGRADE_TAINT.key == node.taints[i].key && UPGRADE_TAINT.effect == node.taints[i].effect {
          continue;
        }
        newTaints := newTaints + [node.taints[i]];
      }
      assert node.taints[..|node.taints|] == node.taints;
      var nodeCopy := node.DeepCopy();
      node.taints := newTaints;
      TaintDiff(was, newTaints);
      ghost var sent;
      err, sent := client.PatchNode(node, nodeCopy);
      done := if sent then 1 else 0;
      assert NodeWrites([NodeWrite(was.name, TaintPatch(was.taints, newTaints))])
          == [Write.PatchNode(NodeWrite(was.name, TaintPatch(was.taints, newTaints)))];
      OneWrite(old(client.store), Write.PatchNode(NodeWrite(was.name, TaintPatch(was.taints, newTaints))), sent, err);
    }

    /** The last node before upgrade, unless some node is in upgrade. */
    method GetNodeForUpgrade(c: DeviceConfig, nodes: seq<NodeObject>) returns (r: NodeObject?)
      ensures var j := NodeForUpgrade(Views(Values(nodes), c.id), c.spec.driverVersion);
              && (r == null <==> j.None?)
              && (r != null ==> fresh(r) && r.labels == nodes[j.value].labels && r.Value() == nodes[j.value].Value())
    {
      ghost var views, v := Views(Values(nodes), c.id), c.spec.driverVersion;
      ghost var j: nat := 0;
      r := null;
      for i := 0 to |nodes|
        invariant forall k :: 0 <= k < i ==> State(views[k], v) != InUpgrade
        invariant r == null ==> forall k :: 0 <= k < i ==> State(views[k], v) != Before
        invariant r != null ==> j < i && IsLastBefore(views[..i], v, j)
        invariant r != null ==> fresh(r) && r.labels == nodes[j].labels && r.Value() == nodes[j].Value()
      {
        assert forall k :: 0 <= k < i ==> views[..i][k] == views[k];
        match GetNodeUpgradeState(nodes[i], c)
        case Before =>
          r := nodes[i].StructCopy();
          j := i;
        case InUpgrade =>
          assert AnyInUpgrade(views, v) by { assert State(views[i], v) == InUpgrade; }
          return null;
        case Upgraded =>
          continue;
      }
      assert views[..|nodes|] == views;
      assert !AnyInUpgrade(views, v);
    }

    method CordonNodeForUpgrade(c: DeviceConfig, node: NodeObject?) returns (err: bool, ghost done: nat)
      modifies node, client
      ensures node == null ==> !err && done == 0 && client.store == old(client.store)
      ensures node != null ==>
        && Progressed(old(client.store), client.store, NodeWrites(CordonWrite(old(node.Value()), c.id)), done, err)
        && node.labels == old(node.labels) && node.name == old(node.name)
    {
      if node == null {
        return false, 0;
      }
      ghost var was := node.Value();
      if IsNewNodeForUpgrade(node, c) {
        return false, 0;
      }
      for i := 0 to |node.taints|
        invariant forall k :: 0 <= k < i ==> !IsUpgradeTaint(node.taints[k])
      {
        if UPGRADE_TAINT.key == node.taints[i].key && UPGRADE_TAINT.effect == node.taints[i].effect {
          assert IsUpgradeTaint(node.taints[i]);
          return false, 0;
        }
      }
      var nodeCopy := node.DeepCopy();
      node.taints := node.taints + [UPGRADE_TAINT];
      ghost var w := NodeWrite(was.name, TaintPatch(was.taints, Cordoned(was.taints)));
      TaintDiff(was, node.taints);
      ghost var sent;
      err, sent := client.PatchNode(node, nodeCopy);
      done := if sent then 1 else 0;
      assert NodeWrites([w]) == [Write.PatchNode(w)];
      OneWrite(old(client.store), Write.PatchNode(w), sent, err);
    }

    /** Writes the label map in place: the list's element changes with the node, the patch does not. */
    method KickoffUpgrade(c: DeviceConfig, node: NodeObject?) returns (err: bool, ghost done: nat)
      modifies node, (if node == null then null else node.labels), client
      ensures node == null ==> !err && done == 0 && client.store == old(client.store)
      ensures node != null ==>
        var k, v := VersionLabel(c.id), c.spec.driverVersion;
        var w := NodeWrite(old(node.name), if Lookup(old(node.Value()).labels, k) == Some(v) then NodePatch(map[], None)
                                           else LabelPatch(k, Some(v)));
        Progressed(old(client.store), client.store, NodeWrites([w]), done, err)
    {
      if node == null {
        return false, 0;
      }
      ghost var was := node.Value();
      var nodeLabels := node.labels;
      if nodeLabels == null {
        nodeLabels := new LabelMap(map[]);
      }
      var nodeCopy := node.DeepCopy();
      nodeLabels.m := nodeLabels.m[VersionLabel(c.id) := c.spec.driverVersion];
      node.labels := nodeLabels;
      assert node.Value() == was.(labels := was.labels[VersionLabel(c.id) := c.spec.driverVersion]);
      ghost var w := NodeWrite(was.name, Diff(was, node.Value()));
      if Lookup(was.labels, VersionLabel(c.id)) == Some(c.spec.driverVersion) {
        assert node.Value() == was;
        assert w.patch.labels == map[];
      } else {
        LabelDiff(was, VersionLabel(c.id), Some(c.spec.driverVersion));
      }
      ghost var sent;
      err, sent := client.PatchNode(node, nodeCopy);
      done := if sent then 1 else 0;
      assert NodeWrites([w]) == [Write.PatchNode(w)];
      OneWrite(old(client.store), Write.PatchNode(w), sent, err);
    }

    /** The body of the removal loop: the range variable shares its label map with the list's element. */
    method RemoveLabel(item: NodeObject, key: LabelKey) returns (err: bool, ghost sent: bool)
      requires item.labels != null && key in item.labels.m
      modifies item.labels, client
      ensures var w := Write.PatchNode(NodeWrite(item.name, LabelPatch(key, None)));
              client.store == if sent then ApplyWrite(old(client.store), w) else old(client.store)
      ensures !err ==> sent
    {
      var node := item.StructCopy();
      var nodeCopy := node.DeepCopy();
      ghost var was := node.Value();
      var nodeLabels := node.labels;
      if nodeLabels != null {
        nodeLabels.m := nodeLabels.m - {key};
      }
      node.labels := nodeLabels;
      LabelDiff(was, key, None);
      err, sent := client.PatchNode(node, nodeCopy);
    }

    method RemoveUpgradeLabels(c: DeviceConfig) returns (err: bool, ghost done: nat)
      modifies client
      ensures var list := Matching(old(client.store).nodes, RemovalSelector(c.id, c.spec.driverVersion));
              Progressed(old(client.store), client.store, NodeWrites(RemovalWrites(list, c.id)), done, err)
    {
      hide Matching;
      var upgradeLabelKey := VersionLabel(c.id);
      var nodes: seq<NodeObject>;
      ghost var s0 := client.store;
      ghost var list := Matching(s0.nodes, RemovalSelector(c.id, c.spec.driverVersion));
      ListedForRemoval(s0.nodes, c.id, c.spec.driverVersion);
      done := 0;
      err, nodes := client.ListNodes(RemovalSelector(c.id, c.spec.driverVersion));
      if err {
        return;
      }
      forall k | 0 <= k < |nodes| ensures Removable(nodes[k], list[k].name, upgradeLabelKey) {
        assert list[k] == Values(nodes)[k] == nodes[k].Value() && list[k] in list;
      }
      for i := 0 to |nodes|
        invariant done == i && client.store == AfterRemovals(s0, list, c.id, i)
        invariant forall k :: 0 <= k < |nodes| ==> fresh(nodes[k]) && (nodes[k].labels != null ==> fresh(nodes[k].labels))
        invariant Separate(nodes) && |nodes| == |list|
        invariant forall k :: i <= k < |nodes| ==> Removable(nodes[k], list[k].name, upgradeLabelKey)
      {
        ghost var sent;
        err, sent := RemoveLabel(nodes[i], upgradeLabelKey);
        RemovalStep(s0, list, c.id, i);
        if sent {
          done := i + 1;
        }
        if err {
          return;
        }
      }
    }
  }

  predicate Removable(n: NodeObject, name: string, key: LabelKey)
    reads n, n.labels
  {
    n.name == name && n.labels != null && key in n.labels.m
  }

  ghost function AfterRemovals(s: Store, list: seq<Node>, id: ConfigId, k: nat): Store
    requires k <= |list|
  {
    ApplyAll(s, NodeWrites(RemovalWrites(list, id))[..k])
  }

  lemma RemovalStep(s: Store, list: seq<Node>, id: ConfigId, i: nat)
    requires i < |list|
    ensures AfterRemovals(s, list, id, i + 1)
         == ApplyWrite(AfterRemovals(s, list, id, i), Write.PatchNode(NodeWrite(list[i].name, LabelPatch(VersionLabel(id), None))))
  {
    var plan := NodeWrites(RemovalWrites(list, id));
    assert plan[..i + 1][..i] == plan[..i];
  }

  function GetNodeUpgradeState(node: NodeObject, c: DeviceConfig): (r: UpgradeState)
    reads node, node.labels
    ensures r == State(View(node.Value(), c.id), c.spec.driverVersion)
    ensures var v, labels := Some(c.spec.driverVersion), node.Value().labels;
            && (r == Before <==> Lookup(labels, VersionLabel(c.id)) != v)
            && (r == Upgraded <==> Lookup(labels, VersionLabel(c.id)) == v && Lookup(labels, ReadyLabel(c.id)) == v)
  {
    var nodeLabels := if node.labels == null then map[] else node.labels.m;
    if VersionLabel(c.id) !in nodeLabels || nodeLabels[VersionLabel(c.id)] != c.spec.driverVersion then Before
    else if ReadyLabel(c.id) !in nodeLabels || nodeLabels[ReadyLabel(c.id)] != c.spec.driverVersion then InUpgrade
    else Upgraded
  }

  predicate IsNewNodeForUpgrade(node: NodeObject, c: DeviceConfig)
    reads node, node.labels
  {
    node.labels == null || VersionLabel(c.id) !in node.labels.m
  }

  method IsNodeTainted(node: NodeObject) returns (r: bool)
    ensures r == Tainted(node.taints)
  {
    for i := 0 to |node.taints|
      invariant forall k :: 0 <= k < i ==> !HasUpgradeKey(node.taints[k])
    {
      if node.taints[i].key == UPGRADE_TAINT_KEY {
        assert HasUpgradeKey(node.taints[i]);
        return true;
      }
    }
    return false;
  }
}
