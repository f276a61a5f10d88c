/** The node writes of one reconcile, as merge patches, told from the list it read. */
module UpgradePlan {
  import opened Options
  import opened Plans
  import opened Cluster
  import opened NodeState
  import opened DeviceConfigs

  function UncordonWrites(list: seq<Node>, id: ConfigId, v: string): seq<NodeWrite> {
    var u := FirstFinished(Views(list, id), v);
    if u.None? then []
    else [NodeWrite(list[u.value].name, TaintPatch(list[u.value].taints, Uncordoned(list[u.value].taints)))]
  }

  function CordonWrites(list: seq<Node>, id: ConfigId, v: string): seq<NodeWrite> {
    var j := NodeForUpgrade(Views(list, id), v);
    if j.None? then [] else CordonWrite(list[j.value], id)
  }

  function CordonWrite(n: Node, id: ConfigId): seq<NodeWrite> {
    if VersionLabel(id) !in n.labels || Evicts(n.taints) then []
    else [NodeWrite(n.name, TaintPatch(n.taints, Cordoned(n.taints)))]
  }

  function KickoffWrites(list: seq<Node>, id: ConfigId, v: string): seq<NodeWrite> {
    var j := NodeForUpgrade(Views(list, id), v);
    if j.None? then [] else [NodeWrite(list[j.value].name, LabelPatch(VersionLabel(id), Some(v)))]
  }

  /** Without a driver version there is no rolling upgrade. */
  function UpgradeWrites(nodes: seq<Node>, id: ConfigId, s: Spec): seq<NodeWrite> {
    if s.driverVersion == "" then []
    else
      var list := Matching(nodes, MatchingLabels(s.selector));
      Then(UncordonWrites(list, id, s.driverVersion),
           Then(CordonWrites(list, id, s.driverVersion), KickoffWrites(list, id, s.driverVersion)))
  }

  lemma TaintDiff(n: Node, ts: seq<Taint>)
    ensures Diff(n, n.(taints := ts)) == TaintPatch(n.taints, ts)
  {
    assert Diff(n, n.(taints := ts)).labels == map[];
  }

  /** Setting a label that is not already so is a patch of that one key; removing one that is there too. */
  lemma LabelDiff(n: Node, k: LabelKey, value: Option<string>)
    requires Lookup(n.labels, k) != value
    ensures Diff(n, n.(labels := if value.Some? then n.labels[k := value.value] else n.labels - {k})) == LabelPatch(k, value)
  {
    var n' := n.(labels := if value.Some? then n.labels[k := value.value] else n.labels - {k});
    assert Diff(n, n').labels == map[k := value];
  }

  // ----- Label removal -----

  function RemovalSelector(id: ConfigId, v: string): Labels {
    map[VersionLabel(id) := v]
  }

  function RemovalWrites(list: seq<Node>, id: ConfigId): seq<NodeWrite> {
    seq(|list|, i requires 0 <= i < |list| => NodeWrite(list[i].name, LabelPatch(VersionLabel(id), None)))
  }

  /** A node after its version label is removed, if it holds this version's. */
  function WithoutVersion(n: Node, id: ConfigId, v: string): Node {
    if Lookup(n.labels, VersionLabel(id)) == Some(v) then n.(labels := n.labels - {VersionLabel(id)}) else n
  }

  function Cleaned(nodes: seq<Node>, id: ConfigId, v: string): seq<Node> {
    seq(|nodes|, i requires 0 <= i < |nodes| => WithoutVersion(nodes[i], id, v))
  }

  lemma ListedForRemoval(nodes: seq<Node>, id: ConfigId, v: string)
    ensures forall n <- Matching(nodes, RemovalSelector(id, v)) :: Lookup(n.labels, VersionLabel(id)) == Some(v)
  {
    forall n | n in Matching(nodes, RemovalSelector(id, v)) ensures Lookup(n.labels, VersionLabel(id)) == Some(v) {
      MatchingMember(nodes, RemovalSelector(id, v), n);
      assert VersionLabel(id) in RemovalSelector(id, v);
    }
  }
}
