/** What one DeviceConfig sees of a node, the upgrade state derived from it, and the upgrade taint. */
module NodeState {
  import opened Options
  import opened Cluster

  /** A node seen through one DeviceConfig: its version label, its ready label and its taints. */
  datatype NodeView = NodeView(version: Option<string>, ready: Option<string>, taints: seq<Taint>)

  function View(n: Node, id: ConfigId): NodeView {
    NodeView(Lookup(n.labels, VersionLabel(id)), Lookup(n.labels, ReadyLabel(id)), n.taints)
  }

  function Views(nodes: seq<Node>, id: ConfigId): (r: seq<NodeView>) {
    seq(|nodes|, i requires 0 <= i < |nodes| => View(nodes[i], id))
  }

  datatype UpgradeState = Before | InUpgrade | Upgraded

  /** The state is not stored: it is derived from two labels and the wanted version. */
  function State(n: NodeView, v: string): UpgradeState {
    if n.version != Some(v) then Before
    else if n.ready != Some(v) then InUpgrade
    else Upgraded
  }

  predicate IsNew(n: NodeView) {
    n.version.None?
  }

  // ----- The upgrade taint -----

  const UPGRADE_TAINT_KEY := "aws-neuron-driver-upgrade"
  const UPGRADE_TAINT := Taint(UPGRADE_TAINT_KEY, "true", NoExecute)

  predicate HasUpgradeKey(t: Taint) {
    t.key == UPGRADE_TAINT_KEY
  }

  predicate IsUpgradeTaint(t: Taint) {
    t.key == UPGRADE_TAINT_KEY && t.effect == NoExecute
  }

  /** The test used to find nodes to uncordon: it looks at the key alone. */
  predicate Tainted(ts: seq<Taint>) {
    exists i :: 0 <= i < |ts| && HasUpgradeKey(ts[i])
  }

  /** The test used to cordon and uncordon: key and effect. Only such a taint evicts workloads. */
  predicate Evicts(ts: seq<Taint>) {
    exists i :: 0 <= i < |ts| && IsUpgradeTaint(ts[i])
  }

  /** Every taint with the upgrade key is NoExecute: the two tests above then agree. */
  predicate KeyMeansEvict(ts: seq<Taint>) {
    forall i :: 0 <= i < |ts| && HasUpgradeKey(ts[i]) ==> ts[i].effect == NoExecute
  }

  lemma TaintTestsAgree(ts: seq<Taint>)
    ensures Evicts(ts) ==> Tainted(ts)
    ensures KeyMeansEvict(ts) ==> (Tainted(ts) <==> Evicts(ts))
  {
    if i :| 0 <= i < |ts| && IsUpgradeTaint(ts[i]) { assert HasUpgradeKey(ts[i]); }
    if i :| 0 <= i < |ts| && HasUpgradeKey(ts[i]) { assert KeyMeansEvict(ts) ==> IsUpgradeTaint(ts[i]); }
  }

  function Uncordoned(ts: seq<Taint>): (r: seq<Taint>)
    ensures !Evicts(r)
    ensures |r| <= |ts|
    ensures KeyMeansEvict(ts) ==> !Tainted(r)
    ensures !Evicts(ts) ==> r == ts
  {
    if ts == [] then []
    else
      var t, r' := ts[|ts| - 1], Uncordoned(ts[..|ts| - 1]);
      assert ts == ts[..|ts| - 1] + [t];
      if IsUpgradeTaint(t) then
        assert Evicts(ts);
        r'
      else
        assert Evicts(ts[..|ts| - 1]) ==> Evicts(ts);
        r' + [t]
  }

  function Cordoned(ts: seq<Taint>): (r: seq<Taint>)
    ensures Evicts(r)
    ensures KeyMeansEvict(ts) ==> KeyMeansEvict(r)
  {
    if Evicts(ts) then ts
    else
      assert (ts + [UPGRADE_TAINT])[|ts|] == UPGRADE_TAINT;
      ts + [UPGRADE_TAINT]
  }

  /** Cordoning adds one taint, at the end, and only if no taint of the list evicts already. */
  lemma CordonAddsOne(ts: seq<Taint>)
    ensures (exists t <- ts :: t.key == "aws-neuron-driver-upgrade" && t.effect == NoExecute) ==> Cordoned(ts) == ts
    ensures (forall t <- ts :: t.key == "aws-neuron-driver-upgrade" ==> t.effect != NoExecute) ==>
      Cordoned(ts) == ts + [Taint("aws-neuron-driver-upgrade", "true", NoExecute)]
  {
    if t :| t in ts && t.key == "aws-neuron-driver-upgrade" && t.effect == NoExecute {
      var i :| 0 <= i < |ts| && ts[i] == t;
      assert IsUpgradeTaint(ts[i]);
    }
    if i :| 0 <= i < |ts| && IsUpgradeTaint(ts[i]) { assert ts[i] in ts; }
  }

  /** The taints carrying the upgrade key, in order: what no other writer touches. */
  function UpgradeTaints(ts: seq<Taint>): (r: seq<Taint>)
    ensures Evicts(r) <==> Evicts(ts)
    ensures Tainted(r) <==> Tainted(ts)
    ensures KeyMeansEvict(r) <==> KeyMeansEvict(ts)
  {
    if ts == [] then []
    else
      var s, t := ts[..|ts| - 1], ts[|ts| - 1];
      var r' := UpgradeTaints(s);
      assert ts == s + [t];
      TaintPredicatesAppend(s, t);
      TaintPredicatesAppend(r', t);
      if HasUpgradeKey(t) then r' + [t] else r'
  }

  lemma TaintPredicatesAppend(ts: seq<Taint>, t: Taint)
    ensures Evicts(ts + [t]) <==> Evicts(ts) || IsUpgradeTaint(t)
    ensures Tainted(ts + [t]) <==> Tainted(ts) || HasUpgradeKey(t)
    ensures KeyMeansEvict(ts + [t]) <==> KeyMeansEvict(ts) && (HasUpgradeKey(t) ==> t.effect == NoExecute)
  {
    var r := ts + [t];
    assert r[|ts|] == t;
    forall i | 0 <= i < |ts| ensures r[i] == ts[i] {}
    if Evicts(ts) { var i :| 0 <= i < |ts| && IsUpgradeTaint(ts[i]); assert IsUpgradeTaint(r[i]); }
    if Tainted(ts) { var i :| 0 <= i < |ts| && HasUpgradeKey(ts[i]); assert HasUpgradeKey(r[i]); }
    if KeyMeansEvict(r) {
      forall i | 0 <= i < |ts| && HasUpgradeKey(ts[i]) ensures ts[i].effect == NoExecute { assert HasUpgradeKey(r[i]); }
    }
  }

  /** Uncordoning removes upgrade taints wherever they stand and keeps everything else in order. */
  lemma {:induction false} UncordonDistributes(a: seq<Taint>, b: seq<Taint>)
    ensures Uncordoned(a + b) == Uncordoned(a) + Uncordoned(b)
  {
    if b == [] {
      assert a + b == a;
    } else {
      var b' := b[..|b| - 1];
      assert (a + b)[..|a + b| - 1] == a + b';
      UncordonDistributes(a, b');
    }
  }

  /** Wherever a taint stands: an upgrade taint goes, any other stays between what is left of those before it
      and what is left of those after it. */
  lemma UncordonKeepsOthers(a: seq<Taint>, t: Taint, b: seq<Taint>)
    ensures Uncordoned(a + [t] + b) == Uncordoned(a) + (if IsUpgradeTaint(t) then [] else [t]) + Uncordoned(b)
  {
    hide Uncordoned, Evicts, Tainted, KeyMeansEvict;
    UncordonDistributes(a + [t], b);
    UncordonDistributes(a, [t]);
    UncordonOne(t);
  }

  lemma UncordonOne(t: Taint)
    ensures Uncordoned([t]) == if IsUpgradeTaint(t) then [] else [t]
  {
    assert [t][..0] == [];
  }

  /** Uncordon undoes cordon: exactly the original list when it held no upgrade taint, and in every
      case the same other taints in the same order. Both operations are idempotent. */
  lemma TaintRoundTrip(ts: seq<Taint>)
    ensures Uncordoned(Cordoned(ts)) == Uncordoned(ts)
    ensures !Evicts(ts) ==> Uncordoned(Cordoned(ts)) == ts
    ensures Cordoned(Cordoned(ts)) == Cordoned(ts)
    ensures Uncordoned(Uncordoned(ts)) == Uncordoned(ts)
    ensures Evicts(ts) <==> Uncordoned(ts) != ts
  {
    UncordonDistributes(ts, [UPGRADE_TAINT]);
    assert Uncordoned([UPGRADE_TAINT]) == [];
  }

  // ----- Node choice -----

  /** The first node that is upgraded and still tainted. */
  function FirstFinished(nodes: seq<NodeView>, v: string): (r: Option<nat>)
    ensures r.Some? ==> r.value < |nodes| && Finished(nodes[r.value], v)
                        && forall i :: 0 <= i < r.value ==> !Finished(nodes[i], v)
    ensures r.None? ==> forall i :: 0 <= i < |nodes| ==> !Finished(nodes[i], v)
  {
    if nodes == [] then None
    else
      var n := |nodes| - 1;
      var r' := FirstFinished(nodes[..n], v);
      if r'.Some? then r' else if Finished(nodes[n], v) then Some(n) else None
  }

  predicate Finished(n: NodeView, v: string) {
    State(n, v) == Upgraded && Tainted(n.taints)
  }

  predicate AnyInUpgrade(nodes: seq<NodeView>, v: string) {
    exists i :: 0 <= i < |nodes| && State(nodes[i], v) == InUpgrade
  }

  predicate IsLastBefore(nodes: seq<NodeView>, v: string, j: nat) {
    && j < |nodes|
    && State(nodes[j], v) == Before
    && forall i :: j < i < |nodes| ==> State(nodes[i], v) != Before
  }

  function LastBefore(nodes: seq<NodeView>, v: string): (r: Option<nat>)
    ensures r.Some? ==> IsLastBefore(nodes, v, r.value)
    ensures r.None? ==> forall i :: 0 <= i < |nodes| ==> State(nodes[i], v) != Before
  {
    if nodes == [] then None
    else
      var n := |nodes| - 1;
      if State(nodes[n], v) == Before then Some(n) else LastBefore(nodes[..n], v)
  }

  /** The last node still to be upgraded, unless some node is being upgraded. */
  function NodeForUpgrade(nodes: seq<NodeView>, v: string): (r: Option<nat>)
    ensures r.Some? <==> !AnyInUpgrade(nodes, v) && exists i :: 0 <= i < |nodes| && State(nodes[i], v) == Before
    ensures r.Some? ==> IsLastBefore(nodes, v, r.value)
  {
    if AnyInUpgrade(nodes, v) then None else LastBefore(nodes, v)
  }
}
