/** The optional value used wherever the operator has a nil pointer or a missing map key. */
module Options {
  datatype Option<+T> = None | Some(value: T)
}

/** Nodes as the API server stores them, label selection, and JSON merge patches. */
module Cluster {
  import opened Options

  datatype Effect = NoSchedule | PreferNoSchedule | NoExecute

  datatype Taint = Taint(key: string, value: string, effect: Effect)

  /** The namespace and name of a DeviceConfig; its Module carries the same ones. */
  datatype ConfigId = ConfigId(ns: string, name: string)

  /** Label names. The two names KMM derives from a Module are injective in (namespace, name)
      and differ from each other and from every other label, which constructors give for free. */
  datatype LabelKey = VersionLabel(id: ConfigId) | ReadyLabel(id: ConfigId) | Plain(key: string)

  type Labels = map<LabelKey, string>

  datatype Node = Node(name: string, labels: Labels, taints: seq<Taint>)

  function Lookup(labels: Labels, k: LabelKey): Option<string> {
    if k in labels then Some(labels[k]) else None
  }

  // ----- Selection -----

  predicate Selected(labels: Labels, selector: Labels) {
    forall k :: k in selector ==> k in labels && labels[k] == selector[k]
  }

  /** The nodes a label-matching List returns, in list order. */
  function Matching(nodes: seq<Node>, selector: Labels): seq<Node> {
    if nodes == [] then []
    else
      var last := nodes[|nodes| - 1];
      Matching(nodes[..|nodes| - 1], selector) + if Selected(last.labels, selector) then [last] else []
  }

  lemma MatchingMember(nodes: seq<Node>, selector: Labels, n: Node)
    ensures n in Matching(nodes, selector) <==> n in nodes && Selected(n.labels, selector)
  {
    if nodes != [] {
      MatchingMember(nodes[..|nodes| - 1], selector, n);
      assert nodes == nodes[..|nodes| - 1] + [nodes[|nodes| - 1]];
    }
  }

  /** Every entry of a selector has to be in the labels. */
  lemma SelectedIff(labels: Labels, selector: Labels)
    ensures Selected(labels, selector) <==> forall k :: k in selector ==> Lookup(labels, k) == Some(selector[k])
  {
  }

  /** One more entry never selects more, and two selectors together select what both of them select. */
  lemma SelectorUnion(labels: Labels, a: Labels, b: Labels)
    requires a.Keys !! b.Keys
    ensures Selected(labels, a + b) <==> Selected(labels, a) && Selected(labels, b)
  {
    assert forall k :: k in a ==> k in a + b && (a + b)[k] == a[k];
    assert forall k :: k in b ==> k in a + b && (a + b)[k] == b[k];
  }

  lemma SelectorGrows(labels: Labels, selector: Labels, k: LabelKey, v: string)
    requires k !in selector
    ensures Selected(labels, selector[k := v]) <==> Selected(labels, selector) && Lookup(labels, k) == Some(v)
  {
    SelectorUnion(labels, selector, map[k := v]);
    assert selector[k := v] == selector + map[k := v];
    SelectedIff(labels, map[k := v]);
  }

  /** `at` tells where in the list of nodes each listed node stands: in order, once each, and exactly those
      whose labels hold every entry of the selector. */
  ghost predicate ListedAt(at: seq<nat>, list: seq<Node>, nodes: seq<Node>, selector: Labels) {
    && |at| == |list|
    && (forall i :: 0 <= i < |at| ==> at[i] < |nodes| && list[i] == nodes[at[i]])
    && (forall i, j :: 0 <= i < j < |at| ==> at[i] < at[j])
    && (forall m :: 0 <= m < |nodes| ==>
          (m in at <==> forall k :: k in selector ==> Lookup(nodes[m].labels, k) == Some(selector[k])))
  }

  lemma OneMoreNode(at: seq<nat>, list: seq<Node>, nodes: seq<Node>, selector: Labels, n: Node)
    requires ListedAt(at, list, nodes, selector)
    ensures Selected(n.labels, selector) ==> ListedAt(at + [|nodes|], list + [n], nodes + [n], selector)
    ensures !Selected(n.labels, selector) ==> ListedAt(at, list, nodes + [n], selector)
  {
    SelectedIff(n.labels, selector);
    hide Selected, Lookup;
    var at', nodes' := at + [|nodes|], nodes + [n];
    assert forall i :: 0 <= i < |at| ==> at'[i] == at[i];
    assert at'[|at|] == |nodes| && nodes'[|nodes|] == n;
    assert forall m :: 0 <= m < |nodes| ==> nodes'[m] == nodes[m];
    forall m | 0 <= m < |nodes| ensures m in at' <==> m in at {}
    assert |nodes| !in at;
  }

  lemma {:induction false} MatchingExact(nodes: seq<Node>, selector: Labels) returns (at: seq<nat>)
    ensures ListedAt(at, Matching(nodes, selector), nodes, selector)
  {
    if nodes == [] {
      at := [];
    } else {
      hide ListedAt, Selected;
      var init, last := nodes[..|nodes| - 1], nodes[|nodes| - 1];
      assert nodes == init + [last];
      at := MatchingExact(init, selector);
      OneMoreNode(at, Matching(init, selector), init, selector, last);
      if Selected(last.labels, selector) {
        at := at + [|init|];
      } else {
        assert Matching(nodes, selector) == Matching(init, selector);
      }
    }
  }

  lemma {:induction false} MatchingAll(nodes: seq<Node>)
    ensures Matching(nodes, map[]) == nodes
  {
    if nodes != [] {
      MatchingAll(nodes[..|nodes| - 1]);
      assert nodes == nodes[..|nodes| - 1] + [nodes[|nodes| - 1]];
    }
  }

  // ----- Merge patches (section 2 of RFC 7396) -----

  /** A merge patch restricted to what the operator changes on a node. A label mapped to `None` is
      a JSON null and deletes the key; a taint list is an array and is replaced as a whole. */
  datatype NodePatch = NodePatch(labels: map<LabelKey, Option<string>>, taints: Option<seq<Taint>>)

  /** The patch that turns `base` into `modified`. */
  function Diff(base: Node, modified: Node): NodePatch {
    NodePatch(
      map k | k in base.labels.Keys + modified.labels.Keys && Lookup(base.labels, k) != Lookup(modified.labels, k)
        :: Lookup(modified.labels, k),
      if base.taints == modified.taints then None else Some(modified.taints))
  }

  function Apply(p: NodePatch, n: Node): Node {
    Node(
      n.name,
      map k | k in n.labels.Keys + p.labels.Keys && (k in p.labels ==> p.labels[k].Some?)
        :: if k in p.labels then p.labels[k].value else n.labels[k],
      if p.taints.Some? then p.taints.value else n.taints)
  }

  /** A patch taken between two copies and applied to a third node moves exactly the label keys and
      the taint list on which the copies differ, and leaves the third node's other fields alone. */
  lemma MergePatchIsLocal(base: Node, modified: Node, current: Node, k: LabelKey)
    ensures var r := Apply(Diff(base, modified), current);
            && Lookup(r.labels, k) == (if Lookup(base.labels, k) != Lookup(modified.labels, k)
                                       then Lookup(modified.labels, k) else Lookup(current.labels, k))
            && r.taints == (if base.taints != modified.taints then modified.taints else current.taints)
            && r.name == current.name
  {
    var p := Diff(base, modified);
    assert k in p.labels <==> Lookup(base.labels, k) != Lookup(modified.labels, k);
  }

  /** Applied to the copy it was taken from, a patch gives the modified copy. */
  lemma PatchRoundTrip(base: Node, modified: Node)
    requires base.name == modified.name
    ensures Apply(Diff(base, modified), base) == modified
  {
    var r := Apply(Diff(base, modified), base);
    forall k ensures Lookup(r.labels, k) == Lookup(modified.labels, k) {
      MergePatchIsLocal(base, modified, base, k);
    }
    forall k ensures (k in r.labels <==> k in modified.labels) && (k in r.labels ==> r.labels[k] == modified.labels[k]) {
      assert Lookup(r.labels, k) == Lookup(modified.labels, k);
    }
    assert r.labels == modified.labels;
  }

  // ----- Writes to the node store -----

  datatype NodeWrite = NodeWrite(name: string, patch: NodePatch)

  function PatchStore(nodes: seq<Node>, w: NodeWrite): (r: seq<Node>) {
    seq(|nodes|, i requires 0 <= i < |nodes| => if nodes[i].name == w.name then Apply(w.patch, nodes[i]) else nodes[i])
  }

  function PatchAll(nodes: seq<Node>, ws: seq<NodeWrite>): seq<Node> {
    if ws == [] then nodes else PatchStore(PatchAll(nodes, ws[..|ws| - 1]), ws[|ws| - 1])
  }

  lemma {:induction false} PatchAllAppend(nodes: seq<Node>, a: seq<NodeWrite>, b: seq<NodeWrite>)
    ensures PatchAll(nodes, a + b) == PatchAll(PatchAll(nodes, a), b)
  {
    if b == [] {
      assert a + b == a;
    } else {
      assert (a + b)[..|a + b| - 1] == a + b[..|b| - 1];
      PatchAllAppend(nodes, a, b[..|b| - 1]);
    }
  }

  ghost predicate UniqueNames(nodes: seq<Node>) {
    forall i, j :: 0 <= i < |nodes| && 0 <= j < |nodes| && nodes[i].name == nodes[j].name ==> i == j
  }

  function TaintPatch(before: seq<Taint>, after: seq<Taint>): NodePatch {
    NodePatch(map[], if before == after then None else Some(after))
  }

  function LabelPatch(k: LabelKey, value: Option<string>): NodePatch {
    NodePatch(map[k := value], None)
  }
}
