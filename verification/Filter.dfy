/** From a node event to the DeviceConfigs to reconcile. */
module Filter {
  import opened Options
  import opened Cluster
  import opened DeviceConfigs
  import opened KmmModule

  datatype Match = Matches(yes: bool) | Invalid

  /** Which selector entries make a label requirement: the label syntax is not part of this model. */
  type Syntax = (LabelKey, string) -> bool

  ghost predicate ValidSelector(ok: Syntax, selector: Labels) {
    forall k :: k in selector ==> ok(k, selector[k])
  }

  /** A selector built from requirements, as the label library builds it: one `Equals` each. */
  predicate Satisfies(labels: Labels, requirements: seq<(LabelKey, string)>) {
    forall i :: 0 <= i < |requirements| ==>
      requirements[i].0 in labels && labels[requirements[i].0] == requirements[i].1
  }

  /** The map is ranged over in any order; the verdict does not depend on it. */
  method IsObjectSelectedByLabels(objectLabels: Labels, selectorLabels: Labels, ok: Syntax) returns (r: Match)
    ensures r.Invalid? <==> !ValidSelector(ok, selectorLabels)
    ensures r.Invalid? <==> exists k :: k in selectorLabels && !ok(k, selectorLabels[k])
    ensures r.Matches? ==> (r.yes <==> forall k :: k in selectorLabels ==> Lookup(objectLabels, k) == Some(selectorLabels[k]))
    ensures r.Matches? ==> (r.yes <==> Selected(objectLabels, selectorLabels))
  {
    var sel: seq<(LabelKey, string)> := [];
    var left := selectorLabels.Keys;
    while left != {}
      invariant left <= selectorLabels.Keys
      invariant forall k :: k in selectorLabels && k !in left ==> ok(k, selectorLabels[k]) && (k, selectorLabels[k]) in sel
      invariant forall q :: q in sel ==> q.0 in selectorLabels && q.1 == selectorLabels[q.0]
      decreases |left|
    {
      var k :| k in left;
      left := left - {k};
      if !ok(k, selectorLabels[k]) {
        return Invalid;
      }
      sel := sel + [(k, selectorLabels[k])];
    }
    SelectedIff(objectLabels, selectorLabels);
    assert Satisfies(objectLabels, sel) <==> Selected(objectLabels, selectorLabels) by {
      if Satisfies(objectLabels, sel) {
        forall k | k in selectorLabels ensures k in objectLabels && objectLabels[k] == selectorLabels[k] {
          assert (k, selectorLabels[k]) in sel;
        }
      }
      if Selected(objectLabels, selectorLabels) {
        forall i | 0 <= i < |sel| ensures sel[i].0 in objectLabels && objectLabels[sel[i].0] == sel[i].1 {
          assert sel[i] in sel;
        }
      }
    }
    return Matches(Satisfies(objectLabels, sel));
  }

  /** Every entry of the selector is valid and in the labels. */
  ghost predicate Asks(ok: Syntax, labels: Labels, selector: Labels) {
    forall k :: k in selector ==> ok(k, selector[k]) && Lookup(labels, k) == Some(selector[k])
  }

  lemma WantedIff(ok: Syntax, labels: Labels, c: DeviceConfig)
    ensures Wanted(ok, labels, c) <==> Asks(ok, labels, MatchingLabels(c.spec.selector))
  {
    SelectedIff(labels, MatchingLabels(c.spec.selector));
  }

  ghost predicate Wanted(ok: Syntax, labels: Labels, c: DeviceConfig) {
    ValidSelector(ok, MatchingLabels(c.spec.selector)) && Selected(labels, MatchingLabels(c.spec.selector))
  }

  /** The requests for a node: the DeviceConfigs that want it, in list order. */
  ghost function Requests(ok: Syntax, labels: Labels, configs: seq<DeviceConfig>): seq<ConfigId> {
    if configs == [] then []
    else
      var last := configs[|configs| - 1];
      Requests(ok, labels, configs[..|configs| - 1]) + if Wanted(ok, labels, last) then [last.id] else []
  }

  method FindDeviceConfigForNodeChange(node: Node, configs: seq<DeviceConfig>, listFails: bool, ok: Syntax)
    returns (reqs: seq<ConfigId>)
    ensures listFails ==> reqs == []
    ensures !listFails ==> reqs == Requests(ok, node.labels, configs)
    ensures !listFails ==> forall id :: id in reqs <==> exists c <- configs :: c.id == id && Asks(ok, node.labels, MatchingLabels(c.spec.selector))
  {
    if listFails {
      return [];
    }
    reqs := [];
    for i := 0 to |configs|
      invariant reqs == Requests(ok, node.labels, configs[..i])
    {
      assert configs[..i + 1][..i] == configs[..i];
      var selected := IsObjectSelectedByLabels(node.labels, MatchingLabels(configs[i].spec.selector), ok);
      if selected.Invalid? {
        continue;
      }
      if !selected.yes {
        continue;
      }
      reqs := reqs + [configs[i].id];
    }
    assert configs[..|configs|] == configs;
    forall id ensures id in reqs <==> exists c <- configs :: c.id == id && Asks(ok, node.labels, MatchingLabels(c.spec.selector)) {
      RequestedIff(ok, node.labels, configs, id);
      forall c | c in configs ensures Wanted(ok, node.labels, c) <==> Asks(ok, node.labels, MatchingLabels(c.spec.selector)) {
        WantedIff(ok, node.labels, c);
      }
    }
  }

  /** `at` tells where in the list the config of each request stands: at rising positions, at wanting
      configs, and at all of them. */
  ghost predicate Points(at: seq<nat>, reqs: seq<ConfigId>, ok: Syntax, labels: Labels, configs: seq<DeviceConfig>) {
    && |at| == |reqs|
    && (forall i :: 0 <= i < |at| ==> at[i] < |configs| && Wanted(ok, labels, configs[at[i]]) && configs[at[i]].id == reqs[i])
    && (forall i, j :: 0 <= i < j < |at| ==> at[i] < at[j])
    && (forall k :: 0 <= k < |configs| && Wanted(ok, labels, configs[k]) ==> k in at)
  }

  lemma OneMoreConfig(at: seq<nat>, reqs: seq<ConfigId>, ok: Syntax, labels: Labels, configs: seq<DeviceConfig>, c: DeviceConfig)
    requires Points(at, reqs, ok, labels, configs)
    ensures Wanted(ok, labels, c) ==> Points(at + [|configs|], reqs + [c.id], ok, labels, configs + [c])
    ensures !Wanted(ok, labels, c) ==> Points(at, reqs, ok, labels, configs + [c])
  {
    hide Wanted;
    var at' := at + [|configs|];
    assert forall k :: 0 <= k < |at| ==> at'[k] == at[k];
    assert at'[|at|] == |configs|;
    forall k | k in at ensures k in at' {}
  }

  /** Exactly the wanting configs, in their order. */
  lemma {:induction false} RequestsExact(ok: Syntax, labels: Labels, configs: seq<DeviceConfig>) returns (at: seq<nat>)
    ensures Points(at, Requests(ok, labels, configs), ok, labels, configs)
  {
    if configs == [] {
      at := [];
    } else {
      hide Points, Wanted;
      var init, last := configs[..|configs| - 1], configs[|configs| - 1];
      assert configs == init + [last];
      at := RequestsExact(ok, labels, init);
      OneMoreConfig(at, Requests(ok, labels, init), ok, labels, init, last);
      if Wanted(ok, labels, last) {
        at := at + [|init|];
      }
    }
  }

  // ----- Which node events are let through -----

  datatype Event = Created(node: Node) | Updated(before: Node, after: Node) | Deleted(node: Node) | Generic(node: Node)

  /** The label-changed predicate of the controller library: it filters updates only. */
  predicate LabelChanged(e: Event) {
    e.Updated? ==> e.before.labels != e.after.labels
  }

  /** The predicate written out in the code. */
  predicate CreatedOnly(e: Event) {
    e.Created?
  }

  predicate NodePredicate(e: Event) {
    LabelChanged(e) || CreatedOnly(e)
  }

  /** The requests an event queues; an update is mapped through the node before and after. */
  ghost predicate Queued(ok: Syntax, e: Event, configs: seq<DeviceConfig>, id: ConfigId) {
    && NodePredicate(e)
    && match e
       case Updated(b, a) => id in Requests(ok, b.labels, configs) || id in Requests(ok, a.labels, configs)
       case _ => id in Requests(ok, e.node.labels, configs)
  }

  lemma {:induction false} WantedIsRequested(ok: Syntax, labels: Labels, configs: seq<DeviceConfig>, k: nat)
    requires k < |configs| && Wanted(ok, labels, configs[k])
    ensures configs[k].id in Requests(ok, labels, configs)
  {
    if k < |configs| - 1 {
      WantedIsRequested(ok, labels, configs[..|configs| - 1], k);
    }
  }

  lemma {:induction false} RequestedIff(ok: Syntax, labels: Labels, configs: seq<DeviceConfig>, id: ConfigId)
    ensures id in Requests(ok, labels, configs) <==> exists c <- configs :: c.id == id && Wanted(ok, labels, c)
  {
    if configs != [] {
      var init, last := configs[..|configs| - 1], configs[|configs| - 1];
      assert configs == init + [last];
      RequestedIff(ok, labels, init, id);
    }
  }

  /** The config wants the node, for an update the node before or after it; an update that leaves the
      labels alone concerns nobody. */
  ghost predicate Concerns(ok: Syntax, e: Event, c: DeviceConfig) {
    match e
    case Updated(b, a) => b.labels != a.labels && (Wanted(ok, b.labels, c) || Wanted(ok, a.labels, c))
    case _ => Wanted(ok, e.node.labels, c)
  }

  /** An event, a deletion included, queues exactly the DeviceConfigs it concerns. */
  lemma QueuedIff(ok: Syntax, e: Event, configs: seq<DeviceConfig>, id: ConfigId)
    ensures Queued(ok, e, configs, id) <==> exists c <- configs :: c.id == id && Concerns(ok, e, c)
  {
    match e
    case Updated(b, a) =>
      RequestedIff(ok, b.labels, configs, id);
      RequestedIff(ok, a.labels, configs, id);
    case _ => RequestedIff(ok, e.node.labels, configs, id);
  }

  /** The writes of a rollout and the steps of KMM wake the DeviceConfig up exactly as the rollout system
      says: a label write to a targeted node queues it, and a taint write queues nothing. */
  lemma RolloutEvents(ok: Syntax, configs: seq<DeviceConfig>, c: nat, n: Node, p: NodePatch)
    requires c < |configs| && Wanted(ok, n.labels, configs[c])
    ensures var e := Updated(n, Apply(p, n));
            && (Apply(p, n).labels != n.labels ==> Queued(ok, e, configs, configs[c].id))
            && (p.labels == map[] ==> forall id :: !Queued(ok, e, configs, id))
  {
    WantedIsRequested(ok, n.labels, configs, c);
    if p.labels == map[] {
      assert Apply(p, n).labels == n.labels;
    }
  }

  // ----- The three notions of a target -----

  /** The nodes the upgrade lists, those the Module selects, and those whose events wake the DeviceConfig. */
  predicate UpgradeTargets(c: DeviceConfig, n: Node) {
    Selected(n.labels, MatchingLabels(c.spec.selector))
  }

  predicate ModuleTargets(m: ModuleSpec, n: Node) {
    Selected(n.labels, m.selector)
  }

  /** With a valid selector the three agree, whatever the Module was before. */
  lemma TargetsAgree(ok: Syntax, nodes: seq<Node>, c: DeviceConfig, m: ModuleSpec, n: Node)
    requires c.spec.selector.Some? && ValidSelector(ok, c.spec.selector.value) && n in nodes
    ensures n in Matching(nodes, MatchingLabels(c.spec.selector)) <==> ModuleTargets(Desired(m, c.spec), n)
    ensures n in Matching(nodes, MatchingLabels(c.spec.selector)) <==> Wanted(ok, n.labels, c)
  {
    MatchingMember(nodes, MatchingLabels(c.spec.selector), n);
  }

  /** The upgrade and the Module agree on the nodes of a cluster if and only if the selector is set or
      every node carries the PCI label: without a selector the upgrade takes every node. */
  lemma UpgradeAndModuleAgreeIff(nodes: seq<Node>, c: DeviceConfig, m: ModuleSpec)
    ensures (forall n <- nodes :: n in Matching(nodes, MatchingLabels(c.spec.selector)) <==> ModuleTargets(Desired(m, c.spec), n))
       <==> c.spec.selector.Some? || forall n <- nodes :: PCI_LABEL in n.labels && n.labels[PCI_LABEL] == "true"
  {
    forall n | n in nodes
      ensures n in Matching(nodes, MatchingLabels(c.spec.selector)) <==> Selected(n.labels, MatchingLabels(c.spec.selector))
    {
      MatchingMember(nodes, MatchingLabels(c.spec.selector), n);
    }
    if c.spec.selector.None? {
      var sel := SelectorOf(c.spec);
      assert PCI_LABEL in sel;
      forall n | n in nodes
        ensures ModuleTargets(Desired(m, c.spec), n) <==> PCI_LABEL in n.labels && n.labels[PCI_LABEL] == "true"
      {
        assert Selected(n.labels, sel) <==> PCI_LABEL in n.labels && n.labels[PCI_LABEL] == "true";
      }
    }
  }
}
