/** The rolling upgrade of one DeviceConfig as a transition system. One reconcile is four API calls,
    List, then the three writes; between any two of them KMM, other writers and the user may act, and
    after any of them the reconcile may fail. A run is any sequence of steps. */
module Rollout {
  import opened Options
  import opened Cluster
  import opened NodeState

  /** The API call a running reconcile makes next. */
  datatype Stage = ToUncordon | ToCordon | ToKickoff

  /** A running reconcile works with the version and the node list it read, however old they are. */
  datatype Phase = Idle | Running(v: string, snap: seq<NodeView>, stage: Stage)

  /** `pending` says that the work queue holds a request for this DeviceConfig. */
  datatype World = World(spec: string, nodes: seq<NodeView>, phase: Phase, pending: bool)

  datatype Step =
    | SetSpec(v: string)                       // the user edits driverVersion
    | Poke                                     // any other event for this DeviceConfig
    | List                                     // a reconcile starts and lists the targeted nodes
    | Uncordon
    | Cordon
    | Kickoff
    | Fail                                     // the running reconcile returns an error or crashes
    | Kmm(i: nat, ready: Option<string>)       // KMM changes node i's ready label
    | Foreign(i: nat, taints: seq<Taint>, relabels: bool)  // someone else writes node i

  /** KMM sets the ready label to the node's version label only, and touches it only while the two differ. */
  predicate KmmMay(n: NodeView, ready: Option<string>) {
    n.ready != n.version && ready != n.ready && (ready.None? || ready == n.version)
  }

  predicate Enabled(w: World, s: Step) {
    match s
    case SetSpec(_) => true
    case Poke => true
    case List => w.phase.Idle? && w.pending
    case Uncordon => w.phase.Running? && w.phase.stage == ToUncordon
    case Cordon => w.phase.Running? && w.phase.stage == ToCordon
    case Kickoff => w.phase.Running? && w.phase.stage == ToKickoff
    case Fail => w.phase.Running?
    case Kmm(i, ready) => i < |w.nodes| && KmmMay(w.nodes[i], ready)
    case Foreign(i, taints, _) => i < |w.nodes| && UpgradeTaints(taints) == UpgradeTaints(w.nodes[i].taints)
  }

  function SetTaints(nodes: seq<NodeView>, i: nat, before: seq<Taint>, after: seq<Taint>): seq<NodeView> {
    if i < |nodes| && before != after then nodes[i := nodes[i].(taints := after)] else nodes
  }

  function AfterUncordon(nodes: seq<NodeView>, snap: seq<NodeView>, v: string): seq<NodeView> {
    var u := FirstFinished(snap, v);
    if u.None? then nodes else SetTaints(nodes, u.value, snap[u.value].taints, Uncordoned(snap[u.value].taints))
  }

  function AfterCordon(nodes: seq<NodeView>, snap: seq<NodeView>, v: string): seq<NodeView> {
    var j := NodeForUpgrade(snap, v);
    if j.None? || IsNew(snap[j.value]) then nodes
    else SetTaints(nodes, j.value, snap[j.value].taints, Cordoned(snap[j.value].taints))
  }

  function AfterKickoff(nodes: seq<NodeView>, snap: seq<NodeView>, v: string): seq<NodeView> {
    var j := NodeForUpgrade(snap, v);
    if j.None? || |nodes| <= j.value then nodes else nodes[j.value := nodes[j.value].(version := Some(v))]
  }

  /** A step that is not enabled leaves the world as it is. A label change of a targeted node, a spec
      change and an error put a request on the queue; a taint change does not. */
  function Next(w: World, s: Step): World {
    if !Enabled(w, s) then w else
    match s
    case SetSpec(v) => w.(spec := v, pending := true)
    case Poke => w.(pending := true)
    case List => w.(phase := if w.spec == "" then Idle else Running(w.spec, w.nodes, ToUncordon), pending := false)
    case Uncordon => w.(nodes := AfterUncordon(w.nodes, w.phase.snap, w.phase.v), phase := w.phase.(stage := ToCordon))
    case Cordon => w.(nodes := AfterCordon(w.nodes, w.phase.snap, w.phase.v), phase := w.phase.(stage := ToKickoff))
    case Kickoff =>
      w.(nodes := AfterKickoff(w.nodes, w.phase.snap, w.phase.v), phase := Idle,
         pending := w.pending || NodeForUpgrade(w.phase.snap, w.phase.v).Some?)
    case Fail => w.(phase := Idle, pending := true)
    case Kmm(i, ready) => w.(nodes := w.nodes[i := w.nodes[i].(ready := ready)], pending := true)
    case Foreign(i, taints, relabels) =>
      w.(nodes := w.nodes[i := w.nodes[i].(taints := taints)], pending := w.pending || relabels)
  }

  function Exec(w: World, steps: seq<Step>): World {
    if steps == [] then w else Next(Exec(w, steps[..|steps| - 1]), steps[|steps| - 1])
  }

  lemma {:induction false} ExecAppend(w: World, a: seq<Step>, b: seq<Step>)
    ensures Exec(w, a + b) == Exec(Exec(w, a), b)
  {
    if b == [] {
      assert a + b == a;
    } else {
      assert (a + b)[..|a + b| - 1] == a + b[..|b| - 1];
      ExecAppend(w, a, b[..|b| - 1]);
    }
  }

  // ----- What a running reconcile may rely on -----

  /** How a node can have moved since it was listed: its version label stands, and a ready label that
      agreed with it stands. */
  predicate Drift(listed: NodeView, now: NodeView) {
    listed.version == now.version && (listed.ready == listed.version ==> now.ready == listed.ready)
  }

  /** Whether node i evicts, told from the list and the writes made so far. */
  predicate ExpectEvicts(p: Phase, i: nat)
    requires p.Running? && i < |p.snap|
  {
    if p.stage != ToUncordon && FirstFinished(p.snap, p.v) == Some(i) then false
    else if p.stage == ToKickoff && NodeForUpgrade(p.snap, p.v) == Some(i) && !IsNew(p.snap[i]) then true
    else Evicts(p.snap[i].taints)
  }

  ghost predicate Inv(w: World) {
    w.phase.Running? ==>
      && |w.phase.snap| == |w.nodes|
      && w.phase.v != ""
      && forall i :: 0 <= i < |w.nodes| ==>
           Drift(w.phase.snap[i], w.nodes[i]) && Evicts(w.nodes[i].taints) == ExpectEvicts(w.phase, i)
  }

  /** The node to uncordon and the node to upgrade are never the same one. */
  lemma PicksDiffer(snap: seq<NodeView>, v: string)
    ensures FirstFinished(snap, v).Some? ==> FirstFinished(snap, v) != NodeForUpgrade(snap, v)
  {
  }

  /** The uncordon write, node by node. */
  lemma AfterUncordonAt(nodes: seq<NodeView>, snap: seq<NodeView>, v: string)
    requires |snap| == |nodes|
    requires var u := FirstFinished(snap, v); u.Some? ==> Evicts(nodes[u.value].taints) == Evicts(snap[u.value].taints)
    ensures var r := AfterUncordon(nodes, snap, v);
            && |r| == |nodes|
            && forall i :: 0 <= i < |nodes| ==>
                 && r[i].version == nodes[i].version && r[i].ready == nodes[i].ready
                 && (Evicts(r[i].taints) <==> FirstFinished(snap, v) != Some(i) && Evicts(nodes[i].taints))
  {
    var u := FirstFinished(snap, v);
    if u.Some? { TaintRoundTrip(snap[u.value].taints); }
  }

  /** The cordon write, node by node. */
  lemma AfterCordonAt(nodes: seq<NodeView>, snap: seq<NodeView>, v: string)
    requires |snap| == |nodes|
    requires var j := NodeForUpgrade(snap, v); j.Some? ==> Evicts(nodes[j.value].taints) == Evicts(snap[j.value].taints)
    ensures var r, j := AfterCordon(nodes, snap, v), NodeForUpgrade(snap, v);
            && |r| == |nodes|
            && forall i :: 0 <= i < |nodes| ==>
                 && r[i].version == nodes[i].version && r[i].ready == nodes[i].ready
                 && (Evicts(r[i].taints) <==> (j == Some(i) && !IsNew(snap[i])) || Evicts(nodes[i].taints))
  {
  }

  lemma InvUncordon(w: World)
    requires Inv(w) && Enabled(w, Uncordon)
    ensures Inv(Next(w, Uncordon))
  {
    var snap, v := w.phase.snap, w.phase.v;
    forall i | 0 <= i < |w.nodes| ensures Evicts(w.nodes[i].taints) == Evicts(snap[i].taints) {
      assert Evicts(w.nodes[i].taints) == ExpectEvicts(w.phase, i);
    }
    AfterUncordonAt(w.nodes, snap, v);
    forall i | 0 <= i < |w.nodes| ensures Drift(snap[i], AfterUncordon(w.nodes, snap, v)[i]) {
      assert Drift(snap[i], w.nodes[i]);
    }
  }

  lemma InvCordon(w: World)
    requires Inv(w) && Enabled(w, Cordon)
    ensures Inv(Next(w, Cordon))
  {
    var snap, v := w.phase.snap, w.phase.v;
    PicksDiffer(snap, v);
    var j := NodeForUpgrade(snap, v);
    if j.Some? { assert Evicts(w.nodes[j.value].taints) == ExpectEvicts(w.phase, j.value); }
    AfterCordonAt(w.nodes, snap, v);
    forall i | 0 <= i < |w.nodes|
      ensures Drift(snap[i], AfterCordon(w.nodes, snap, v)[i])
           && Evicts(AfterCordon(w.nodes, snap, v)[i].taints) == ExpectEvicts(Next(w, Cordon).phase, i)
    {
      assert Drift(snap[i], w.nodes[i]) && Evicts(w.nodes[i].taints) == ExpectEvicts(w.phase, i);
    }
  }

  lemma InvStep(w: World, s: Step)
    requires Inv(w)
    ensures Inv(Next(w, s))
  {
    match s
    case Uncordon => if Enabled(w, s) { InvUncordon(w); }
    case Cordon => if Enabled(w, s) { InvCordon(w); }
    case Kmm(i, ready) =>
    case Foreign(i, taints, _) =>
    case _ =>
  }

  lemma {:induction false} InvRun(w: World, steps: seq<Step>)
    requires Inv(w)
    ensures Inv(Exec(w, steps))
  {
    if steps != [] {
      InvRun(w, steps[..|steps| - 1]);
      InvStep(Exec(w, steps[..|steps| - 1]), steps[|steps| - 1]);
    }
  }

  /** Once the list held nothing in upgrade, every node keeps the state it was listed with. */
  lemma StatesStand(w: World)
    requires Inv(w) && w.phase.Running? && !AnyInUpgrade(w.phase.snap, w.phase.v)
    ensures forall i :: 0 <= i < |w.nodes| ==> State(w.nodes[i], w.phase.v) == State(w.phase.snap[i], w.phase.v)
  {
    forall i | 0 <= i < |w.nodes| ensures State(w.nodes[i], w.phase.v) == State(w.phase.snap[i], w.phase.v) {
      assert Drift(w.phase.snap[i], w.nodes[i]);
      assert State(w.phase.snap[i], w.phase.v) != InUpgrade;
    }
  }
}
