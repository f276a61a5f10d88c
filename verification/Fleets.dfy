/** Any number of DeviceConfigs over one set of nodes, reconciled in any interleaving, on whole nodes and
    merge patches. Each DeviceConfig sees its own targets as a run of the single-config system. */
module Fleets {
  import opened Options
  import opened Cluster
  import opened NodeState
  import opened DeviceConfigs
  import opened UpgradePlan
  import R = Rollout

  datatype Phase = Idle | Running(v: string, list: seq<Node>, stage: R.Stage)

  datatype Config = Config(id: ConfigId, selector: Option<Labels>, spec: string, phase: Phase, pending: bool)

  datatype Fleet = Fleet(nodes: seq<Node>, configs: seq<Config>)

  datatype Step =
    | Own(c: nat, s: R.Step)                                  // a step of config c: everything but KMM and other writers
    | Kmm(k: nat, name: string, ready: Option<string>)        // KMM changes config k's ready label on a node
    | Foreign(name: string, patch: NodePatch)                 // someone else patches a node

  function Targets(nodes: seq<Node>, c: Config): seq<Node> {
    Matching(nodes, MatchingLabels(c.selector))
  }

  predicate IsTarget(n: Node, c: Config) {
    Selected(n.labels, MatchingLabels(c.selector))
  }

  // ----- Steps -----

  /** A node event is mapped to every DeviceConfig that selects the node before or after the change. */
  predicate Notified(c: Config, before: seq<Node>, after: seq<Node>) {
    exists i :: 0 <= i < |before| && i < |after| && before[i].labels != after[i].labels
      && (IsTarget(before[i], c) || IsTarget(after[i], c))
  }

  function WriteNodes(f: Fleet, ws: seq<NodeWrite>): Fleet {
    var nodes' := PatchAll(f.nodes, ws);
    Fleet(nodes', seq(|f.configs|, d requires 0 <= d < |f.configs| =>
      f.configs[d].(pending := f.configs[d].pending || Notified(f.configs[d], f.nodes, nodes'))))
  }

  function SetConfig(f: Fleet, c: nat, k: Config): Fleet
    requires c < |f.configs|
  {
    f.(configs := f.configs[c := k])
  }

  predicate Enabled(f: Fleet, s: Step) {
    match s
    case Own(c, o) =>
      && c < |f.configs|
      && (match o
          case SetSpec(_) => true
          case Poke => true
          case List => f.configs[c].phase.Idle? && f.configs[c].pending
          case Fail => f.configs[c].phase.Running?
          case Uncordon => f.configs[c].phase.Running? && f.configs[c].phase.stage == R.ToUncordon
          case Cordon => f.configs[c].phase.Running? && f.configs[c].phase.stage == R.ToCordon
          case Kickoff => f.configs[c].phase.Running? && f.configs[c].phase.stage == R.ToKickoff
          case _ => false)
    case Kmm(k, name, ready) =>
      && k < |f.configs|
      && exists i :: 0 <= i < |f.nodes| && f.nodes[i].name == name && R.KmmMay(View(f.nodes[i], f.configs[k].id), ready)
    case Foreign(name, p) =>
      && (forall k <- p.labels :: k.Plain?)
      && forall i :: 0 <= i < |f.nodes| && f.nodes[i].name == name ==>
           && UpgradeTaints(Apply(p, f.nodes[i]).taints) == UpgradeTaints(f.nodes[i].taints)
           && forall d :: 0 <= d < |f.configs| ==> (IsTarget(Apply(p, f.nodes[i]), f.configs[d]) <==> IsTarget(f.nodes[i], f.configs[d]))
  }

  /** The node writes of a step. */
  function Writes(f: Fleet, s: Step): seq<NodeWrite>
    requires Enabled(f, s)
  {
    match s
    case Own(c, o) =>
      var k := f.configs[c];
      (match o
       case Uncordon => UncordonWrites(k.phase.list, k.id, k.phase.v)
       case Cordon => CordonWrites(k.phase.list, k.id, k.phase.v)
       case Kickoff => KickoffWrites(k.phase.list, k.id, k.phase.v)
       case _ => [])
    case Kmm(k, name, ready) => [NodeWrite(name, LabelPatch(ReadyLabel(f.configs[k].id), ready))]
    case Foreign(name, p) => [NodeWrite(name, p)]
  }

  /** What a step does to the config that takes it. */
  function OwnNext(f: Fleet, k: Config, o: R.Step): Config {
    match o
    case SetSpec(v) => k.(spec := v, pending := true)
    case Poke => k.(pending := true)
    case List => k.(phase := if k.spec == "" then Idle else Running(k.spec, Targets(f.nodes, k), R.ToUncordon), pending := false)
    case Fail => k.(phase := Idle, pending := true)
    case Uncordon => if k.phase.Running? then k.(phase := k.phase.(stage := R.ToCordon)) else k
    case Cordon => if k.phase.Running? then k.(phase := k.phase.(stage := R.ToKickoff)) else k
    case Kickoff => k.(phase := Idle)
    case _ => k
  }

  function Next(f: Fleet, s: Step): Fleet {
    if !Enabled(f, s) then f
    else
      var f' := WriteNodes(f, Writes(f, s));
      if s.Own? then SetConfig(f', s.c, OwnNext(f, f'.configs[s.c], s.s)) else f'
  }

  function Exec(f: Fleet, steps: seq<Step>): Fleet {
    if steps == [] then f else Next(Exec(f, steps[..|steps| - 1]), steps[|steps| - 1])
  }

  lemma {:induction false} ExecAppend(f: Fleet, a: seq<Step>, b: seq<Step>)
    ensures Exec(f, a + b) == Exec(Exec(f, a), b)
  {
    if b == [] {
      assert a + b == a;
    } else {
      assert (a + b)[..|a + b| - 1] == a + b[..|b| - 1];
      ExecAppend(f, a, b[..|b| - 1]);
    }
  }

  // ----- The standing assumptions -----

  /** Names are unique, no selector mentions a label that KMM or the operator writes, and DeviceConfigs have
      different identities. */
  ghost predicate Apart(f: Fleet) {
    && UniqueNames(f.nodes)
    && (forall c :: 0 <= c < |f.configs| ==> forall k <- MatchingLabels(f.configs[c].selector) :: k.Plain?)
    && (forall c, d :: 0 <= c < |f.configs| && 0 <= d < |f.configs| && f.configs[c].id == f.configs[d].id ==> c == d)
  }

  /** No node is selected by two DeviceConfigs. */
  ghost predicate NoOverlap(f: Fleet) {
    forall c, d, i :: 0 <= c < |f.configs| && 0 <= d < |f.configs| && c != d && 0 <= i < |f.nodes| ==>
      !(IsTarget(f.nodes[i], f.configs[c]) && IsTarget(f.nodes[i], f.configs[d]))
  }

  ghost predicate Disjoint(f: Fleet) {
    Apart(f) && NoOverlap(f)
  }

  predicate SameNames(a: seq<Node>, b: seq<Node>) {
    |a| == |b| && forall i :: 0 <= i < |a| ==> a[i].name == b[i].name
  }

  /** A running reconcile's list names exactly the config's targets, in order. */
  ghost predicate ListsTargets(f: Fleet) {
    forall c :: 0 <= c < |f.configs| && f.configs[c].phase.Running? ==>
      SameNames(f.configs[c].phase.list, Targets(f.nodes, f.configs[c]))
  }

  // ----- Projection -----

  function ProjectPhase(p: Phase, id: ConfigId): R.Phase {
    if p.Idle? then R.Idle else R.Running(p.v, Views(p.list, id), p.stage)
  }

  /** What config c sees. */
  function Project(f: Fleet, c: nat): R.World
    requires c < |f.configs|
  {
    var k := f.configs[c];
    R.World(k.spec, Views(Targets(f.nodes, k), k.id), ProjectPhase(k.phase, k.id), k.pending)
  }

  function IndexOf(nodes: seq<Node>, name: string): (r: Option<nat>)
    ensures r.Some? ==> r.value < |nodes| && nodes[r.value].name == name
    ensures r.None? ==> forall i :: 0 <= i < |nodes| ==> nodes[i].name != name
  {
    if nodes == [] then None
    else
      var n := |nodes| - 1;
      if nodes[n].name == name then Some(n) else IndexOf(nodes[..n], name)
  }

  /** The step of config c's own system that a fleet step amounts to, if any. */
  function Seen(f: Fleet, c: nat, s: Step): seq<R.Step>
    requires c < |f.configs|
  {
    if !Enabled(f, s) then []
    else if s.Own? then if s.c == c then [s.s] else []
    else
      var t := Targets(f.nodes, f.configs[c]);
      var i := IndexOf(t, s.name);
      if i.None? then []
      else
        var n := Apply(Writes(f, s)[0].patch, t[i.value]);
        if s.Kmm? && s.k == c then [R.Kmm(i.value, s.ready)]
        else [R.Foreign(i.value, n.taints, n.labels != t[i.value].labels)]
  }

  function SeenAll(f: Fleet, c: nat, steps: seq<Step>): seq<R.Step>
    requires c < |f.configs|
    decreases |steps|
  {
    if steps == [] then []
    else
      var init := steps[..|steps| - 1];
      SameConfigs(f, init);
      SeenAll(f, c, init) + Seen(Exec(f, init), c, steps[|steps| - 1])
  }

  lemma SameConfigs(f: Fleet, steps: seq<Step>)
    ensures |Exec(f, steps).configs| == |f.configs|
    ensures forall c :: 0 <= c < |f.configs| ==>
      Exec(f, steps).configs[c].id == f.configs[c].id && Exec(f, steps).configs[c].selector == f.configs[c].selector
  {
    if steps != [] { SameConfigs(f, steps[..|steps| - 1]); }
  }
}
