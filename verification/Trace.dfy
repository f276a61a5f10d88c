/** The order in which a rollout takes the nodes. */
module Trace {
  import opened NodeState
  import opened Rollout
  import opened Disruption

  /** The nodes still waiting, from the end of the list to its start. */
  function Waiting(nodes: seq<NodeView>, v: string): seq<nat> {
    if nodes == [] then []
    else
      var n := |nodes| - 1;
      (if State(nodes[n], v) == Before then [n] else []) + Waiting(nodes[..n], v)
  }

  lemma {:induction false} WaitingExact(nodes: seq<NodeView>, v: string)
    ensures forall i :: 0 <= i < |nodes| && State(nodes[i], v) == Before ==> i in Waiting(nodes, v)
    ensures forall x <- Waiting(nodes, v) :: x < |nodes| && State(nodes[x], v) == Before
    ensures Descending(Waiting(nodes, v))
  {
    if nodes != [] {
      var n := |nodes| - 1;
      WaitingExact(nodes[..n], v);
      assert forall i :: 0 <= i < n ==> nodes[..n][i] == nodes[i];
      var rest := Waiting(nodes[..n], v);
      assert forall b :: 0 <= b < |rest| ==> rest[b] in rest;
    }
  }

  predicate Descending(s: seq<nat>) {
    forall a, b :: 0 <= a < b < |s| ==> s[a] > s[b]
  }

  lemma DescendingPrefix(s: seq<nat>, t: seq<nat>)
    requires Descending(s + t)
    ensures Descending(s)
  {
    forall a, b | 0 <= a < b < |s| ensures s[a] > s[b] {
      assert (s + t)[a] > (s + t)[b];
    }
  }

  lemma NoneWaiting(nodes: seq<NodeView>, v: string)
    ensures Waiting(nodes, v) == [] <==> forall i :: 0 <= i < |nodes| ==> State(nodes[i], v) != Before
  {
    WaitingExact(nodes, v);
    var rest := Waiting(nodes, v);
    if rest != [] { assert rest[0] in rest; }
  }

  lemma {:induction false} SameWaiting(a: seq<NodeView>, b: seq<NodeView>, v: string)
    requires |a| == |b|
    requires forall i :: 0 <= i < |a| ==> (State(a[i], v) == Before <==> State(b[i], v) == Before)
    ensures Waiting(a, v) == Waiting(b, v)
  {
    if a != [] {
      SameWaiting(a[..|a| - 1], b[..|b| - 1], v);
    }
  }

  /** Taking the last waiting node takes the head of the queue. */
  lemma {:induction false} TakeLast(nodes: seq<NodeView>, v: string, j: nat, n: NodeView)
    requires IsLastBefore(nodes, v, j) && State(n, v) != Before
    ensures Waiting(nodes, v) == [j] + Waiting(nodes[j := n], v)
  {
    var k := |nodes| - 1;
    if j == k {
      assert nodes[j := n][..k] == nodes[..k];
    } else {
      assert nodes[j := n][..k] == nodes[..k][j := n];
      TakeLast(nodes[..k], v, j, n);
    }
  }

  /** The nodes whose version label was written, in the order of the writes. */
  function Kickoffs(w: World, steps: seq<Step>): seq<nat> {
    if steps == [] then []
    else
      var before, s := Exec(w, steps[..|steps| - 1]), steps[|steps| - 1];
      Kickoffs(w, steps[..|steps| - 1]) + KickedOff(before, s)
  }

  function KickedOff(w: World, s: Step): seq<nat> {
    if s == Kickoff && Enabled(w, s) && NodeForUpgrade(w.phase.snap, w.phase.v).Some?
    then [NodeForUpgrade(w.phase.snap, w.phase.v).value] else []
  }

  ghost predicate At(w: World, v: string) {
    Inv(w) && w.spec == v && (w.phase.Running? ==> w.phase.v == v)
  }

  lemma StepTakesHead(w: World, s: Step, v: string)
    requires At(w, v) && !s.SetSpec?
    ensures At(Next(w, s), v)
    ensures Waiting(w.nodes, v) == KickedOff(w, s) + Waiting(Next(w, s).nodes, v)
  {
    InvStep(w, s);
    if KickedOff(w, s) != [] {
      var j := NodeForUpgrade(w.phase.snap, v).value;
      StatesStand(w);
      assert IsLastBefore(w.nodes, v, j);
      TakeLast(w.nodes, v, j, Next(w, s).nodes[j]);
    } else {
      SameStates(w, s, v);
      SameWaiting(w.nodes, Next(w, s).nodes, v);
    }
  }

  lemma SameStates(w: World, s: Step, v: string)
    requires Inv(w) && KickedOff(w, s) == []
    ensures |Next(w, s).nodes| == |w.nodes|
    ensures forall i :: 0 <= i < |w.nodes| ==> (State(w.nodes[i], v) == Before <==> State(Next(w, s).nodes[i], v) == Before)
  {
  }

  lemma {:induction false} RunTakesInOrder(w: World, steps: seq<Step>)
    requires At(w, w.spec) && SpecChanges(steps) == 0
    ensures At(Exec(w, steps), w.spec)
    ensures Waiting(w.nodes, w.spec) == Kickoffs(w, steps) + Waiting(Exec(w, steps).nodes, w.spec)
  {
    if steps != [] {
      RunTakesInOrder(w, steps[..|steps| - 1]);
      StepTakesHead(Exec(w, steps[..|steps| - 1]), steps[|steps| - 1], w.spec);
    }
  }

  /** For one version: the nodes kicked off so far, followed by those still waiting, are the nodes that
      waited at the start, last in the list first. So each is kicked off at most once, in that order,
      and a rollout with none waiting has kicked off exactly those. */
  lemma KickoffOrder(w: World, steps: seq<Step>)
    requires w.phase.Idle? && SpecChanges(steps) == 0
    ensures Kickoffs(w, steps) + Waiting(Exec(w, steps).nodes, w.spec) == Waiting(w.nodes, w.spec)
    ensures Descending(Kickoffs(w, steps))
    ensures (forall i :: 0 <= i < |Exec(w, steps).nodes| ==> State(Exec(w, steps).nodes[i], w.spec) != Before)
            ==> Kickoffs(w, steps) == Waiting(w.nodes, w.spec)
  {
    RunTakesInOrder(w, steps);
    WaitingExact(w.nodes, w.spec);
    NoneWaiting(Exec(w, steps).nodes, w.spec);
    DescendingPrefix(Kickoffs(w, steps), Waiting(Exec(w, steps).nodes, w.spec));
  }
}
