/** At most one node is being upgraded to any one version, over every run, across version changes
    and reverts, failures between writes, and KMM acting at any time. */
module InFlight {
  import opened Options
  import opened NodeState
  import opened Rollout

  predicate InFlightTo(n: NodeView, ver: string) {
    n.version == Some(ver) && n.ready != Some(ver)
  }

  ghost predicate AtMostOne(nodes: seq<NodeView>) {
    forall i, j :: 0 <= i < |nodes| && 0 <= j < |nodes| && i != j
      && nodes[i].version.Some? && nodes[i].version == nodes[j].version
      ==> nodes[i].ready == nodes[i].version || nodes[j].ready == nodes[j].version
  }

  lemma KickoffKeepsOne(w: World)
    requires Inv(w) && AtMostOne(w.nodes) && Enabled(w, Kickoff)
    ensures AtMostOne(Next(w, Kickoff).nodes)
  {
    var snap, v := w.phase.snap, w.phase.v;
    var j := NodeForUpgrade(snap, v);
    if j.Some? {
      StatesStand(w);
      forall i | 0 <= i < |w.nodes| && w.nodes[i].version == Some(v) ensures w.nodes[i].ready == Some(v) {
        assert State(snap[i], v) != InUpgrade;
        assert State(w.nodes[i], v) == State(snap[i], v);
      }
    }
  }

  lemma StepKeepsOne(w: World, s: Step)
    requires Inv(w) && AtMostOne(w.nodes)
    ensures AtMostOne(Next(w, s).nodes)
  {
    if s == Kickoff && Enabled(w, s) {
      KickoffKeepsOne(w);
    }
  }

  lemma {:induction false} RunKeepsOne(w: World, steps: seq<Step>)
    requires Inv(w) && AtMostOne(w.nodes)
    ensures AtMostOne(Exec(w, steps).nodes)
  {
    if steps != [] {
      var before := Exec(w, steps[..|steps| - 1]);
      RunKeepsOne(w, steps[..|steps| - 1]);
      InvRun(w, steps[..|steps| - 1]);
      StepKeepsOne(before, steps[|steps| - 1]);
    }
  }

  /** For every version string, whether or not it is the wanted one. */
  lemma AtMostOneInFlight(w: World, steps: seq<Step>, ver: string, i: nat, j: nat)
    requires w.phase.Idle? && AtMostOne(w.nodes)
    requires i < |Exec(w, steps).nodes| && j < |Exec(w, steps).nodes|
    requires InFlightTo(Exec(w, steps).nodes[i], ver) && InFlightTo(Exec(w, steps).nodes[j], ver)
    ensures i == j
  {
    RunKeepsOne(w, steps);
  }

  /** The assumption on KMM is needed: dropping a ready label that agrees with the version label while
      a reconcile is running lets that reconcile start a second upgrade to the same version. */
  lemma DroppedReadyLabelBreaksIt() returns (w: World, dropped: NodeView)
    ensures Inv(w) && AtMostOne(w.nodes) && |w.nodes| == 2
    ensures !KmmMay(w.nodes[0], None) && dropped == w.nodes[0].(ready := None)
    ensures !AtMostOne(Next(w.(nodes := w.nodes[0 := dropped]), Kickoff).nodes)
  {
    var a, b := NodeView(Some("2"), Some("2"), []), NodeView(None, None, []);
    var snap := [a, b];
    w, dropped := World("2", snap, Running("2", snap, ToKickoff), false), a.(ready := None);
    assert NodeForUpgrade(snap, "2") == Some(1) by { assert State(snap[1], "2") == Before; }
    var after := Next(w.(nodes := w.nodes[0 := dropped]), Kickoff).nodes;
    assert after[0].version == after[1].version == Some("2") && after[0].ready == after[1].ready == None;
  }

  /** So is the assumption that a List is current: from a list that predates a kickoff, a reconcile starts
      a second upgrade to the same version. */
  lemma StaleListBreaksIt() returns (w: World, listed: NodeView)
    ensures |w.nodes| == 2 && AtMostOne(w.nodes) && InFlightTo(w.nodes[0], "2")
    ensures w.phase == Running("2", [listed, w.nodes[1]], ToKickoff) && listed == w.nodes[0].(version := None)
    ensures !AtMostOne(Next(w, Kickoff).nodes)
  {
    var a, b := NodeView(Some("2"), None, []), NodeView(None, None, []);
    listed := a.(version := None);
    var stale := [listed, b];
    w := World("2", [a, b], Running("2", stale, ToKickoff), false);
    assert NodeForUpgrade(stale, "2") == Some(1) by { assert State(stale[1], "2") == Before; }
    var after := Next(w, Kickoff).nodes;
    assert after[0].version == after[1].version == Some("2") && after[0].ready == after[1].ready == None;
  }
}
