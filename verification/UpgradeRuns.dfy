/** What the upgrade code leaves in the store, by its contract a prefix of its planned writes, is what some
    run of the fleet leaves there: the theorems over runs speak about the code. */
module UpgradeRuns {
  import opened Options
  import opened Cluster
  import opened NodeState
  import opened DeviceConfigs
  import opened UpgradePlan
  import opened Stores
  import opened Fleets
  import P = Plans
  import R = Rollout
  import InFlight
  import Disruption
  import Projection

  /** One own step, appended to a run. */
  lemma Then(f: Fleet, steps: seq<Step>, s: Step)
    ensures Exec(f, steps + [s]) == Next(Exec(f, steps), s)
  {
    assert (steps + [s])[..|steps|] == steps;
  }

  ghost predicate At(f: Fleet, g: Fleet, c: nat, list: seq<Node>, v: string, stage: R.Stage, ws: seq<NodeWrite>) {
    && c < |f.configs| && |g.configs| == |f.configs|
    && g.configs[c].id == f.configs[c].id
    && g.configs[c].phase == Running(v, list, stage)
    && g.nodes == PatchAll(f.nodes, ws)
  }

  /** No step of the run is an edit of the version. */
  ghost predicate NoEdits(steps: seq<Step>) {
    forall q :: 0 <= q < |steps| ==> !(steps[q].Own? && steps[q].s.SetSpec?)
  }

  lemma {:induction false} NoEditsCount(steps: seq<Step>, d: nat)
    requires NoEdits(steps)
    ensures Projection.SpecEdits(steps, d) == 0
  {
    if steps != [] {
      assert forall q :: 0 <= q < |steps| - 1 ==> steps[..|steps| - 1][q] == steps[q];
      NoEditsCount(steps[..|steps| - 1], d);
    }
  }

  lemma AfterList(f: Fleet, c: nat) returns (steps: seq<Step>)
    requires c < |f.configs| && f.configs[c].phase.Idle? && f.configs[c].spec != ""
    ensures NoEdits(steps)
    ensures At(f, Exec(f, steps), c, Targets(f.nodes, f.configs[c]), f.configs[c].spec, R.ToUncordon, [])
  {
    steps := [Own(c, R.Poke)] + [Own(c, R.List)];
    Then(f, [], Own(c, R.Poke));
    Then(f, [Own(c, R.Poke)], Own(c, R.List));
    assert [] + [Own(c, R.Poke)] == [Own(c, R.Poke)];
    var g := Next(f, Own(c, R.Poke));
    assert g.nodes == f.nodes && g.configs[c] == f.configs[c].(pending := true);
  }

  lemma Writing(f: Fleet, steps: seq<Step>, c: nat, list: seq<Node>, v: string, ws: seq<NodeWrite>, o: R.Step)
    requires At(f, Exec(f, steps), c, list, v, if o == R.Uncordon then R.ToUncordon else R.ToCordon, ws)
    requires o == R.Uncordon || o == R.Cordon
    ensures At(f, Exec(f, steps + [Own(c, o)]), c, list, v, if o == R.Uncordon then R.ToCordon else R.ToKickoff,
               ws + if o == R.Uncordon then UncordonWrites(list, f.configs[c].id, v) else CordonWrites(list, f.configs[c].id, v))
  {
    hide UncordonWrites, CordonWrites, PatchAll, Notified;
    Then(f, steps, Own(c, o));
    PatchAllAppend(f.nodes, ws, if o == R.Uncordon then UncordonWrites(list, f.configs[c].id, v) else CordonWrites(list, f.configs[c].id, v));
  }

  lemma Finishing(f: Fleet, steps: seq<Step>, c: nat, list: seq<Node>, v: string, ws: seq<NodeWrite>)
    requires At(f, Exec(f, steps), c, list, v, R.ToKickoff, ws)
    ensures var g := Exec(f, steps + [Own(c, R.Kickoff)]);
            && |g.configs| == |f.configs| && g.configs[c].phase.Idle?
            && g.nodes == PatchAll(f.nodes, ws + KickoffWrites(list, f.configs[c].id, v))
  {
    Then(f, steps, Own(c, R.Kickoff));
    PatchAllAppend(f.nodes, ws, KickoffWrites(list, f.configs[c].id, v));
  }

  lemma Failing(f: Fleet, steps: seq<Step>, c: nat, list: seq<Node>, v: string, stage: R.Stage, ws: seq<NodeWrite>)
    requires At(f, Exec(f, steps), c, list, v, stage, ws)
    ensures var g := Exec(f, steps + [Own(c, R.Fail)]);
            |g.configs| == |f.configs| && g.configs[c].phase.Idle? && g.nodes == PatchAll(f.nodes, ws)
  {
    Then(f, steps, Own(c, R.Fail));
  }

  lemma UpgradeOutcomeIsRun(f: Fleet, c: nat, s: Spec, done: nat) returns (steps: seq<Step>)
    requires c < |f.configs| && f.configs[c].phase.Idle?
    requires s.driverVersion == f.configs[c].spec && s.selector == f.configs[c].selector
    requires done <= |UpgradeWrites(f.nodes, f.configs[c].id, s)|
    ensures NoEdits(steps)
    ensures |Exec(f, steps).configs| == |f.configs| && Exec(f, steps).configs[c].phase.Idle?
    ensures Exec(f, steps).nodes == PatchAll(f.nodes, UpgradeWrites(f.nodes, f.configs[c].id, s)[..done])
  {
    if done == 0 {
      steps := [];
    } else {
      var id, v, list := f.configs[c].id, s.driverVersion, Targets(f.nodes, f.configs[c]);
      PrefixOfThree(UncordonWrites(list, id, v), CordonWrites(list, id, v), KickoffWrites(list, id, v), done);
      steps := StopAfter(f, c, done);
    }
  }

  /** The plan is made of three parts of at most one write, so a prefix ends with one of them. */
  lemma PrefixOfThree(u: seq<NodeWrite>, k: seq<NodeWrite>, j: seq<NodeWrite>, done: nat)
    requires |u| <= 1 && |k| <= 1 && |j| <= 1 && 0 < done <= |P.Then(u, P.Then(k, j))|
    ensures P.Then(u, P.Then(k, j))[..done] == if done <= |u| then u else if done <= |u + k| then u + k else u + k + j
  {
  }

  /** The runs up to the cordon and up to the kickoff. */
  lemma ReachesCordon(f: Fleet, c: nat) returns (steps: seq<Step>)
    requires c < |f.configs| && f.configs[c].phase.Idle? && f.configs[c].spec != ""
    ensures NoEdits(steps)
    ensures var id, v, list := f.configs[c].id, f.configs[c].spec, Targets(f.nodes, f.configs[c]);
            At(f, Exec(f, steps), c, list, v, R.ToCordon, UncordonWrites(list, id, v))
  {
    var id, v, list := f.configs[c].id, f.configs[c].spec, Targets(f.nodes, f.configs[c]);
    var u := UncordonWrites(list, id, v);
    steps := AfterList(f, c);
    assert [] + u == u;
    Writing(f, steps, c, list, v, [], R.Uncordon);
    steps := steps + [Own(c, R.Uncordon)];
  }

  lemma ReachesKickoff(f: Fleet, c: nat) returns (steps: seq<Step>)
    requires c < |f.configs| && f.configs[c].phase.Idle? && f.configs[c].spec != ""
    ensures NoEdits(steps)
    ensures var id, v, list := f.configs[c].id, f.configs[c].spec, Targets(f.nodes, f.configs[c]);
            At(f, Exec(f, steps), c, list, v, R.ToKickoff, UncordonWrites(list, id, v) + CordonWrites(list, id, v))
  {
    var id, v, list := f.configs[c].id, f.configs[c].spec, Targets(f.nodes, f.configs[c]);
    steps := ReachesCordon(f, c);
    Writing(f, steps, c, list, v, UncordonWrites(list, id, v), R.Cordon);
    steps := steps + [Own(c, R.Cordon)];
  }

  /** The run that makes `done` writes and then fails, unless there are no more to make. */
  lemma StopAfter(f: Fleet, c: nat, done: nat) returns (steps: seq<Step>)
    requires c < |f.configs| && f.configs[c].phase.Idle? && f.configs[c].spec != ""
    ensures NoEdits(steps)
    ensures var id, v, list := f.configs[c].id, f.configs[c].spec, Targets(f.nodes, f.configs[c]);
            var u, k, j := UncordonWrites(list, id, v), CordonWrites(list, id, v), KickoffWrites(list, id, v);
            var g := Exec(f, steps);
            && |g.configs| == |f.configs| && g.configs[c].phase.Idle?
            && g.nodes == PatchAll(f.nodes, if done <= |u| then u else if done <= |u + k| then u + k else u + k + j)
  {
    var id, v, list := f.configs[c].id, f.configs[c].spec, Targets(f.nodes, f.configs[c]);
    var u, k := UncordonWrites(list, id, v), CordonWrites(list, id, v);
    if done <= |u| {
      steps := ReachesCordon(f, c);
      Failing(f, steps, c, list, v, R.ToCordon, u);
      steps := steps + [Own(c, R.Fail)];
    } else {
      steps := ReachesKickoff(f, c);
      if done <= |u + k| {
        Failing(f, steps, c, list, v, R.ToKickoff, u + k);
        steps := steps + [Own(c, R.Fail)];
      } else {
        Finishing(f, steps, c, list, v, u + k);
        steps := steps + [Own(c, R.Kickoff)];
      }
    }
  }

  /** What the contract of `HandleModuleVersionUpgrade` says of a call, with or without an error, is what some
      run of the fleet leaves on the nodes; nothing but the nodes changes. */
  lemma ProgressedIsRun(f: Fleet, c: nat, s: Spec, s0: Store, s1: Store, done: nat, err: bool) returns (steps: seq<Step>)
    requires c < |f.configs| && f.configs[c].phase.Idle? && s0.nodes == f.nodes
    requires s.driverVersion == f.configs[c].spec && s.selector == f.configs[c].selector
    requires Progressed(s0, s1, NodeWrites(UpgradeWrites(s0.nodes, f.configs[c].id, s)), done, err)
    ensures NoEdits(steps)
    ensures |Exec(f, steps).configs| == |f.configs| && Exec(f, steps).configs[c].phase.Idle?
    ensures s1 == s0.(nodes := Exec(f, steps).nodes)
  {
    hide UpgradeWrites, Exec, ApplyAll, PatchAll;
    var ws := UpgradeWrites(s0.nodes, f.configs[c].id, s);
    steps := UpgradeOutcomeIsRun(f, c, s, done);
    NodeWritesPrefix(ws, done);
    NodeWritesTouchNodes(s0, ws[..done]);
  }

  /** So the code keeps at most one node in flight per version and DeviceConfig, at whatever write it stops. */
  lemma CodeKeepsOneInFlight(f: Fleet, c: nat, s: Spec, s0: Store, s1: Store, done: nat, err: bool, d: nat)
    requires Projection.Start(f) && c < |f.configs| && d < |f.configs| && s0.nodes == f.nodes
    requires s.driverVersion == f.configs[c].spec && s.selector == f.configs[c].selector
    requires Progressed(s0, s1, NodeWrites(UpgradeWrites(s0.nodes, f.configs[c].id, s)), done, err)
    requires InFlight.AtMostOne(Views(Targets(s0.nodes, f.configs[d]), f.configs[d].id))
    ensures InFlight.AtMostOne(Views(Targets(s1.nodes, f.configs[d]), f.configs[d].id))
  {
    hide UpgradeWrites, Exec, ApplyAll, Progressed, Matching;
    var steps := ProgressedIsRun(f, c, s, s0, s1, done, err);
    SameConfigs(f, steps);
    Projection.FleetInFlight(f, steps, d);
    assert Targets(s1.nodes, Exec(f, steps).configs[d]) == Targets(s1.nodes, f.configs[d]);
  }

  /** One reconcile of the code, wherever it stops, adds at most one evicting node to any DeviceConfig. */
  lemma CodeKeepsDisruption(f: Fleet, c: nat, s: Spec, s0: Store, s1: Store, done: nat, err: bool, d: nat)
    requires Projection.Start(f) && c < |f.configs| && d < |f.configs| && s0.nodes == f.nodes
    requires s.driverVersion == f.configs[c].spec && s.selector == f.configs[c].selector
    requires Progressed(s0, s1, NodeWrites(UpgradeWrites(s0.nodes, f.configs[c].id, s)), done, err)
    requires Disruption.WellTainted(Views(Targets(s0.nodes, f.configs[d]), f.configs[d].id))
    ensures Disruption.Evicting(Views(Targets(s1.nodes, f.configs[d]), f.configs[d].id))
         <= Disruption.Evicting(Views(Targets(s0.nodes, f.configs[d]), f.configs[d].id)) + 1
  {
    hide UpgradeWrites, Exec, ApplyAll, Progressed, Matching;
    var steps := ProgressedIsRun(f, c, s, s0, s1, done, err);
    SameConfigs(f, steps);
    NoEditsCount(steps, d);
    Projection.FleetDisruption(f, steps, d);
    assert Targets(s1.nodes, Exec(f, steps).configs[d]) == Targets(s1.nodes, f.configs[d]);
  }

  /** And when the code has made the writes before the kickoff, the node whose version the kickoff will
      replace evicts its workloads. */
  lemma CodeEvictsBeforeOverwrite(f: Fleet, c: nat, j: nat)
    requires Projection.Start(f) && c < |f.configs| && f.configs[c].spec != ""
    requires var views := Views(Targets(f.nodes, f.configs[c]), f.configs[c].id);
             NodeForUpgrade(views, f.configs[c].spec) == Some(j) && !IsNew(views[j])
    ensures var id, v, list := f.configs[c].id, f.configs[c].spec, Targets(f.nodes, f.configs[c]);
            var now := Targets(PatchAll(f.nodes, UncordonWrites(list, id, v) + CordonWrites(list, id, v)), f.configs[c]);
            && |now| == |list| && now[j].name == list[j].name && Evicts(now[j].taints)
  {
    hide PatchAll, Exec, R.Inv, Evicts, UncordonWrites, CordonWrites, Matching;
    var id, v, list := f.configs[c].id, f.configs[c].spec, Targets(f.nodes, f.configs[c]);
    var steps := ReachesKickoff(f, c);
    var g := Exec(f, steps);
    SameConfigs(f, steps);
    Projection.RunKeepsGood(f, steps);
    Projection.RunSeen(f, c, steps);
    R.InvRun(Project(f, c), SeenAll(f, c, steps));
    assert SameNames(list, Targets(g.nodes, g.configs[c]));
    assert R.Drift(Views(list, id)[j], Project(g, c).nodes[j]);
    Projection.FleetEviction(f, steps, c, j);
  }
}
