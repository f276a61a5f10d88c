/** Bringing a rollout to a given node by steps of the operator, the user and KMM alone. */
module Steering {
  import opened Options
  import opened Cluster
  import opened NodeState
  import opened Rollout
  import opened Disruption
  import opened Progress
  import Eviction
  import WakeUp

  /** No step of another writer. */
  ghost predicate Unaided(steps: seq<Step>) {
    forall q :: 0 <= q < |steps| ==> !steps[q].Foreign?
  }

  lemma ExecOne(w: World, s: Step)
    ensures Exec(w, [s]) == Next(w, s)
  {
    assert [s][..0] == [];
  }

  /** To any version, from any idle world. */
  lemma ToVersion(w: World, v: string) returns (steps: seq<Step>)
    requires w.phase.Idle? && WellTainted(w.nodes) && v != ""
    ensures Unaided(steps)
    ensures var now := Exec(w, steps); now.phase.Idle? && now.spec == v && |now.nodes| == |w.nodes| && Complete(now.nodes, v)
  {
    var w1 := Next(w, SetSpec(v));
    var rest := RolloutCanFinish(w1);
    steps := [SetSpec(v)] + rest;
    ExecOne(w, SetSpec(v));
    ExecAppend(w, [SetSpec(v)], rest);
    RunProgress(w1, rest);
    Eviction.RunLength(w, steps);
  }

  /** The rollout from version 1 to version 2, idle and with a request queued: the nodes from k on are done. */
  ghost predicate Rolled(w: World, k: nat) {
    && w.phase.Idle? && w.pending && w.spec == "2" && k <= |w.nodes|
    && forall i :: 0 <= i < |w.nodes| ==>
         && !Tainted(w.nodes[i].taints)
         && w.nodes[i].version == w.nodes[i].ready == Some(if i < k then "1" else "2")
  }

  lemma PickOfRolled(w: World, k: nat)
    requires Rolled(w, k)
    ensures FirstFinished(w.nodes, "2") == None
    ensures k > 0 ==> NodeForUpgrade(w.nodes, "2") == Some(k - 1) && !IsNew(w.nodes[k - 1])
  {
    if k > 0 {
      assert State(w.nodes[k - 1], "2") == Before;
      assert !AnyInUpgrade(w.nodes, "2");
    }
  }

  /** One reconcile kicks node j off, KMM gets it ready, and another reconcile frees it and fails. */
  function Round(j: nat): seq<Step> {
    PASS + [Kmm(j, Some("2")), List, Uncordon, Fail]
  }

  lemma PassOfRolled(w: World, k: nat)
    requires Rolled(w, k) && k > 0
    ensures var n := w.nodes[k - 1];
            AfterPass(w) == w.(nodes := w.nodes[k - 1 := n.(version := Some("2"), taints := Cordoned(n.taints))])
  {
    PickOfRolled(w, k);
    WakeUp.PassWrites(w);
    TaintTestsAgree(w.nodes[k - 1].taints);
  }

  /** The node that KMM has just got ready is freed. */
  lemma FreesNode(w: World, j: nat, ts: seq<Taint>)
    requires w.phase.Idle? && w.pending && w.spec == "2" && j < |w.nodes| && !Tainted(ts)
    requires w.nodes[j] == NodeView(Some("2"), Some("1"), Cordoned(ts))
    requires forall i :: 0 <= i < |w.nodes| && i != j ==> !Tainted(w.nodes[i].taints)
    ensures Next(Next(Next(Next(w, Kmm(j, Some("2"))), List), Uncordon), Fail)
         == w.(nodes := w.nodes[j := NodeView(Some("2"), Some("2"), ts)])
  {
    var w1 := Next(w, Kmm(j, Some("2")));
    var w2 := Next(w1, List);
    TaintTestsAgree(ts);
    TaintTestsAgree(Cordoned(ts));
    TaintRoundTrip(ts);
    hide Tainted, Evicts, Cordoned, Uncordoned;
    assert w1.nodes == w.nodes[j := NodeView(Some("2"), Some("2"), Cordoned(ts))];
    assert Finished(w1.nodes[j], "2");
    assert FirstFinished(w1.nodes, "2") == Some(j);
    assert w2.phase == Running("2", w1.nodes, ToUncordon);
    assert Next(w2, Uncordon).nodes == w.nodes[j := NodeView(Some("2"), Some("2"), ts)];
  }

  lemma RoundRolls(w: World, k: nat)
    requires Rolled(w, k) && k > 0
    ensures Rolled(Exec(w, Round(k - 1)), k - 1) && |Exec(w, Round(k - 1)).nodes| == |w.nodes|
  {
    var j, ts := k - 1, w.nodes[k - 1].taints;
    var w1 := AfterPass(w);
    PassOfRolled(w, k);
    FourSteps(w, List, Uncordon, Cordon, Kickoff);
    FreesNode(w1, j, ts);
    FourSteps(w1, Kmm(j, Some("2")), List, Uncordon, Fail);
    hide Next, Tainted;
    ExecAppend(w, PASS, [Kmm(j, Some("2")), List, Uncordon, Fail]);
  }

  lemma {:induction false} RollDown(w: World, k: nat, j: nat) returns (steps: seq<Step>)
    requires Rolled(w, k) && j <= k
    ensures Unaided(steps)
    ensures Rolled(Exec(w, steps), j) && |Exec(w, steps).nodes| == |w.nodes|
    decreases k
  {
    if j == k {
      steps := [];
    } else {
      RoundRolls(w, k);
      var rest := RollDown(Exec(w, Round(k - 1)), k - 1, j);
      steps := Round(k - 1) + rest;
      ExecAppend(w, Round(k - 1), rest);
    }
  }

  /** Any node j can be made the next pick, with a version to replace, all nodes untainted. */
  lemma MakesPick(w: World, j: nat) returns (steps: seq<Step>)
    requires w.phase.Idle? && WellTainted(w.nodes) && j < |w.nodes|
    ensures Unaided(steps)
    ensures var now := Exec(w, steps);
            && now.phase.Idle? && now.pending && now.spec != "" && |now.nodes| == |w.nodes|
            && NodeForUpgrade(now.nodes, now.spec) == Some(j) && !IsNew(now.nodes[j])
            && forall i :: 0 <= i < |now.nodes| ==> !Tainted(now.nodes[i].taints)
  {
    var first := ToVersion(w, "1");
    var w1 := Exec(w, first);
    var w2 := Next(w1, SetSpec("2"));
    ExecOne(w1, SetSpec("2"));
    ExecAppend(w, first, [SetSpec("2")]);
    assert Rolled(w2, |w2.nodes|) by {
      forall i | 0 <= i < |w2.nodes| ensures w2.nodes[i].version == w2.nodes[i].ready == Some("1") && !Tainted(w2.nodes[i].taints) {
        assert State(w1.nodes[i], "1") == Upgraded;
      }
    }
    var rest := RollDown(w2, |w2.nodes|, j + 1);
    steps := first + [SetSpec("2")] + rest;
    ExecAppend(w, first + [SetSpec("2")], rest);
    PickOfRolled(Exec(w2, rest), j + 1);
  }
}
