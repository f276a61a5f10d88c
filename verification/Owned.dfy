/** The events of owned objects. The metrics DaemonSet selects the ready nodes and does not tolerate the upgrade
    taint, so freeing a ready node makes it schedule a pod there, and the change of its status is an event of
    an owned object: sooner or later it queues the DeviceConfig. */
module Owned {
  import opened NodeState
  import opened Rollout
  import opened Sums
  import opened Disruption
  import opened Progress
  import opened WakeUp
  import opened Liveness
  import Eviction

  /** `owed` says that such an event is on its way. */
  datatype System = System(w: World, owed: bool)

  datatype Move = Of(s: Step) | Delivered

  /** An uncordon that frees a node. */
  predicate Frees(w: World, s: Step) {
    s == Uncordon && Enabled(w, s) && FirstFinished(w.phase.snap, w.phase.v).Some?
  }

  predicate CanMove(x: System, m: Move) {
    if m.Of? then Enabled(x.w, m.s) else x.owed
  }

  function After(x: System, m: Move): System {
    if !CanMove(x, m) then x
    else match m
      case Of(s) => System(Next(x.w, s), x.owed || Frees(x.w, s))
      case Delivered => System(x.w.(pending := true), false)
  }

  function Run(x: System, moves: seq<Move>): System {
    if moves == [] then x else After(Run(x, moves[..|moves| - 1]), moves[|moves| - 1])
  }

  // ----- No wake-up is lost -----

  /** With nothing queued or owed, a running reconcile's list is up to date, and once it is past its uncordon
      the list held no finished node. */
  ghost predicate Awake(x: System) {
    && Inv(x.w) && WorldWellTainted(x.w)
    && (Stranded(x.w) ==> x.owed)
    && (x.w.phase.Running? && !x.w.pending && !x.owed ==>
          && x.w.spec == x.w.phase.v
          && (x.w.phase.stage != ToUncordon ==> FirstFinished(x.w.phase.snap, x.w.phase.v).None?)
          && forall i :: 0 <= i < |x.w.nodes| ==> SameLabels(x.w.phase.snap[i], x.w.nodes[i]))
  }

  /** A reconcile that freed nothing, kicks nothing off and was not overtaken by an event. */
  lemma IdleEndIsAwake(x: System)
    requires Awake(x) && Enabled(x.w, Kickoff) && !x.w.pending && !x.owed
    requires NodeForUpgrade(x.w.phase.snap, x.w.phase.v).None?
    ensures !Stranded(Next(x.w, Kickoff))
  {
    var w, snap, v := x.w, x.w.phase.snap, x.w.phase.v;
    if AnyInUpgrade(snap, v) {
      var i :| 0 <= i < |snap| && State(snap[i], v) == InUpgrade;
      assert SameLabels(snap[i], w.nodes[i]);
      assert State(w.nodes[i], v) == InUpgrade;
    } else {
      forall i | 0 <= i < |w.nodes| ensures State(w.nodes[i], v) == Upgraded && !Tainted(w.nodes[i].taints) {
        assert SameLabels(snap[i], w.nodes[i]);
        assert State(snap[i], v) == Upgraded;
        assert Evicts(w.nodes[i].taints) == ExpectEvicts(w.phase, i);
        TaintTestsAgree(snap[i].taints);
        TaintTestsAgree(w.nodes[i].taints);
      }
    }
  }

  lemma ForeignIsAwake(w: World, s: Step)
    requires !Stranded(w) && Enabled(w, s) && s.Foreign?
    ensures !Stranded(Next(w, s))
  {
    var w' := Next(w, s);
    assert forall i :: 0 <= i < |w.nodes| ==> State(w'.nodes[i], w.spec) == State(w.nodes[i], w.spec);
    assert forall i :: 0 <= i < |w.nodes| ==> Tainted(w'.nodes[i].taints) == Tainted(w.nodes[i].taints);
    if i :| 0 <= i < |w.nodes| && State(w.nodes[i], w.spec) == InUpgrade {
      assert State(w'.nodes[i], w.spec) == InUpgrade;
    }
  }

  lemma MoveIsAwake(x: System, m: Move)
    requires Awake(x)
    ensures Awake(After(x, m))
  {
    if m.Of? && CanMove(x, m) {
      InvStep(x.w, m.s);
      WellTaintedStep(x.w, m.s);
      if m.s == Kickoff && !x.w.pending && !x.owed && NodeForUpgrade(x.w.phase.snap, x.w.phase.v).None? {
        IdleEndIsAwake(x);
      } else if m.s.Foreign? && !Stranded(x.w) {
        ForeignIsAwake(x.w, m.s);
      }
    }
  }

  lemma {:induction false} RunIsAwake(x: System, moves: seq<Move>)
    requires Awake(x)
    ensures Awake(Run(x, moves))
  {
    if moves != [] {
      RunIsAwake(x, moves[..|moves| - 1]);
      MoveIsAwake(Run(x, moves[..|moves| - 1]), moves[|moves| - 1]);
    }
  }

  /** With these events no wake-up is ever lost, whatever edits, failures and other writers do: a stranded
      rollout still has one on its way. */
  lemma NeverStranded(w: World, moves: seq<Move>)
    requires w.phase.Idle? && w.pending && WellTainted(w.nodes)
    ensures Stranded(Run(System(w, false), moves).w) ==> Run(System(w, false), moves).owed
  {
    RunIsAwake(System(w, false), moves);
  }

  // ----- Every rollout finishes -----

  /** A step of the operator or of KMM, or the delivery of an event. */
  predicate OwnMove(m: Move) {
    m.Of? ==> OwnStep(m.s)
  }

  ghost predicate AloneFrom(x: System, moves: seq<Move>) {
    forall q :: 0 <= q < |moves| ==> OwnMove(moves[q]) && CanMove(Run(x, moves[..q]), moves[q])
  }

  ghost predicate AllQuiet(x: System) {
    forall m :: OwnMove(m) ==> !CanMove(x, m)
  }

  ghost predicate Sound(w: World) {
    Inv(w) && WorldWellTainted(w)
  }

  /** A reconcile is still running for a version that is no longer wanted. */
  predicate Stale(w: World) {
    w.phase.Running? && w.phase.v != w.spec
  }

  /** The potential of the rollout, above which stands what a stale reconcile can still do. */
  function Left(x: System): nat {
    if Stale(x.w) then 55 * |x.w.nodes| + 12 + Sum(ReadyRanks(x.w.nodes)) + 2 * StageRank(x.w.phase) + if x.owed then 1 else 0
    else Potential(x.w) + if x.owed then 5 else 0
  }

  lemma PotentialBound(w: World)
    ensures Potential(w) <= 55 * |w.nodes| + 4 + StageRank(w.phase) <= 55 * |w.nodes| + 7
    ensures Sum(ReadyRanks(w.nodes)) <= 2 * |w.nodes|
  {
    SumBound(Weights(w.nodes, w.spec), 3);
    SumBound(ReadyRanks(w.nodes), 2);
  }

  lemma StaleStepLowers(x: System, s: Step)
    requires Sound(x.w) && Stale(x.w) && OwnStep(s) && Enabled(x.w, s)
    ensures Left(After(x, Of(s))) < Left(x) && |Next(x.w, s).nodes| == |x.w.nodes|
  {
    var w, w' := x.w, Next(x.w, s);
    PotentialBound(w');
    hide Sum, Measure, Weights, ReadyRanks, Potential;
    match s
    case Kmm(i, ready) => RanksUpdate(w.nodes, i, w.nodes[i].(ready := ready));
    case Kickoff => assert w'.phase.Idle?;
    case _ => SameRanks(w.nodes, w'.nodes);
  }

  lemma MoveLowers(x: System, m: Move)
    requires Sound(x.w) && OwnMove(m) && CanMove(x, m)
    ensures Sound(After(x, m).w) && After(x, m).w.spec == x.w.spec && |After(x, m).w.nodes| == |x.w.nodes|
    ensures Left(After(x, m)) < Left(x)
  {
    if m.Of? {
      InvStep(x.w, m.s);
      WellTaintedStep(x.w, m.s);
      Eviction.SetLength(x.w, m.s);
      if Stale(x.w) {
        StaleStepLowers(x, m.s);
      } else {
        assert AtSpec(x.w);
        OwnStepLowers(x.w, m.s);
      }
    }
  }

  lemma LastMove(x: System, moves: seq<Move>)
    requires AloneFrom(x, moves) && moves != []
    ensures var init, m := moves[..|moves| - 1], moves[|moves| - 1];
            AloneFrom(x, init) && OwnMove(m) && CanMove(Run(x, init), m) && Run(x, moves) == After(Run(x, init), m)
  {
    hide After, CanMove, OwnMove;
    var init := moves[..|moves| - 1];
    forall q | 0 <= q < |init| ensures OwnMove(init[q]) && CanMove(Run(x, init[..q]), init[q]) {
      assert init[..q] == moves[..q];
    }
  }

  lemma {:induction false} MovesLower(x: System, moves: seq<Move>)
    requires Sound(x.w) && AloneFrom(x, moves)
    ensures Sound(Run(x, moves).w) && Run(x, moves).w.spec == x.w.spec
    ensures |moves| + Left(Run(x, moves)) <= Left(x)
  {
    if moves != [] {
      var init, m := moves[..|moves| - 1], moves[|moves| - 1];
      LastMove(x, moves);
      hide *;
      MovesLower(x, init);
      MoveLowers(Run(x, init), m);
    }
  }

  lemma {:induction false} RunAppend(x: System, a: seq<Move>, b: seq<Move>)
    ensures Run(x, a + b) == Run(Run(x, a), b)
  {
    if b == [] {
      assert a + b == a;
    } else {
      assert (a + b)[..|a + b| - 1] == a + b[..|b| - 1];
      RunAppend(x, a, b[..|b| - 1]);
    }
  }

  lemma AllQuietIff(x: System)
    ensures AllQuiet(x) <==> Quiet(x.w) && !x.owed
  {
    if AllQuiet(x) {
      forall s | OwnStep(s) ensures !Enabled(x.w, s) {
        assert OwnMove(Of(s)) && !CanMove(x, Of(s));
      }
      assert OwnMove(Delivered) && !CanMove(x, Delivered);
    }
  }

  lemma {:induction false} RunKeepsLength(x: System, moves: seq<Move>)
    ensures |Run(x, moves).w.nodes| == |x.w.nodes|
  {
    if moves != [] {
      RunKeepsLength(x, moves[..|moves| - 1]);
      var before, m := Run(x, moves[..|moves| - 1]), moves[|moves| - 1];
      if m.Of? { Eviction.SetLength(before.w, m.s); }
    }
  }

  /** With these events every rollout finishes, after any run whatever, edits of the version in the middle of a
      reconcile included: left alone from there, operator, KMM and the deliveries run out of moves, and then
      every node is upgraded to the version wanted and untainted. */
  lemma EveryRolloutFinishes(w: World, before: seq<Move>, own: seq<Move>)
    requires w.phase.Idle? && w.pending && WellTainted(w.nodes)
    requires AloneFrom(Run(System(w, false), before), own)
    ensures |own| <= 57 * |w.nodes| + 19
    ensures var end := Run(System(w, false), before + own);
            AllQuiet(end) && end.w.spec != "" ==> Complete(end.w.nodes, end.w.spec)
  {
    var start := System(w, false);
    var mid := Run(start, before);
    assert Awake(start);
    RunIsAwake(start, before);
    RunKeepsLength(start, before);
    PotentialBound(mid.w);
    assert Sound(mid.w) && Left(mid) <= 57 * |w.nodes| + 19;
    hide *;
    MovesLower(mid, own);
    RunAppend(start, before, own);
    var end := Run(start, before + own);
    if AllQuiet(end) && end.w.spec != "" {
      AllQuietIff(end);
      QuietEnds(end.w);
      NeverStranded(w, before + own);
    }
  }
}
