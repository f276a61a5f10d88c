/** The end of a DeviceConfig's life: what a deletion can still bring back, that it ends, and what it leaves. */
module Deletion {
  import opened Options
  import opened Plans
  import opened Cluster
  import opened UpgradePlan
  import opened Stores
  import opened LabelRemoval
  import opened ReconcilePlan
  import opened Lifecycle

  // ----- What can come back -----

  predicate Gone(s: Store) {
    s.mod.Absent? && !s.metrics
  }

  /** A write that creates the Module or the DaemonSet is still to come. */
  predicate Revives(todo: seq<Stores.Write>) {
    exists i :: 0 <= i < |todo| && (todo[i].PutModule? || todo[i].PutMetrics?)
  }

  ghost predicate StaysGone(w: World) {
    Inv(w) && Deleting(w) && Gone(w.store) && !(w.phase.Creating? && Revives(w.phase.todo))
  }

  lemma StepStaysGone(w: World, s: Step)
    requires StaysGone(w) && !s.Create?
    ensures StaysGone(Next(w, s))
  {
    StepKeepsInv(w, s);
    StepConverges(w, s);
    hide RemovalWrites, Matching, PatchStore, CreateWrites, Inv, RemoveFinalizer;
    if s.Call? && w.phase.Creating? && w.phase.todo != [] {
      var todo := w.phase.todo;
      assert !todo[0].PutModule? && !todo[0].PutMetrics?;
      assert Next(w, s).phase.Creating? ==> !Revives(Next(w, s).phase.todo) by {
        forall i | 0 <= i < |todo| - 1 ensures !todo[1..][i].PutModule? && !todo[1..][i].PutMetrics? {
          assert todo[1..][i] == todo[i + 1];
        }
      }
    }
  }

  lemma {:induction false} RunStaysGone(w: World, steps: seq<Step>)
    requires StaysGone(w) && NoCreate(steps)
    ensures StaysGone(Exec(w, steps))
  {
    if steps != [] {
      assert NoCreate(steps[..|steps| - 1]);
      RunStaysGone(w, steps[..|steps| - 1]);
      StepStaysGone(Exec(w, steps[..|steps| - 1]), steps[|steps| - 1]);
    }
  }

  lemma TodoRevives(w: World, i: nat)
    requires Inv(w) && w.store.config.Some? && w.phase.Creating? && i < |w.phase.todo|
    requires w.phase.todo[i].PutModule? || w.phase.todo[i].PutMetrics?
    ensures NoCreate(Calls(i + 1)) && !Gone(Exec(w, Calls(i + 1)).store)
  {
    var todo := w.phase.todo;
    CreatingFollowsTodo(w, i + 1);
    assert todo[..i + 1][..i] == todo[..i] && todo[..i + 1][i] == todo[i];
    assert ApplyAll(w.store, todo[..i + 1]) == ApplyWrite(ApplyAll(w.store, todo[..i]), todo[i]);
  }

  /** After a deletion was requested and with Module and DaemonSet gone: one of them can come back if and only
      if a creating reconcile is still running that has not made both of its writes yet. */
  lemma ComesBackIff(w: World)
    requires Inv(w) && Deleting(w) && w.store.config.Some? && Gone(w.store)
    ensures (exists steps :: NoCreate(steps) && !Gone(Exec(w, steps).store)) <==>
            w.phase.Creating? && Revives(w.phase.todo)
  {
    if w.phase.Creating? && Revives(w.phase.todo) {
      var i :| 0 <= i < |w.phase.todo| && (w.phase.todo[i].PutModule? || w.phase.todo[i].PutMetrics?);
      TodoRevives(w, i);
    } else {
      forall steps | NoCreate(steps) ensures Gone(Exec(w, steps).store) {
        RunStaysGone(w, steps);
      }
    }
  }

  // ----- The deletion ends -----

  /** A finalizing reconcile starts, or makes its next call and succeeds. */
  predicate PassStep(s: Step) {
    s.Begin? || s.Call?
  }

  ghost predicate OnlyPasses(w: World, steps: seq<Step>) {
    forall q :: 0 <= q < |steps| ==> PassStep(steps[q]) && Enabled(Exec(w, steps[..q]), steps[q])
  }

  /** The passes that find KMM still holding the Module. */
  function WaitingPasses(w: World, steps: seq<Step>): nat {
    if steps == [] then 0
    else
      WaitingPasses(w, steps[..|steps| - 1])
      + if Waits(Exec(w, steps[..|steps| - 1]), steps[|steps| - 1]) then 1 else 0
  }

  /** A deletion whose passes nobody disturbs, until the finalizer goes. */
  ghost predicate Finalized(w: World) {
    && Inv(w) && Deleting(w) && HasGuard(w.store) && !w.phase.Creating?
    && (w.phase.Finalizing? ==>
          && FINALIZER in w.phase.copy.finalizers
          && (w.phase.stage.RemoveMetrics? ==> w.store.metrics)
          && (w.phase.stage.RemoveModule? ==> !w.store.mod.Absent?)
          && (w.phase.stage.Clean? ==> |w.phase.stage.todo| <= |w.store.nodes|))
  }

  /** The calls that the current pass still has before it. */
  function Ahead(w: World): nat {
    var n := |w.store.nodes|;
    match w.phase
    case Idle => n + 7
    case Creating(_) => 0
    case Finalizing(_, stage) =>
      match stage
      case AskMetrics => n + 6
      case AskModule => n + 5
      case ListNodes => n + 4
      case Clean(todo) => |todo| + 2
      case _ => 1
  }

  function ToGo(w: World): nat {
    Remaining(w.store) * (|w.store.nodes| + 8) + Ahead(w)
  }

  lemma {:induction false} MatchingShorter(nodes: seq<Node>, sel: Labels)
    ensures |Matching(nodes, sel)| <= |nodes|
  {
    if nodes != [] { MatchingShorter(nodes[..|nodes| - 1], sel); }
  }

  /** One step of a pass: closer to the end, unless KMM still holds the Module. */
  lemma PassStepLowers(w: World, s: Step)
    requires Finalized(w) && PassStep(s) && Enabled(w, s) && HasGuard(Next(w, s).store)
    ensures Finalized(Next(w, s)) && |Next(w, s).store.nodes| == |w.store.nodes|
    ensures ToGo(Next(w, s)) < ToGo(w) + if Waits(w, s) then |w.store.nodes| + 8 else 0
  {
    StepKeepsInv(w, s);
    StepConverges(w, s);
    hide RemovalWrites, Matching, CreateWrites, Inv, RemoveFinalizer;
    var n, r := |w.store.nodes|, Remaining(w.store);
    if s.Call? {
      match w.phase.stage
      case ListNodes =>
        MatchingShorter(w.store.nodes, RemovalSelector(w.phase.copy.id, w.phase.copy.spec.driverVersion));
        RemovalLength(Matching(w.store.nodes, RemovalSelector(w.phase.copy.id, w.phase.copy.spec.driverVersion)), w.phase.copy.id);
      case _ =>
    }
    var r' := Remaining(Next(w, s).store);
    assert r' <= r;
    Fewer(r', r, n + 8);
  }

  lemma RemovalLength(list: seq<Node>, id: ConfigId)
    ensures |RemovalWrites(list, id)| == |list|
  {
  }

  lemma Fewer(a: nat, b: nat, m: nat)
    requires a <= b
    ensures a * m <= b * m
    ensures a < b ==> a * m + m <= b * m
  {
    if a < b {
      assert (a + 1) * m <= b * m;
    }
  }

  lemma GuardStaysLost(w: World, s: Step)
    requires Inv(w) && Deleting(w) && !w.phase.Creating? && PassStep(s) && !HasGuard(w.store)
    ensures !HasGuard(Next(w, s).store) && !Next(w, s).phase.Creating?
  {
    hide RemovalWrites, Matching, CreateWrites;
  }

  lemma Distribute(a: nat, b: nat, m: nat)
    ensures (a + b) * m == a * m + b * m
  {
  }

  lemma LastPassStep(w: World, steps: seq<Step>)
    requires OnlyPasses(w, steps) && steps != []
    ensures var init, s := steps[..|steps| - 1], steps[|steps| - 1];
            && OnlyPasses(w, init) && NoCreate(init) && PassStep(s) && Enabled(Exec(w, init), s)
            && Exec(w, steps) == Next(Exec(w, init), s)
            && WaitingPasses(w, steps) == WaitingPasses(w, init) + if Waits(Exec(w, init), s) then 1 else 0
  {
    hide Next, Enabled, Waits;
    var init := steps[..|steps| - 1];
    forall q | 0 <= q < |init| ensures PassStep(init[q]) && Enabled(Exec(w, init[..q]), init[q]) {
      assert init[..q] == steps[..q];
    }
    assert NoCreate(init) by { forall q | 0 <= q < |init| ensures !init[q].Create? { assert PassStep(init[q]); } }
  }

  lemma {:induction false} PassesLower(w: World, steps: seq<Step>)
    requires Finalized(w) && OnlyPasses(w, steps) && HasGuard(Exec(w, steps).store)
    ensures Finalized(Exec(w, steps)) && |Exec(w, steps).store.nodes| == |w.store.nodes|
    ensures |steps| + ToGo(Exec(w, steps)) <= ToGo(w) + WaitingPasses(w, steps) * (|w.store.nodes| + 8)
  {
    if steps != [] {
      var init, s := steps[..|steps| - 1], steps[|steps| - 1];
      var before := Exec(w, init);
      LastPassStep(w, steps);
      assert Inv(w) && Deleting(w) && !w.phase.Creating?;
      hide *;
      DeletionConverges(w, init);
      if !HasGuard(before.store) {
        GuardStaysLost(before, s);
        assert false;
      }
      PassesLower(w, init);
      PassStepLowers(before, s);
      Distribute(WaitingPasses(w, init), if Waits(before, s) then 1 else 0, |w.store.nodes| + 8);
    }
  }

  /** The deletion ends: passes that nobody disturbs take the finalizer away after a bounded number of calls,
      which grows only with the passes that find KMM still holding the Module. */
  lemma DeletionEnds(w: World, steps: seq<Step>)
    requires w.phase.Idle? && Guarded(w.store) && Deleting(w) && HasGuard(w.store)
    requires OnlyPasses(w, steps) && HasGuard(Exec(w, steps).store)
    ensures var n := |w.store.nodes|;
            |steps| <= (Remaining(w.store) + WaitingPasses(w, steps)) * (n + 8) + n + 7
  {
    hide Exec, OnlyPasses, WaitingPasses, HasGuard, Remaining, Guarded;
    PassesLower(w, steps);
    Distribute(Remaining(w.store), WaitingPasses(w, steps), |w.store.nodes| + 8);
  }

  /** And they never get stuck: from any point of such a deletion some pass steps take the finalizer away. */
  lemma FinalizerGoes(w: World) returns (steps: seq<Step>)
    requires Finalized(w)
    ensures OnlyPasses(w, steps) && !HasGuard(Exec(w, steps).store)
    decreases ToGo(w)
  {
    var s := if w.phase.Idle? then Begin([]) else Call(false);
    ExecOne(w, s);
    if HasGuard(Next(w, s).store) {
      assert !Waits(w, s);
      PassStepLowers(w, s);
      var rest := FinalizerGoes(Next(w, s));
      steps := [s] + rest;
      ExecAppend(w, [s], rest);
      forall q | 0 <= q < |steps| ensures PassStep(steps[q]) && Enabled(Exec(w, steps[..q]), steps[q]) {
        if q > 0 {
          assert steps[..q] == [s] + rest[..q - 1];
          ExecAppend(w, [s], rest[..q - 1]);
        }
      }
    } else {
      steps := [s];
    }
  }

  // ----- What a finalizer patch does to the finalizers of others -----

  /** The next call sends a finalizer list. */
  predicate SendsFinalizers(w: World) {
    && w.store.config.Some?
    && ((w.phase.Creating? && w.phase.todo != [] && w.phase.todo[0].SetFinalizers?)
        || (w.phase.Finalizing? && w.phase.stage.Drop? && FINALIZER in w.phase.copy.finalizers))
  }

  /** The running reconcile still has the finalizers that it read. */
  ghost predicate ReadThese(w: World, fs: seq<string>) {
    match w.phase
    case Idle => true
    case Creating(todo) =>
      && (forall i :: 0 < i < |todo| ==> !todo[i].SetFinalizers?)
      && (todo != [] && todo[0].SetFinalizers? ==> todo[0].finalizers == fs + [FINALIZER])
    case Finalizing(copy, _) => copy.finalizers == fs
  }

  lemma BeginReads(w: World, upgrade: seq<NodeWrite>)
    requires w.phase.Idle? && w.store.config.Some?
    ensures ReadThese(Next(w, Begin(upgrade)), w.store.config.value.finalizers)
  {
    var c := Copy(w);
    CreateWritesSafe(c, upgrade);
    AfterGuardSafe(c.spec, NodeWrites(upgrade));
    FirstOfCreate(c.finalizers, AfterGuard(c.spec, NodeWrites(upgrade)));
  }

  lemma FirstOfCreate(fs: seq<string>, rest: seq<Stores.Write>)
    requires NeitherGuardsNorDeletes(rest)
    ensures var todo := Then(GuardWrites(fs), rest);
            todo != [] && todo[0].SetFinalizers? ==> todo[0].finalizers == fs + [FINALIZER]
  {
  }

  lemma StepStillReads(w: World, s: Step, fs: seq<string>)
    requires ReadThese(w, fs) && !s.Begin?
    ensures ReadThese(Next(w, s), fs)
  {
    hide RemovalWrites, Matching, PatchStore;
    if s.Call? && w.phase.Creating? && w.phase.todo != [] {
      var todo := w.phase.todo;
      forall i | 0 <= i < |todo| - 1 ensures !todo[1..][i].SetFinalizers? { assert todo[1..][i] == todo[i + 1]; }
    }
  }

  lemma {:induction false} RunStillReads(w: World, steps: seq<Step>, fs: seq<string>)
    requires ReadThese(w, fs) && forall q :: 0 <= q < |steps| ==> !steps[q].Begin?
    ensures ReadThese(Exec(w, steps), fs)
  {
    if steps != [] {
      RunStillReads(w, steps[..|steps| - 1], fs);
      StepStillReads(Exec(w, steps[..|steps| - 1]), steps[|steps| - 1], fs);
    }
  }

  /** Whatever happens while a reconcile runs: after its finalizer patch, whichever of the two it is, another
      controller's finalizer is there if and only if it was there when the reconcile began. */
  lemma OthersKeptIff(w: World, upgrade: seq<NodeWrite>, during: seq<Step>, held: bool, f: string)
    requires w.phase.Idle? && w.store.config.Some? && f != FINALIZER
    requires forall q :: 0 <= q < |during| ==> !during[q].Begin?
    requires SendsFinalizers(Exec(w, [Begin(upgrade)] + during))
    ensures var after := Next(Exec(w, [Begin(upgrade)] + during), Call(held)).store.config;
            (after.Some? && f in after.value.finalizers) <==> f in w.store.config.value.finalizers
  {
    var fs := w.store.config.value.finalizers;
    BeginReads(w, upgrade);
    ExecOne(w, Begin(upgrade));
    ExecAppend(w, [Begin(upgrade)], during);
    RunStillReads(Next(w, Begin(upgrade)), during, fs);
    PatchReplaces(Exec(w, [Begin(upgrade)] + during), held, fs, f);
  }

  lemma PatchReplaces(w: World, held: bool, fs: seq<string>, f: string)
    requires SendsFinalizers(w) && ReadThese(w, fs) && f != FINALIZER
    ensures var after := Next(w, Call(held)).store.config;
            (after.Some? && f in after.value.finalizers) <==> f in fs
  {
    hide RemovalWrites, Matching, PatchStore, PatchAll;
    if f in fs { assert f in RemoveFinalizer(fs) && f in fs + [FINALIZER]; }
  }

  /** So a finalizer added since is lost: the first reconcile of a new DeviceConfig can do it. */
  lemma FinalizerLost(w: World, other: string) returns (before: seq<Step>)
    requires w.phase.Idle? && other != FINALIZER
    requires w.store.config.Some? && w.store.config.value.finalizers == [] && !w.store.config.value.deleting
    ensures var now := Exec(w, before);
            && now.store.config == Some(w.store.config.value.(finalizers := [other]))
            && Next(now, Call(false)).store.config == Some(w.store.config.value.(finalizers := [FINALIZER]))
  {
    before := [Begin([]), OtherFinalizers([other])];
    TwoCalls(w, Begin([]), OtherFinalizers([other]));
    var c := Copy(w);
    assert CreateWrites(c, [])[0] == SetFinalizers([FINALIZER]) by {
      assert GuardWrites(c.finalizers) == [SetFinalizers([] + [FINALIZER])];
      assert [] + [FINALIZER] == [FINALIZER];
    }
  }

  // ----- What a deletion leaves on the nodes -----

  lemma StepKeepsTaints(w: World, s: Step, i: nat)
    requires LabelInv(w) && !w.phase.Creating? && Deleting(w) && !s.Create? && !s.Nodes? && i < |w.store.nodes|
    ensures |Next(w, s).store.nodes| == |w.store.nodes|
    ensures Next(w, s).store.nodes[i].taints == w.store.nodes[i].taints
  {
    hide RemovalWrites, Matching, CreateWrites, SafeTodo, RemoveFinalizer, AnyHolds, Holds;
    if s.Call? && w.phase.Finalizing? && w.phase.stage.Clean? && w.phase.stage.todo != [] {
      assert w.phase.stage.todo[0].patch.taints == None;
    }
  }

  /** No call of a finalizing reconcile writes a taint: a node that was cordoned for upgrade when the deletion
      was requested keeps its taint through the whole deletion and after it, unless somebody else removes it. */
  lemma {:induction false} DeletionLeavesTaints(w: World, steps: seq<Step>, i: nat)
    requires Inv(w) && LabelInv(w) && Deleting(w) && !w.phase.Creating? && i < |w.store.nodes|
    requires forall q :: 0 <= q < |steps| ==> !steps[q].Create? && !steps[q].Nodes?
    ensures |Exec(w, steps).store.nodes| == |w.store.nodes|
    ensures Exec(w, steps).store.nodes[i].taints == w.store.nodes[i].taints
  {
    if steps != [] {
      var init := steps[..|steps| - 1];
      assert NoCreate(init);
      DeletionLeavesTaints(w, init, i);
      RunKeepsLabelInv(w, init);
      DeletionConverges(w, init);
      StepKeepsTaints(Exec(w, init), steps[|steps| - 1], i);
    }
  }
}
