/** The life of a DeviceConfig: reconciles that create and reconciles that finalize, call by call, with
    the user, KMM and other controllers acting in between and a failure possible after every call. */
module Lifecycle {
  import opened Options
  import opened Plans
  import opened Cluster
  import opened DeviceConfigs
  import opened UpgradePlan
  import opened Stores
  import opened LabelRemoval
  import opened ReconcilePlan

  /** The call a finalizing reconcile makes next. */
  datatype Stage = AskMetrics | RemoveMetrics | AskModule | RemoveModule | ListNodes | Clean(todo: seq<NodeWrite>) | Drop

  /** A running reconcile works with the copy of the DeviceConfig it read. */
  datatype Phase = Idle | Creating(todo: seq<Write>) | Finalizing(copy: DeviceConfig, stage: Stage)

  datatype World = World(id: ConfigId, store: Store, phase: Phase)

  datatype Step =
    | Create(spec: Spec, finalizers: seq<string>)   // the user creates the DeviceConfig
    | Edit(spec: Spec)                              // the user edits it
    | Delete                                        // the user asks for its deletion
    | OtherFinalizers(finalizers: seq<string>)      // another controller changes its own finalizers
    | ModuleGone                                    // the Module leaves the API
    | MetricsGone                                   // the DaemonSet leaves the API
    | Nodes(nodes: seq<Node>)                       // nodes come, go and change, but for our version label
    | Begin(upgrade: seq<NodeWrite>)                // a reconcile starts; the node writes it will make are arbitrary
    | Call(held: bool)                              // the running reconcile makes its next API call
    | Fail                                          // the running reconcile returns an error or crashes

  /** Nobody else writes the version label: a node that holds it held it before. */
  predicate NodesMay(before: seq<Node>, after: seq<Node>, id: ConfigId) {
    forall n <- after :: VersionLabel(id) in n.labels ==>
      exists m <- before :: m.name == n.name && Lookup(m.labels, VersionLabel(id)) == Lookup(n.labels, VersionLabel(id))
  }

  predicate Enabled(w: World, s: Step) {
    match s
    case Create(_, _) => w.store.config.None?
    case Edit(_) => w.store.config.Some?
    case Delete => w.store.config.Some?
    case OtherFinalizers(fs) =>
      w.store.config.Some? && (FINALIZER in fs <==> FINALIZER in w.store.config.value.finalizers)
    case Begin(_) => w.phase.Idle? && w.store.config.Some?
    case Call(_) => !w.phase.Idle?
    case Fail => !w.phase.Idle?
    case Nodes(nodes) => NodesMay(w.store.nodes, nodes, w.id)
    case _ => true
  }

  function SetConfig(w: World, m: ConfigMeta): World {
    w.(store := w.store.(config := Collect(m)))
  }

  function Sent(w: World, x: Stores.Write): World {
    w.(store := ApplyWrite(w.store, x))
  }

  /** A patch of a DeviceConfig that has left the API fails. */
  function NextCreate(w: World): World
    requires w.phase.Creating?
  {
    var todo := w.phase.todo;
    if todo == [] || (todo[0].SetFinalizers? && w.store.config.None?) then w.(phase := Idle)
    else Sent(w, todo[0]).(phase := Creating(todo[1..]))
  }

  function NextFinalize(w: World, held: bool): World
    requires w.phase.Finalizing?
  {
    var c, s := w.phase.copy, w.store;
    match w.phase.stage
    case AskMetrics => w.(phase := Finalizing(c, if s.metrics then RemoveMetrics else AskModule))
    case RemoveMetrics => Sent(w, Stores.DeleteMetrics).(phase := Idle)
    case AskModule =>
      w.(phase := Finalizing(c, if !s.mod.Absent? then RemoveModule else ListNodes))
    case ListNodes =>
      w.(phase := Finalizing(c, Clean(RemovalWrites(Matching(s.nodes, RemovalSelector(c.id, c.spec.driverVersion)), c.id))))
    case RemoveModule => Sent(w, Stores.DeleteModule(held)).(phase := Idle)
    case Clean(todo) =>
      if todo == [] then w.(phase := Finalizing(c, Drop))
      else Sent(w, PatchNode(todo[0])).(phase := Finalizing(c, Clean(todo[1..])))
    case Drop =>
      (if FINALIZER in c.finalizers then Sent(w, SetFinalizers(RemoveFinalizer(c.finalizers))) else w).(phase := Idle)
  }

  /** A step that is not enabled leaves the world as it is. */
  function Next(w: World, s: Step): World {
    if !Enabled(w, s) then w else
    match s
    case Create(spec, fs) => w.(store := w.store.(config := Some(ConfigMeta(spec, fs, false))))
    case Edit(spec) => w.(store := w.store.(config := Some(w.store.config.value.(spec := spec))))
    case Delete => SetConfig(w, w.store.config.value.(deleting := true))
    case OtherFinalizers(fs) => SetConfig(w, w.store.config.value.(finalizers := fs))
    case ModuleGone => w.(store := w.store.(mod := Absent))
    case MetricsGone => w.(store := w.store.(metrics := false))
    case Nodes(nodes) => w.(store := w.store.(nodes := nodes))
    case Begin(upgrade) =>
      var m := w.store.config.value;
      var c := DeviceConfig(w.id, m.spec, m.finalizers, m.deleting);
      w.(phase := if m.deleting then Finalizing(c, AskMetrics) else Creating(CreateWrites(c, upgrade)))
    case Call(held) => if w.phase.Creating? then NextCreate(w) else NextFinalize(w, held)
    case Fail => w.(phase := Idle)
  }

  function Exec(w: World, steps: seq<Step>): World {
    if steps == [] then w else Next(Exec(w, steps[..|steps| - 1]), steps[|steps| - 1])
  }

  // ----- The finalizer guard -----

  /** Whoever owns a Module or a metrics DaemonSet is held in the API by the finalizer. */
  predicate Guarded(s: Store) {
    !s.mod.Absent? || s.metrics ==> HasGuard(s)
  }

  /** What a creating reconcile still has to do never deletes, and sets the finalizer first if at all. */
  predicate SafeTodo(todo: seq<Stores.Write>) {
    && (forall i :: 0 <= i < |todo| ==> !todo[i].DeleteMetrics? && !todo[i].DeleteModule?)
    && (forall i :: 0 < i < |todo| ==> !todo[i].SetFinalizers?)
    && (todo != [] && todo[0].SetFinalizers? ==> FINALIZER in todo[0].finalizers)
  }

  predicate Inv(w: World) {
    && Guarded(w.store)
    && match w.phase
       case Idle => true
       case Creating(todo) => SafeTodo(todo) && (HasGuard(w.store) || (todo != [] && todo[0].SetFinalizers?))
       case Finalizing(_, stage) =>
         && (!stage.AskMetrics? && !stage.RemoveMetrics? ==> !w.store.metrics)
         && (stage.ListNodes? || stage.Clean? || stage.Drop? ==> w.store.mod.Absent?)
  }

  predicate NeitherGuardsNorDeletes(ws: seq<Stores.Write>) {
    forall i :: 0 <= i < |ws| ==> !ws[i].SetFinalizers? && !ws[i].DeleteMetrics? && !ws[i].DeleteModule?
  }

  lemma NeitherThen(a: seq<Stores.Write>, b: seq<Stores.Write>)
    requires NeitherGuardsNorDeletes(a) && NeitherGuardsNorDeletes(b)
    ensures NeitherGuardsNorDeletes(Then(a, b))
  {
  }

  lemma AfterGuardSafe(s: Spec, upgrade: seq<Stores.Write>)
    requires NeitherGuardsNorDeletes(upgrade)
    ensures NeitherGuardsNorDeletes(AfterGuard(s, upgrade))
  {
    NeitherThen(SchedulerWrites(s), [PutMetrics]);
    NeitherThen(upgrade, AfterUpgrade(s));
    NeitherThen([PutModule(s)], Then(upgrade, AfterUpgrade(s)));
    NeitherThen([PutBuildMap], Then([PutModule(s)], Then(upgrade, AfterUpgrade(s))));
  }

  lemma SafeAfterGuard(finalizers: seq<string>, rest: seq<Stores.Write>)
    requires NeitherGuardsNorDeletes(rest)
    ensures SafeTodo(Then(GuardWrites(finalizers), rest))
    ensures FINALIZER !in finalizers ==> Then(GuardWrites(finalizers), rest)[..1] == GuardWrites(finalizers)
  {
  }

  lemma CreateWritesSafe(c: DeviceConfig, upgrade: seq<NodeWrite>)
    ensures var todo := CreateWrites(c, upgrade);
            && SafeTodo(todo)
            && (FINALIZER !in c.finalizers ==> todo != [] && todo[0].SetFinalizers?)
  {
    AfterGuardSafe(c.spec, NodeWrites(upgrade));
    SafeAfterGuard(c.finalizers, AfterGuard(c.spec, NodeWrites(upgrade)));
  }

  lemma CallKeepsInv(w: World, held: bool)
    requires Inv(w) && !w.phase.Idle?
    ensures Inv(Next(w, Call(held)))
  {
    hide RemovalWrites, Matching, PatchStore, RemoveFinalizer;
    if w.phase.Creating? {
      hide NextFinalize;
      var todo := w.phase.todo;
      if todo != [] {
        assert forall i :: 0 <= i < |todo| - 1 ==> todo[1..][i] == todo[i + 1];
      }
    } else {
      hide NextCreate, SafeTodo, NodeWrites;
    }
  }

  lemma StepKeepsInv(w: World, s: Step)
    requires Inv(w)
    ensures Inv(Next(w, s))
  {
    if Enabled(w, s) {
      match s
      case Begin(upgrade) =>
        var m := w.store.config.value;
        CreateWritesSafe(DeviceConfig(w.id, m.spec, m.finalizers, m.deleting), upgrade);
      case Call(held) => CallKeepsInv(w, held);
      case _ =>
    }
  }

  lemma {:induction false} RunKeepsInv(w: World, steps: seq<Step>)
    requires Inv(w)
    ensures Inv(Exec(w, steps))
  {
    if steps != [] {
      RunKeepsInv(w, steps[..|steps| - 1]);
      StepKeepsInv(Exec(w, steps[..|steps| - 1]), steps[|steps| - 1]);
    }
  }

  /** Over every run, after every call of every reconcile: a DeviceConfig without the finalizer, and one
      that has left the API, owns neither a Module nor a metrics DaemonSet. */
  lemma FinalizerGuard(w: World, steps: seq<Step>)
    requires w.phase.Idle? && Guarded(w.store)
    ensures var s := Exec(w, steps).store;
            s.config.None? || FINALIZER !in s.config.value.finalizers ==> s.mod.Absent? && !s.metrics
  {
    RunKeepsInv(w, steps);
  }

  // ----- Labels go before the finalizer -----

  /** A pass removes nothing but version labels, and every node that still holds the version it read is due. */
  ghost predicate DueCover(todo: seq<NodeWrite>, nodes: seq<Node>, id: ConfigId, v: string) {
    && (forall i :: 0 <= i < |todo| ==> todo[i].patch == LabelPatch(VersionLabel(id), None))
    && (forall n <- nodes :: Holds(n, id, v) ==> exists i :: 0 <= i < |todo| && todo[i].name == n.name)
  }

  ghost predicate LabelInv(w: World) {
    w.phase.Finalizing? ==>
      var c := w.phase.copy;
      && c.id == w.id
      && (w.phase.stage.Clean? ==> DueCover(w.phase.stage.todo, w.store.nodes, w.id, c.spec.driverVersion))
      && (w.phase.stage.Drop? ==> !AnyHolds(w.store.nodes, w.id, c.spec.driverVersion))
  }

  lemma RemovalCovers(nodes: seq<Node>, id: ConfigId, v: string)
    ensures DueCover(RemovalWrites(Matching(nodes, RemovalSelector(id, v)), id), nodes, id, v)
  {
    var list := Matching(nodes, RemovalSelector(id, v));
    forall n | n in nodes && Holds(n, id, v) ensures exists i :: 0 <= i < |list| && RemovalWrites(list, id)[i].name == n.name {
      MatchingMember(nodes, RemovalSelector(id, v), n);
      var i :| 0 <= i < |list| && list[i] == n;
      assert RemovalWrites(list, id)[i].name == n.name;
    }
  }

  /** A removal adds no version label, and none is left on the nodes it names. */
  lemma RemovalPatch(nodes: seq<Node>, w: NodeWrite, id: ConfigId, v: string, n: Node)
    requires w.patch == LabelPatch(VersionLabel(id), None)
    requires n in PatchStore(nodes, w) && Holds(n, id, v)
    ensures n in nodes && n.name != w.name
  {
    var i :| 0 <= i < |nodes| && PatchStore(nodes, w)[i] == n;
  }

  lemma OnePatchCovers(nodes: seq<Node>, todo: seq<NodeWrite>, id: ConfigId, v: string)
    requires todo != [] && DueCover(todo, nodes, id, v)
    ensures DueCover(todo[1..], PatchStore(nodes, todo[0]), id, v)
  {
    var rest, nodes' := todo[1..], PatchStore(nodes, todo[0]);
    forall n | n in nodes' && Holds(n, id, v) ensures exists i :: 0 <= i < |rest| && rest[i].name == n.name {
      RemovalPatch(nodes, todo[0], id, v, n);
      var i :| 0 <= i < |todo| && todo[i].name == n.name;
      assert rest[i - 1].name == n.name;
    }
  }

  lemma NodesMayHolds(before: seq<Node>, after: seq<Node>, id: ConfigId, v: string, n: Node)
    requires NodesMay(before, after, id) && n in after && Holds(n, id, v)
    ensures exists m <- before :: m.name == n.name && Holds(m, id, v)
  {
    var m :| m in before && m.name == n.name && Lookup(m.labels, VersionLabel(id)) == Lookup(n.labels, VersionLabel(id));
    assert Holds(m, id, v);
  }

  lemma NodesKeepLabelInv(w: World, nodes: seq<Node>)
    requires LabelInv(w) && Enabled(w, Nodes(nodes))
    ensures LabelInv(Next(w, Nodes(nodes)))
  {
    if w.phase.Finalizing? {
      var v := w.phase.copy.spec.driverVersion;
      forall n | n in nodes && Holds(n, w.id, v) ensures exists m <- w.store.nodes :: m.name == n.name && Holds(m, w.id, v) {
        NodesMayHolds(w.store.nodes, nodes, w.id, v, n);
      }
    }
  }

  lemma CallKeepsLabelInv(w: World, held: bool)
    requires LabelInv(w)
    ensures LabelInv(Next(w, Call(held)))
  {
    hide Matching, RemovalWrites, SafeTodo;
    if w.phase.Finalizing? {
      var id, v := w.id, w.phase.copy.spec.driverVersion;
      match w.phase.stage
      case ListNodes => RemovalCovers(w.store.nodes, id, v);
      case Clean(todo) =>
        if todo != [] {
          OnePatchCovers(w.store.nodes, todo, id, v);
        }
      case _ =>
    }
  }

  lemma {:induction false} RunKeepsLabelInv(w: World, steps: seq<Step>)
    requires LabelInv(w)
    ensures LabelInv(Exec(w, steps)) && Exec(w, steps).id == w.id
  {
    hide DueCover, AnyHolds;
    if steps != [] {
      var before, s := Exec(w, steps[..|steps| - 1]), steps[|steps| - 1];
      RunKeepsLabelInv(w, steps[..|steps| - 1]);
      if s.Call? {
        CallKeepsLabelInv(before, s.held);
      } else if s.Nodes? && Enabled(before, s) {
        NodesKeepLabelInv(before, s.nodes);
      }
    }
  }

  /** The call that takes the finalizer away, or patches a node while finalizing, finds DaemonSet and Module
      gone; the first comes last. */
  lemma CallOrder(w: World, held: bool)
    requires Inv(w)
    ensures var after := Next(w, Call(held));
            && (w.phase.Finalizing? && w.store.nodes != after.store.nodes ==>
                  !w.store.metrics && w.store.mod.Absent? && w.phase.stage.Clean?)
            && (HasGuard(w.store) && !HasGuard(after.store) ==>
                  !w.store.metrics && w.store.mod.Absent? && w.phase.Finalizing? && w.phase.stage.Drop?)
  {
    hide RemovalWrites, Matching, PatchStore, RemoveFinalizer;
  }

  /** Over every run: when a call takes the finalizer away, DaemonSet and Module are gone, and no node
      carries the version label of the version that the finalizing reconcile read. */
  lemma LabelsThenFinalizer(w: World, steps: seq<Step>, held: bool)
    requires w.phase.Idle? && Guarded(w.store)
    requires HasGuard(Exec(w, steps).store) && !HasGuard(Next(Exec(w, steps), Call(held)).store)
    ensures var now := Exec(w, steps);
            && !now.store.metrics && now.store.mod.Absent?
            && now.phase.Finalizing? && now.phase.stage.Drop?
            && !AnyHolds(now.store.nodes, w.id, now.phase.copy.spec.driverVersion)
  {
    hide Exec, AnyHolds, DueCover, RemoveFinalizer, NextCreate, Next;
    RunKeepsInv(w, steps);
    RunKeepsLabelInv(w, steps);
    CallOrder(Exec(w, steps), held);
  }

  // ----- Deletion converges -----

  /** How far a deletion has come: DaemonSet there, Module there, a label of version v there, finalizer
      there, done. */
  ghost function Progress(w: World, v: string): nat {
    if w.store.metrics then 0
    else if !w.store.mod.Absent? then 1
    else if AnyHolds(w.store.nodes, w.id, v) then 2
    else if HasGuard(w.store) then 3
    else 4
  }

  /** What is left to delete: the DaemonSet, the Module (twice, if KMM holds it), the finalizer. */
  function Remaining(s: Store): nat {
    (if s.metrics then 1 else 0)
    + (match s.mod case Absent => 0 case Present(_) => 2 case Terminating(_) => 1)
    + (if HasGuard(s) then 1 else 0)
  }

  /** A creating reconcile that is still running may bring everything back once. */
  function Outstanding(w: World): nat {
    if w.phase.Creating? then 4 else Remaining(w.store)
  }

  predicate Deleting(w: World) {
    w.store.config.Some? ==> w.store.config.value.deleting
  }

  /** A call that finishes a finalizing reconcile without an error. */
  predicate Finishes(w: World, s: Step) {
    && s.Call? && w.phase.Finalizing?
    && (w.phase.stage.RemoveMetrics? || w.phase.stage.RemoveModule? || w.phase.stage.Drop?)
  }

  /** A pass without effect: it deletes a Module that KMM still holds, or finds gone what it came to delete,
      or has no finalizer to remove. (The code returns an error if the DaemonSet is gone by then; the store
      is the same either way.) */
  predicate Waits(w: World, s: Step) {
    && Finishes(w, s)
    && match w.phase.stage
       case RemoveMetrics => !w.store.metrics
       case RemoveModule => w.store.mod.Absent? || (w.store.mod.Terminating? && s.held)
       case Drop => !HasGuard(w.store) || FINALIZER !in w.phase.copy.finalizers
       case _ => false
  }

  lemma StepConverges(w: World, s: Step)
    requires Inv(w) && Deleting(w) && !s.Create?
    ensures Deleting(Next(w, s))
    ensures Next(w, s).phase.Creating? ==> w.phase.Creating?
    ensures Outstanding(Next(w, s)) + (if Finishes(w, s) && !Waits(w, s) then 1 else 0) <= Outstanding(w)
  {
    hide RemovalWrites, Matching, PatchStore, AfterGuard, UpgradeWrites, NodeWrites;
    if s.Call? && w.phase.Finalizing? {
      match w.phase.stage
      case Drop =>
      case Clean(todo) =>
      case _ =>
    }
  }

  lemma LabelsOnlyGo(w: World, s: Step, v: string)
    requires LabelInv(w) && !(s.Call? && w.phase.Creating?)
    ensures AnyHolds(Next(w, s).store.nodes, w.id, v) ==> AnyHolds(w.store.nodes, w.id, v)
  {
    hide RemovalWrites, Matching, PatchStore, Holds, SafeTodo;
    if n :| n in Next(w, s).store.nodes && Holds(n, w.id, v) {
      if s.Nodes? && Enabled(w, s) {
        NodesMayHolds(w.store.nodes, s.nodes, w.id, v, n);
      } else if s.Call? && w.phase.Finalizing? && w.phase.stage.Clean? && w.phase.stage.todo != [] {
        RemovalPatch(w.store.nodes, w.phase.stage.todo[0], w.id, v, n);
      }
    }
  }

  /** Nothing that a deletion has achieved comes back, except by a creating reconcile. */
  lemma StepMovesForward(w: World, s: Step, v: string)
    requires Inv(w) && LabelInv(w) && Deleting(w) && !s.Create? && !(s.Call? && w.phase.Creating?)
    ensures Progress(w, v) <= Progress(Next(w, s), v)
  {
    hide RemovalWrites, Matching, PatchStore, AnyHolds, LabelInv, SafeTodo, NodesMay, NextCreate, RemoveFinalizer, CreateWrites;
    LabelsOnlyGo(w, s, v);
  }

  function EffectivePasses(w: World, steps: seq<Step>): nat {
    if steps == [] then 0
    else
      var before, s := Exec(w, steps[..|steps| - 1]), steps[|steps| - 1];
      EffectivePasses(w, steps[..|steps| - 1]) + if Finishes(before, s) && !Waits(before, s) then 1 else 0
  }

  ghost predicate NoCreate(steps: seq<Step>) {
    forall i :: 0 <= i < |steps| ==> !steps[i].Create?
  }

  /** Once deletion is requested, whatever reconcile is running: at most four finalizing passes have an
      effect, and no creating reconcile starts. */
  lemma {:induction false} DeletionConverges(w: World, steps: seq<Step>)
    requires Inv(w) && Deleting(w) && NoCreate(steps)
    ensures Deleting(Exec(w, steps)) && Inv(Exec(w, steps))
    ensures Exec(w, steps).phase.Creating? ==> w.phase.Creating?
    ensures EffectivePasses(w, steps) + Outstanding(Exec(w, steps)) <= Outstanding(w) <= 4
  {
    if steps != [] {
      var init, s := steps[..|steps| - 1], steps[|steps| - 1];
      assert NoCreate(init) && !s.Create?;
      DeletionConverges(w, init);
      StepKeepsInv(Exec(w, init), s);
      StepConverges(Exec(w, init), s);
    }
  }

  /** And unless a creating reconcile is still running, nothing comes back: the deletion only moves forward,
      from the DaemonSet to the Module to the labels of any version to the finalizer. */
  lemma {:induction false} DeletionMovesForward(w: World, steps: seq<Step>, v: string)
    requires Inv(w) && LabelInv(w) && Deleting(w) && NoCreate(steps) && !w.phase.Creating?
    ensures Progress(w, v) <= Progress(Exec(w, steps), v)
  {
    if steps != [] {
      var init, s := steps[..|steps| - 1], steps[|steps| - 1];
      assert NoCreate(init) && !s.Create?;
      DeletionMovesForward(w, init, v);
      DeletionConverges(w, init);
      RunKeepsLabelInv(w, init);
      StepMovesForward(Exec(w, init), s, v);
    }
  }

  /** A creating reconcile that began before the deletion still creates the Module after it. */
  lemma CreationOutrunsDeletion(w: World) returns (before: seq<Step>, v: string)
    requires w.phase.Idle? && HasGuard(w.store) && !w.store.config.value.deleting
    requires w.store.mod.Absent? && !w.store.metrics
    ensures var now := Exec(w, before);
            && now.store.config == Some(w.store.config.value.(deleting := true))
            && now.store.mod.Absent? && Progress(now, v) >= 2
            && Next(now, Call(false)).store.mod.Present? && Progress(Next(now, Call(false)), v) == 1
  {
    v := "";
    before := [Begin([]), Call(false)] + [Delete];
    TwoCalls(w, Begin([]), Call(false));
    ExecAppend(w, [Begin([]), Call(false)], [Delete]);
    var w2 := Next(Next(w, Begin([])), Call(false));
    ExecOne(w2, Delete);
    SecondIsModule(w.store.config.value.spec, NodeWrites([]));
  }

  lemma SecondIsModule(s: Spec, upgrade: seq<Stores.Write>)
    ensures var todo := AfterGuard(s, upgrade);
            |todo| >= 2 && todo[0] == PutBuildMap && todo[1] == PutModule(s) && todo[1..][0] == PutModule(s)
  {
  }

  // ----- The code's outcomes are runs -----

  lemma {:induction false} ExecAppend(w: World, a: seq<Step>, b: seq<Step>)
    ensures Exec(w, a + b) == Exec(Exec(w, a), b)
  {
    if b == [] {
      assert a + b == a;
    } else {
      assert (a + b)[..|a + b| - 1] == a + b[..|b| - 1];
      ExecAppend(w, a, b[..|b| - 1]);
    }
  }

  lemma ExecOne(w: World, s: Step)
    ensures Exec(w, [s]) == Next(w, s)
  {
    assert [s][..0] == [];
  }

  function Calls(n: nat): seq<Step> {
    seq(n, _ => Call(false))
  }

  lemma {:induction false} CreatingFollowsTodo(w: World, n: nat)
    requires w.phase.Creating? && n <= |w.phase.todo| && w.store.config.Some? && SafeTodo(w.phase.todo)
    ensures Exec(w, Calls(n)) == w.(store := ApplyAll(w.store, w.phase.todo[..n]), phase := Creating(w.phase.todo[n..]))
    ensures Exec(w, Calls(n)).store.config.Some?
  {
    if n > 0 {
      var todo := w.phase.todo;
      CreatingFollowsTodo(w, n - 1);
      assert Calls(n)[..n - 1] == Calls(n - 1) && Calls(n)[n - 1] == Call(false);
      assert todo[..n][..n - 1] == todo[..n - 1] && todo[..n][n - 1] == todo[n - 1];
      assert todo[n - 1..][0] == todo[n - 1] && todo[n - 1..][1..] == todo[n..];
      assert ApplyAll(w.store, todo[..n]) == ApplyWrite(ApplyAll(w.store, todo[..n - 1]), todo[n - 1]);
    } else {
      assert w.phase.todo[..0] == [] && w.phase.todo[0..] == w.phase.todo;
    }
  }

  lemma {:induction false} CleaningFollowsTodo(w: World, todo: seq<NodeWrite>, n: nat)
    requires w.phase.Finalizing? && w.phase.stage == Clean(todo) && n <= |todo|
    ensures Exec(w, Calls(n)) == w.(store := ApplyAll(w.store, NodeWrites(todo[..n])), phase := Finalizing(w.phase.copy, Clean(todo[n..])))
  {
    if n > 0 {
      CleaningFollowsTodo(w, todo, n - 1);
      assert Calls(n)[..n - 1] == Calls(n - 1);
      assert NodeWrites(todo[..n])[..n - 1] == NodeWrites(todo[..n - 1]);
      assert todo[n - 1..][1..] == todo[n..];
    } else {
      assert todo[..0] == [] && todo[0..] == todo;
    }
  }

  function Copy(w: World): DeviceConfig
    requires w.store.config.Some?
  {
    var m := w.store.config.value;
    DeviceConfig(w.id, m.spec, m.finalizers, m.deleting)
  }

  /** One reconcile and nothing else: it begins, makes calls, and may fail. */
  ghost predicate OneReconcile(steps: seq<Step>) {
    && (forall q :: 0 <= q < |steps| ==> steps[q].Begin? || steps[q].Call? || steps[q].Fail?)
    && (forall q :: 0 < q < |steps| ==> !steps[q].Begin?)
  }

  lemma CreateOutcomeIsRun(w: World, done: nat) returns (steps: seq<Step>)
    requires w.phase.Idle? && w.store.config.Some? && !Copy(w).deleting
    requires done <= |CreatePlan(w.store.nodes, Copy(w))|
    ensures OneReconcile(steps) && steps != [] && steps[0] == Begin(UpgradeWrites(w.store.nodes, w.id, Copy(w).spec))
    ensures Exec(w, steps).phase.Idle?
    ensures Exec(w, steps).store == ApplyAll(w.store, CreatePlan(w.store.nodes, Copy(w))[..done])
  {
    hide ApplyAll, Exec, Then, AfterGuard, UpgradeWrites, NodeWrites, SafeTodo;
    var c := Copy(w);
    var upgrade := UpgradeWrites(w.store.nodes, c.id, c.spec);
    CreateWritesSafe(c, upgrade);
    steps := StopAfter(w, Begin(upgrade), CreateWrites(c, upgrade), done);
  }

  /** A creating reconcile that makes `done` writes and fails. */
  lemma StopAfter(w: World, begin: Step, plan: seq<Stores.Write>, done: nat) returns (steps: seq<Step>)
    requires Next(w, begin) == w.(phase := Creating(plan)) && w.store.config.Some?
    requires SafeTodo(plan) && done <= |plan| && begin.Begin?
    ensures OneReconcile(steps) && steps != [] && steps[0] == begin
    ensures Exec(w, steps) == w.(store := ApplyAll(w.store, plan[..done]), phase := Idle)
  {
    var w1 := w.(phase := Creating(plan));
    CreatingFollowsTodo(w1, done);
    ExecOne(w, begin);
    ExecAppend(w, [begin], Calls(done));
    ExecAppend(w, [begin] + Calls(done), [Fail]);
    ExecOne(Exec(w1, Calls(done)), Fail);
    steps := [begin] + Calls(done) + [Fail];
  }

  lemma TwoCalls(w: World, a: Step, b: Step)
    ensures Exec(w, [a, b]) == Next(Next(w, a), b)
  {
    ExecAppend(w, [a], [b]);
    ExecOne(w, a);
    ExecOne(Next(w, a), b);
    assert [a] + [b] == [a, b];
  }

  lemma FinalizeOutcomeIsRun(w: World, done: nat, held: bool) returns (steps: seq<Step>)
    requires w.phase.Idle? && w.store.config.Some? && Copy(w).deleting
    requires done <= |FinalizePlan(w.store, Copy(w), held)|
    ensures OneReconcile(steps)
    ensures Exec(w, steps).phase.Idle?
    ensures Exec(w, steps).store == ApplyAll(w.store, FinalizePlan(w.store, Copy(w), held)[..done])
  {
    var c, plan := Copy(w), FinalizePlan(w.store, Copy(w), held);
    if done == 0 {
      steps := [];
    } else if w.store.metrics || !w.store.mod.Absent? {
      ApplyOne(w.store, plan[0]);
      assert plan[..done] == [plan[0]];
      var first := if w.store.metrics then [Begin([]), Call(held)] else [Begin([]), Call(held)] + [Call(held)];
      TwoCalls(w, Begin([]), Call(held));
      ExecOne(Next(Next(w, Begin([])), Call(held)), Call(held));
      ExecAppend(w, [Begin([]), Call(held)], [Call(held)]);
      ExecAppend(w, first, [Call(held)]);
      ExecOne(Exec(w, first), Call(held));
      steps := first + [Call(held)];
    } else {
      steps := CleanOutcomeIsRun(w, done, held);
    }
  }

  function RemovalTodo(w: World): seq<NodeWrite>
    requires w.store.config.Some?
  {
    RemovalWrites(Matching(w.store.nodes, RemovalSelector(w.id, w.store.config.value.spec.driverVersion)), w.id)
  }

  /** A finalizing reconcile that has found neither DaemonSet nor Module and has cleaned n nodes. */
  lemma ReachesClean(w: World, n: nat) returns (steps: seq<Step>)
    requires w.phase.Idle? && w.store.config.Some? && Copy(w).deleting && !w.store.metrics && w.store.mod.Absent?
    requires n <= |RemovalTodo(w)|
    ensures OneReconcile(steps) && steps != []
    ensures Exec(w, steps) == w.(store := ApplyAll(w.store, NodeWrites(RemovalTodo(w)[..n])),
                                 phase := Finalizing(Copy(w), Clean(RemovalTodo(w)[n..])))
  {
    var first := [Begin([]), Call(false)] + [Call(false), Call(false)];
    TwoCalls(w, Begin([]), Call(false));
    TwoCalls(Next(Next(w, Begin([])), Call(false)), Call(false), Call(false));
    ExecAppend(w, [Begin([]), Call(false)], [Call(false), Call(false)]);
    CleaningFollowsTodo(Exec(w, first), RemovalTodo(w), n);
    ExecAppend(w, first, Calls(n));
    steps := first + Calls(n);
  }

  lemma CleanOutcomeIsRun(w: World, done: nat, held: bool) returns (steps: seq<Step>)
    requires w.phase.Idle? && w.store.config.Some? && Copy(w).deleting && !w.store.metrics && w.store.mod.Absent?
    requires done <= |FinalizePlan(w.store, Copy(w), held)|
    ensures OneReconcile(steps)
    ensures Exec(w, steps).phase.Idle?
    ensures Exec(w, steps).store == ApplyAll(w.store, FinalizePlan(w.store, Copy(w), held)[..done])
  {
    var todo := RemovalTodo(w);
    var a, b := NodeWrites(todo), UnguardWrites(Copy(w).finalizers);
    var n := if done <= |todo| then done else |todo|;
    var first := ReachesClean(w, n);
    assert NodeWrites(todo[..n]) == a[..n];
    if done <= |todo| {
      assert (a + b)[..done] == a[..n];
      steps := first + [Fail];
      ExecAppend(w, first, [Fail]);
      ExecOne(Exec(w, first), Fail);
    } else {
      assert (a + b)[..done] == a[..n] + b;
      steps := first + [Call(held), Call(held)];
      ExecAppend(w, first, [Call(held), Call(held)]);
      DropsFinalizer(Exec(w, first), held);
      ApplyAllAppend(w.store, a[..n], b);
    }
  }

  lemma DropsFinalizer(w: World, held: bool)
    requires w.phase.Finalizing? && w.phase.stage == Clean([])
    ensures Exec(w, [Call(held), Call(held)]).phase.Idle?
    ensures Exec(w, [Call(held), Call(held)]).store == ApplyAll(w.store, UnguardWrites(w.phase.copy.finalizers))
  {
    TwoCalls(w, Call(held), Call(held));
    if FINALIZER in w.phase.copy.finalizers {
      ApplyOne(w.store, SetFinalizers(RemoveFinalizer(w.phase.copy.finalizers)));
    }
  }

  /** Whatever `Reconcile` leaves in the store, with or without an error, some run of this system leaves
      there too: so the guard holds after every call of the code, as it does over every run. */
  lemma ReconcileKeepsGuard(w: World, done: nat, held: bool)
    requires w.phase.Idle? && w.store.config.Some? && Guarded(w.store)
    requires done <= |Plan(w.store, Copy(w), held)|
    ensures Guarded(ApplyAll(w.store, Plan(w.store, Copy(w), held)[..done]))
  {
    var steps;
    if Copy(w).deleting {
      steps := FinalizeOutcomeIsRun(w, done, held);
    } else {
      steps := CreateOutcomeIsRun(w, done);
    }
    RunKeepsInv(w, steps);
  }
}
