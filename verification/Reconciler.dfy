/** The reconcile loop. Its contracts say which writes a call makes, in which order, and that an error
    leaves a prefix of them behind. */
module Reconciler {
  import opened Options
  import opened Plans
  import opened Cluster
  import opened DeviceConfigs
  import opened KmmModule
  import opened UpgradePlan
  import opened Stores
  import opened ReconcilePlan
  import opened Effects
  import opened ApiClient
  import opened UpgradeApi

  // ----- The Go code -----

  class DeviceConfigObject {
    const id: ConfigId
    var spec: Spec
    var finalizers: seq<string>
    var deleting: bool

    function Value(): DeviceConfig
      reads this
    {
      DeviceConfig(id, spec, finalizers, deleting)
    }

    constructor (c: DeviceConfig)
      ensures Value() == c
    {
      id, spec, finalizers, deleting := c.id, c.spec, c.finalizers, c.deleting;
    }
  }

  class DeviceConfigReconciler {
    const client: Client
    const upgradeHandler: UpgradeImpl

    ghost predicate Valid() {
      upgradeHandler.client == client
    }

    constructor (client: Client)
      ensures Valid() && this.client == client
    {
      this.client := client;
      this.upgradeHandler := new UpgradeImpl(client);
    }

    method SetFinalizer(c: DeviceConfigObject) returns (err: bool, ghost done: nat)
      modifies c`finalizers, client
      ensures c.finalizers == if FINALIZER in old(c.finalizers) then old(c.finalizers) else old(c.finalizers) + [FINALIZER]
      ensures Progressed(old(client.store), client.store, GuardWrites(old(c.finalizers)), done, err)
    {
      if FINALIZER in c.finalizers {
        return false, 0;
      }
      var before := c.finalizers;
      c.finalizers := AddFinalizer(c.finalizers);
      ghost var sent;
      err, sent := client.PatchFinalizers(before, c.finalizers);
      OneWrite(old(client.store), SetFinalizers(before + [FINALIZER]), sent, err);
      done := if sent then 1 else 0;
      assert before != before + [FINALIZER];
    }

    method HandleBuildConfigMap() returns (err: bool, ghost done: nat)
      modifies client
      ensures Progressed(old(client.store), client.store, [PutBuildMap], done, err)
    {
      ghost var sent;
      err, sent := client.Send(PutBuildMap);
      OneWrite(old(client.store), PutBuildMap, sent, err);
      done := if sent then 1 else 0;
    }

    method HandleKMMModule(c: DeviceConfigObject) returns (err: bool, ghost done: nat)
      modifies client
      ensures Progressed(old(client.store), client.store, [PutModule(c.spec)], done, err)
      ensures client.store == old(client.store).(mod := client.store.mod)
      ensures client.store.mod == old(client.store).mod || ModuleFollows(old(client.store).mod, client.store.mod, c.spec)
      ensures !err ==> ModuleFollows(old(client.store).mod, client.store.mod, c.spec)
    {
      PutFollows(client.store, c.spec);
      var r, spec := client.GetModule();
      done := 0;
      if r.Failed? {
        return true, 0;
      }
      var kmmMod := new ModuleObject(if r.NotFound? then EMPTY else spec);
      kmmMod.SetAsDesired(c.spec);
      ghost var sent;
      err, sent := client.PutModule(kmmMod.Value());
      OneWrite(old(client.store), PutModule(c.spec), sent, err);
      done := if sent then 1 else 0;
    }

    method HandleModuleVersionUpgrade(c: DeviceConfigObject) returns (err: bool, ghost done: nat)
      requires Valid()
      modifies client
      ensures Progressed(old(client.store), client.store,
                         NodeWrites(UpgradeWrites(old(client.store).nodes, c.id, c.spec)), done, err)
    {
      if c.spec.driverVersion == "" {
        return false, 0;
      }
      UpgradeInHalves(client.store.nodes, c.id, c.spec);
      var targetedNodes;
      err, targetedNodes := upgradeHandler.GetTargetedNodes(c.Value());
      if err {
        return true, 0;
      }
      err, done := UpgradeTargets(c, targetedNodes, Matching(client.store.nodes, MatchingLabels(c.spec.selector)));
    }

    method UpgradeTargets(c: DeviceConfigObject, targetedNodes: seq<NodeObject>, ghost list: seq<Node>)
      returns (err: bool, ghost done: nat)
      requires Valid() && Values(targetedNodes) == list
      modifies client, set i | 0 <= i < |targetedNodes| :: targetedNodes[i].labels
      ensures Progressed(old(client.store), client.store,
                         Then(NodeWrites(UncordonWrites(list, c.id, c.spec.driverVersion)),
                           Then(NodeWrites(CordonWrites(list, c.id, c.spec.driverVersion)),
                                NodeWrites(KickoffWrites(list, c.id, c.spec.driverVersion)))), done, err)
    {
      hide ApplyAll, NodeWrites, Then, UncordonWrites, CordonWrites, KickoffWrites;
      ghost var s0, id, v := client.store, c.id, c.spec.driverVersion;
      ghost var a := NodeWrites(UncordonWrites(list, id, v));
      ghost var b := Then(NodeWrites(CordonWrites(list, id, v)), NodeWrites(KickoffWrites(list, id, v)));
      err, done := UncordonFinished(c, targetedNodes, list);
      ghost var s1 := client.store;
      if err {
        CutShort(s0, s1, a, b, done);
        return;
      }
      err, done := CordonAndKickoff(c, targetedNodes, list);
      ThenProgressed(s0, s1, client.store, a, b, done, err);
      done := done + |a|;
    }

    /** The first half of the upgrade. It leaves the list it read as it was. */
    method UncordonFinished(c: DeviceConfigObject, targetedNodes: seq<NodeObject>, ghost list: seq<Node>)
      returns (err: bool, ghost done: nat)
      requires Valid() && Values(targetedNodes) == list
      modifies client
      ensures Progressed(old(client.store), client.store,
                         NodeWrites(UncordonWrites(list, c.id, c.spec.driverVersion)), done, err)
      ensures Values(targetedNodes) == list
    {
      hide ApplyAll, NodeWrites;
      NoWrites(client.store);
      var node := upgradeHandler.GetUpgradedNode(c.Value(), targetedNodes);
      err, done := upgradeHandler.UncordonUpgradedNode(node);
    }

    /** The second half of the upgrade, on the list read before the first half. */
    method CordonAndKickoff(c: DeviceConfigObject, targetedNodes: seq<NodeObject>, ghost list: seq<Node>)
      returns (err: bool, ghost done: nat)
      requires Valid() && Values(targetedNodes) == list
      modifies client, set i | 0 <= i < |targetedNodes| :: targetedNodes[i].labels
      ensures Progressed(old(client.store), client.store,
                         Then(NodeWrites(CordonWrites(list, c.id, c.spec.driverVersion)),
                              NodeWrites(KickoffWrites(list, c.id, c.spec.driverVersion))), done, err)
    {
      hide ApplyAll, NodeWrites, Then;
      NoWrites(client.store);
      ghost var id, v, s0 := c.id, c.spec.driverVersion, client.store;
      ghost var b, k := NodeWrites(CordonWrites(list, id, v)), NodeWrites(KickoffWrites(list, id, v));
      var node := upgradeHandler.GetNodeForUpgrade(c.Value(), targetedNodes);
      err, done := upgradeHandler.CordonNodeForUpgrade(c.Value(), node);
      assert node != null ==> Lookup(node.Value().labels, VersionLabel(id)) != Some(v);
      ghost var s1 := client.store;
      assert Progressed(s0, s1, b, done, err);
      if err {
        CutShort(s0, s1, b, k, done);
        return;
      }
      NoWrites(s1);
      err, done := upgradeHandler.KickoffUpgrade(c.Value(), node);
      assert Progressed(s1, client.store, k, done, err);
      ThenProgressed(s0, s1, client.store, b, k, done, err);
      done := done + |b|;
    }

    method HandleCustomScheduler() returns (err: bool, ghost done: nat)
      modifies client
      ensures Progressed(old(client.store), client.store, [PutScheduler, PutExtension], done, err)
    {
      ghost var s0 := client.store;
      ghost var sent;
      assert [PutScheduler, PutExtension] == [PutScheduler] + [PutExtension];
      err, sent := client.Send(PutScheduler);
      OneWrite(s0, PutScheduler, sent, err);
      done := if sent then 1 else 0;
      if err {
        CutShort(s0, client.store, [PutScheduler], [PutExtension], done);
        return;
      }
      ghost var s1 := client.store;
      err, sent := client.Send(PutExtension);
      OneWrite(s1, PutExtension, sent, err);
      done := if sent then 1 else 0;
      ThenProgressed(s0, s1, client.store, [PutScheduler], [PutExtension], done, err);
      done := done + 1;
    }

    method HandleNodeMetrics() returns (err: bool, ghost done: nat)
      modifies client
      ensures Progressed(old(client.store), client.store, [PutMetrics], done, err)
    {
      ghost var sent;
      err, sent := client.Send(PutMetrics);
      OneWrite(old(client.store), PutMetrics, sent, err);
      done := if sent then 1 else 0;
    }

    /** One step of the deletion: the metrics DaemonSet first, then the Module, then the labels and the finalizer. */
    method FinalizeDeviceConfig(c: DeviceConfigObject) returns (err: bool, ghost done: nat, ghost held: bool)
      requires Valid()
      modifies c`finalizers, client
      ensures Progressed(old(client.store), client.store, FinalizePlan(old(client.store), old(c.Value()), held), done, err)
      ensures Finalized(old(client.store), client.store, old(c.Value()), err)
    {
      hide Finalized, FinalizePlan, Progressed;
      ghost var s0, value := client.store, c.Value();
      err, done, held := FinalizeStep(c);
      FinalizeMeans(s0, client.store, value, held, done, err);
    }

    method FinalizeStep(c: DeviceConfigObject) returns (err: bool, ghost done: nat, ghost held: bool)
      requires Valid()
      modifies c`finalizers, client
      ensures Progressed(old(client.store), client.store, FinalizePlan(old(client.store), old(c.Value()), held), done, err)
    {
      ghost var s0 := client.store;
      done, held := 0, false;
      var ds := client.GetMetrics();
      if ds.Failed? {
        return true, 0, false;
      } else if ds.Found? {
        ghost var sent;
        err, sent := client.Send(DeleteMetrics);
        OneWrite(s0, DeleteMetrics, sent, err);
        done := if sent then 1 else 0;
        return;
      }
      var m, _ := client.GetModule();
      if m.Failed? {
        return true, 0, false;
      } else if m.Found? {
        ghost var sent;
        var r;
        r, sent, held := client.DeleteModule();
        err := r.Failed?;
        OneWrite(s0, Write.DeleteModule(held), sent, err);
        done := if sent then 1 else 0;
        return;
      }
      err, done, held := RemoveLabelsAndFinalizer(c);
    }

    method RemoveLabelsAndFinalizer(c: DeviceConfigObject) returns (err: bool, ghost done: nat, ghost held: bool)
      requires Valid() && !client.store.metrics && client.store.mod.Absent?
      modifies c`finalizers, client
      ensures Progressed(old(client.store), client.store, FinalizePlan(old(client.store), old(c.Value()), held), done, err)
    {
      ghost var s0 := client.store;
      ghost var a := NodeWrites(RemovalWrites(Matching(s0.nodes, RemovalSelector(c.id, c.spec.driverVersion)), c.id));
      ghost var b := UnguardWrites(c.finalizers);
      held := false;
      err, done := upgradeHandler.RemoveUpgradeLabels(c.Value());
      ghost var s1 := client.store;
      if err {
        CutShort(s0, s1, a, b, done);
        return;
      }
      var before := c.finalizers;
      c.finalizers := RemoveFinalizer(c.finalizers);
      ghost var sent;
      err, sent := client.PatchFinalizers(before, c.finalizers);
      done := if sent && b != [] then 1 else 0;
      if b != [] {
        OneWrite(s1, b[0], sent, err);
      }
      ThenProgressed(s0, s1, client.store, a, b, done, err);
      done := done + |a|;
    }

    method Reconcile(c: DeviceConfigObject) returns (err: bool, ghost done: nat, ghost held: bool)
      requires Valid()
      modifies c`finalizers, client
      ensures Progressed(old(client.store), client.store, Plan(old(client.store), old(c.Value()), held), done, err)
      ensures old(c.deleting) ==> Finalized(old(client.store), client.store, old(c.Value()), err)
      ensures !old(c.deleting) ==> Created(old(client.store), client.store, old(c.Value()), err)
    {
      hide Finalized, Created, CreatePlan, FinalizePlan, Progressed;
      if c.deleting {
        err, done, held := FinalizeDeviceConfig(c);
      } else {
        held := false;
        err, done := CreateDeviceConfig(c);
      }
    }

    method CreateDeviceConfig(c: DeviceConfigObject) returns (err: bool, ghost done: nat)
      requires Valid()
      modifies c`finalizers, client
      ensures Progressed(old(client.store), client.store, CreatePlan(old(client.store).nodes, old(c.Value())), done, err)
      ensures Created(old(client.store), client.store, old(c.Value()), err)
    {
      hide Created, CreatePlan, Progressed;
      ghost var s0, value := client.store, c.Value();
      err, done := CreateSteps(c);
      CreateMeans(s0, client.store, value, done, err);
    }

    method CreateSteps(c: DeviceConfigObject) returns (err: bool, ghost done: nat)
      requires Valid()
      modifies c`finalizers, client
      ensures Progressed(old(client.store), client.store, CreatePlan(old(client.store).nodes, old(c.Value())), done, err)
    {
      hide ApplyAll, NodeWrites, UpgradeWrites, Then, AfterUpgrade;
      ghost var s0, first := client.store, GuardWrites(c.finalizers);
      ghost var rest := AfterGuard(c.spec, NodeWrites(UpgradeWrites(s0.nodes, c.id, c.spec)));
      err, done := SetFinalizer(c);
      ghost var s1 := client.store;
      if err {
        CutShort(s0, s1, first, rest, done);
        return;
      }
      GuardKeepsNodes(s0, s1, old(c.finalizers), done);
      err, done := CreateAll(c);
      ThenProgressed(s0, s1, client.store, first, rest, done, err);
      done := done + |first|;
    }

    /** What follows the finalizer guard. */
    method CreateAll(c: DeviceConfigObject) returns (err: bool, ghost done: nat)
      requires Valid()
      modifies client
      ensures Progressed(old(client.store), client.store,
                         AfterGuard(c.spec, NodeWrites(UpgradeWrites(old(client.store).nodes, c.id, c.spec))), done, err)
    {
      hide ApplyAll, NodeWrites, UpgradeWrites, Then, AfterUpgrade;
      ghost var s0, s := client.store, c.spec;
      ghost var upgrade := NodeWrites(UpgradeWrites(s0.nodes, c.id, s));
      err, done := HandleBuildConfigMap();
      ghost var s1 := client.store;
      if err {
        CutShort(s0, s1, [PutBuildMap], Then([PutModule(s)], Then(upgrade, AfterUpgrade(s))), done);
        return;
      }
      OneDone(s0, s1, PutBuildMap, done);
      err, done := ModuleAndAfter(c);
      ThenProgressed(s0, s1, client.store, [PutBuildMap], Then([PutModule(s)], Then(upgrade, AfterUpgrade(s))), done, err);
      done := done + 1;
    }

    method ModuleAndAfter(c: DeviceConfigObject) returns (err: bool, ghost done: nat)
      requires Valid()
      modifies client
      ensures var upgrade := NodeWrites(UpgradeWrites(old(client.store).nodes, c.id, c.spec));
              Progressed(old(client.store), client.store, Then([PutModule(c.spec)], Then(upgrade, AfterUpgrade(c.spec))), done, err)
    {
      hide ApplyAll, NodeWrites, UpgradeWrites, Then, AfterUpgrade;
      ghost var s0, s := client.store, c.spec;
      ghost var upgrade := NodeWrites(UpgradeWrites(s0.nodes, c.id, s));
      err, done := HandleKMMModule(c);
      ghost var s1 := client.store;
      if err {
        CutShort(s0, s1, [PutModule(s)], Then(upgrade, AfterUpgrade(s)), done);
        return;
      }
      OneDone(s0, s1, PutModule(s), done);
      err, done := UpgradeAndAfter(c);
      ThenProgressed(s0, s1, client.store, [PutModule(s)], Then(upgrade, AfterUpgrade(s)), done, err);
      done := done + 1;
    }

    method UpgradeAndAfter(c: DeviceConfigObject) returns (err: bool, ghost done: nat)
      requires Valid()
      modifies client
      ensures var upgrade := NodeWrites(UpgradeWrites(old(client.store).nodes, c.id, c.spec));
              Progressed(old(client.store), client.store, Then(upgrade, AfterUpgrade(c.spec)), done, err)
    {
      hide ApplyAll, NodeWrites, UpgradeWrites, Then, AfterUpgrade;
      ghost var s0 := client.store;
      ghost var upgrade := NodeWrites(UpgradeWrites(s0.nodes, c.id, c.spec));
      err, done := HandleModuleVersionUpgrade(c);
      ghost var s1 := client.store;
      if err {
        CutShort(s0, s1, upgrade, AfterUpgrade(c.spec), done);
        return;
      }
      err, done := SchedulerAndMetrics(c);
      ThenProgressed(s0, s1, client.store, upgrade, AfterUpgrade(c.spec), done, err);
      done := done + |upgrade|;
    }

    method SchedulerAndMetrics(c: DeviceConfigObject) returns (err: bool, ghost done: nat)
      modifies client
      ensures Progressed(old(client.store), client.store, AfterUpgrade(c.spec), done, err)
    {
      ghost var s0 := client.store;
      if c.spec.draDriverImage == "" {
        err, done := HandleCustomScheduler();
        if err {
          CutShort(s0, client.store, SchedulerWrites(c.spec), [PutMetrics], done);
          return;
        }
      }
      ghost var s1 := client.store;
      err, done := HandleNodeMetrics();
      ThenProgressed(s0, s1, client.store, SchedulerWrites(c.spec), [PutMetrics], done, err);
      done := done + |SchedulerWrites(c.spec)|;
    }
  }

  lemma UpgradeInHalves(nodes: seq<Node>, id: ConfigId, s: Spec)
    requires s.driverVersion != ""
    ensures var list, v := Matching(nodes, MatchingLabels(s.selector)), s.driverVersion;
            NodeWrites(UpgradeWrites(nodes, id, s)) == Then(NodeWrites(UncordonWrites(list, id, v)),
              Then(NodeWrites(CordonWrites(list, id, v)), NodeWrites(KickoffWrites(list, id, v))))
  {
    var list, v := Matching(nodes, MatchingLabels(s.selector)), s.driverVersion;
    NodeWritesThen(CordonWrites(list, id, v), KickoffWrites(list, id, v));
    NodeWritesThen(UncordonWrites(list, id, v), Then(CordonWrites(list, id, v), KickoffWrites(list, id, v)));
  }

  lemma NodeWritesThen(a: seq<NodeWrite>, b: seq<NodeWrite>)
    ensures NodeWrites(Then(a, b)) == Then(NodeWrites(a), NodeWrites(b))
  {
  }

  lemma GuardKeepsNodes(s0: Store, s1: Store, finalizers: seq<string>, done: nat)
    requires Progressed(s0, s1, GuardWrites(finalizers), done, false)
    ensures s1.nodes == s0.nodes
  {
    var ws := GuardWrites(finalizers);
    assert ws[..done] == ws;
    if ws != [] {
      ApplyOne(s0, ws[0]);
      assert ws == [ws[0]];
    }
  }
}
