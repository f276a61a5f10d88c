/** The writes of one reconcile in order. What they amount to is told in `Effects`, without these plans. */
module ReconcilePlan {
  import opened Plans
  import opened Cluster
  import opened DeviceConfigs
  import opened UpgradePlan
  import opened Stores

  function GuardWrites(finalizers: seq<string>): seq<Write> {
    if FINALIZER in finalizers then [] else [SetFinalizers(finalizers + [FINALIZER])]
  }

  function SchedulerWrites(s: Spec): seq<Write> {
    if s.draDriverImage == "" then [PutScheduler, PutExtension] else []
  }

  function AfterUpgrade(s: Spec): seq<Write> {
    Then(SchedulerWrites(s), [PutMetrics])
  }

  /** What follows the finalizer guard, around the node writes of the upgrade. */
  function AfterGuard(s: Spec, upgrade: seq<Write>): seq<Write> {
    Then([PutBuildMap], Then([PutModule(s)], Then(upgrade, AfterUpgrade(s))))
  }

  function CreateWrites(c: DeviceConfig, upgrade: seq<NodeWrite>): seq<Write> {
    Then(GuardWrites(c.finalizers), AfterGuard(c.spec, NodeWrites(upgrade)))
  }

  function CreatePlan(nodes: seq<Node>, c: DeviceConfig): seq<Write> {
    CreateWrites(c, UpgradeWrites(nodes, c.id, c.spec))
  }

  function UnguardWrites(finalizers: seq<string>): seq<Write> {
    if FINALIZER in finalizers then [SetFinalizers(RemoveFinalizer(finalizers))] else []
  }

  function FinalizePlan(s: Store, c: DeviceConfig, held: bool): seq<Write> {
    if s.metrics then [DeleteMetrics]
    else if !s.mod.Absent? then [DeleteModule(held)]
    else Then(NodeWrites(RemovalWrites(Matching(s.nodes, RemovalSelector(c.id, c.spec.driverVersion)), c.id)),
              UnguardWrites(c.finalizers))
  }

  function Plan(s: Store, c: DeviceConfig, held: bool): seq<Write> {
    if c.deleting then FinalizePlan(s, c, held) else CreatePlan(s.nodes, c)
  }
}
