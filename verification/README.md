# Rolling driver upgrades, verified

A Dafny 4.11 model of the operator for AWS AI chips: the rolling upgrade of the kernel driver across nodes, the
reconcile loop that drives it and creates and deletes the KMM Module and the node-metrics DaemonSet, the mapping of
node events to DeviceConfigs, and the editing of the Module. `dafny verify dfyconfig.toml` checks everything.

## How the model is built

- **Nodes and patches** (`Cluster`, `NodeState`, `UpgradePlan`). A node has a name, labels and a taint list. The
  upgrade state is derived from two labels and the wanted version. A write is a JSON merge patch (section 2 of
  RFC 7396): single label keys, and the taint list as a whole.
- **The Go code** (`ApiClient`, `UpgradeApi`, `KmmModule`, `Filter`, `Reconciler`, `ReconcilePlan`, `Effects`). Classes and
  methods with the code's loops, early returns and sharing: the node a Go range loop returns is a copy that shares its label
  map with the list. Every API call may fail, and a failed write may or may not have reached the store. The contracts say
  that what a method leaves in the store is a prefix of a plan of writes (`Stores.Progressed`), and all of it if there was
  no error; `Effects` says field by field what that amounts to, without the plans.
- **The rollout of one DeviceConfig** (`Rollout`). A reconcile is a List and three writes. Between any two of these calls
  KMM changes ready labels, other writers change the nodes, the user edits the version, and after any of them the
  reconcile may fail. A run is any sequence of steps; theorems about runs are in `InFlight`, `Eviction`, `Disruption`,
  `Progress`, `Trace`, `WakeUp` and `Liveness`. `Owned` adds the events of owned objects.
- **Many DeviceConfigs** (`Fleets`, `Projection`, `Overlap`, `Collision`). The same on whole nodes and merge patches, for
  any number of DeviceConfigs. `Projection.RunSeen` shows that each of them sees a run of `Rollout`, so every theorem about
  runs carries over. `UpgradeRuns` shows that whatever the upgrade code leaves in the store is left there by such a run.
- **Creation and deletion** (`Lifecycle`, `Deletion`). Reconciles call by call, with the user, KMM and other controllers in
  between, again tied to the code by lemmas that turn each outcome of the code into a run.

## Assumptions

- A List returns the current state, in an order that does not change; the node set and its selection are fixed, and
  selectors do not mention the labels that KMM and the operator write. `InFlight.StaleListBreaksIt` shows the first is needed.
  In `Lifecycle` nodes come, go and change freely, but nobody else gives a node the version label.
- KMM sets a node's ready label only to its version label, and touches it only while the two differ.
  `InFlight.DroppedReadyLabelBreaksIt` shows this is needed.
- Nobody else writes the version label or taints with the upgrade key, so that such a taint is always NoExecute where a
  theorem asks for `WellTainted`. `Progress.WrongEffectStalls` shows this is needed.
- The label names that KMM derives from a Module are injective in namespace and name and differ from all other labels.
  KMM's naming functions are not part of this model: label keys are a datatype.
- One reconcile per DeviceConfig runs at a time, an error puts the request back on the queue, an update event is mapped
  through the node before and after it, and the library's label-changed predicate filters updates only. Clearing the
  queue is part of the List step; a request that arrives between the start of the reconcile and the List is a `Poke` after it.
- The controller also watches the Module, the DaemonSet and the Deployments that it owns, without predicates. In `Rollout`
  such an event is a `Poke`, and `WakeUp` and `Liveness` ask what happens without one. `Owned` assumes that freeing a
  ready node causes one sooner or later: the metrics DaemonSet selects ready nodes and does not tolerate the upgrade taint.
- `Lifecycle` has no queue: a reconcile can begin at any time. The code asks for no requeue after it deletes the DaemonSet
  or the Module, so that the deletion goes on rests on the events of these owned objects.

## What the code does not do

- The two Module modes exclude each other in a spec, but not in the Module: switching from DRA to the device plugin keeps
  the DRA section. `KmmModule.BothModesIff` says exactly when both are set.
- No node event wakes a rollout up again after an uncordon, because uncordoning writes only taints and one reconcile
  uncordons one node. `WakeUp.StrandedIff` says exactly when one reconcile leaves a tainted node and nothing queued,
  `Liveness.EndsCompleteIff` when a rollout that is left alone ends like that, and `WakeUp.StrandedIsReachable` gives a run
  from a settled cluster of two nodes. Unless somebody else edits or relabels something, only the events of the owned metrics
  DaemonSet get such a rollout going again; with them no wake-up is lost and every rollout finishes (`Owned.NeverStranded`,
  `Owned.EveryRolloutFinishes`).
- A creating reconcile works with the DeviceConfig it read, so it still creates the Module and the DaemonSet after a
  deletion was requested (`Lifecycle.CreationOutrunsDeletion`). `Deletion.ComesBackIff` says exactly when that can happen.
- A finalizer patch replaces the whole list, without a resource version: a finalizer that another controller added since
  the DeviceConfig was read is lost (`Deletion.OthersKeptIff`, `Deletion.FinalizerLost`).
- Without a selector the upgrade takes every node and the Module only the PCI-labelled ones
  (`Filter.UpgradeAndModuleAgreeIff`).
- Deleting a DeviceConfig in the middle of a rollout leaves version labels of other versions behind
  (`LabelRemoval.CleanIff`), and the NoExecute upgrade taint of a node that is being upgraded, for good
  (`Deletion.DeletionLeavesTaints`). `LabelRemoval.MidRolloutLeavesLabels` shows both after one reconcile.
- Of DeviceConfigs with a common node one can free the node that another is about to upgrade
  (`Overlap.OverlapBreaksEviction`); without a common node none can, and with one it can always come to that
  (`Collision.EvictedFirstIff`).
- The node predicate lets deletions through although its second half refuses them (`Filter.QueuedIff`). The comment
  on `FindDeviceConfigForNodeChange` speaks of a second step over NMC objects; the code has none, and the model follows the code.

## Model

| member | source | states |
|---|---|---|
| Cluster.SelectedIff | internal/filter/filter.go:86-99 | a selector selects exactly the labels that hold every one of its entries |
| Cluster.SelectorGrows | internal/filter/filter.go:88-95 | one more entry selects exactly those that also hold it, so never more |
| Cluster.SelectorUnion | internal/filter/filter.go:88-95 | two selectors without a common key select together what both of them select |
| Cluster.MatchingExact | internal/upgrade/upgrade.go:60-69 | a List returns, in order and once each, exactly the nodes whose labels hold every entry of the selector |
| Cluster.MergePatchIsLocal | internal/upgrade/upgrade.go:103-105 | a patch between two copies, applied to any third node, moves exactly the label keys and the taint list on which the copies differ |
| Cluster.PatchRoundTrip | internal/upgrade/upgrade.go:149-151 | applied to the copy it was taken from, a patch gives the modified node |
| NodeState.Uncordoned | internal/upgrade/upgrade.go:95-102 | the result holds no evicting upgrade taint, and is the list itself if it held none |
| NodeState.UncordonDistributes | internal/upgrade/upgrade.go:95-102 | uncordoning a list is uncordoning its parts in order |
| NodeState.UncordonKeepsOthers | internal/upgrade/upgrade.go:95-102 | at any place of any list: an upgrade taint goes, any other taint stays between what is left before and after it |
| NodeState.TaintRoundTrip | internal/upgrade/upgrade.go:81-152 | uncordon after cordon gives back the exact list if it held no upgrade taint; both are idempotent |
| NodeState.CordonAddsOne | internal/upgrade/upgrade.go:137-150 | cordoning adds the one taint at the end, exactly if no taint of the list has its key and effect |
| NodeState.TaintTestsAgree | internal/upgrade/upgrade.go:215-222 | the test by key and the test by key and effect agree if every taint with the key is NoExecute |
| NodeState.FirstFinished | internal/upgrade/upgrade.go:71-79 | the first node that is upgraded and tainted, or none if there is none |
| NodeState.NodeForUpgrade | internal/upgrade/upgrade.go:108-123 | a node exactly if none is in upgrade and some is before it, and then the last such node |
| Rollout.InvRun | internal/controllers/device_config_reconciler.go:292-320 | over every run, a node's version label stands while a reconcile runs, a ready label that agreed with it stands, and whether the node evicts follows from the list and the writes made so far |
| Rollout.PicksDiffer | internal/controllers/device_config_reconciler.go:305-312 | the node to uncordon is never the node to upgrade |
| Rollout.StatesStand | internal/controllers/device_config_reconciler.go:312-319 | if the list held no node in upgrade, every node still has the state it was listed with |
| InFlight.AtMostOneInFlight | internal/upgrade/upgrade.go:108-123 | over every run and for every version string, at most one node is labelled with it and not ready for it |
| InFlight.DroppedReadyLabelBreaksIt | internal/upgrade/upgrade.go:196-207 | a dropped ready label lets a second upgrade to the same version start |
| InFlight.StaleListBreaksIt | internal/upgrade/upgrade.go:60-69 | so does a list that predates a kickoff |
| Eviction.EvictedBeforeOverwrite | internal/upgrade/upgrade.go:125-170 | over every run, when a kickoff is about to replace a version label, the node evicts and the versions differ |
| Eviction.HeldUntilReady | internal/upgrade/upgrade.go:71-106 | an evicting node stops evicting only through an uncordon, at a moment when both its labels are the version that reconcile wants |
| Eviction.DriverChangesUnderTaint | internal/controllers/device_config_reconciler.go:305-319 | if a kickoff replaces a version and the node no longer evicts later, then in between a reconcile saw both labels at its version |
| Eviction.NewNodesNeverTainted | internal/upgrade/upgrade.go:133-136 | over every run, a node without a version label does not evict |
| Disruption.DisruptionBound | internal/controllers/device_config_reconciler.go:305-319 | over every run, at most one evicting node more than at the start for each version wanted since |
| Disruption.OneVersionDisruption | internal/controllers/device_config_reconciler.go:305-319 | within one version at most one more, and then some evicting node is in upgrade, upgraded, or the last one waiting |
| Disruption.AtMostOnePerVersion | internal/controllers/device_config_reconciler.go:305-319 | from an untainted cluster, at most one evicting node per version wanted |
| WakeUp.BoundIsReached | internal/controllers/device_config_reconciler.go:305-319 | the bound is tight: two wanted versions, two evicting nodes |
| Progress.StepProgress | internal/controllers/device_config_reconciler.go:305-319 | no step raises the measure of a version, and a real uncordon, a real kickoff and a node becoming ready lower it |
| Progress.AtMostThreeStepsPerNode | internal/controllers/device_config_reconciler.go:305-319 | with a fixed version, N nodes take at most 3N effective steps in any run |
| Progress.NothingLeftIffComplete | internal/upgrade/upgrade.go:71-123 | nothing to uncordon, to upgrade or to wait for exactly if every node is upgraded and untainted |
| Progress.RolloutCanFinish | internal/controllers/device_config_reconciler.go:292-320 | from every idle state, stranded or not, some bounded run finishes the rollout, if each of its reconciles is woken by an event from outside (a `Poke`) |
| Liveness.RolloutFinishes | internal/controllers/device_config_reconciler.go:292-320 | without any event from outside: over an untainted cluster, after any run for one version, failures and other writers included, every run of List, Uncordon, Cordon, Kickoff and KMM steps is bounded, and when none of them is enabled any more every node is upgraded and untainted |
| Liveness.RunsEnd | internal/controllers/device_config_reconciler.go:292-320 | N nodes and one version, from any state: at most 55 N + 7 steps, effective or not, until neither operator nor KMM can act |
| Liveness.QuietIff | internal/upgrade/upgrade.go:108-123 | neither can act exactly if the operator is idle, nothing is queued and every ready label equals its version label |
| Liveness.EndsCompleteIff | internal/upgrade/upgrade.go:71-123 | a rollout left alone to its end, from any idle state with a request queued and without events of owned objects, is complete exactly if no reconcile listed all nodes upgraded and two of them tainted |
| Owned.NeverStranded | internal/controllers/device_config_reconciler.go:76-78 | if freeing a node causes an event of an owned object sooner or later, then over every run, edits, failures and other writers included, a stranded rollout has such an event on its way |
| Owned.EveryRolloutFinishes | internal/controllers/device_config_reconciler.go:76-83 | with these events, after any run whatever, a rollout left alone runs out of steps, and then every node is upgraded and untainted |
| Progress.WrongEffectStalls | internal/upgrade/upgrade.go:97-101 | over every run without version edits in which nobody else writes that node, a node whose upgrade-key taint is not NoExecute is the one picked for uncordoning, keeps its taint, and the rollout is never complete |
| Trace.WaitingExact | internal/upgrade/upgrade.go:111-115 | the queue of waiting nodes holds exactly the nodes before upgrade, from the end of the list |
| Trace.KickoffOrder | internal/upgrade/upgrade.go:108-170 | for one version, the kickoffs so far followed by the nodes still waiting are the nodes waiting at the start, from the end of the list; a finished rollout kicked off exactly those |
| WakeUp.NoLostWakeUp | internal/controllers/device_config_reconciler.go:79-83 | by the events of DeviceConfig and nodes alone: over every run in which no List sees all nodes upgraded and two of them tainted, an idle operator has a request queued, a node in upgrade, or a complete rollout |
| WakeUp.FirstRolloutNeverStranded | internal/controllers/device_config_reconciler.go:292-320 | this holds for a rollout over an untainted cluster without version edits |
| WakeUp.StrandedIff | internal/upgrade/upgrade.go:81-106 | without events of owned objects, an undisturbed reconcile loses the wake-up exactly if all nodes are upgraded and two are still tainted |
| WakeUp.StrandedIsReachable | internal/controllers/device_config_reconciler.go:292-320 | a run from a settled, untainted cluster after which only an event of an owned object can free the tainted node |
| Projection.RunSeen | internal/upgrade/upgrade.go:196-222 | DeviceConfigs with disjoint targets do not interfere: seen through one, every interleaved run is a run of its own system |
| Projection.FleetInFlight | internal/upgrade/upgrade.go:108-123 | each of them keeps at most one node in flight per version |
| Projection.FleetDisruption | internal/controllers/device_config_reconciler.go:305-319 | each of them keeps its disruption bound, counting only its own version edits |
| Projection.FleetEviction | internal/upgrade/upgrade.go:125-170 | each of them replaces a version only by a different one and only on an evicting node |
| Projection.FleetHeldUntilReady | internal/upgrade/upgrade.go:71-106 | over every interleaved run, its evicting node stops evicting only through its own uncordon, when both labels are the version that reconcile wants |
| Overlap.OverlapBreaksEviction | internal/constants/constants.go:4 | in any fleet: if the node that b is about to pick, with a version to replace, is a target on which a is up to date, and a has nothing to uncordon, then b cordons it, a frees it, and b's next write replaces the version on a node that does not evict |
| Collision.Lift | internal/upgrade/upgrade.go:196-222 | whatever other DeviceConfigs target, every run of one DeviceConfig's own system is a run of the fleet, and touches only its own labels and targets |
| Collision.CommonTargetBreaksEviction | internal/constants/constants.go:4 | from any fleet without foreign upgrade taints in which two idle DeviceConfigs have a common target, some run of the two leads to a kickoff that replaces a version on a node that does not evict |
| Collision.EvictedFirstIff | internal/upgrade/upgrade.go:125-170 | over idle DeviceConfigs, every version is replaced only on an evicting node, over all runs, exactly if no two of them target a common node |
| UpgradeApi.UpgradeImpl.GetTargetedNodes | internal/upgrade/upgrade.go:60-69 | without an error: all nodes if there is no selector, else in order and once each exactly the nodes that hold every entry of it |
| UpgradeApi.UpgradeImpl.GetUpgradedNode | internal/upgrade/upgrade.go:71-79 | a copy of the first finished node that shares its label map with the list, or nil |
| UpgradeApi.UpgradeImpl.UncordonUpgradedNode | internal/upgrade/upgrade.go:81-106 | sends exactly the taint list without the upgrade taint |
| UpgradeApi.UpgradeImpl.GetNodeForUpgrade | internal/upgrade/upgrade.go:108-123 | a copy of the chosen node that shares its label map with the list, or nil |
| UpgradeApi.UpgradeImpl.CordonNodeForUpgrade | internal/upgrade/upgrade.go:125-152 | sends the taint list with the upgrade taint added, and nothing for a new or a tainted node |
| UpgradeApi.UpgradeImpl.KickoffUpgrade | internal/upgrade/upgrade.go:154-170 | sends exactly the one label, although it writes the map that the list shares |
| UpgradeApi.UpgradeImpl.RemoveUpgradeLabels | internal/upgrade/upgrade.go:172-194 | sends the removal to the listed nodes in order, and stops at the first error |
| UpgradeApi.GetNodeUpgradeState | internal/upgrade/upgrade.go:196-207 | before unless the version label is the wanted version, upgraded exactly if both labels are, also with a nil label map |
| UpgradeApi.IsNodeTainted | internal/upgrade/upgrade.go:215-222 | whether some taint has the upgrade key |
| UpgradeRuns.UpgradeOutcomeIsRun | internal/controllers/device_config_reconciler.go:292-320 | every prefix of the planned writes that the upgrade code can leave behind is left behind by a run |
| UpgradeRuns.ProgressedIsRun | internal/controllers/device_config_reconciler.go:292-320 | the contract of the upgrade code, with or without an error: the store it leaves is the store it found with the nodes that some run leaves |
| UpgradeRuns.CodeKeepsOneInFlight | internal/controllers/device_config_reconciler.go:292-320 | wherever the code stops, every DeviceConfig keeps at most one node in flight per version |
| UpgradeRuns.CodeKeepsDisruption | internal/controllers/device_config_reconciler.go:292-320 | wherever the code stops, every DeviceConfig has at most one evicting node more than before |
| UpgradeRuns.CodeEvictsBeforeOverwrite | internal/controllers/device_config_reconciler.go:312-319 | after the code's writes before the kickoff, the node whose version the kickoff replaces evicts |
| LabelRemoval.StopsExactly | internal/upgrade/upgrade.go:183-192 | a pass that stops has cleaned exactly the nodes listed before the failing patch |
| LabelRemoval.FinishedPassCleans | internal/upgrade/upgrade.go:172-194 | a finished pass has cleaned exactly the nodes with the current version's label |
| LabelRemoval.ProgressedRemoval | internal/upgrade/upgrade.go:172-194 | the contract of the removal code: only the nodes change, by the patches up to some point with an error, and without one exactly the nodes with the label are cleaned |
| LabelRemoval.RetryConverges | internal/upgrade/upgrade.go:172-194 | a retry after a pass that stopped anywhere gives the state of an uninterrupted pass |
| LabelRemoval.RemovalIsExact | internal/upgrade/upgrade.go:183-188 | every other label and every taint stays |
| LabelRemoval.CleanIff | internal/upgrade/upgrade.go:176-178 | no version label is left exactly if no node held another version's |
| LabelRemoval.MidRolloutLeavesLabels | internal/upgrade/upgrade.go:172-194 | two nodes on version 1, one reconcile to version 2, then the removal: the label of version 1 and the upgrade taint are left behind |
| Reconciler.DeviceConfigReconciler.SetFinalizer | internal/controllers/device_config_reconciler.go:192-200 | writes the finalizer unless it is there, and nothing else |
| Reconciler.DeviceConfigReconciler.HandleBuildConfigMap | internal/controllers/device_config_reconciler.go:252-270 | writes the build ConfigMap |
| Reconciler.DeviceConfigReconciler.HandleKMMModule | internal/controllers/device_config_reconciler.go:272-290 | without an error the stored Module follows the spec from the one stored before, created or edited in place; with one it does or is as before; nothing else changes |
| Reconciler.DeviceConfigReconciler.HandleModuleVersionUpgrade | internal/controllers/device_config_reconciler.go:292-320 | uncordon, cordon, kickoff, all decided on one list; nothing without a driver version; an error leaves a prefix |
| Reconciler.DeviceConfigReconciler.HandleCustomScheduler | internal/controllers/device_config_reconciler.go:322-350 | the scheduler, then its extension |
| Reconciler.DeviceConfigReconciler.HandleNodeMetrics | internal/controllers/device_config_reconciler.go:352-366 | writes the metrics DaemonSet |
| Reconciler.DeviceConfigReconciler.FinalizeDeviceConfig | internal/controllers/device_config_reconciler.go:202-250 | the DaemonSet goes, or else the Module, or else exactly the labels of this version and then the finalizer; wherever it stops, the finalizer is gone only if no node holds the label |
| Reconciler.DeviceConfigReconciler.CreateDeviceConfig | internal/controllers/device_config_reconciler.go:111-150 | without an error: finalizer set, ConfigMap there, Module following the spec from the stored one, all node writes of the upgrade made, scheduler and extension there exactly without a DRA image, metrics there; with one some of these, in this order |
| Reconciler.DeviceConfigReconciler.Reconcile | internal/controllers/device_config_reconciler.go:99-151 | a DeviceConfig whose deletion was requested is finalized, any other is created or updated, each as above |
| Effects.UpgradeEffect | internal/controllers/device_config_reconciler.go:292-320 | node by node: the first finished node loses its upgrade taints, the picked one gets the version label and, if it had one before, the upgrade taint, every other stays as it is; without a driver version all do |
| Effects.CreateMeans | internal/controllers/device_config_reconciler.go:111-150 | the plan of a creating reconcile and every prefix of it amount to that |
| Effects.FinalizeMeans | internal/controllers/device_config_reconciler.go:202-250 | the plan of a finalizing reconcile and every prefix of it amount to that |
| Effects.StoredHistory | internal/controllers/device_config_reconciler.go:280-282 | over successive reconciles from an absent Module, the sections of the stored Module are those of its history of specs |
| Lifecycle.FinalizerGuard | internal/controllers/device_config_reconciler.go:99-151 | over every run, after every call: without the finalizer, or gone from the API, a DeviceConfig owns neither a Module nor a DaemonSet |
| Lifecycle.DeletionConverges | internal/controllers/device_config_reconciler.go:202-250 | once deletion is requested, whatever reconcile is running: at most four finalizing passes have an effect, and no creating reconcile starts |
| Lifecycle.DeletionMovesForward | internal/controllers/device_config_reconciler.go:103-109 | unless a creating reconcile from before is still running, nothing comes back: the deletion only moves forward, through DaemonSet, Module, labels of any version, finalizer |
| Lifecycle.CreationOutrunsDeletion | internal/controllers/device_config_reconciler.go:111-127 | a creating reconcile that began before the deletion creates the Module after it |
| Deletion.ComesBackIff | internal/controllers/device_config_reconciler.go:103-150 | with Module and DaemonSet gone after a deletion request, one of them can come back exactly if a creating reconcile is still running with one of these writes before it |
| Deletion.DeletionEnds | internal/controllers/device_config_reconciler.go:202-250 | while the finalizer is there, undisturbed finalizing passes have made a bounded number of calls, linear in the nodes and in the passes that find KMM holding the Module |
| Deletion.FinalizerGoes | internal/controllers/device_config_reconciler.go:246-249 | from any point of such a deletion some successful calls take the finalizer away |
| Deletion.DeletionLeavesTaints | internal/controllers/device_config_reconciler.go:202-250 | over every run after a deletion request without writes of others, every node keeps its taints, the upgrade taint included |
| Lifecycle.LabelsThenFinalizer | internal/controllers/device_config_reconciler.go:221-249 | over every run, when a call takes the finalizer away, DaemonSet and Module are gone and no node carries the label of the version that the finalizing reconcile read |
| Lifecycle.CallOrder | internal/controllers/device_config_reconciler.go:211-249 | a finalizing call that patches a node, and the one that takes the finalizer away, find DaemonSet and Module gone |
| Deletion.OthersKeptIff | internal/controllers/device_config_reconciler.go:192-250 | for both finalizer patches and whatever happens while the reconcile runs: after the patch a finalizer of another holder is there exactly if it was there when the reconcile began |
| Deletion.FinalizerLost | internal/controllers/device_config_reconciler.go:192-200 | a run in which the first reconcile drops a finalizer that another controller has just added |
| Lifecycle.CreateOutcomeIsRun | internal/controllers/device_config_reconciler.go:111-150 | every outcome of a creating reconcile is left behind by a run of that one reconcile and nobody else |
| Lifecycle.FinalizeOutcomeIsRun | internal/controllers/device_config_reconciler.go:202-250 | every outcome of a finalizing reconcile is left behind by a run of that one reconcile and nobody else |
| Lifecycle.ReconcileKeepsGuard | internal/controllers/device_config_reconciler.go:99-151 | wherever the code stops, the guard holds |
| Stores.RemoveFinalizer | internal/controllers/device_config_reconciler.go:248 | in the list at hand, the finalizer goes and all others stay |
| Stores.OthersStayInOrder | internal/controllers/device_config_reconciler.go:248 | and they stay in their order |
| KmmModule.ModuleObject.SetLoader | internal/kmmmodule/kmmmodule.go:71-121 | loader, selector, pull secret and tolerations as desired, the mode sections untouched |
| KmmModule.ModuleObject.SetDevicePlugin | internal/kmmmodule/kmmmodule.go:123-126 | sets the plugin and leaves the DRA section |
| KmmModule.ModuleObject.SetDRA | internal/kmmmodule/kmmmodule.go:214-237 | sets the DRA section and clears the plugin |
| KmmModule.ModuleObject.SetAsDesired | internal/kmmmodule/kmmmodule.go:58-69 | with a DRA image that section with that image and no plugin; with a plugin image alone that plugin, the DRA section kept; with neither both kept; loader, selector and secret as the spec has them |
| KmmModule.DesiredIff | internal/kmmmodule/kmmmodule.go:58-121 | the Module after one application is the only one for which this and the tolerations hold |
| DeviceConfigs.AdmittedIff | api/v1beta1/deviceconfig_types.go:48-49 | exactly three kinds of spec are admitted: DRA alone, the plugin with both schedulers, or none of them |
| KmmModule.GetNodeSelector | internal/kmmmodule/kmmmodule.go:266-274 | the given selector, even an empty one, or the PCI label if there is none |
| KmmModule.MapDeviceClasses | internal/kmmmodule/kmmmodule.go:239-264 | the given classes in order, or the default class |
| KmmModule.ModeHistory | internal/kmmmodule/kmmmodule.go:58-69 | after any history of specs: the DRA section is that of the last spec with a DRA image; the plugin is set exactly if the last spec with an image of either mode has no DRA image, and then to its plugin image |
| KmmModule.BothModesIff | internal/kmmmodule/kmmmodule.go:63-67 | both sections are set exactly if a spec with a plugin image alone came after one with a DRA image, and none with a DRA image since |
| KmmModule.BothModesReachable | api/v1beta1/deviceconfig_types.go:48-49 | two admitted specs are enough for both |
| KmmModule.DesiredIdempotent | internal/kmmmodule/kmmmodule.go:58-69 | applying a spec again changes nothing |
| KmmModule.CordonIsTolerated | internal/kmmmodule/kmmmodule.go:107-119 | the taint that cordoning adds is tolerated by the Module |
| KmmModule.ToleratedIff | internal/kmmmodule/kmmmodule.go:107-119 | exactly two taints are tolerated: the upgrade taint, and the unschedulable taint with any value |
| Filter.IsObjectSelectedByLabels | internal/filter/filter.go:86-99 | an error exactly if some entry is invalid, else whether the labels hold every entry, in any iteration order |
| Filter.FindDeviceConfigForNodeChange | internal/filter/filter.go:45-84 | the configs of which every selector entry is valid and held by the node's labels, in list order, and none if the list fails |
| Filter.RequestsExact | internal/filter/filter.go:62-78 | they are exactly the configs with a valid selector contained in the labels, in list order |
| Filter.QueuedIff | internal/filter/filter.go:29-84 | an event, a deletion included, queues exactly the DeviceConfigs that select the node, for an update before or after it, and an update that leaves the labels alone queues none |
| Filter.RolloutEvents | internal/controllers/device_config_reconciler.go:79-83 | a label write to a targeted node queues its DeviceConfig, a taint write queues nothing |
| Filter.TargetsAgree | internal/upgrade/upgrade.go:60-69 | with a valid selector, the nodes listed, the nodes the Module selects and the nodes whose events count are the same |
| Filter.UpgradeAndModuleAgreeIff | internal/kmmmodule/kmmmodule.go:266-274 | upgrade and Module agree exactly if the selector is set or every node carries the PCI label |

## Left out

- The methods of the Go code run without interference inside one call sequence; interference between calls is in `Rollout`,
  `Fleets` and `Lifecycle`, which use the same plans of writes.
- A successful Patch also refreshes the Go object from the server's answer; the model leaves the object as sent. Every
  patch is taken from a copy made just before, so the refresh does not enter any later patch.
- Node creation and deletion, changes of selection, and relisting in another order during a rollout (`Lifecycle` has them).
- Deletion of a DeviceConfig during a rollout, as part of a rollout run: the label removal and the deletion have their own theorems.
- The contents of the build ConfigMap, the scheduler Deployments, the metrics DaemonSet, and the constant parts of the
  device plugin and DRA sections (volumes, environment, resources, service accounts): only that they are written.
- KMM itself, beyond the steps of the ready label and a finalizer that may hold a deleted Module.
- Label syntax: `Filter` takes any validity test of a selector entry as a parameter.
- Owner references and garbage collection, optimistic locking, the manager, caches, leader election, logging and RBAC.
- Fairness: `Progress` bounds the effective steps and shows that a rollout can always be finished, not that KMM gets a node ready.
- Reconciler.DeviceConfigReconciler.HandleBuildConfigMap: does not model the Get before the write nor the contents, because
  only whether and when the ConfigMap is written matters here; a failing Get is a failure without a write.
- Reconciler.DeviceConfigReconciler.HandleCustomScheduler: does not model the Gets, the contents of the two Deployments, or
  owner-reference errors, because the first are constant data and the last belong to the library.
- Reconciler.DeviceConfigReconciler.HandleNodeMetrics: does not model the Get nor the contents of the DaemonSet, because they
  are constant data.
- KmmModule.ModuleObject.SetLoader: does not model the build arguments, the kernel mapping and the module name, because they
  are constants or repeat the version that the model keeps.
- Filter.RolloutEvents: does not model the queue's rate limiting, because only whether a request is queued matters.
