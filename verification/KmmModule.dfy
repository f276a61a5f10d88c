/** The KMM Module, which every reconcile edits in place, so that its fields depend on every spec applied. */
module KmmModule {
  import opened Options
  import opened Cluster
  import opened NodeState
  import opened DeviceConfigs

  datatype Operator = Equal | Exists

  datatype Toleration = Toleration(key: string, operator: Operator, value: string, effect: Effect)

  datatype Loader = Loader(image: string, version: string)

  datatype Dra = Dra(image: string, classes: seq<DeviceClass>)

  datatype Plugin = Plugin(image: string)

  datatype ModuleSpec = ModuleSpec(
    loader: Option<Loader>,
    repoSecret: Option<string>,
    selector: Labels,
    tolerations: seq<Toleration>,
    dra: Option<Dra>,
    plugin: Option<Plugin>)

  const EMPTY := ModuleSpec(None, None, map[], [], None, None)

  const DEFAULT_IMAGE := "image-registry.openshift-image-registry.svc:5000/$MOD_NAMESPACE/neuron-kernel-module:"
  const KERNEL_SUFFIX := "-$KERNEL_VERSION"
  const PCI_LABEL := Plain("feature.node.kubernetes.io/pci-1d0f.present")
  const DEFAULT_CLASS := DeviceClass("neuron.aws.com", ["device.driver == \"neuron.aws.com\""], [])
  const UPGRADE_TOLERATION := Toleration(UPGRADE_TAINT_KEY, Equal, "true", NoExecute)
  const CORDON_TOLERATION := Toleration("node.kubernetes.io/unschedulable", Exists, "", NoSchedule)

  // ----- What a spec asks of a Module -----

  function LoaderOf(s: Spec): Loader {
    Loader((if s.driversImage != "" then s.driversImage else DEFAULT_IMAGE + s.driverVersion) + KERNEL_SUFFIX, s.driverVersion)
  }

  function ClassesOf(s: Spec): seq<DeviceClass> {
    if s.deviceClasses == [] then [DEFAULT_CLASS] else s.deviceClasses
  }

  function SelectorOf(s: Spec): Labels {
    if s.selector.Some? then s.selector.value else map[PCI_LABEL := "true"]
  }

  /** The Module after one application of a spec: fields of the other mode are kept, except that
      switching to DRA clears the device plugin. */
  function Desired(m: ModuleSpec, s: Spec): ModuleSpec {
    ModuleSpec(
      Some(LoaderOf(s)), s.imageRepoSecret, SelectorOf(s), [UPGRADE_TOLERATION, CORDON_TOLERATION],
      if s.draDriverImage != "" then Some(Dra(s.draDriverImage, ClassesOf(s))) else m.dra,
      if s.draDriverImage != "" then None
      else if s.devicePluginImage != "" then Some(Plugin(s.devicePluginImage))
      else m.plugin)
  }

  /** What the source promises of the mode sections, section by section, from the Module as it was. */
  predicate ModesFollow(m: ModuleSpec, m': ModuleSpec, s: Spec) {
    && (s.draDriverImage != "" ==>
          && m'.plugin == None
          && m'.dra.Some? && m'.dra.value.image == s.draDriverImage
          && (s.deviceClasses != [] ==> m'.dra.value.classes == s.deviceClasses)
          && (s.deviceClasses == [] ==> m'.dra.value.classes == [DEFAULT_CLASS]))
    && (s.draDriverImage == "" ==> m'.dra == m.dra)
    && (s.draDriverImage == "" && s.devicePluginImage != "" ==> m'.plugin.Some? && m'.plugin.value.image == s.devicePluginImage)
    && (s.draDriverImage == "" && s.devicePluginImage == "" ==> m'.plugin == m.plugin)
  }

  /** And of everything else, which does not depend on the Module as it was. */
  predicate LoaderFollows(m': ModuleSpec, s: Spec) {
    && m'.loader.Some? && m'.loader.value.version == s.driverVersion
    && (s.driversImage != "" ==> m'.loader.value.image == s.driversImage + "-$KERNEL_VERSION")
    && (s.driversImage == "" ==> m'.loader.value.image == DEFAULT_IMAGE + s.driverVersion + "-$KERNEL_VERSION")
    && m'.repoSecret == s.imageRepoSecret
    && (s.selector.Some? ==> m'.selector == s.selector.value)
    && (s.selector.None? ==> m'.selector == map[PCI_LABEL := "true"])
    && |m'.tolerations| == 2
  }

  /** The edited Module is the one that follows the spec, and there is no other. */
  lemma DesiredIff(m: ModuleSpec, m': ModuleSpec, s: Spec)
    ensures m' == Desired(m, s) <==>
      ModesFollow(m, m', s) && LoaderFollows(m', s) && m'.tolerations == [UPGRADE_TOLERATION, CORDON_TOLERATION]
  {
  }

  // ----- The Go code, on a Module object -----

  class ModuleObject {
    var loader: Option<Loader>
    var repoSecret: Option<string>
    var selector: Labels
    var tolerations: seq<Toleration>
    var dra: Option<Dra>
    var plugin: Option<Plugin>

    function Value(): ModuleSpec
      reads this
    {
      ModuleSpec(loader, repoSecret, selector, tolerations, dra, plugin)
    }

    constructor (m: ModuleSpec)
      ensures Value() == m
    {
      loader, repoSecret, selector := m.loader, m.repoSecret, m.selector;
      tolerations, dra, plugin := m.tolerations, m.dra, m.plugin;
    }

    method SetLoader(s: Spec)
      modifies this
      ensures Value() == old(Value()).(loader := Some(LoaderOf(s)), repoSecret := s.imageRepoSecret,
                                       selector := SelectorOf(s), tolerations := [UPGRADE_TOLERATION, CORDON_TOLERATION])
    {
      var driversImage := DEFAULT_IMAGE + s.driverVersion + KERNEL_SUFFIX;
      if s.driversImage != "" {
        driversImage := s.driversImage + KERNEL_SUFFIX;
      }
      loader := Some(Loader(driversImage, s.driverVersion));
      repoSecret := s.imageRepoSecret;
      selector := GetNodeSelector(s);
      tolerations := [UPGRADE_TOLERATION, CORDON_TOLERATION];
    }

    method SetDevicePlugin(s: Spec)
      modifies this`plugin
      ensures plugin == Some(Plugin(s.devicePluginImage))
    {
      plugin := Some(Plugin(s.devicePluginImage));
    }

    method SetDRA(s: Spec)
      modifies this`dra, this`plugin
      ensures dra == Some(Dra(s.draDriverImage, ClassesOf(s))) && plugin == None
    {
      var classes := MapDeviceClasses(s.deviceClasses);
      dra := Some(Dra(s.draDriverImage, classes[..]));
      plugin := None;
    }

    method SetAsDesired(s: Spec)
      modifies this
      ensures Value() == Desired(old(Value()), s)
      ensures ModesFollow(old(Value()), Value(), s) && LoaderFollows(Value(), s)
    {
      SetLoader(s);
      if s.draDriverImage != "" {
        SetDRA(s);
      } else if s.devicePluginImage != "" {
        SetDevicePlugin(s);
      }
    }
  }

  method GetNodeSelector(s: Spec) returns (r: Labels)
    ensures s.selector.Some? ==> r == s.selector.value
    ensures s.selector.None? ==> r.Keys == {PCI_LABEL} && r[PCI_LABEL] == "true"
    ensures r == SelectorOf(s)
  {
    if s.selector.Some? {
      return s.selector.value;
    }
    r := map[];
    r := r[PCI_LABEL := "true"];
  }

  method MapDeviceClasses(specs: seq<DeviceClass>) returns (classes: array<DeviceClass>)
    ensures fresh(classes)
    ensures specs == [] ==> classes[..] == [DEFAULT_CLASS]
    ensures specs != [] ==> classes[..] == specs
  {
    if |specs| == 0 {
      classes := new DeviceClass[1](_ => DEFAULT_CLASS);
      assert classes[..] == [DEFAULT_CLASS];
      return;
    }
    classes := new DeviceClass[|specs|];
    for i := 0 to |specs|
      invariant classes[..i] == specs[..i]
    {
      classes[i] := DeviceClass(specs[i].name, specs[i].selectors, specs[i].config);
      assert classes[..i + 1] == classes[..i] + [specs[i]];
      assert specs[..i + 1] == specs[..i] + [specs[i]];
    }
    assert classes[..] == classes[..|specs|];
  }

  // ----- What a history of specs leaves behind -----

  function Applied(m: ModuleSpec, specs: seq<Spec>): ModuleSpec {
    if specs == [] then m else Desired(Applied(m, specs[..|specs| - 1]), specs[|specs| - 1])
  }

  predicate HasMode(s: Spec) {
    s.draDriverImage != "" || s.devicePluginImage != ""
  }

  /** Of the first n specs the i-th is the last one with a DRA image. */
  predicate IsLastDra(specs: seq<Spec>, n: nat, i: nat) {
    i < n <= |specs| && specs[i].draDriverImage != "" && forall j :: i < j < n ==> specs[j].draDriverImage == ""
  }

  /** Of the first n specs the i-th is the last one with an image of either mode. */
  predicate IsLastWithMode(specs: seq<Spec>, n: nat, i: nat) {
    i < n <= |specs| && HasMode(specs[i]) && forall j :: i < j < n ==> !HasMode(specs[j])
  }

  /** The DRA section is that of the last spec with a DRA image. */
  ghost predicate DraFollows(dra: Option<Dra>, specs: seq<Spec>, n: nat)
    requires n <= |specs|
  {
    && ((forall i :: 0 <= i < n ==> specs[i].draDriverImage == "") ==> dra == None)
    && forall i: nat :: IsLastDra(specs, n, i) ==>
         dra == Some(Dra(specs[i].draDriverImage, if specs[i].deviceClasses == [] then [DEFAULT_CLASS] else specs[i].deviceClasses))
  }

  /** The device plugin is set exactly if the last spec with an image of either mode has no DRA image, and then
      to its plugin image. */
  ghost predicate PluginFollows(plugin: Option<Plugin>, specs: seq<Spec>, n: nat)
    requires n <= |specs|
  {
    && ((forall i :: 0 <= i < n ==> !HasMode(specs[i])) ==> plugin == None)
    && forall i: nat :: IsLastWithMode(specs, n, i) ==>
         plugin == if specs[i].draDriverImage == "" then Some(Plugin(specs[i].devicePluginImage)) else None
  }

  /** What the first n specs of a history leave behind. */
  ghost predicate FollowsHistory(m: ModuleSpec, specs: seq<Spec>, n: nat)
    requires n <= |specs|
  {
    DraFollows(m.dra, specs, n) && PluginFollows(m.plugin, specs, n)
  }

  lemma OneMoreDra(m: ModuleSpec, m': ModuleSpec, specs: seq<Spec>, n: nat)
    requires n < |specs| && DraFollows(m.dra, specs, n) && ModesFollow(m, m', specs[n])
    ensures DraFollows(m'.dra, specs, n + 1)
  {
    forall i: nat | IsLastDra(specs, n + 1, i)
      ensures m'.dra == Some(Dra(specs[i].draDriverImage, if specs[i].deviceClasses == [] then [DEFAULT_CLASS] else specs[i].deviceClasses))
    {
      if i < n { assert specs[n].draDriverImage == "" && IsLastDra(specs, n, i); }
    }
  }

  lemma OneMorePlugin(m: ModuleSpec, m': ModuleSpec, specs: seq<Spec>, n: nat)
    requires n < |specs| && PluginFollows(m.plugin, specs, n) && ModesFollow(m, m', specs[n])
    ensures PluginFollows(m'.plugin, specs, n + 1)
  {
    forall i: nat | IsLastWithMode(specs, n + 1, i)
      ensures m'.plugin == if specs[i].draDriverImage == "" then Some(Plugin(specs[i].devicePluginImage)) else None
    {
      if i < n { assert !HasMode(specs[n]) && IsLastWithMode(specs, n, i); }
    }
    if forall i :: 0 <= i < n + 1 ==> !HasMode(specs[i]) {
      assert !HasMode(specs[n]);
    }
  }

  /** Any chain of Modules in which each follows its spec from the one before it, starting without sections. */
  lemma {:induction false} ModeHistory(ms: seq<ModuleSpec>, specs: seq<Spec>, n: nat)
    requires n <= |specs| && |ms| == |specs| + 1 && ms[0].dra == None && ms[0].plugin == None
    requires forall i: nat :: i < |specs| ==> FollowsAt(ms, specs, i)
    ensures FollowsHistory(ms[n], specs, n)
  {
    hide DraFollows, PluginFollows, ModesFollow;
    if n > 0 {
      ModeHistory(ms, specs, n - 1);
      assert FollowsAt(ms, specs, n - 1);
      OneMoreDra(ms[n - 1], ms[n], specs, n - 1);
      OneMorePlugin(ms[n - 1], ms[n], specs, n - 1);
    } else {
      NoSpecs(ms[0], specs);
    }
  }

  lemma NoSpecs(m: ModuleSpec, specs: seq<Spec>)
    requires m.dra == None && m.plugin == None
    ensures FollowsHistory(m, specs, 0)
  {
  }

  predicate FollowsAt(ms: seq<ModuleSpec>, specs: seq<Spec>, i: nat) {
    i < |specs| && i + 1 < |ms| && ModesFollow(ms[i], ms[i + 1], specs[i])
  }

  lemma {:induction false} LastDraExists(specs: seq<Spec>, k: nat) returns (i: nat)
    requires k < |specs| && specs[k].draDriverImage != ""
    ensures k <= i && IsLastDra(specs, |specs|, i)
    decreases |specs| - k
  {
    if j :| k < j < |specs| && specs[j].draDriverImage != "" {
      i := LastDraExists(specs, j);
    } else {
      i := k;
    }
  }

  lemma {:induction false} LastModeExists(specs: seq<Spec>, k: nat) returns (i: nat)
    requires k < |specs| && HasMode(specs[k])
    ensures k <= i && IsLastWithMode(specs, |specs|, i)
    decreases |specs| - k
  {
    if j :| k < j < |specs| && HasMode(specs[j]) {
      i := LastModeExists(specs, j);
    } else {
      i := k;
    }
  }

  /** After spec i with a DRA image, spec j has a plugin image alone, and none after it has a DRA image. */
  predicate DraThenPlugin(specs: seq<Spec>, i: nat, j: nat) {
    && i < j < |specs| && specs[i].draDriverImage != ""
    && specs[j].draDriverImage == "" && specs[j].devicePluginImage != ""
    && forall k :: j < k < |specs| ==> specs[k].draDriverImage == ""
  }

  /** The two modes exclude each other in every spec, but not in the Module: both are set exactly if a spec
      with a plugin image came after one with a DRA image, and none with a DRA image since. */
  lemma BothModesIff(m: ModuleSpec, specs: seq<Spec>)
    requires FollowsHistory(m, specs, |specs|)
    ensures m.dra.Some? && m.plugin.Some? <==> exists i: nat, j: nat :: DraThenPlugin(specs, i, j)
  {
    if m.dra.Some? && m.plugin.Some? {
      var i :| 0 <= i < |specs| && specs[i].draDriverImage != "";
      var l := LastModeExists(specs, i);
      assert i < l && specs[l].draDriverImage == "";
      forall k | l < k < |specs| ensures specs[k].draDriverImage == "" { assert !HasMode(specs[k]); }
      assert DraThenPlugin(specs, i, l);
    }
    if i: nat, j: nat :| DraThenPlugin(specs, i, j) {
      var d := LastDraExists(specs, i);
      var l := LastModeExists(specs, j);
    }
  }

  /** Two admitted specs are enough. */
  lemma BothModesReachable(m: ModuleSpec, m': ModuleSpec) returns (a: Spec, b: Spec)
    ensures AdmissionValid(a) && AdmissionValid(b)
    ensures a.draDriverImage != "" && b.devicePluginImage != ""
    ensures ModesFollow(EMPTY, m, a) && ModesFollow(m, m', b) ==> m'.dra.Some? && m'.plugin.Some?
  {
    a := Spec("", "1", "", "", "", "dra", [], None, None);
    b := Spec("", "1", "plugin", "scheduler", "extension", "", [], None, None);
  }

  /** Applying a spec again changes nothing, so a retried reconcile does not disturb the Module. */
  lemma DesiredIdempotent(m: ModuleSpec, specs: seq<Spec>, s: Spec)
    ensures Applied(m, specs + [s] + [s]) == Applied(m, specs + [s])
  {
    assert (specs + [s] + [s])[..|specs| + 1] == specs + [s];
    assert (specs + [s])[..|specs|] == specs;
  }

  // ----- Tolerations -----

  predicate Tolerates(t: Toleration, taint: Taint) {
    && t.key == taint.key
    && t.effect == taint.effect
    && (t.operator == Equal ==> t.value == taint.value)
  }

  /** The driver pods may run on a node that is cordoned for upgrade, whatever the history of the Module. */
  lemma CordonIsTolerated(m: ModuleSpec, s: Spec, ts: seq<Taint>, taint: Taint)
    requires taint in Cordoned(ts) && taint !in ts
    ensures exists t <- Desired(m, s).tolerations :: Tolerates(t, taint)
  {
    assert taint == UPGRADE_TAINT;
    assert Desired(m, s).tolerations[0] == UPGRADE_TOLERATION;
    assert Tolerates(UPGRADE_TOLERATION, taint);
  }

  /** And on one that is marked unschedulable, whatever the value of that taint. They tolerate nothing else. */
  lemma ToleratedIff(m: ModuleSpec, s: Spec, taint: Taint)
    ensures (exists t <- Desired(m, s).tolerations :: Tolerates(t, taint)) <==>
      || taint == Taint("aws-neuron-driver-upgrade", "true", NoExecute)
      || (taint.key == "node.kubernetes.io/unschedulable" && taint.effect == NoSchedule)
  {
    var ts := Desired(m, s).tolerations;
    assert ts[0] == UPGRADE_TOLERATION && ts[1] == CORDON_TOLERATION;
    assert UPGRADE_TOLERATION in ts && CORDON_TOLERATION in ts;
    assert forall t <- ts :: t == UPGRADE_TOLERATION || t == CORDON_TOLERATION;
    if exists t <- ts :: Tolerates(t, taint) {
      assert Tolerates(UPGRADE_TOLERATION, taint) || Tolerates(CORDON_TOLERATION, taint);
    }
    if taint == UPGRADE_TAINT { assert Tolerates(UPGRADE_TOLERATION, taint); }
    if taint.key == CORDON_TOLERATION.key && taint.effect == NoSchedule { assert Tolerates(CORDON_TOLERATION, taint); }
  }
}
