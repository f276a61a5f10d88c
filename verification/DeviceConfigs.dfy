/** The DeviceConfig resource and its admission rules. */
module DeviceConfigs {
  import opened Options
  import opened Cluster

  datatype DeviceClass = DeviceClass(name: string, selectors: seq<string>, config: seq<string>)

  /** A nil selector and an empty one are different values. Empty strings stand for unset images. */
  datatype Spec = Spec(
    driversImage: string,
    driverVersion: string,
    devicePluginImage: string,
    customSchedulerImage: string,
    schedulerExtensionImage: string,
    draDriverImage: string,
    deviceClasses: seq<DeviceClass>,
    imageRepoSecret: Option<string>,
    selector: Option<Labels>)

  datatype DeviceConfig = DeviceConfig(id: ConfigId, spec: Spec, finalizers: seq<string>, deleting: bool)

  /** The two validation rules of the resource definition. */
  predicate AdmissionValid(s: Spec) {
    var any := s.devicePluginImage != "" || s.customSchedulerImage != "" || s.schedulerExtensionImage != "";
    var all := s.devicePluginImage != "" && s.customSchedulerImage != "" && s.schedulerExtensionImage != "";
    && !(s.draDriverImage != "" && any)
    && (any ==> all)
  }

  /** Exactly three kinds of spec are admitted: DRA alone, the device plugin with both schedulers, or none. */
  lemma AdmittedIff(s: Spec)
    ensures AdmissionValid(s) <==>
      || (s.draDriverImage != "" && s.devicePluginImage == s.customSchedulerImage == s.schedulerExtensionImage == "")
      || (s.draDriverImage == "" && s.devicePluginImage != "" && s.customSchedulerImage != "" && s.schedulerExtensionImage != "")
      || (s.draDriverImage == s.devicePluginImage == s.customSchedulerImage == s.schedulerExtensionImage == "")
  {
  }

  /** The labels that a List or a Module with this selector field asks for: nil asks for none. */
  function MatchingLabels(selector: Option<Labels>): Labels {
    if selector.None? then map[] else selector.value
  }
}
