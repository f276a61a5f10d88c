/** The API server's objects that one DeviceConfig's reconciles read and write, and the writes. */
module Stores {
  import opened Options
  import opened Plans
  import opened Cluster
  import opened DeviceConfigs
  import opened KmmModule

  const FINALIZER := "awslabs.node.kubernetes.io/deviceconfig-finalizer"

  datatype ConfigMeta = ConfigMeta(spec: Spec, finalizers: seq<string>, deleting: bool)

  /** KMM's own finalizer can hold a deleted Module for a while. */
  datatype ModuleState = Absent | Present(spec: ModuleSpec) | Terminating(spec: ModuleSpec)

  datatype Store = Store(
    config: Option<ConfigMeta>,
    mod: ModuleState,
    metrics: bool,
    buildMap: bool,
    scheduler: bool,
    extension: bool,
    nodes: seq<Node>)

  datatype Write =
    | SetFinalizers(finalizers: seq<string>)
    | PutBuildMap
    | PutModule(spec: Spec)
    | PatchNode(w: NodeWrite)
    | PutScheduler
    | PutExtension
    | PutMetrics
    | DeleteMetrics
    | DeleteModule(held: bool)

  /** A DeviceConfig whose deletion was requested leaves the API with its last finalizer. */
  function Collect(m: ConfigMeta): Option<ConfigMeta> {
    if m.deleting && m.finalizers == [] then None else Some(m)
  }

  function WithSpec(m: ModuleState, spec: ModuleSpec): ModuleState {
    if m.Terminating? then Terminating(spec) else Present(spec)
  }

  function SpecOf(m: ModuleState): ModuleSpec {
    if m.Absent? then EMPTY else m.spec
  }

  function ApplyWrite(s: Store, w: Write): Store {
    match w
    case SetFinalizers(fs) => if s.config.None? then s else s.(config := Collect(s.config.value.(finalizers := fs)))
    case PutBuildMap => s.(buildMap := true)
    case PutModule(spec) => s.(mod := WithSpec(s.mod, Desired(SpecOf(s.mod), spec)))
    case PatchNode(nw) => s.(nodes := PatchStore(s.nodes, nw))
    case PutScheduler => s.(scheduler := true)
    case PutExtension => s.(extension := true)
    case PutMetrics => s.(metrics := true)
    case DeleteMetrics => s.(metrics := false)
    case DeleteModule(held) => s.(mod := if held && !s.mod.Absent? then Terminating(s.mod.spec) else Absent)
  }

  function ApplyAll(s: Store, ws: seq<Write>): Store {
    if ws == [] then s else ApplyWrite(ApplyAll(s, ws[..|ws| - 1]), ws[|ws| - 1])
  }

  lemma {:induction false} ApplyAllAppend(s: Store, a: seq<Write>, b: seq<Write>)
    ensures ApplyAll(s, a + b) == ApplyAll(ApplyAll(s, a), b)
  {
    if b == [] {
      assert a + b == a;
    } else {
      assert (a + b)[..|a + b| - 1] == a + b[..|b| - 1];
      ApplyAllAppend(s, a, b[..|b| - 1]);
    }
  }

  function NodeWrites(ws: seq<NodeWrite>): (r: seq<Write>)
    ensures |r| == |ws|
  {
    seq(|ws|, i requires 0 <= i < |ws| => PatchNode(ws[i]))
  }

  lemma {:induction false} NodeWritesTouchNodes(s: Store, ws: seq<NodeWrite>)
    ensures ApplyAll(s, NodeWrites(ws)) == s.(nodes := PatchAll(s.nodes, ws))
  {
    if ws != [] {
      assert NodeWrites(ws)[..|ws| - 1] == NodeWrites(ws[..|ws| - 1]);
      NodeWritesTouchNodes(s, ws[..|ws| - 1]);
    }
  }

  lemma NodeWritesPrefix(ws: seq<NodeWrite>, k: nat)
    requires k <= |ws|
    ensures NodeWrites(ws)[..k] == NodeWrites(ws[..k])
  {
  }

  /** The outcome of a call sequence with early return on error: the first `done` writes of the plan have
      reached the store, and without an error all of them have. */
  ghost predicate Progressed(before: Store, after: Store, plan: seq<Write>, done: nat, err: bool) {
    done <= |plan| && after == ApplyAll(before, plan[..done]) && (!err ==> done == |plan|)
  }

  lemma ApplyOne(s: Store, w: Write)
    ensures ApplyAll(s, [w]) == ApplyWrite(s, w)
  {
    assert [w][..0] == [];
  }

  lemma NoWrites(s: Store)
    ensures Progressed(s, s, NodeWrites([]), 0, false)
  {
  }

  lemma OneWrite(before: Store, w: Write, sent: bool, err: bool)
    requires !err ==> sent
    ensures Progressed(before, if sent then ApplyWrite(before, w) else before, [w], if sent then 1 else 0, err)
  {
    assert [w][..1] == [w] && [w][..0] == [];
    ApplyOne(before, w);
  }

  lemma OneDone(before: Store, after: Store, w: Write, done: nat)
    requires Progressed(before, after, [w], done, false)
    ensures after == ApplyWrite(before, w)
  {
    assert [w][..1] == [w];
    ApplyOne(before, w);
  }

  /** Two call sequences in a row. */
  lemma ThenProgressed(s0: Store, s1: Store, s2: Store, a: seq<Write>, b: seq<Write>, k: nat, err: bool)
    requires Progressed(s0, s1, a, |a|, false) && Progressed(s1, s2, b, k, err)
    ensures Progressed(s0, s2, Then(a, b), |a| + k, err)
  {
    ThenIsConcatenation(a, b);
    assert (a + b)[..|a| + k] == a + b[..k] && a[..|a|] == a;
    ApplyAllAppend(s0, a, b[..k]);
  }

  /** A call sequence that failed, whatever was still to follow. */
  lemma CutShort(s0: Store, s1: Store, a: seq<Write>, b: seq<Write>, k: nat)
    requires Progressed(s0, s1, a, k, true)
    ensures Progressed(s0, s1, Then(a, b), k, true)
  {
    ThenIsConcatenation(a, b);
    assert (a + b)[..k] == a[..k];
  }

  // ----- Finalizers -----

  predicate HasGuard(s: Store) {
    s.config.Some? && FINALIZER in s.config.value.finalizers
  }

  function AddFinalizer(fs: seq<string>): (r: seq<string>)
    ensures FINALIZER in r
  {
    if FINALIZER in fs then fs else fs + [FINALIZER]
  }

  function RemoveFinalizer(fs: seq<string>): (r: seq<string>)
    ensures FINALIZER !in r
    ensures forall f :: f != FINALIZER ==> (f in r <==> f in fs)
    ensures FINALIZER !in fs ==> r == fs
  {
    if fs == [] then []
    else
      var n := |fs| - 1;
      assert fs == fs[..n] + [fs[n]];
      RemoveFinalizer(fs[..n]) + if fs[n] == FINALIZER then [] else [fs[n]]
  }

  lemma {:induction false} RemoveFinalizerDistributes(a: seq<string>, b: seq<string>)
    ensures RemoveFinalizer(a + b) == RemoveFinalizer(a) + RemoveFinalizer(b)
  {
    if b == [] {
      assert a + b == a;
    } else {
      assert (a + b)[..|a + b| - 1] == a + b[..|b| - 1];
      RemoveFinalizerDistributes(a, b[..|b| - 1]);
    }
  }

  /** Wherever a finalizer stands: the operator's goes, any other stays between what is left before and after. */
  lemma OthersStayInOrder(a: seq<string>, f: string, b: seq<string>)
    ensures RemoveFinalizer(a + [f] + b) == RemoveFinalizer(a) + (if f == FINALIZER then [] else [f]) + RemoveFinalizer(b)
  {
    hide RemoveFinalizer;
    RemoveFinalizerDistributes(a + [f], b);
    RemoveFinalizerDistributes(a, [f]);
    RemoveOne(f);
  }

  lemma RemoveOne(f: string)
    ensures RemoveFinalizer([f]) == if f == FINALIZER then [] else [f]
  {
    assert [f][..0] == [];
  }
}
