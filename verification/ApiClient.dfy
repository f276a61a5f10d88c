/** Go objects with their sharing, and the client that reads and writes the store. Every call may fail,
    and a failed write may or may not have reached the store. */
module ApiClient {
  import opened Cluster
  import opened KmmModule
  import opened Stores

  /** A Go map: a reference, shared by every struct copy that holds it. */
  class LabelMap {
    var m: Labels

    constructor (m: Labels)
      ensures this.m == m
    {
      this.m := m;
    }
  }

  class NodeObject {
    var name: string
    var labels: LabelMap?
    var taints: seq<Taint>

    function Value(): Node
      reads this, labels
    {
      Node(name, if labels == null then map[] else labels.m, taints)
    }

    constructor (name: string, labels: LabelMap?, taints: seq<Taint>)
      ensures this.name == name && this.labels == labels && this.taints == taints
    {
      this.name, this.labels, this.taints := name, labels, taints;
    }

    /** An equal node that shares nothing with this one. */
    method DeepCopy() returns (c: NodeObject)
      ensures fresh(c) && (c.labels != null ==> fresh(c.labels))
      ensures c.Value() == Value()
    {
      var l: LabelMap? := null;
      if labels != null {
        l := new LabelMap(labels.m);
      }
      c := new NodeObject(name, l, taints);
    }

    /** The copy a Go range loop makes: a new struct that holds the same label map. */
    method StructCopy() returns (c: NodeObject)
      ensures fresh(c) && c.labels == labels
      ensures c.Value() == Value()
    {
      c := new NodeObject(name, labels, taints);
    }
  }

  function Values(items: seq<NodeObject>): seq<Node>
    reads items, set i | 0 <= i < |items| :: items[i].labels
  {
    seq(|items|, i requires 0 <= i < |items| reads items, set i | 0 <= i < |items| :: items[i].labels => items[i].Value())
  }

  /** No two items share a label map. */
  ghost predicate Separate(items: seq<NodeObject>)
    reads items
  {
    forall i, j :: 0 <= i < j < |items| ==>
      items[i] != items[j] && (items[i].labels != null ==> items[i].labels != items[j].labels)
  }

  datatype Found = Found | NotFound | Failed

  class Client {
    var store: Store

    constructor (s: Store)
      ensures store == s
    {
      store := s;
    }

    method ListNodes(selector: Labels) returns (err: bool, items: seq<NodeObject>)
      ensures !err ==> Values(items) == Matching(store.nodes, selector) && Separate(items)
      ensures forall i :: 0 <= i < |items| ==> fresh(items[i]) && (items[i].labels != null ==> fresh(items[i].labels))
    {
      err, items := *, [];
      if err {
        return;
      }
      var nodes := store.nodes;
      for k := 0 to |nodes|
        invariant Values(items) == Matching(nodes[..k], selector) && Separate(items)
        invariant forall i :: 0 <= i < |items| ==> fresh(items[i]) && (items[i].labels != null ==> fresh(items[i].labels))
      {
        assert nodes[..k + 1][..k] == nodes[..k];
        if Selected(nodes[k].labels, selector) {
          var l: LabelMap? := null;
          if nodes[k].labels != map[] {
            l := new LabelMap(nodes[k].labels);
          }
          var item := new NodeObject(nodes[k].name, l, nodes[k].taints);
          ghost var before := Values(items);
          items := items + [item];
          assert Values(items) == before + [nodes[k]];
        }
      }
      assert nodes[..|nodes|] == nodes;
    }

    /** Sends the merge patch from `base` to `obj`. */
    method PatchNode(obj: NodeObject, base: NodeObject) returns (err: bool, ghost sent: bool)
      modifies this
      ensures store == if sent then ApplyWrite(old(store), Write.PatchNode(NodeWrite(obj.name, Diff(base.Value(), obj.Value())))) else old(store)
      ensures !err ==> sent
    {
      err, sent := Send(Write.PatchNode(NodeWrite(obj.name, Diff(base.Value(), obj.Value()))));
    }

    method Send(w: Write) returns (err: bool, ghost sent: bool)
      modifies this
      ensures store == if sent then ApplyWrite(old(store), w) else old(store)
      ensures !err ==> sent
    {
      var arrives: bool := *;
      err, sent := true, arrives;
      if arrives {
        store := ApplyWrite(store, w);
        err := *;
      }
    }

    method GetMetrics() returns (r: Found)
      ensures r.Found? ==> store.metrics
      ensures r.NotFound? ==> !store.metrics
    {
      var fails: bool := *;
      r := if fails then Failed else if store.metrics then Found.Found else NotFound;
    }

    method GetModule() returns (r: Found, spec: ModuleSpec)
      ensures r.Found? ==> !store.mod.Absent? && spec == store.mod.spec
      ensures r.NotFound? ==> store.mod.Absent?
    {
      var fails: bool := *;
      spec := if store.mod.Absent? then EMPTY else store.mod.spec;
      r := if fails then Failed else if store.mod.Absent? then NotFound else Found.Found;
    }

    /** Creates the Module, or patches it where it is; a terminating Module stays terminating. */
    method PutModule(spec: ModuleSpec) returns (err: bool, ghost sent: bool)
      modifies this
      ensures store == if sent then old(store).(mod := WithSpec(old(store).mod, spec)) else old(store)
      ensures !err ==> sent
    {
      var arrives: bool := *;
      err, sent := true, arrives;
      if arrives {
        store := store.(mod := WithSpec(store.mod, spec));
        err := *;
      }
    }

    /** Sends the merge patch between two finalizer lists: the whole list, or nothing if they agree. */
    method PatchFinalizers(before: seq<string>, after: seq<string>) returns (err: bool, ghost sent: bool)
      modifies this
      ensures store == if sent && before != after then ApplyWrite(old(store), SetFinalizers(after)) else old(store)
      ensures !err ==> sent
    {
      if before == after {
        err := *;
        sent := true;
      } else {
        err, sent := Send(SetFinalizers(after));
      }
    }

    /** Deletes the Module if it is there; KMM's finalizer may keep it terminating. */
    method DeleteModule() returns (r: Found, ghost sent: bool, ghost held: bool)
      modifies this
      ensures store == if sent then ApplyWrite(old(store), Write.DeleteModule(held)) else old(store)
      ensures r.Found? ==> sent
      ensures r.NotFound? ==> old(store).mod.Absent? && !sent
    {
      var keeps: bool := *;
      held, sent := keeps, false;
      if store.mod.Absent? {
        var fails: bool := *;
        return if fails then Failed else NotFound, false, held;
      }
      var err;
      err, sent := Send(Write.DeleteModule(keeps));
      r := if err then Failed else Found.Found;
    }
  }
}
