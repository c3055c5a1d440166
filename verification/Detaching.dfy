/** Removing a device's node, and what that does to the devices below it. */
module Detaching {
  import opened Sorting
  import opened Model
  import opened Tree
  import opened Attaching
  import opened Refinement

  function WithoutNode(nodes: seq<Node>, id: Id): seq<Node> {
    if nodes == [] then []
    else (if nodes[0].id == id then [] else [nodes[0]]) + WithoutNode(nodes[1..], id)
  }

  /** Every node but the root has one parent, and every edge carries the whole node. */
  predicate TreeShaped(g: Graph) {
    && SingleParents(g.edges)
    && (forall i :: 0 <= i < |g.edges| ==> g.edges[i].weight == FULL_WEIGHT)
    && (forall i :: 0 <= i < |g.nodes| ==> g.nodes[i].id != "")
  }

  /** The children of `x` have moved to `p`; every edge that does not touch `x` is as it was. */
  ghost predicate Rerouted(edges: seq<Edge>, x: Id, p: Id, after: seq<Edge>) {
    && SingleParents(after)
    && (forall e :: e in edges && e.from != x && e.to != x ==> e in after)
    && (forall e :: e in after ==>
          || (e in edges && e.from != x && e.to != x)
          || (Linked(edges, e.from, x) && e.to == p && e.weight == FULL_WEIGHT))
    && (forall y :: Linked(edges, y, x) ==> Linked(after, y, p))
  }

  /**
   * The platform's graph model, which is not part of this repository. `delete` may fail, as a
   * recovered panic does; on a tree it moves the children of the removed node to its parent.
   */
  datatype Platform = Platform(valid: Graph -> bool, delete: (Graph, Id) -> Option<Graph>) {
    ghost predicate Sound() {
      && (forall g :: valid(g) <==> Valid(g))
      && (forall g, x :: delete(g, x).Some? ==>
            var h := delete(g, x).value;
            && h == g.(nodes := WithoutNode(g.nodes, x), edges := h.edges)
            && forall p :: TreeShaped(g) && Valid(g) && Linked(g.edges, x, p) ==> Rerouted(g.edges, x, p, h.edges))
    }
  }

  datatype DetachOutcome = NoNode | Detached(graph: Graph) | Kept

  function DetachFrom(g: Graph, deviceId: Id, platform: Platform): DetachOutcome {
    if deviceId == "" then Kept
    else
      var nodeId := FindDeviceNode(g, deviceId);
      if nodeId == "" then NoNode
      else
        match platform.delete(g, nodeId)
        case None => Kept
        case Some(working) => if platform.valid(working) then Detached(working) else Kept
  }

  /** All or nothing: a removal that panics or would leave an invalid graph changes nothing. */
  method Detach(cell: GraphCell, deviceId: Id, platform: Platform) returns (outcome: DetachOutcome)
    modifies cell
    ensures outcome == DetachFrom(old(cell.graph), deviceId, platform)
    ensures cell.graph == if outcome.Detached? then outcome.graph else old(cell.graph)
  {
    if deviceId == "" { return Kept; }
    var nodeId := FindDeviceNode(cell.graph, deviceId);
    if nodeId == "" { return NoNode; }
    var working := platform.delete(cell.graph, nodeId);
    if working.None? || !platform.valid(working.value) { return Kept; }
    cell.graph := working.value;
    return Detached(working.value);
  }

  // ---- several removals ----

  function DetachAll(g: Graph, ids: seq<Id>, platform: Platform): (Graph, nat)
    decreases |ids|
  {
    if ids == [] then (g, 0)
    else
      match DetachFrom(g, ids[0], platform)
      case Detached(h) => var (r, n) := DetachAll(h, ids[1..], platform); (r, n + 1)
      case _ => DetachAll(g, ids[1..], platform)
  }

  predicate NoneKept(g: Graph, ids: seq<Id>, platform: Platform)
    decreases |ids|
  {
    ids == [] ||
    match DetachFrom(g, ids[0], platform)
    case Detached(h) => NoneKept(h, ids[1..], platform)
    case NoNode => NoneKept(g, ids[1..], platform)
    case Kept => false
  }

  /** The devices a graph contains, by the id they point at, in node order. */
  function DeviceIds(nodes: seq<Node>): seq<Id> {
    if nodes == [] then []
    else
      (if nodes[0].resourceType == DeviceResource && nodes[0].resourceId != "" then [nodes[0].resourceId] else [])
      + DeviceIds(nodes[1..])
  }

  lemma {:induction false} InDeviceIds(nodes: seq<Node>, id: Id)
    ensures id in DeviceIds(nodes) <==>
            id != "" && exists i ::
            0 <= i < |nodes| && nodes[i].resourceType == DeviceResource && nodes[i].resourceId == id
  {
    if nodes != [] {
      InDeviceIds(nodes[1..], id);
      if id != "" && exists i ::
         0 <= i < |nodes| && nodes[i].resourceType == DeviceResource && nodes[i].resourceId == id {
        var i :| 0 <= i < |nodes| && nodes[i].resourceType == DeviceResource && nodes[i].resourceId == id;
        assert i > 0 ==> nodes[1..][i - 1] == nodes[i];
      }
      if exists i ::
         0 <= i < |nodes[1..]| && nodes[1..][i].resourceType == DeviceResource && nodes[1..][i].resourceId == id {
        var i :| 0 <= i < |nodes[1..]| && nodes[1..][i].resourceType == DeviceResource &&
          nodes[1..][i].resourceId == id;
        assert nodes[i + 1] == nodes[1..][i];
      }
    }
  }

  lemma {:induction false} WithoutNodeMembers(nodes: seq<Node>, id: Id)
    ensures forall n :: n in WithoutNode(nodes, id) <==> n in nodes && n.id != id
  {
    if nodes != [] {
      WithoutNodeMembers(nodes[1..], id);
      assert nodes == [nodes[0]] + nodes[1..];
    }
  }

  lemma {:induction false} FoundByResource(nodes: seq<Node>, deviceId: Id)
    requires deviceId != "" && forall i :: 0 <= i < |nodes| ==> nodes[i].id != ""
    ensures ByResource(nodes, deviceId) == "" <==> forall i :: 0 <= i < |nodes| ==> nodes[i].resourceId != deviceId
    ensures ByResource(nodes, deviceId) != "" ==>
              exists i ::
                0 <= i < |nodes| && nodes[i].id == ByResource(nodes, deviceId) && nodes[i].resourceId == deviceId
  {
    if nodes != [] {
      FoundByResource(nodes[1..], deviceId);
      assert nodes == [nodes[0]] + nodes[1..];
    }
  }

  // ---- the nearest surviving ancestor ----

  /** `a` is the first node above `x` outside `gone`, at most `n` gone nodes up. */
  predicate Above(parentOf: map<Id, Id>, gone: set<Id>, x: Id, a: Id, n: nat)
    decreases n
  {
    x in parentOf &&
      (if parentOf[x] !in gone then a == parentOf[x] else n > 0 && Above(parentOf, gone, parentOf[x], a, n - 1))
  }

  /** The parent table after `z` is taken out and its children moved up. */
  function Lifted(parentOf: map<Id, Id>, z: Id): map<Id, Id>
    requires z in parentOf
  {
    map x | x in parentOf && x != z :: if parentOf[x] == z then parentOf[z] else parentOf[x]
  }

  lemma {:induction false} AboveThroughLift(parentOf: map<Id, Id>, gone: set<Id>, z: Id, x: Id, a: Id, n: nat)
    returns (m: nat)
    requires z in parentOf && parentOf[z] != z && z !in gone && x != z
    requires Above(Lifted(parentOf, z), gone, x, a, n)
    ensures Above(parentOf, gone + {z}, x, a, m)
    decreases n
  {
    var q := Lifted(parentOf, z)[x];
    var m' := 0;
    if q in gone {
      m' := AboveThroughLift(parentOf, gone, z, q, a, n - 1);
      m' := m' + 1;
    }
    m := if parentOf[x] == z then m' + 1 else m';
    if parentOf[x] == z {
      assert Above(parentOf, gone + {z}, z, a, m');
    }
  }

  lemma TableExact(edges: seq<Edge>, y: Id, b: Id)
    requires SingleParents(edges)
    ensures Linked(edges, y, b) <==> y in ParentTable(edges) && ParentTable(edges)[y] == b
  {
    TableIsLinks(edges, y);
    if Linked(edges, y, b) {
      var i :| 0 <= i < |edges| && edges[i].from == y && edges[i].to == b;
      var k :| 0 <= k < |edges| && edges[k].from == y && edges[k].to == ParentTable(edges)[y];
      assert i == k;
    }
  }

  lemma RerouteLinks(edges: seq<Edge>, x: Id, p: Id, after: seq<Edge>, y: Id, b: Id)
    requires SingleParents(edges) && Linked(edges, x, p) && p != x && Rerouted(edges, x, p, after)
    ensures Linked(after, y, b) <==> y != x && ((b != x && Linked(edges, y, b)) || (b == p && Linked(edges, y, x)))
  {
    TableExact(edges, x, p);
    TableExact(edges, x, x);
    if Linked(after, y, b) {
      var i :| 0 <= i < |after| && after[i].from == y && after[i].to == b;
      assert after[i] in after;
      if after[i] in edges {
        var k :| 0 <= k < |edges| && edges[k] == after[i];
      }
    }
    if y != x && b != x && Linked(edges, y, b) {
      var i :| 0 <= i < |edges| && edges[i].from == y && edges[i].to == b;
      assert edges[i] in edges;
      assert edges[i] in after;
      var k :| 0 <= k < |after| && after[k] == edges[i];
    }
  }

  lemma NoSelfLoop(edges: seq<Edge>, x: Id)
    requires Acyclic(edges)
    ensures !Linked(edges, x, x)
  {
    if Linked(edges, x, x) {
      assert Walk(edges, [x, x]);
    }
  }

  /** In the parent table, a removal is exactly the lift of the children. */
  lemma RerouteLifts(edges: seq<Edge>, x: Id, p: Id, after: seq<Edge>)
    requires SingleParents(edges) && Acyclic(edges) && Linked(edges, x, p) && Rerouted(edges, x, p, after)
    ensures x in ParentTable(edges) && ParentTable(edges)[x] == p && p != x
    ensures ParentTable(after) == Lifted(ParentTable(edges), x)
  {
    hide Rerouted, Acyclic, Linked, ParentTable, SingleParents;
    TableExact(edges, x, p);
    NoSelfLoop(edges, x);
    assert SingleParents(after) by { ReroutedSingle(edges, x, p, after); }
    var before, lifted := ParentTable(edges), ParentTable(after);
    forall y ensures y in lifted <==> y in Lifted(before, x)
      ensures y in lifted ==> lifted[y] == Lifted(before, x)[y]
    {
      if y in lifted {
        TableExact(after, y, lifted[y]);
        RerouteLinks(edges, x, p, after, y, lifted[y]);
        TableExact(edges, y, lifted[y]);
        TableExact(edges, y, x);
      }
      if y in before && y != x {
        TableExact(edges, y, before[y]);
        var q := if before[y] == x then p else before[y];
        RerouteLinks(edges, x, p, after, y, q);
        TableExact(after, y, q);
      }
    }
  }

  lemma ReroutedSingle(edges: seq<Edge>, x: Id, p: Id, after: seq<Edge>)
    requires Rerouted(edges, x, p, after)
    ensures SingleParents(after)
  {}

  // ---- one departure ----

  /** The nodes of the devices that leave. */
  ghost function Gone(nodes: seq<Node>, ids: seq<Id>): set<Id> {
    set i | 0 <= i < |nodes| && nodes[i].resourceId in ids :: nodes[i].id
  }

  /** What a valid tree looks like around the node of a device. */
  lemma DeviceNodeFound(g: Graph, deviceId: Id) returns (i: nat)
    requires Valid(g) && TreeShaped(g) && deviceId in DeviceIds(g.nodes)
    ensures i < |g.nodes| && g.nodes[i].resourceId == deviceId && g.nodes[i].id == FindDeviceNode(g, deviceId) != ""
    ensures deviceId != ""
    ensures forall k :: 0 <= k < |g.nodes| && k != i ==> g.nodes[k].resourceId != deviceId
    ensures exists p :: Linked(g.edges, g.nodes[i].id, p)
  {
    hide Acyclic, WeightsBalance, SingleRoot, EdgesConnectNodes, DistinctEdgeIds, ByNode, ByResource, Linked;
    InDeviceIds(g.nodes, deviceId);
    i :| 0 <= i < |g.nodes| && g.nodes[i].resourceType == DeviceResource && g.nodes[i].resourceId == deviceId;
    FoundByResource(g.nodes, deviceId);
    DeviceHasParent(g, i);
  }

  lemma DeviceHasParent(g: Graph, i: nat)
    requires SingleRoot(g) && i < |g.nodes| && g.nodes[i].resourceType == DeviceResource
    ensures exists p :: Linked(g.edges, g.nodes[i].id, p)
  {
    var r :| 0 <= r < |g.nodes| && IsSink(g.edges, g.nodes[r].id) && g.nodes[r].resourceType.CustomResource?
             && forall k :: 0 <= k < |g.nodes| && k != r ==> !IsSink(g.edges, g.nodes[k].id);
    var e :| 0 <= e < |g.edges| && g.edges[e].from == g.nodes[i].id;
    assert Linked(g.edges, g.nodes[i].id, g.edges[e].to);
  }

  lemma {:induction false} WithoutNodeIds(nodes: seq<Node>, id: Id)
    ensures forall i :: 0 <= i < |WithoutNode(nodes, id)| ==>
            WithoutNode(nodes, id)[i] in nodes && WithoutNode(nodes, id)[i].id != id
  {
    WithoutNodeMembers(nodes, id);
    forall i | 0 <= i < |WithoutNode(nodes, id)|
      ensures WithoutNode(nodes, id)[i] in nodes && WithoutNode(nodes, id)[i].id != id
    {
      assert WithoutNode(nodes, id)[i] in WithoutNode(nodes, id);
    }
  }

  /** One accepted removal on a tree: the node is gone, its children moved up, the rest is verbatim. */
  lemma DetachOne(g: Graph, deviceId: Id, platform: Platform) returns (h: Graph, x: Id)
    requires platform.Sound() && Valid(g) && TreeShaped(g) && deviceId in DeviceIds(g.nodes)
    requires !DetachFrom(g, deviceId, platform).Kept?
    ensures DetachFrom(g, deviceId, platform) == Detached(h) && Valid(h) && TreeShaped(h)
    ensures h == g.(nodes := WithoutNode(g.nodes, x), edges := h.edges)
    ensures exists i :: 0 <= i < |g.nodes| && g.nodes[i].id == x && g.nodes[i].resourceId == deviceId
    ensures forall n :: n in g.nodes ==> (n.id == x <==> n.resourceId == deviceId)
    ensures x in ParentTable(g.edges) && ParentTable(g.edges)[x] != x &&
            ParentTable(h.edges) == Lifted(ParentTable(g.edges), x)
    ensures forall e :: e in g.edges && e.from != x && e.to != x ==> e in h.edges
  {
    hide Acyclic, WeightsBalance, DeviceIds, ParentTable, Lifted, FindDeviceNode, WithoutNode;
    var i := DeviceNodeFound(g, deviceId);
    x := g.nodes[i].id;
    h := platform.delete(g, x).value;
    var p :| Linked(g.edges, x, p);
    RerouteLifts(g.edges, x, p, h.edges);
    WithoutNodeIds(g.nodes, x);
    forall k | 0 <= k < |h.edges| ensures h.edges[k].weight == FULL_WEIGHT {
      assert h.edges[k] in h.edges;
    }
  }

  lemma GoneSplits(nodes: seq<Node>, first: Id, rest: seq<Id>, x: Id)
    requires forall n :: n in nodes ==> (n.id == x <==> n.resourceId == first)
    requires exists i :: 0 <= i < |nodes| && nodes[i].id == x
    ensures Gone(nodes, [first] + rest) == Gone(WithoutNode(nodes, x), rest) + {x}
    ensures first !in rest ==> x !in Gone(WithoutNode(nodes, x), rest)
  {
    var after := WithoutNode(nodes, x);
    WithoutNodeMembers(nodes, x);
    WithoutNodeIds(nodes, x);
    forall y ensures y in Gone(nodes, [first] + rest) <==> y in Gone(after, rest) + {x} {
      if y in Gone(nodes, [first] + rest) && y != x {
        var i :| 0 <= i < |nodes| && nodes[i].resourceId in [first] + rest && nodes[i].id == y;
        assert nodes[i] in after;
        var k :| 0 <= k < |after| && after[k] == nodes[i];
      }
      if y in Gone(after, rest) {
        var k :| 0 <= k < |after| && after[k].resourceId in rest && after[k].id == y;
        assert after[k] in nodes;
        var i :| 0 <= i < |nodes| && nodes[i] == after[k];
      }
      if y == x {
        var i :| 0 <= i < |nodes| && nodes[i].id == x;
        assert nodes[i] in nodes;
      }
    }
  }

  lemma DeviceIdsWithout(nodes: seq<Node>, first: Id, x: Id)
    requires forall n :: n in nodes ==> (n.id == x <==> n.resourceId == first)
    ensures forall id :: id in DeviceIds(WithoutNode(nodes, x)) <==> id in DeviceIds(nodes) && id != first
  {
    var after := WithoutNode(nodes, x);
    WithoutNodeMembers(nodes, x);
    forall id ensures id in DeviceIds(after) <==> id in DeviceIds(nodes) && id != first {
      InDeviceIds(nodes, id);
      InDeviceIds(after, id);
      if id in DeviceIds(nodes) && id != first {
        var i :| 0 <= i < |nodes| && nodes[i].resourceType == DeviceResource && nodes[i].resourceId == id;
        assert nodes[i] in after;
        var k :| 0 <= k < |after| && after[k] == nodes[i];
      }
      if id in DeviceIds(after) {
        var k :| 0 <= k < |after| && after[k].resourceType == DeviceResource && after[k].resourceId == id;
        assert after[k] in after && after[k] in nodes;
        var i :| 0 <= i < |nodes| && nodes[i] == after[k];
      }
    }
  }

  /** Every survivor hangs under its nearest surviving ancestor. */
  ghost predicate Closed(before: map<Id, Id>, gone: set<Id>, after: map<Id, Id>) {
    && (forall x :: x in after <==> x in before && x !in gone)
    && (forall x :: x in after ==> exists n :: Above(before, gone, x, after[x], n))
  }

  lemma ClosedThroughLift(before: map<Id, Id>, gone: set<Id>, z: Id, after: map<Id, Id>)
    requires z in before && before[z] != z && z !in gone && Closed(Lifted(before, z), gone, after)
    ensures Closed(before, gone + {z}, after)
  {
    forall x | x in after ensures exists n :: Above(before, gone + {z}, x, after[x], n) {
      var n :| Above(Lifted(before, z), gone, x, after[x], n);
      var m := AboveThroughLift(before, gone, z, x, after[x], n);
    }
  }

  lemma NothingGone(parentOf: map<Id, Id>)
    ensures Closed(parentOf, {}, parentOf)
  {
    forall x | x in parentOf ensures exists n :: Above(parentOf, {}, x, parentOf[x], n) {
      assert Above(parentOf, {}, x, parentOf[x], 0);
    }
  }

  /**
   * Several departures, none refused, in any order: exactly those devices are gone, every survivor
   * hangs under its nearest surviving ancestor, edges that touch no departed node are verbatim, and
   * the graph is a valid tree again.
   */
  lemma {:induction false} DeparturesClose(g: Graph, ids: seq<Id>, platform: Platform)
    requires platform.Sound() && Valid(g) && TreeShaped(g) && NoneKept(g, ids, platform)
    requires NoRepeats(ids) && forall i :: 0 <= i < |ids| ==> ids[i] in DeviceIds(g.nodes)
    ensures var (h, n) := DetachAll(g, ids, platform);
            && n == |ids| && Valid(h) && TreeShaped(h) && h == g.(nodes := h.nodes, edges := h.edges)
            && (forall id :: id in DeviceIds(h.nodes) <==> id in DeviceIds(g.nodes) && id !in ids)
            && Closed(ParentTable(g.edges), Gone(g.nodes, ids), ParentTable(h.edges))
            && (forall e :: e in g.edges && e.from !in Gone(g.nodes, ids) && e.to !in Gone(g.nodes, ids) ==>
               e in h.edges)
    decreases |ids|
  {
    hide Valid, TreeShaped, DeviceIds, ParentTable, Closed, Gone, Lifted, DetachFrom, Platform.Sound, WithoutNode;
    if ids == [] {
      NothingGone(ParentTable(g.edges));
      assert Gone(g.nodes, []) == {} by { NobodyGone(g.nodes); }
    } else {
      var h, x := DetachOne(g, ids[0], platform);
      DeviceIdsWithout(g.nodes, ids[0], x);
      assert ids == [ids[0]] + ids[1..];
      GoneSplits(g.nodes, ids[0], ids[1..], x);
      forall i | 0 <= i < |ids| - 1 ensures ids[1..][i] in DeviceIds(h.nodes) { assert ids[1..][i] == ids[i + 1]; }
      DeparturesClose(h, ids[1..], platform);
      var rest := DetachAll(h, ids[1..], platform).0;
      ClosedThroughLift(ParentTable(g.edges), Gone(h.nodes, ids[1..]), x, ParentTable(rest.edges));
    }
  }

  lemma NobodyGone(nodes: seq<Node>)
    ensures Gone(nodes, []) == {}
  {}

  /** The parent a survivor ends up with does not depend on the order of removal. */
  lemma {:induction false} AboveUnique(parentOf: map<Id, Id>, gone: set<Id>, x: Id, a: Id, b: Id, n: nat, m: nat)
    requires Above(parentOf, gone, x, a, n) && Above(parentOf, gone, x, b, m)
    ensures a == b
    decreases n
  {
    if parentOf[x] in gone {
      AboveUnique(parentOf, gone, parentOf[x], a, b, n - 1, m - 1);
    }
  }

  /** Two removal orders of the same devices end in the same tree. */
  lemma RemovalOrderIrrelevant(g: Graph, ids: seq<Id>, other: seq<Id>, platform: Platform)
    requires platform.Sound() && Valid(g) && TreeShaped(g) && NoneKept(g, ids, platform) && NoneKept(g, other, platform)
    requires NoRepeats(ids) && NoRepeats(other) && (forall id :: id in ids <==> id in other)
    requires forall i :: 0 <= i < |ids| ==> ids[i] in DeviceIds(g.nodes)
    ensures ParentTable(DetachAll(g, ids, platform).0.edges) == ParentTable(DetachAll(g, other, platform).0.edges)
  {
    hide Valid, TreeShaped, DeviceIds, ParentTable, DetachAll, NoneKept, Above, Platform.Sound;
    forall i | 0 <= i < |other| ensures other[i] in DeviceIds(g.nodes) { assert other[i] in ids; }
    DeparturesClose(g, ids, platform);
    DeparturesClose(g, other, platform);
    assert Gone(g.nodes, ids) == Gone(g.nodes, other);
    var before, gone := ParentTable(g.edges), Gone(g.nodes, ids);
    var s, t := ParentTable(DetachAll(g, ids, platform).0.edges), ParentTable(DetachAll(g, other, platform).0.edges);
    forall x | x in s ensures x in t && s[x] == t[x] {
      var n :| Above(before, gone, x, s[x], n);
      var m :| Above(before, gone, x, t[x], m);
      AboveUnique(before, gone, x, s[x], t[x], n, m);
    }
  }
}
