/** What one pass does to the graph of one group: departures, arrivals, names, provenance. */
module Updating {
  import opened Sorting
  import opened Model
  import opened Placement
  import opened Tree
  import opened Drawing
  import opened Attaching
  import opened Refinement
  import opened Detaching

  function GroupIdOf(g: Graph): string { AttributeOf(g.attributes, ATTR_GROUP_ID) }
  function GroupPathOf(g: Graph): string { AttributeOf(g.attributes, ATTR_GROUP_PATH) }
  function GeneratedNameOf(g: Graph): string { AttributeOf(g.attributes, ATTR_NAME) }

  /** The position of the first node nothing points up from. */
  function RootOf(nodes: seq<Node>, edges: seq<Edge>): (r: nat)
    ensures r <= |nodes| && (r < |nodes| ==> IsSink(edges, nodes[r].id))
  {
    if nodes == [] || IsSink(edges, nodes[0].id) then 0 else 1 + RootOf(nodes[1..], edges)
  }

  /** Follows a group rename, but only into a name this service wrote. */
  function Rename(g: Graph, group: Group): (Graph, bool) {
    var r := RootOf(g.nodes, g.edges);
    if r == |g.nodes| then (g, false)
    else
      var generated, current := GeneratedNameOf(g), AttributeOf(g.nodes[r].attributes, NODE_ATTR_NAME);
      if generated == group.name && current == group.name then (g, false)
      else
        var root := g.nodes[r].(attributes := SetAttribute(g.nodes[r].attributes, NODE_ATTR_NAME, group.name));
        (g.(nodes := if current == generated then g.nodes[r := root] else g.nodes,
            attributes := if generated != group.name then SetAttribute(g.attributes, ATTR_NAME, group.name)
              else g.attributes),
         current == generated || generated != group.name)
  }

  datatype Revision = Revision(graph: Graph, changed: bool) | AttachFailed

  predicate Moved(g: Graph, group: Group) {
    GroupPathOf(g) != "" && GroupPathOf(g) != group.path
  }

  /** The ids of `ids` that are nobody's in `devices`, each once. */
  function Unwanted(ids: seq<Id>, devices: seq<Device>): seq<Id> {
    if ids == [] then []
    else
      var n := |ids| - 1;
      var before := Unwanted(ids[..n], devices);
      if IsDeviceId(devices, ids[n]) || ids[n] in before then before else before + [ids[n]]
  }

  /** In id order; nobody leaves on a pass that finds the group moved. */
  function Departed(g: Graph, group: Group, devices: seq<Device>): seq<Id> {
    if Moved(g, group) then [] else Sort(Before, Unwanted(DeviceIds(g.nodes), devices))
  }

  function Missing(g: Graph, devices: seq<Device>): seq<Device> {
    if devices == [] then []
    else
      var n := |devices| - 1;
      Missing(g, devices[..n]) + if devices[n].id in DeviceIds(g.nodes) then [] else [devices[n]]
  }

  /** Records the group's id and its present path. */
  function Claimed(g: Graph, group: Group): (Graph, bool) {
    var withId := if GroupIdOf(g) != group.id then g.(attributes := SetAttribute(g.attributes, ATTR_GROUP_ID, group.id))
      else g;
    var withPath := if GroupPathOf(g) != group.path
      then withId.(attributes := SetAttribute(withId.attributes, ATTR_GROUP_PATH, group.path)) else withId;
    (withPath, GroupIdOf(g) != group.id || GroupPathOf(g) != group.path)
  }

  function Revise(g: Graph, group: Group, devices: seq<Device>, readings: Readings, opts: Options,
      platform: Platform): Revision
    requires opts.FreshIds()
  {
    var (rest, removed) := DetachAll(g, Departed(g, group, devices), platform);
    var missing := Missing(g, devices);
    match AttachAll(rest, missing, readings, opts, 0, platform.valid)
    case None => AttachFailed
    case Some(grown) =>
      var (renamed, follows) := Rename(grown, group);
      var (next, claims) := Claimed(renamed, group);
      Revision(next, removed > 0 || missing != [] || follows || claims)
  }

  // ---- what a report says beside the graph ----

  /** The running maximum of the other two places that decide whether a device has a reading: it starts at zero. */
  function BestReading(deviceId: Id, carriers: seq<Carrier>, readings: Readings): real {
    if carriers == [] then 0.0
    else
      var n := |carriers| - 1;
      var best, key := BestReading(deviceId, carriers[..n], readings), ReadingKey(deviceId, carriers[n]);
      if key in readings && readings[key] > best then readings[key] else best
  }

  lemma {:induction false} BestAgreesWithPrimary(deviceId: Id, carriers: seq<Carrier>, readings: Readings)
    ensures var p := PrimaryCarrier(deviceId, carriers, readings);
            BestReading(deviceId, carriers, readings) == if p.Some? then p.value.1 else 0.0
    ensures BestReading(deviceId, carriers, readings) > 0.0 <==> PrimaryCarrier(deviceId, carriers, readings).Some?
  {
    if carriers != [] { BestAgreesWithPrimary(deviceId, carriers[..|carriers| - 1], readings); }
  }

  method LargestRead(deviceId: Id, carriers: seq<Carrier>, readings: Readings) returns (best: real)
    ensures best == BestReading(deviceId, carriers, readings)
  {
    best := 0.0;
    for k := 0 to |carriers|
      invariant best == BestReading(deviceId, carriers[..k], readings)
    {
      assert carriers[..k + 1][..k] == carriers[..k];
      var key := ReadingKey(deviceId, carriers[k]);
      if key in readings && readings[key] > best {
        best := readings[key];
      }
    }
    assert carriers[..|carriers|] == carriers;
  }

  function Unread(ds: seq<Device>, readings: Readings): seq<Id> {
    if ds == [] then []
    else
      var n := |ds| - 1;
      Unread(ds[..n], readings) + if PrimaryOf(ds[n], readings).None? then [ds[n].id] else []
  }

  lemma {:induction false} UnreadMembers(ds: seq<Device>, readings: Readings)
    ensures forall id :: id in Unread(ds, readings) <==>
            exists i :: 0 <= i < |ds| && ds[i].id == id && PrimaryOf(ds[i], readings).None?
    ensures DistinctDeviceIds(ds) ==> NoRepeats(Unread(ds, readings))
  {
    hide PrimaryOf;
    if ds != [] {
      var n := |ds| - 1;
      var before := Unread(ds[..n], readings);
      UnreadMembers(ds[..n], readings);
      forall i | 0 <= i < |before| ensures DistinctDeviceIds(ds) ==> before[i] != ds[n].id {
        assert before[i] in before;
        var k :| 0 <= k < n && ds[..n][k].id == before[i];
        assert ds[k].id == before[i];
      }
    }
  }

  /** The devices of a report that have no reading, by id. */
  function Unplaced(ds: seq<Device>, readings: Readings): seq<Id> { Sort(Before, Unread(ds, readings)) }

  /** The devices listed as having no reading are exactly those the placement had no carrier for. */
  method WithoutReading(ds: seq<Device>, readings: Readings) returns (ids: seq<Id>)
    ensures ids == Unplaced(ds, readings)
    ensures forall id :: id in ids <==> exists i :: 0 <= i < |ds| && ds[i].id == id && PrimaryOf(ds[i], readings).None?
    ensures Proper(ds) ==> StrictlySorted(Before, ids)
  {
    hide PrimaryCarrier, Proper, Sort;
    var listed: seq<Id> := [];
    for i := 0 to |ds|
      invariant listed == Unread(ds[..i], readings)
    {
      assert ds[..i + 1][..i] == ds[..i];
      var best := LargestRead(ds[i].id, ds[i].CarriersOf(), readings);
      BestAgreesWithPrimary(ds[i].id, ds[i].CarriersOf(), readings);
      if best <= 0.0 {
        listed := listed + [ds[i].id];
      }
    }
    assert ds[..|ds|] == ds;
    UnreadMembers(ds, readings);
    ids := Sort(Before, listed);
    SameElements(ids, listed);
    if Proper(ds) { ProperIsDistinct(ds); SortsIds(listed); }
  }

  lemma ProperIsDistinct(ds: seq<Device>)
    requires Proper(ds)
    ensures DistinctDeviceIds(ds)
  {}

  lemma SortsIds(listed: seq<Id>)
    requires NoRepeats(listed)
    ensures StrictlySorted(Before, Sort(Before, listed))
  {
    BeforeIsStrictOrder();
    forall i, j | 0 <= i < j < |listed| ensures Before(listed[i], listed[j]) || Before(listed[j], listed[i]) {
      BeforeTotal(listed[i], listed[j]);
    }
    SortSorts(Before, listed);
  }

  /** The devices, figures and placements that go with a planned change of a graph. */
  datatype Details = Details(devices: seq<Device>, unplaced: seq<Id>, readings: Readings, placements: seq<Placed>)

  /** What each arrival's placement was, in the order they were attached. */
  function Placements(g: Graph, queue: seq<Device>, readings: Readings, opts: Options, next: nat,
      valid: Graph -> bool): seq<Placed>
    requires opts.FreshIds()
    decreases |queue|
  {
    if queue == [] then []
    else
      match AttachTo(g, queue[0], readings, opts, next, valid)
      case AlreadyThere => Placements(g, queue[1..], readings, opts, next, valid)
      case Attached(g', placement, next') => [placement] + Placements(g', queue[1..], readings, opts, next', valid)
      case Refused(_) => []
  }

  /** Readings are only asked for when somebody arrives; then they are the whole group's. */
  function DetailsOf(g: Graph, group: Group, devices: seq<Device>, readings: Readings, opts: Options,
      platform: Platform): Details
    requires opts.FreshIds()
  {
    var missing := Missing(g, devices);
    if missing == [] then Details(devices, [], map[], [])
    else
      var rest := DetachAll(g, Departed(g, group, devices), platform).0;
      Details(devices, Unplaced(missing, readings), readings,
        Placements(rest, missing, readings, opts, 0, platform.valid))
  }

  // ---- the side conditions ----

  ghost predicate NodesNamed(nodes: seq<Node>) {
    forall i :: 0 <= i < |nodes| ==> nodes[i].id != ""
  }

  /** A node that carries a device's id, as node or as resource, is that device's own node. */
  ghost predicate OwnNodes(nodes: seq<Node>, devices: seq<Device>) {
    forall i :: 0 <= i < |devices| ==> devices[i].id in DeviceIds(nodes) || Absent(nodes, devices[i].id)
  }

  // ---- departures on any valid graph ----

  lemma DetachRemoves(g: Graph, deviceId: Id, platform: Platform) returns (h: Graph, x: Id)
    requires platform.Sound() && Valid(g) && NodesNamed(g.nodes) && deviceId in DeviceIds(g.nodes)
    requires !DetachFrom(g, deviceId, platform).Kept?
    ensures DetachFrom(g, deviceId, platform) == Detached(h) && Valid(h) && NodesNamed(h.nodes)
    ensures h == g.(nodes := WithoutNode(g.nodes, x), edges := h.edges)
    ensures forall n :: n in g.nodes ==> (n.id == x <==> n.resourceId == deviceId)
  {
    hide Acyclic, WeightsBalance, SingleRoot, EdgesConnectNodes, DistinctEdgeIds, ByNode, ByResource, WithoutNode;
    InDeviceIds(g.nodes, deviceId);
    FoundByResource(g.nodes, deviceId);
    x := FindDeviceNode(g, deviceId);
    h := platform.delete(g, x).value;
    WithoutNodeIds(g.nodes, x);
  }

  lemma {:induction false} DeparturesRemove(g: Graph, ids: seq<Id>, platform: Platform)
    requires platform.Sound() && Valid(g) && NodesNamed(g.nodes) && NoneKept(g, ids, platform)
    requires NoRepeats(ids) && forall i :: 0 <= i < |ids| ==> ids[i] in DeviceIds(g.nodes)
    ensures var (h, n) := DetachAll(g, ids, platform);
            && n == |ids| && Valid(h) && NodesNamed(h.nodes) && h == g.(nodes := h.nodes, edges := h.edges)
            && (forall id :: id in DeviceIds(h.nodes) <==> id in DeviceIds(g.nodes) && id !in ids)
            && (forall node :: node in h.nodes ==> node in g.nodes)
    decreases |ids|
  {
    hide Valid, NodesNamed, DeviceIds, DetachFrom, Platform.Sound, WithoutNode;
    if ids != [] {
      var h, x := DetachRemoves(g, ids[0], platform);
      DeviceIdsWithout(g.nodes, ids[0], x);
      WithoutNodeMembers(g.nodes, x);
      assert ids == [ids[0]] + ids[1..];
      forall i | 0 <= i < |ids| - 1 ensures ids[1..][i] in DeviceIds(h.nodes) { assert ids[1..][i] == ids[i + 1]; }
      DeparturesRemove(h, ids[1..], platform);
    }
  }

  // ---- arrivals on any valid graph ----

  ghost predicate DistinctDevices(ds: seq<Device>) {
    DistinctDeviceIds(ds) && forall i :: 0 <= i < |ds| ==> ds[i].id != ""
  }

  lemma DeviceIdsAppend(nodes: seq<Node>, id: Id)
    requires id != ""
    ensures forall x :: x in DeviceIds(nodes + [Node(id, DeviceResource, id, [])]) <==> x in DeviceIds(nodes) || x == id
  {
    var after := nodes + [Node(id, DeviceResource, id, [])];
    forall x ensures x in DeviceIds(after) <==> x in DeviceIds(nodes) || x == id {
      InDeviceIds(after, x);
      InDeviceIds(nodes, x);
      assert after[|nodes|].resourceId == id;
      if x in DeviceIds(nodes) {
        var i :| 0 <= i < |nodes| && nodes[i].resourceType == DeviceResource && nodes[i].resourceId == x;
        assert after[i] == nodes[i];
      }
    }
  }

  lemma AbsentAfterLeaf(nodes: seq<Node>, id: Id, other: Id)
    requires Absent(nodes, other) && id != other
    ensures Absent(nodes + [Node(id, DeviceResource, id, [])], other)
  {}

  /** Every arrival adds exactly one node and one edge, and nothing stored is touched. */
  lemma {:induction false} ArrivalsAdd(g: Graph, queue: seq<Device>, readings: Readings, opts: Options, next: nat,
      platform: Platform)
    requires opts.FreshIds() && platform.Sound() && Valid(g) && NodesNamed(g.nodes)
    requires DistinctDevices(queue) && forall i :: 0 <= i < |queue| ==> Absent(g.nodes, queue[i].id)
    ensures var r := AttachAll(g, queue, readings, opts, next, platform.valid);
            && r.Some? && Valid(r.value) && NodesNamed(r.value.nodes)
            && r.value == g.(nodes := r.value.nodes, edges := r.value.edges)
            && g.nodes <= r.value.nodes && |r.value.nodes| == |g.nodes| + |queue|
            && g.edges <= r.value.edges && |r.value.edges| == |g.edges| + |queue|
            && (forall id :: id in DeviceIds(r.value.nodes) <==> id in DeviceIds(g.nodes) || IsDeviceId(queue, id))
    decreases |queue|
  {
    hide Valid, DeviceIds, AttachTo, Absent;
    if queue != [] {
      var d := queue[0];
      NewcomerAddsOneLeaf(g, d, readings, opts, next, platform.valid);
      var r := AttachTo(g, d, readings, opts, next, platform.valid);
      var e :| r.graph == AddLeaf(g, d.id, r.placement.parentId, e);
      DeviceIdsAppend(g.nodes, d.id);
      forall i | 0 <= i < |queue| - 1 ensures Absent(r.graph.nodes, queue[1..][i].id) {
        assert queue[1..][i] == queue[i + 1];
        AbsentAfterLeaf(g.nodes, d.id, queue[i + 1].id);
      }
      ArrivalsAdd(r.graph, queue[1..], readings, opts, r.next, platform);
      forall id ensures IsDeviceId(queue, id) <==> id == d.id || IsDeviceId(queue[1..], id) {
        if IsDeviceId(queue[1..], id) {
          var i :| 0 <= i < |queue[1..]| && queue[1..][i].id == id;
          assert queue[i + 1].id == id;
        }
        if IsDeviceId(queue, id) {
          var i :| 0 <= i < |queue| && queue[i].id == id;
          assert i > 0 ==> queue[1..][i - 1].id == id;
        }
      }
    }
  }

  /** The placements of the arrivals say, one for each, the parent the revised graph has for it. */
  lemma {:induction false} ArrivalsAreTold(g: Graph, queue: seq<Device>, readings: Readings, opts: Options, next: nat,
      platform: Platform)
    requires opts.FreshIds() && platform.Sound() && Valid(g) && NodesNamed(g.nodes)
    requires DistinctDevices(queue) && forall i :: 0 <= i < |queue| ==> Absent(g.nodes, queue[i].id)
    ensures var r, told := AttachAll(g, queue, readings, opts, next, platform.valid),
            Placements(g, queue, readings, opts, next, platform.valid);
            && r.Some? && |told| == |queue|
            && forall i :: 0 <= i < |queue| ==>
               told[i].deviceId == queue[i].id && Linked(r.value.edges, queue[i].id, told[i].parentId)
    decreases |queue|
  {
    hide Valid, DeviceIds, Absent, AttachTo, NodesNamed, PlacementIn;
    ArrivalsAdd(g, queue, readings, opts, next, platform);
    if queue != [] {
      var d := queue[0];
      NewcomerAddsOneLeaf(g, d, readings, opts, next, platform.valid);
      var first := AttachTo(g, d, readings, opts, next, platform.valid);
      PlacementOf(g, d, readings, opts, next, platform.valid);
      NamedAfterLeaf(g, first.graph, d);
      forall i | 0 <= i < |queue| - 1 ensures Absent(first.graph.nodes, queue[1..][i].id) {
        AbsentAfterLeaf(g.nodes, d.id, queue[i + 1].id);
      }
      ArrivalsAdd(first.graph, queue[1..], readings, opts, first.next, platform);
      ArrivalsAreTold(first.graph, queue[1..], readings, opts, first.next, platform);
      var all := AttachAll(g, queue, readings, opts, next, platform.valid).value;
      assert all.edges[|g.edges|] == first.graph.edges[|g.edges|];
      assert Linked(all.edges, d.id, first.placement.parentId);
    }
  }

  lemma PlacementOf(g: Graph, d: Device, readings: Readings, opts: Options, next: nat, valid: Graph -> bool)
    requires opts.FreshIds()
    ensures var r := AttachTo(g, d, readings, opts, next, valid); r.Attached? ==> r.placement.deviceId == d.id
  {}

  lemma NamedAfterLeaf(g: Graph, h: Graph, d: Device)
    requires NodesNamed(g.nodes) && d.id != "" && exists parent, e :: h == AddLeaf(g, d.id, parent, e)
    ensures NodesNamed(h.nodes)
  {}

  // ---- who leaves and who arrives ----

  lemma {:induction false} UnwantedIs(ids: seq<Id>, devices: seq<Device>)
    ensures NoRepeats(Unwanted(ids, devices))
    ensures forall x :: x in Unwanted(ids, devices) <==> x in ids && !IsDeviceId(devices, x)
  {
    hide IsDeviceId;
    if ids != [] {
      var n := |ids| - 1;
      UnwantedIs(ids[..n], devices);
      assert forall x :: x in ids <==> x in ids[..n] || x == ids[n];
    }
  }

  lemma DepartedAre(g: Graph, group: Group, devices: seq<Device>)
    ensures NoRepeats(Departed(g, group, devices))
    ensures forall x :: x in Departed(g, group, devices) <==>
                          GroupPathOf(g) in ["", group.path] && x in DeviceIds(g.nodes) && !IsDeviceId(devices, x)
  {
    hide DeviceIds, IsDeviceId, Before;
    var unwanted := Unwanted(DeviceIds(g.nodes), devices);
    UnwantedIs(DeviceIds(g.nodes), devices);
    BeforeIsStrictOrder();
    forall i, j | 0 <= i < j < |unwanted| ensures Before(unwanted[i], unwanted[j]) || Before(unwanted[j], unwanted[i]) {
      BeforeTotal(unwanted[i], unwanted[j]);
    }
    SortSorts(Before, unwanted);
    var sorted := Sort(Before, unwanted);
    forall i, j | 0 <= i < j < |sorted| ensures sorted[i] != sorted[j] {
      assert Before(sorted[i], sorted[j]);
      BeforeIrreflexive(sorted[i]);
    }
  }

  lemma {:induction false} MissingAre(g: Graph, devices: seq<Device>)
    requires DistinctDevices(devices)
    ensures DistinctDevices(Missing(g, devices))
    ensures forall d :: d in Missing(g, devices) <==> d in devices && d.id !in DeviceIds(g.nodes)
  {
    hide DeviceIds;
    if devices != [] {
      var n := |devices| - 1;
      MissingAre(g, devices[..n]);
      var before, after := Missing(g, devices[..n]), Missing(g, devices);
      assert forall d :: d in devices <==> d in devices[..n] || d == devices[n];
      forall i | 0 <= i < |before| ensures before[i].id != devices[n].id && before[i].id != "" {
        assert before[i] in devices[..n];
      }
    }
  }

  // ---- names and provenance change no structure ----

  lemma {:induction false} RootKept(nodes: seq<Node>, after: seq<Node>, edges: seq<Edge>)
    requires |nodes| == |after| && forall i :: 0 <= i < |nodes| ==> nodes[i].id == after[i].id
    ensures RootOf(nodes, edges) == RootOf(after, edges)
  {
    if nodes != [] { RootKept(nodes[1..], after[1..], edges); }
  }

  lemma {:induction false} DeviceIdsKept(nodes: seq<Node>, r: nat, attributes: seq<Attribute>)
    requires r < |nodes|
    ensures DeviceIds(nodes[r := nodes[r].(attributes := attributes)]) == DeviceIds(nodes)
  {
    var after := nodes[r := nodes[r].(attributes := attributes)];
    if r > 0 {
      DeviceIdsKept(nodes[1..], r - 1, attributes);
      assert after[1..] == nodes[1..][r - 1 := nodes[1..][r - 1].(attributes := attributes)];
    } else {
      assert after[1..] == nodes[1..];
    }
  }

  lemma ValidKept(g: Graph, h: Graph)
    requires Valid(g) && h.owner == g.owner && h.edges == g.edges && |h.nodes| == |g.nodes|
    requires forall i :: 0 <= i < |g.nodes| ==> h.nodes[i] == g.nodes[i].(attributes := h.nodes[i].attributes)
    ensures Valid(h)
  {
    hide Acyclic, OutWeight, IsSink;
    forall id | HasNode(g.nodes, id) ensures HasNode(h.nodes, id) {
      var i :| 0 <= i < |g.nodes| && g.nodes[i].id == id;
      assert h.nodes[i].id == id;
    }
    var r :| 0 <= r < |g.nodes| && IsSink(g.edges, g.nodes[r].id) && g.nodes[r].resourceType.CustomResource?
             && forall i :: 0 <= i < |g.nodes| && i != r ==> !IsSink(g.edges, g.nodes[i].id);
    assert IsSink(h.edges, h.nodes[r].id);
  }

  lemma RenameKeeps(g: Graph, group: Group)
    requires Valid(g) && NodesNamed(g.nodes)
    ensures var h := Rename(g, group).0;
            && Valid(h) && NodesNamed(h.nodes) && h.edges == g.edges && h.owner == g.owner && h.id == g.id
            && |h.nodes| == |g.nodes| && (forall i :: 0 <= i < |g.nodes| ==> h.nodes[i].id == g.nodes[i].id)
            && DeviceIds(h.nodes) == DeviceIds(g.nodes)
            && GroupIdOf(h) == GroupIdOf(g) && GroupPathOf(h) == GroupPathOf(g)
    ensures !Rename(g, group).1 ==> Rename(g, group).0 == g
  {
    hide Valid, DeviceIds, SetAttribute, AttributeOf;
    var h, r := Rename(g, group).0, RootOf(g.nodes, g.edges);
    if r < |g.nodes| {
      DeviceIdsKept(g.nodes, r, SetAttribute(g.nodes[r].attributes, NODE_ATTR_NAME, group.name));
      SetThenGet(g.attributes, ATTR_NAME, group.name, ATTR_GROUP_ID);
      SetThenGet(g.attributes, ATTR_NAME, group.name, ATTR_GROUP_PATH);
    }
    ValidKept(g, h);
  }

  /** Once a name has been followed there is nothing left to follow, whatever the user called it. */
  lemma RenameSettles(g: Graph, group: Group, attributes: seq<Attribute>)
    requires AttributeOf(attributes, ATTR_NAME) == AttributeOf(Rename(g, group).0.attributes, ATTR_NAME)
    ensures var h := Rename(g, group).0.(attributes := attributes);
            Rename(h, group) == (h, false)
  {
    hide SetAttribute, AttributeOf, IsSink;
    var h := Rename(g, group).0.(attributes := attributes);
    RootKept(g.nodes, h.nodes, g.edges);
    var r := RootOf(g.nodes, g.edges);
    if r < |g.nodes| {
      SetThenGet(g.attributes, ATTR_NAME, group.name, ATTR_NAME);
      SetThenGet(g.nodes[r].attributes, NODE_ATTR_NAME, group.name, NODE_ATTR_NAME);
    }
  }

  lemma ClaimedKeeps(g: Graph, group: Group)
    ensures var (h, claims) := Claimed(g, group);
            && h == g.(attributes := h.attributes)
            && GroupIdOf(h) == group.id && GroupPathOf(h) == group.path && GeneratedNameOf(h) == GeneratedNameOf(g)
            && (!claims <==> GroupIdOf(g) == group.id && GroupPathOf(g) == group.path) && (!claims ==> h == g)
  {
    hide SetAttribute, AttributeOf;
    var withId := if GroupIdOf(g) != group.id then g.(attributes := SetAttribute(g.attributes, ATTR_GROUP_ID, group.id))
      else g;
    SetThenGet(g.attributes, ATTR_GROUP_ID, group.id, ATTR_GROUP_ID);
    SetThenGet(g.attributes, ATTR_GROUP_ID, group.id, ATTR_GROUP_PATH);
    SetThenGet(g.attributes, ATTR_GROUP_ID, group.id, ATTR_NAME);
    SetThenGet(withId.attributes, ATTR_GROUP_PATH, group.path, ATTR_GROUP_ID);
    SetThenGet(withId.attributes, ATTR_GROUP_PATH, group.path, ATTR_GROUP_PATH);
    SetThenGet(withId.attributes, ATTR_GROUP_PATH, group.path, ATTR_NAME);
  }

  // ---- a revision, and the one after it ----

  /** The graph already says what the world says: nothing to revise. */
  ghost predicate InStep(g: Graph, group: Group, devices: seq<Device>) {
    && GroupIdOf(g) == group.id && GroupPathOf(g) == group.path
    && Rename(g, group) == (g, false)
    && (forall id :: id in DeviceIds(g.nodes) <==> IsDeviceId(devices, id))
  }

  lemma InStepStays(g: Graph, group: Group, devices: seq<Device>, readings: Readings, opts: Options, platform: Platform)
    requires opts.FreshIds() && DistinctDevices(devices) && InStep(g, group, devices)
    ensures Revise(g, group, devices, readings, opts, platform) == Revision(g, false)
    ensures GroupPathOf(g) in ["", group.path] && Departed(g, group, devices) == []
  {
    hide Rename, DeviceIds;
    DepartedAre(g, group, devices);
    MissingAre(g, devices);
    assert forall x :: x !in Departed(g, group, devices);
    Nobody(Departed(g, group, devices));
    forall d ensures d !in Missing(g, devices) { DeviceInIds(devices, d); }
    Nobody(Missing(g, devices));
    ClaimedKeeps(g, group);
  }

  lemma DeviceInIds(devices: seq<Device>, d: Device)
    ensures d in devices ==> IsDeviceId(devices, d.id)
  {
    if d in devices {
      var i :| 0 <= i < |devices| && devices[i] == d;
    }
  }

  lemma {:induction false} Nobody<T>(s: seq<T>)
    requires forall x :: x !in s
    ensures s == []
  {
    assert s == [] || exists x :: x in s by {
      if s != [] { Someone(s); }
    }
  }

  lemma Someone<T>(s: seq<T>)
    requires s != []
    ensures exists x :: x in s
  {
    assert s[0] in s;
  }

  /** What a pass that is not refused a removal requires of the graph it finds. */
  ghost predicate Revisable(g: Graph, group: Group, devices: seq<Device>, platform: Platform) {
    && Valid(g) && NodesNamed(g.nodes) && DistinctDevices(devices) && OwnNodes(g.nodes, devices)
    && NoneKept(g, Departed(g, group, devices), platform)
  }

  lemma Arrivals(g: Graph, group: Group, devices: seq<Device>, platform: Platform)
    requires platform.Sound() && Revisable(g, group, devices, platform)
    ensures var (rest, n) := DetachAll(g, Departed(g, group, devices), platform);
            && Valid(rest) && NodesNamed(rest.nodes) && rest == g.(nodes := rest.nodes, edges := rest.edges)
            && n == |Departed(g, group, devices)|
            && (forall id :: id in DeviceIds(rest.nodes) <==>
               id in DeviceIds(g.nodes) && id !in Departed(g, group, devices))
            && DistinctDevices(Missing(g, devices))
            && (forall i :: 0 <= i < |Missing(g, devices)| ==> Absent(rest.nodes, Missing(g, devices)[i].id))
  {
    hide Valid, DeviceIds, Departed, Moved, NoneKept, Platform.Sound;
    DepartedAre(g, group, devices);
    DeparturesRemove(g, Departed(g, group, devices), platform);
    var rest := DetachAll(g, Departed(g, group, devices), platform).0;
    MissingAre(g, devices);
    forall i | 0 <= i < |Missing(g, devices)| ensures Absent(rest.nodes, Missing(g, devices)[i].id) {
      assert Missing(g, devices)[i] in devices;
      var k :| 0 <= k < |devices| && devices[k] == Missing(g, devices)[i];
      forall j | 0 <= j < |rest.nodes|
        ensures rest.nodes[j].id != devices[k].id && rest.nodes[j].resourceId != devices[k].id {
        assert rest.nodes[j] in g.nodes;
      }
    }
  }

  /**
   * A pass over a valid graph that is refused no removal succeeds, leaves a valid graph claimed by
   * the group, and - unless the group had moved - leaves exactly the group's devices in it. On a
   * moved pass nobody is removed.
   */
  lemma ReviseFollowsTheWorld(g: Graph, group: Group, devices: seq<Device>, readings: Readings, opts: Options,
      platform: Platform)
    requires opts.FreshIds() && platform.Sound() && Revisable(g, group, devices, platform)
    ensures var r := Revise(g, group, devices, readings, opts, platform);
            && r.Revision? && Valid(r.graph) && NodesNamed(r.graph.nodes) && r.graph.id == g.id
            && GroupIdOf(r.graph) == group.id && GroupPathOf(r.graph) == group.path
            && (GroupPathOf(g) in ["", group.path] ==> InStep(r.graph, group, devices))
            && (GroupPathOf(g) !in ["", group.path] ==> forall id :: id in DeviceIds(r.graph.nodes) <==>
               id in DeviceIds(g.nodes) || IsDeviceId(devices, id))
            && Rename(r.graph, group) == (r.graph, false)
            && (!r.changed ==> r.graph == g)
  {
    hide Valid, NodesNamed, DeviceIds, Missing, Departed, Rename, AttachAll, DetachAll, Absent, Claimed, Moved,
      IsDeviceId, Revisable, DistinctDevices;
    assert DistinctDevices(devices) by { RevisableDevices(g, group, devices, platform); }
    Arrivals(g, group, devices, platform);
    DepartedAre(g, group, devices);
    MissingAre(g, devices);
    var (rest, n) := DetachAll(g, Departed(g, group, devices), platform);
    var missing := Missing(g, devices);
    ArrivalsAdd(rest, missing, readings, opts, 0, platform);
    var grown := AttachAll(rest, missing, readings, opts, 0, platform.valid).value;
    RenameKeeps(grown, group);
    var renamed := Rename(grown, group).0;
    ClaimedKeeps(renamed, group);
    var next := Claimed(renamed, group).0;
    ValidKept(renamed, next);
    RenameSettles(grown, group, next.attributes);
    NothingNew(g, group, devices, platform, readings, opts);
    forall id ensures id in DeviceIds(next.nodes) <==>
        (id in DeviceIds(g.nodes) && id !in Departed(g, group, devices)) || IsDeviceId(devices, id)
    {
      MissingIds(g, devices, id);
    }
  }

  lemma RevisableDevices(g: Graph, group: Group, devices: seq<Device>, platform: Platform)
    requires Revisable(g, group, devices, platform)
    ensures DistinctDevices(devices)
  {}

  lemma MissingIds(g: Graph, devices: seq<Device>, id: Id)
    requires DistinctDevices(devices)
    ensures IsDeviceId(Missing(g, devices), id) <==> IsDeviceId(devices, id) && id !in DeviceIds(g.nodes)
  {
    hide DeviceIds, Missing;
    MissingAre(g, devices);
    if IsDeviceId(Missing(g, devices), id) {
      var i :| 0 <= i < |Missing(g, devices)| && Missing(g, devices)[i].id == id;
      assert Missing(g, devices)[i] in devices;
    }
    if IsDeviceId(devices, id) && id !in DeviceIds(g.nodes) {
      var i :| 0 <= i < |devices| && devices[i].id == id;
      assert devices[i] in Missing(g, devices);
    }
  }

  lemma NothingNew(g: Graph, group: Group, devices: seq<Device>, platform: Platform, readings: Readings, opts: Options)
    requires opts.FreshIds()
    ensures Departed(g, group, devices) == [] ==> DetachAll(g, Departed(g, group, devices), platform) == (g, 0)
    ensures Missing(g, devices) == [] ==>
            forall h :: AttachAll(h, Missing(g, devices), readings, opts, 0, platform.valid) == Some(h)
  {}

  /**
   * Extends, never restructures. On a single-parent tree whose group has not moved, with no refused
   * removal: survivors hang under their nearest surviving ancestor, edges that touch no departed
   * node are verbatim, each arrival adds one node and one edge. A moved group loses nothing at all.
   */
  lemma ReviseExtends(g: Graph, group: Group, devices: seq<Device>, readings: Readings, opts: Options,
      platform: Platform)
    requires opts.FreshIds() && platform.Sound() && Revisable(g, group, devices, platform) && TreeShaped(g)
    ensures var r, gone := Revise(g, group, devices, readings, opts, platform),
            Gone(g.nodes, Departed(g, group, devices));
            var rest := DetachAll(g, Departed(g, group, devices), platform).0;
            && r.Revision?
            && Closed(ParentTable(g.edges), gone, ParentTable(rest.edges))
            && (forall e :: e in g.edges && e.from !in gone && e.to !in gone ==> e in r.graph.edges)
            && rest.edges <= r.graph.edges && |r.graph.edges| == |rest.edges| + |Missing(g, devices)|
            && |r.graph.nodes| == |rest.nodes| + |Missing(g, devices)|
            && (GroupPathOf(g) !in ["", group.path] ==> g.edges <= r.graph.edges && gone == {})
  {
    hide Valid, NodesNamed, DeviceIds, Missing, Departed, Rename, AttachAll, DetachAll, Absent, Claimed, Moved,
      IsDeviceId, Revisable, DistinctDevices, Closed, Gone, ParentTable, TreeShaped;
    Arrivals(g, group, devices, platform);
    DepartedAre(g, group, devices);
    var rest := DetachAll(g, Departed(g, group, devices), platform).0;
    RevisableDepartures(g, group, devices, platform);
    DeparturesClose(g, Departed(g, group, devices), platform);
    ArrivalsAdd(rest, Missing(g, devices), readings, opts, 0, platform);
    var grown := AttachAll(rest, Missing(g, devices), readings, opts, 0, platform.valid).value;
    RenameKeeps(grown, group);
    ClaimedKeeps(Rename(grown, group).0, group);
    NothingNew(g, group, devices, platform, readings, opts);
    if GroupPathOf(g) !in ["", group.path] {
      Nobody(Departed(g, group, devices));
      NobodyGone(g.nodes);
    }
    assert forall e :: e in rest.edges ==> e in grown.edges;
  }

  lemma RevisableDepartures(g: Graph, group: Group, devices: seq<Device>, platform: Platform)
    requires Revisable(g, group, devices, platform)
    ensures Valid(g) && NoneKept(g, Departed(g, group, devices), platform)
  {}

  /** A generated graph is in step with its group from the start. */
  lemma BuiltInStep(owner: Id, group: Group, devices: seq<Device>, readings: Readings, opts: Options, id: Id)
    requires Proper(devices) && opts.FreshIds() && owner != ""
    ensures var g := GraphOf(owner, group, devices, readings, opts).(id := id);
            && InStep(g, group, devices) && Valid(g) && NodesNamed(g.nodes) && OwnNodes(g.nodes, devices)
  {
    hide Sort, ParentFor, EdgesFor, Valid, DeviceIds;
    var g := GraphOf(owner, group, devices, readings, opts);
    BuildDraws(owner, group, devices, readings, opts);
    DrawnHasRoot(g, devices, readings, opts);
    BuiltAttributes(owner, group, devices, readings, opts);
    DrawnDeviceIds(g, devices, readings, opts);
    ValidKept(g, g.(id := id));
    forall i | 0 <= i < |g.nodes| ensures g.nodes[i].id != "" {
      assert Belongs(devices, opts, g.nodes[i].id);
    }
  }

  lemma BuiltAttributes(owner: Id, group: Group, devices: seq<Device>, readings: Readings, opts: Options)
    requires opts.FreshIds()
    ensures var g := GraphOf(owner, group, devices, readings, opts);
            && GroupIdOf(g) == group.id && GroupPathOf(g) == group.path && GeneratedNameOf(g) == group.name
            && g.nodes != [] && g.nodes[0] == RootNode(group) &&
               AttributeOf(g.nodes[0].attributes, NODE_ATTR_NAME) == group.name
  {
    hide Sort, EdgesFor, Pairs;
    var a := Provenance(group);
    assert a[1..][0] == a[1] && a[1..][1..] == a[2..] && a[2..][0] == a[2];
    assert AttributeOf(a, ATTR_GROUP_PATH) == AttributeOf(a[1..], ATTR_GROUP_PATH);
    assert AttributeOf(a, ATTR_NAME) == AttributeOf(a[1..], ATTR_NAME) == AttributeOf(a[2..], ATTR_NAME);
  }

  lemma DrawnDeviceIds(g: Graph, ds: seq<Device>, readings: Readings, opts: Options)
    requires Proper(ds) && Draws(g, ds, readings, opts)
    ensures forall id :: id in DeviceIds(g.nodes) <==> IsDeviceId(ds, id)
  {
    hide ParentFor;
    forall id ensures id in DeviceIds(g.nodes) <==> IsDeviceId(ds, id) {
      InDeviceIds(g.nodes, id);
      if IsDeviceId(ds, id) {
        assert Belongs(ds, opts, id);
        var i :| 0 <= i < |g.nodes| && g.nodes[i].id == id;
        assert PlainNode(g.nodes[i], ds);
      }
      if id in DeviceIds(g.nodes) {
        var i :| 0 <= i < |g.nodes| && g.nodes[i].resourceType == DeviceResource && g.nodes[i].resourceId == id;
        assert PlainNode(g.nodes[i], ds);
      }
    }
  }

  // ---- the loops ----

  /** Removes what left, in id order; a refusal keeps the device. */
  method RemoveDeparted(cell: GraphCell, departed: seq<Id>, platform: Platform) returns (removed: nat)
    modifies cell
    ensures (cell.graph, removed) == DetachAll(old(cell.graph), departed, platform)
  {
    hide DetachFrom;
    ghost var g := cell.graph;
    removed := 0;
    for i := 0 to |departed|
      invariant DetachAll(g, departed, platform)
             == (DetachAll(cell.graph, departed[i..], platform).0,
               removed + DetachAll(cell.graph, departed[i..], platform).1)
    {
      assert departed[i..][0] == departed[i] && departed[i..][1..] == departed[i + 1..];
      var outcome := Detach(cell, departed[i], platform);
      if outcome.Detached? {
        removed := removed + 1;
      }
    }
  }

  /** Adds what is missing, one after the other; the first refusal ends it. */
  method AddMissing(cell: GraphCell, missing: seq<Device>, readings: Readings, opts: Options, platform: Platform)
    returns (ok: bool, placements: seq<Placed>)
    requires opts.FreshIds()
    modifies cell
    ensures var r := AttachAll(old(cell.graph), missing, readings, opts, 0, platform.valid);
            ok == r.Some? && (ok ==> cell.graph == r.value)
    ensures ok ==> placements == Placements(old(cell.graph), missing, readings, opts, 0, platform.valid)
  {
    hide AttachTo;
    ghost var rest := cell.graph;
    var next := 0;
    placements := [];
    assert missing[0..] == missing;
    for i := 0 to |missing|
      invariant AttachAll(rest, missing, readings, opts, 0, platform.valid)
             == AttachAll(cell.graph, missing[i..], readings, opts, next, platform.valid)
      invariant Placements(rest, missing, readings, opts, 0, platform.valid)
             == placements + Placements(cell.graph, missing[i..], readings, opts, next, platform.valid)
    {
      assert missing[i..][0] == missing[i] && missing[i..][1..] == missing[i + 1..];
      var outcome := cell.Attach(missing[i], readings, opts, next, platform.valid);
      if outcome.Refused? {
        return false, placements;
      }
      if outcome.Attached? {
        ghost var later := Placements(outcome.graph, missing[i + 1..], readings, opts, outcome.next, platform.valid);
        assert placements + ([outcome.placement] + later) == placements + [outcome.placement] + later;
        next, placements := outcome.next, placements + [outcome.placement];
      }
    }
    ok := true;
  }

  /** Adds what is missing and removes what left, on a working copy, and says what the report needs. */
  method ReviseInPlace(cell: GraphCell, group: Group, devices: seq<Device>, readings: Readings, opts: Options,
      platform: Platform)
    returns (ok: bool, changed: bool, details: Details)
    requires opts.FreshIds()
    modifies cell
    ensures var r := Revise(old(cell.graph), group, devices, readings, opts, platform);
            && ok == r.Revision? && (ok ==> cell.graph == r.graph && changed == r.changed)
    ensures ok ==> details == DetailsOf(old(cell.graph), group, devices, readings, opts, platform)
  {
    hide AttachAll, DetachAll, Placements, Departed, Missing, Rename, Claimed, Unplaced;
    var departed, missing := Departed(cell.graph, group, devices), Missing(cell.graph, devices);
    var removed := RemoveDeparted(cell, departed, platform);
    var placements;
    ok, placements := AddMissing(cell, missing, readings, opts, platform);
    details := Details(devices, [], map[], []);
    if !ok {
      return false, false, details;
    }
    if |missing| > 0 {
      var unplaced := WithoutReading(missing, readings);
      details := Details(devices, unplaced, readings, placements);
    }
    var (renamed, follows) := Rename(cell.graph, group);
    var (claimed, claims) := Claimed(renamed, group);
    cell.graph := claimed;
    return true, removed > 0 || missing != [] || follows || claims, details;
  }
}
