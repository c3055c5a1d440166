/** What joining a stored graph means, in terms of its nodes, its edges and the readings alone. */
module Joined {
  import opened Sorting
  import opened Model
  import opened Placement
  import opened Drawing
  import opened Attaching
  import Tree
  import Built

  type Options = Tree.Options

  // ---- the carrier a stored device is weighed by ----

  /** Of all carriers the device read this one most, the first in order of those it read as much of. */
  ghost predicate MostRead(id: Id, readings: Readings, c: Carrier, v: real) {
    exists k :: 0 <= k < |CARRIERS| && CARRIERS[k] == c && Exceeds(id, readings, k, v)
  }

  ghost predicate Exceeds(id: Id, readings: Readings, k: nat, v: real)
    requires k < |CARRIERS|
  {
    && v > 0.0 && ReadingKey(id, CARRIERS[k]) in readings && readings[ReadingKey(id, CARRIERS[k])] == v
    && forall j :: 0 <= j < |CARRIERS| && ReadingKey(id, CARRIERS[j]) in readings ==>
         var other := readings[ReadingKey(id, CARRIERS[j])];
         other <= v && (j < k ==> other < v)
  }

  /** A device that measures everything, for asking about one nothing but the id is known of. */
  function EveryColumn(id: Id): Device {
    Device(id, "", "", seq(|CARRIERS|, i requires 0 <= i < |CARRIERS| => Column("", "", CARRIERS[i])), [])
  }

  lemma MeasuresEverything(id: Id)
    ensures forall c :: EveryColumn(id).Measures(c)
  {
    EveryCarrier();
    forall c ensures EveryColumn(id).Measures(c) {
      assert c in CARRIERS;
      var i :| 0 <= i < |CARRIERS| && CARRIERS[i] == c;
      assert EveryColumn(id).columns[i].carrier == c;
    }
  }

  lemma MostReadIsPrimary(id: Id, readings: Readings, c: Carrier, v: real)
    ensures PrimaryCarrier(id, CARRIERS, readings) == Some((c, v)) <==> MostRead(id, readings, c, v)
  {
    hide PrimaryCarrier;
    var d := EveryColumn(id);
    MeasuresEverything(id);
    PrimaryFromEveryCarrier(d, readings);
    Built.PrimaryIsPlacedBy(d, readings, c, v);
    assert forall o :: Built.Reads(d, readings, o) <==> ReadingKey(id, o) in readings by {
      assert forall o :: d.Measures(o);
    }
    forall k | 0 <= k < |CARRIERS| && CARRIERS[k] == c
      ensures Exceeds(id, readings, k, v) <==>
              Built.Leads(d, readings, CARRIERS, k) && v == Built.Figure(d, readings, c) && v > 0.0
    {}
  }

  // ---- what a node has left ----

  /** The figure the node with this id read of the carrier, by the device it stands for; nothing read is zero. */
  ghost function FigureOf(nodes: seq<Node>, id: Id, c: Carrier, readings: Readings): real {
    if n :| n in nodes && n.id == id && ReadingKey(n.resourceId, c) in readings
      then readings[ReadingKey(n.resourceId, c)] else 0.0
  }

  /** What the nodes below a node read of a carrier, edge by edge. */
  ghost function BelowRead(g: Graph, k: nat, id: Id, c: Carrier, readings: Readings): real
    requires k <= |g.edges|
  {
    if k == 0 then 0.0
    else
      BelowRead(g, k - 1, id, c, readings)
      + if g.edges[k - 1].to == id then FigureOf(g.nodes, g.edges[k - 1].from, c, readings) else 0.0
  }

  /** What a node read that nothing below it explains. */
  ghost function Room(g: Graph, id: Id, own: real, c: Carrier, readings: Readings): real {
    own - BelowRead(g, |g.edges|, id, c, readings)
  }

  lemma {:induction false} ResourceOfNode(nodes: seq<Node>, n: Node)
    requires DistinctNodeIds(nodes) && n in nodes
    ensures ResourceIdOf(nodes, n.id) == n.resourceId
  {
    var last := nodes[|nodes| - 1];
    if last.id != n.id {
      assert n in nodes[..|nodes| - 1];
      ResourceOfNode(nodes[..|nodes| - 1], n);
    } else {
      var i :| 0 <= i < |nodes| && nodes[i] == n;
    }
  }

  lemma ExplainsItsFigure(nodes: seq<Node>, id: Id, c: Carrier, readings: Readings)
    requires DistinctNodeIds(nodes) && HasNode(nodes, id)
    ensures Explains(nodes, c, readings, id) == FigureOf(nodes, id, c, readings)
  {
    var i :| 0 <= i < |nodes| && nodes[i].id == id;
    ResourceOfNode(nodes, nodes[i]);
    assert forall n :: n in nodes && n.id == id ==> n == nodes[i];
  }

  lemma {:induction false} ExplainedAppend(nodes: seq<Node>, c: Carrier, readings: Readings, children: seq<Id>, x: Id)
    ensures Explained(nodes, c, readings, children + [x]) ==
            Explained(nodes, c, readings, children) + Explains(nodes, c, readings, x)
  {
    assert (children + [x])[..|children|] == children;
  }

  lemma {:induction false} BelowReadIs(g: Graph, k: nat, id: Id, c: Carrier, readings: Readings)
    requires k <= |g.edges| && DistinctNodeIds(g.nodes) && EdgesConnectNodes(g)
    ensures Explained(g.nodes, c, readings, ChildrenOf(g.edges[..k], id)) == BelowRead(g, k, id, c, readings)
  {
    hide Explained, Explains, FigureOf;
    if k == 0 {
      assert ChildrenOf(g.edges[..0], id) == [];
      NothingExplained(g.nodes, c, readings);
    } else {
      BelowReadIs(g, k - 1, id, c, readings);
      assert g.edges[..k][..k - 1] == g.edges[..k - 1];
      var last, children := g.edges[k - 1], ChildrenOf(g.edges[..k - 1], id);
      ExplainedAppend(g.nodes, c, readings, children, last.from);
      ExplainsItsFigure(g.nodes, last.from, c, readings);
      assert children + [] == children;
    }
  }

  lemma NothingExplained(nodes: seq<Node>, c: Carrier, readings: Readings)
    ensures Explained(nodes, c, readings, []) == 0.0
  {}

  lemma LeftIsRoom(g: Graph, id: Id, own: real, c: Carrier, readings: Readings)
    requires Valid(g)
    ensures Left(g, id, own, c, readings) == Room(g, id, own, c, readings)
  {
    hide Acyclic, WeightsBalance, SingleRoot;
    BelowReadIs(g, |g.edges|, id, c, readings);
    assert g.edges[..|g.edges|] == g.edges;
  }

  // ---- how deep a node sits ----

  /** The last edge out of the node leads there. */
  ghost predicate Leads(edges: seq<Edge>, a: Id, b: Id) {
    exists k :: 0 <= k < |edges| && edges[k].from == a && edges[k].to == b &&
                forall j :: k < j < |edges| ==> edges[j].from != a
  }

  /** The way up from a node, along each node's last edge, until there is none or the bound is reached. */
  ghost predicate Climb(g: Graph, p: seq<Id>) {
    && 0 < |p| <= |g.nodes| + 2
    && (forall i :: 0 <= i < |p| - 1 ==> Leads(g.edges, p[i], p[i + 1]))
    && (|p| < |g.nodes| + 2 ==> IsSink(g.edges, p[|p| - 1]))
  }

  lemma {:induction false} TableLeads(edges: seq<Edge>, a: Id)
    ensures a in ParentTable(edges) <==> !IsSink(edges, a)
    ensures forall b :: Leads(edges, a, b) <==> a in ParentTable(edges) && ParentTable(edges)[a] == b
  {
    if edges != [] {
      var n := |edges| - 1;
      TableLeads(edges[..n], a);
      forall b ensures Leads(edges, a, b) <==> a in ParentTable(edges) && ParentTable(edges)[a] == b {
        LeadsAppend(edges, a, b);
      }
      assert !IsSink(edges, a) <==> !IsSink(edges[..n], a) || edges[n].from == a by { SinkAppend(edges, a); }
    }
  }

  lemma LeadsAppend(edges: seq<Edge>, a: Id, b: Id)
    requires edges != []
    ensures var n := |edges| - 1;
            Leads(edges, a, b) <==> if edges[n].from == a then edges[n].to == b else Leads(edges[..n], a, b)
  {
    var n := |edges| - 1;
    if edges[n].from != a && Leads(edges[..n], a, b) {
      var k :| 0 <= k < n && edges[..n][k].from == a && edges[..n][k].to == b &&
               forall j :: k < j < n ==> edges[..n][j].from != a;
      forall j | k < j < |edges| ensures edges[j].from != a {
        if j < n { assert edges[..n][j] == edges[j]; }
      }
      assert edges[k].from == a && edges[k].to == b;
    }
    if edges[n].from != a && Leads(edges, a, b) {
      var k :| 0 <= k < |edges| && edges[k].from == a && edges[k].to == b &&
               forall j :: k < j < |edges| ==> edges[j].from != a;
      assert edges[..n][k] == edges[k];
    }
  }

  lemma SinkAppend(edges: seq<Edge>, a: Id)
    requires edges != []
    ensures IsSink(edges, a) <==> IsSink(edges[..|edges| - 1], a) && edges[|edges| - 1].from != a
  {
    var n := |edges| - 1;
    if IsSink(edges[..n], a) && edges[n].from != a {
      forall i | 0 <= i < |edges| ensures edges[i].from != a {
        if i < n { assert edges[..n][i] == edges[i]; }
      }
    }
  }

  lemma {:induction false} ClimbIsWalk(g: Graph, p: seq<Id>, steps: nat)
    requires 0 < |p| <= steps + 1 && (|p| < steps + 1 ==> IsSink(g.edges, p[|p| - 1]))
    requires forall i :: 0 <= i < |p| - 1 ==> Leads(g.edges, p[i], p[i + 1])
    ensures WalkUp(ParentTable(g.edges), p[0], steps) == |p| - 1
    decreases |p|
  {
    hide Leads, ParentTable, IsSink;
    TableLeads(g.edges, p[0]);
    if |p| > 1 {
      assert Leads(g.edges, p[0], p[1]);
      forall i | 0 <= i < |p[1..]| - 1 ensures Leads(g.edges, p[1..][i], p[1..][i + 1]) {
        assert Leads(g.edges, p[i + 1], p[i + 2]);
      }
      ClimbIsWalk(g, p[1..], steps - 1);
    }
  }

  /** The depth a node is weighed by is the length of the way up from it. */
  lemma DepthIsTheClimb(g: Graph, p: seq<Id>)
    requires Climb(g, p)
    ensures WalkUp(ParentTable(g.edges), p[0], |g.nodes| + 1) == |p| - 1
  {
    ClimbIsWalk(g, p, |g.nodes| + 1);
  }

  // ---- who can take a newcomer ----

  /** A device node that the carrier weighs, not explained by what is below it, with room for the figure. */
  ghost predicate CanHold(g: Graph, n: Node, c: Carrier, own: real, value: real, readings: Readings, t: real) {
    && n.resourceType == DeviceResource && n.resourceId != "" && MostRead(n.resourceId, readings, c, own)
    && Room(g, n.id, own, c, readings) >= own * t
    && Room(g, n.id, own, c, readings) >= value * (1.0 - t)
  }

  lemma CanTakeIsCanHold(g: Graph, n: Node, c: Carrier, value: real, readings: Readings, t: real)
    requires Valid(g)
    ensures forall own :: CanHold(g, n, c, own, value, readings, t) <==>
                          CanTake(g, n, c, value, readings, t) && Competes(n, c, readings) == Some(own)
  {
    hide PrimaryCarrier, Left, Room, MostRead, Valid;
    forall own ensures CanHold(g, n, c, own, value, readings, t) <==>
        CanTake(g, n, c, value, readings, t) && Competes(n, c, readings) == Some(own)
    {
      MostReadIsPrimary(n.resourceId, readings, c, own);
      LeftIsRoom(g, n.id, own, c, readings);
    }
  }

  // ---- joining ----

  /** The node that stands for the group: the one called the root, or else the one no edge leaves. */
  ghost predicate IsTop(g: Graph, x: Id) {
    if HasNode(g.nodes, ROOT) then x == ROOT else HasNode(g.nodes, x) && IsSink(g.edges, x)
  }

  lemma RootIsTop(g: Graph)
    requires Valid(g)
    ensures RootNodeId(g).Some? && IsTop(g, RootNodeId(g).value)
  {
    hide Acyclic, WeightsBalance, EdgesConnectNodes, DistinctEdgeIds;
    var r :| 0 <= r < |g.nodes| && IsSink(g.edges, g.nodes[r].id)
             && forall i :: 0 <= i < |g.nodes| && i != r ==> !IsSink(g.edges, g.nodes[i].id);
    EndsAre(g.nodes, g.edges, r);
  }

  /** The edge a newcomer joins with: from it, in full, marked for the user to look at. */
  ghost predicate JoinsBy(g: Graph, h: Graph, d: Device, e: Edge) {
    && h == g.(nodes := g.nodes + [Node(d.id, DeviceResource, d.id, [])], edges := g.edges + [e])
    && e.from == d.id && e.weight == 100 && e.attributes == [Attribute("system_changed", "true", "graph-provider")]
    && (forall x :: x in g.edges ==> x.id != e.id)
    && ((forall x :: x in g.edges ==> x.id != "edge-" + e.from + "-" + e.to) ==> e.id == "edge-" + e.from + "-" + e.to)
    && exists n :: n in g.nodes && n.id == e.to
  }

  ghost predicate Newcomer(g: Graph, d: Device, opts: Options, valid: Graph -> bool) {
    && opts.FreshIds() && (forall x :: valid(x) <==> Valid(x)) && Valid(g)
    && d.id != "" && forall n :: n in g.nodes ==> n.id != d.id && n.resourceId != d.id
  }

  /**
   * A device that no node of a valid graph stands for joins it as one node and one edge, behind what is
   * stored; the edge leads to the parent its placement names.
   */
  lemma JoinsAsLeaf(g: Graph, d: Device, readings: Readings, opts: Options, next: nat, valid: Graph -> bool)
    returns (e: Edge)
    requires Newcomer(g, d, opts, valid)
    ensures var r := AttachTo(g, d, readings, opts, next, valid);
            r.Attached? && JoinsBy(g, r.graph, d, e) && r.placement.deviceId == d.id && r.placement.parentId == e.to
    ensures RootNodeId(g).Some? && e.to == PlacementIn(g, d, RootNodeId(g).value, readings, opts).parentId
  {
    hide Valid, PlacementIn, RootNodeId, UniqueId;
    forall i | 0 <= i < |g.nodes| ensures g.nodes[i].id != d.id && g.nodes[i].resourceId != d.id {
      assert g.nodes[i] in g.nodes;
    }
    NewcomerAddsOneLeaf(g, d, readings, opts, next, valid);
    RootIsTop(g);
    AbsentNotFound(g.nodes, d.id);
    var placement := PlacementIn(g, d, RootNodeId(g).value, readings, opts);
    var edgeId := FreshEdgeId(g, d, placement.parentId, opts, next);
    e := Edge(edgeId, d.id, placement.parentId, FULL_WEIGHT, [Attribute(SYSTEM_CHANGED, "true", ATTR_ORIGIN)]);
    PlacementNames(g, d, RootNodeId(g).value, readings, opts);
    forall x | x in g.edges ensures x.id != e.id {
      var i :| 0 <= i < |g.edges| && g.edges[i] == x;
    }
    var shape := EdgeId(d.id, placement.parentId);
    if shape in EdgeIds(g.edges) {
      var i :| 0 <= i < |g.edges| && g.edges[i].id == shape;
      assert g.edges[i] in g.edges;
    }
  }

  lemma PlacementNames(g: Graph, d: Device, root: Id, readings: Readings, opts: Options)
    ensures PlacementIn(g, d, root, readings, opts).deviceId == d.id
  {}

  /** Without a reading it joins the collector, if it reads no carrier and the graph has one, or else the top. */
  lemma UnreadJoinsAside(g: Graph, d: Device, readings: Readings, opts: Options, next: nat, valid: Graph -> bool)
    requires Newcomer(g, d, opts, valid) && Built.ReadsNothing(d, readings)
    ensures var r := AttachTo(g, d, readings, opts, next, valid);
            r.Attached? && exists e ::
              && JoinsBy(g, r.graph, d, e)
              && if d.columns == [] && HasNode(g.nodes, NO_FLOW) then e.to == NO_FLOW else IsTop(g, e.to)
  {
    hide Valid, UniqueId, JoinsBy, IsTop, RootNodeId, Built.ReadsNothing, AttachTo;
    var e := JoinsAsLeaf(g, d, readings, opts, next, valid);
    RootIsTop(g);
    Built.NoPrimaryReadsNothing(d, readings);
  }

  /** Of the nodes that can hold it, this one sits highest, then has most room, then comes first by id. */
  ghost predicate HoldsBest(g: Graph, x: Id, c: Carrier, value: real, readings: Readings, t: real) {
    exists b, own :: b in g.nodes && b.id == x && CanHold(g, b, c, own, value, readings, t) &&
      forall n, other :: n in g.nodes && n.id != x && CanHold(g, n, c, other, value, readings, t) ==>
        Precedes(g, x, own, n.id, other, c, readings)
  }

  ghost predicate Precedes(g: Graph, a: Id, own: real, b: Id, other: real, c: Carrier, readings: Readings) {
    forall p, q :: Climb(g, p) && p[0] == a && Climb(g, q) && q[0] == b ==>
      && |p| <= |q|
      && (|p| == |q| ==> Room(g, a, own, c, readings) >= Room(g, b, other, c, readings))
      && (|p| == |q| && Room(g, a, own, c, readings) == Room(g, b, other, c, readings) ==> Before(a, b))
  }

  lemma ShallowerPrecedes(g: Graph, a: Node, own: real, b: Node, other: real, c: Carrier, readings: Readings)
    requires Valid(g) && Competes(a, c, readings) == Some(own) && Competes(b, c, readings) == Some(other)
    requires Shallower(RankOfNode(g, a, c, readings), RankOfNode(g, b, c, readings))
    ensures Precedes(g, a.id, own, b.id, other, c, readings)
  {
    hide Valid, Competes, Left, Room, WalkUp, Climb, ParentTable;
    LeftIsRoom(g, a.id, own, c, readings);
    LeftIsRoom(g, b.id, other, c, readings);
    forall p, q | Climb(g, p) && Climb(g, q) && |p| > 0 && |q| > 0 && p[0] == a.id && q[0] == b.id
      ensures |p| - 1 == WalkUp(ParentTable(g.edges), a.id, |g.nodes| + 1)
      ensures |q| - 1 == WalkUp(ParentTable(g.edges), b.id, |g.nodes| + 1)
    {
      DepthIsTheClimb(g, p);
      DepthIsTheClimb(g, q);
    }
    ClimbsStart(g);
  }

  lemma ClimbsStart(g: Graph)
    ensures forall p :: Climb(g, p) ==> |p| > 0
  {}

  /** With a reading it joins the best of the nodes that can hold it, and the top if none can. */
  lemma ReadJoinsByRoom(g: Graph, d: Device, readings: Readings, opts: Options, next: nat, valid: Graph -> bool,
      c: Carrier, v: real, t: real)
    requires Newcomer(g, d, opts, valid) && Built.PlacedBy(d, readings, c, v) && Built.Clamped(opts.configured, t)
    ensures var r := AttachTo(g, d, readings, opts, next, valid);
            r.Attached? && exists e ::
              && JoinsBy(g, r.graph, d, e)
              && if SomeoneCanHold(g, c, v, readings, t) then HoldsBest(g, e.to, c, v, readings, t) else IsTop(g, e.to)
  {
    hide Valid, UniqueId, JoinsBy, IsTop, RootNodeId, Built.PlacedBy, AttachTo, HoldsBest, CanHold, BestNode,
      Considered, Marked;
    var e := JoinsAsLeaf(g, d, readings, opts, next, valid);
    RootIsTop(g);
    Built.PrimaryIsPlacedBy(d, readings, c, v);
    BestHolds(g, c, v, readings, t);
  }

  ghost predicate SomeoneCanHold(g: Graph, c: Carrier, value: real, readings: Readings, t: real) {
    exists n, own :: n in g.nodes && CanHold(g, n, c, own, value, readings, t)
  }

  lemma BestHolds(g: Graph, c: Carrier, v: real, readings: Readings, t: real)
    requires Valid(g)
    ensures var best := BestNode(g, |g.nodes|, c, v, readings, t);
            && (best >= 0 <==> SomeoneCanHold(g, c, v, readings, t))
            && (best >= 0 ==> HoldsBest(g, g.nodes[best].id, c, v, readings, t))
  {
    hide Valid, CanTake, CanHold, Competes, Shallower, Precedes, RankOfNode, BestNode;
    var best := BestNode(g, |g.nodes|, c, v, readings, t);
    ValidIds(g);
    BestNodeIsBest(g, |g.nodes|, c, v, readings, t);
    forall i | 0 <= i < |g.nodes| ensures (exists own :: CanHold(g, g.nodes[i], c, own, v, readings, t)) <==>
        CanTake(g, g.nodes[i], c, v, readings, t)
    {
      CanTakeIsCanHold(g, g.nodes[i], c, v, readings, t);
      TakersCompete(g, g.nodes[i], c, v, readings, t);
    }
    if best >= 0 { BestHoldsBest(g, best, c, v, readings, t); }
  }

  lemma ValidIds(g: Graph)
    requires Valid(g)
    ensures DistinctNodeIds(g.nodes)
  {}

  lemma TakersCompete(g: Graph, n: Node, c: Carrier, value: real, readings: Readings, t: real)
    ensures CanTake(g, n, c, value, readings, t) ==> exists own :: Competes(n, c, readings) == Some(own)
  {
    hide Competes, Left;
    if CanTake(g, n, c, value, readings, t) {
      assert Competes(n, c, readings) == Some(Competes(n, c, readings).value);
    }
  }

  lemma BestHoldsBest(g: Graph, best: nat, c: Carrier, v: real, readings: Readings, t: real)
    requires Valid(g) && best < |g.nodes| && IsBestNode(g, |g.nodes|, c, v, readings, t, best)
    ensures HoldsBest(g, g.nodes[best].id, c, v, readings, t)
  {
    hide Valid, CanTake, CanHold, Competes, Shallower, Precedes, RankOfNode;
    var b := g.nodes[best];
    TakersCompete(g, b, c, v, readings, t);
    CanTakeIsCanHold(g, b, c, v, readings, t);
    var own :| Competes(b, c, readings) == Some(own);
    assert b in g.nodes && CanHold(g, b, c, own, v, readings, t);
    forall n, other | n in g.nodes && n.id != b.id && CanHold(g, n, c, other, v, readings, t)
      ensures Precedes(g, b.id, own, n.id, other, c, readings)
    {
      CanTakeIsCanHold(g, n, c, v, readings, t);
      var i :| 0 <= i < |g.nodes| && g.nodes[i] == n;
      ShallowerPrecedes(g, b, own, n, other, c, readings);
    }
  }

  /** There is a way up from every node. */
  lemma {:induction false} SomeClimb(g: Graph, id: Id, steps: nat) returns (p: seq<Id>)
    ensures 0 < |p| <= steps + 1 && p[0] == id && (|p| < steps + 1 ==> IsSink(g.edges, p[|p| - 1]))
    ensures forall i :: 0 <= i < |p| - 1 ==> Leads(g.edges, p[i], p[i + 1])
    decreases steps
  {
    hide Leads, IsSink;
    TableLeads(g.edges, id);
    if steps == 0 || id !in ParentTable(g.edges) {
      p := [id];
    } else {
      var up := ParentTable(g.edges)[id];
      var rest := SomeClimb(g, up, steps - 1);
      p := [id] + rest;
      assert Leads(g.edges, id, up) && p[|p| - 1] == rest[|rest| - 1];
    }
  }

  lemma ClimbFrom(g: Graph, id: Id) returns (p: seq<Id>)
    ensures Climb(g, p) && p[0] == id
  {
    p := SomeClimb(g, id, |g.nodes| + 1);
  }

  // ---- what is said about it ----

  /** A device node that the carrier weighs, with the figure it is weighed by. */
  ghost predicate Competing(n: Node, own: real, c: Carrier, readings: Readings) {
    n.resourceType == DeviceResource && n.resourceId != "" && MostRead(n.resourceId, readings, c, own)
  }

  /** What the report says of one node that was weighed; it is marked if its device carries the chosen node's id. */
  ghost predicate Weighs(g: Graph, x: Candidate, n: Node, own: real, c: Carrier, value: real, readings: Readings,
      t: real, chosen: Option<Id>) {
    && Competing(n, own, c, readings)
    && x.deviceId == n.resourceId && x.remaining == Room(g, n.id, own, c, readings)
    && (x.fits <==> CanHold(g, n, c, own, value, readings, t))
    && (x.chosen <==> chosen == Some(n.resourceId))
  }

  /** A node competes, and its entry is this one before the mark is set. */
  ghost predicate Entered(g: Graph, x: Candidate, n: Node, c: Carrier, value: real, readings: Readings, t: real) {
    Competes(n, c, readings).Some? && x == CandidateOf(g, n, c, value, readings, t)
  }

  lemma {:induction false} ConsideredFrom(g: Graph, k: nat, c: Carrier, value: real, readings: Readings, t: real,
      i: nat)
    returns (j: nat)
    requires k <= |g.nodes| && i < |Considered(g, k, c, value, readings, t)|
    ensures j < k && Entered(g, Considered(g, k, c, value, readings, t)[i], g.nodes[j], c, value, readings, t)
  {
    hide Competes, CandidateOf;
    if i < |Considered(g, k - 1, c, value, readings, t)| {
      j := ConsideredFrom(g, k - 1, c, value, readings, t, i);
    } else {
      j := k - 1;
    }
  }

  lemma {:induction false} ConsideredHas(g: Graph, k: nat, c: Carrier, value: real, readings: Readings, t: real, j: nat)
    returns (i: nat)
    requires j < k <= |g.nodes| && Competes(g.nodes[j], c, readings).Some?
    ensures i < |Considered(g, k, c, value, readings, t)|
    ensures Entered(g, Considered(g, k, c, value, readings, t)[i], g.nodes[j], c, value, readings, t)
  {
    hide Competes, CandidateOf;
    if j < k - 1 {
      i := ConsideredHas(g, k - 1, c, value, readings, t, j);
    } else {
      i := |Considered(g, k - 1, c, value, readings, t)|;
    }
  }

  lemma EnteredWeighs(g: Graph, x: Candidate, n: Node, c: Carrier, value: real, readings: Readings, t: real,
      chosen: Option<Id>)
    requires Valid(g) && Entered(g, x, n, c, value, readings, t)
    ensures Competes(n, c, readings).Some? &&
            Weighs(g, x.(chosen := chosen == Some(n.resourceId)), n, Competes(n, c, readings).value, c, value, readings,
                   t, chosen)
  {
    hide Valid, PrimaryCarrier, Left, Room, CanTake, CanHold, MostRead;
    var own := Competes(n, c, readings).value;
    MostReadIsPrimary(n.resourceId, readings, c, own);
    LeftIsRoom(g, n.id, own, c, readings);
    CanTakeIsCanHold(g, n, c, value, readings, t);
  }

  lemma CompetesWhenMostRead(n: Node, c: Carrier, own: real, readings: Readings)
    requires Competing(n, own, c, readings)
    ensures Competes(n, c, readings) == Some(own)
  {
    hide PrimaryCarrier, MostRead;
    MostReadIsPrimary(n.resourceId, readings, c, own);
  }

  /** The entries are those of the nodes that compete. */
  ghost predicate AllWeighed(g: Graph, all: seq<Candidate>, c: Carrier, value: real, readings: Readings, t: real,
      chosen: Option<Id>)
  {
    && (forall x :: x in all ==> exists n, own :: n in g.nodes && Weighs(g, x, n, own, c, value, readings, t, chosen))
    && (forall n, own :: n in g.nodes && Competing(n, own, c, readings) ==>
          exists x :: x in all && Weighs(g, x, n, own, c, value, readings, t, chosen))
  }

  lemma MarkedWeighs(g: Graph, c: Carrier, value: real, readings: Readings, t: real, best: int)
    requires Valid(g) && best < |g.nodes|
    ensures AllWeighed(g, Marked(Considered(g, |g.nodes|, c, value, readings, t), g, best), c, value, readings, t,
                       if best >= 0 then Some(g.nodes[best].id) else None)
  {
    hide Valid, Entered, Weighs, Competes, Competing, Considered;
    var plain := Considered(g, |g.nodes|, c, value, readings, t);
    var all, chosen := Marked(plain, g, best), if best >= 0 then Some(g.nodes[best].id) else None;
    forall x | x in all ensures exists n, own :: n in g.nodes && Weighs(g, x, n, own, c, value, readings, t, chosen) {
      var i :| 0 <= i < |all| && all[i] == x;
      var j := ConsideredFrom(g, |g.nodes|, c, value, readings, t, i);
      EnteredNames(g, plain[i], g.nodes[j], c, value, readings, t);
      EnteredWeighs(g, plain[i], g.nodes[j], c, value, readings, t, chosen);
      assert g.nodes[j] in g.nodes;
    }
    forall n, own | n in g.nodes && Competing(n, own, c, readings)
      ensures exists x :: x in all && Weighs(g, x, n, own, c, value, readings, t, chosen)
    {
      CompetesWhenMostRead(n, c, own, readings);
      var j :| 0 <= j < |g.nodes| && g.nodes[j] == n;
      var i := ConsideredHas(g, |g.nodes|, c, value, readings, t, j);
      EnteredNames(g, plain[i], n, c, value, readings, t);
      EnteredWeighs(g, plain[i], n, c, value, readings, t, chosen);
      assert all[i] in all;
    }
  }

  lemma EnteredNames(g: Graph, x: Candidate, n: Node, c: Carrier, value: real, readings: Readings, t: real)
    requires Entered(g, x, n, c, value, readings, t)
    ensures x.deviceId == n.resourceId
  {}

  /** What is said of a newcomer: no figure and no candidates without a reading. */
  lemma UnreadIsTold(g: Graph, d: Device, readings: Readings, opts: Options, next: nat, valid: Graph -> bool)
    requires Newcomer(g, d, opts, valid) && Built.ReadsNothing(d, readings)
    ensures var r := AttachTo(g, d, readings, opts, next, valid);
            r.Attached? && r.placement == Placed(d.id, 0.0, r.placement.parentId, AtRootNoReading, [])
  {
    hide Valid, UniqueId, JoinsBy, RootNodeId, Built.ReadsNothing;
    var e := JoinsAsLeaf(g, d, readings, opts, next, valid);
    Built.NoPrimaryReadsNothing(d, readings);
  }

  /**
   * With a reading: the figure it was placed by, whether anybody could hold it, and every device node the
   * carrier weighs with what it has left and whether the newcomer fits there.
   */
  lemma ReadIsTold(g: Graph, d: Device, readings: Readings, opts: Options, next: nat, valid: Graph -> bool,
      c: Carrier, v: real, t: real)
    requires Newcomer(g, d, opts, valid) && Built.PlacedBy(d, readings, c, v) && Built.Clamped(opts.configured, t)
    ensures var r, held := AttachTo(g, d, readings, opts, next, valid), SomeoneCanHold(g, c, v, readings, t);
            && r.Attached?
            && r.placement.value == v && r.placement.reason == (if held then ByCapacity else AtRootNothingFits)
            && AllWeighed(g, r.placement.candidates, c, v, readings, t,
                          if held then Some(r.placement.parentId) else None)
  {
    hide Valid, UniqueId, JoinsBy, RootNodeId, Built.PlacedBy, HoldsBest, BestNode, Considered, Marked, AllWeighed,
      SomeoneCanHold;
    var e := JoinsAsLeaf(g, d, readings, opts, next, valid);
    Built.PrimaryIsPlacedBy(d, readings, c, v);
    BestHolds(g, c, v, readings, t);
    MarkedWeighs(g, c, v, readings, t, BestNode(g, |g.nodes|, c, v, readings, t));
  }

  /** A device that a node stands for already, by its own id or the device's, is left alone. */
  lemma {:induction false} PresentIsFound(nodes: seq<Node>, deviceId: Id)
    requires deviceId != "" && forall i :: 0 <= i < |nodes| ==> nodes[i].id != ""
    ensures (exists i :: 0 <= i < |nodes| && nodes[i].resourceId == deviceId) <==> ByResource(nodes, deviceId) != ""
    ensures (exists i :: 0 <= i < |nodes| && nodes[i].id == deviceId) <==> ByNode(nodes, deviceId) != ""
  {
    if nodes != [] {
      PresentIsFound(nodes[1..], deviceId);
      assert forall i :: 0 <= i < |nodes| - 1 ==> nodes[1..][i] == nodes[i + 1];
      assert forall i :: 0 < i < |nodes| ==> nodes[i] == nodes[1..][i - 1];
    }
  }

  lemma PresentIsLeftAlone(g: Graph, d: Device, readings: Readings, opts: Options, next: nat, valid: Graph -> bool)
    requires opts.FreshIds() && d.id != "" && forall i :: 0 <= i < |g.nodes| ==> g.nodes[i].id != ""
    ensures AttachTo(g, d, readings, opts, next, valid) == AlreadyThere <==>
            exists n :: n in g.nodes && (n.id == d.id || n.resourceId == d.id)
  {
    hide RootNodeId, PlacementIn, NextEdgeId;
    PresentIsFound(g.nodes, d.id);
    if n :| n in g.nodes && (n.id == d.id || n.resourceId == d.id) {
      var i :| 0 <= i < |g.nodes| && g.nodes[i] == n;
    }
    if FindDeviceNode(g, d.id) != "" {
      var i :| 0 <= i < |g.nodes| && (g.nodes[i].id == d.id || g.nodes[i].resourceId == d.id);
      assert g.nodes[i] in g.nodes;
    }
  }
}
