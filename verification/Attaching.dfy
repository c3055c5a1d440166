/** The incremental form: one device joins a graph that may have been corrected by hand. */
module Attaching {
  import opened Sorting
  import opened Model
  import opened Placement
  import opened Tree
  import opened Drawing

  datatype Refusal = NoDeviceId | InvalidInput | NoRoot | WouldBreak

  datatype AttachOutcome =
    | AlreadyThere
    | Attached(graph: Graph, placement: Placed, next: nat)
    | Refused(reason: Refusal)

  // ---- reading a stored graph ----

  function ByResource(nodes: seq<Node>, deviceId: Id): Id {
    if nodes == [] then "" else if nodes[0].resourceId == deviceId then nodes[0].id
       else ByResource(nodes[1..], deviceId)
  }

  function ByNode(nodes: seq<Node>, deviceId: Id): Id {
    if nodes == [] then "" else if nodes[0].id == deviceId then nodes[0].id else ByNode(nodes[1..], deviceId)
  }

  /** The node standing for a device, or the empty id: by resource first, then by node id. */
  function FindDeviceNode(g: Graph, deviceId: Id): Id {
    var found := ByResource(g.nodes, deviceId);
    if found != "" then found else ByNode(g.nodes, deviceId)
  }

  function Ends(nodes: seq<Node>, edges: seq<Edge>): seq<Id> {
    if nodes == [] then []
    else (if IsSink(edges, nodes[0].id) then [nodes[0].id] else []) + Ends(nodes[1..], edges)
  }

  function RootNodeId(g: Graph): Option<Id> {
    if HasNode(g.nodes, ROOT) then Some(ROOT)
    else
      var ends := Ends(g.nodes, g.edges);
      if |ends| == 1 then Some(ends[0]) else None
  }

  function ChildrenOf(edges: seq<Edge>, x: Id): seq<Id> {
    if edges == [] then []
    else
      var last := edges[|edges| - 1];
      ChildrenOf(edges[..|edges| - 1], x) + if last.to == x then [last.from] else []
  }

  function ParentTable(edges: seq<Edge>): map<Id, Id> {
    if edges == [] then map[]
    else
      var last := edges[|edges| - 1];
      ParentTable(edges[..|edges| - 1])[last.from := last.to]
  }

  function ResourceIdOf(nodes: seq<Node>, id: Id): Id {
    if nodes == [] then ""
    else
      var last := nodes[|nodes| - 1];
      if last.id == id then last.resourceId else ResourceIdOf(nodes[..|nodes| - 1], id)
  }

  /** Depth measured by walking up the parent edges, for at most `steps` steps. */
  function WalkUp(parentOf: map<Id, Id>, id: Id, steps: nat): nat
    decreases steps
  {
    if steps == 0 || id !in parentOf then 0 else 1 + WalkUp(parentOf, parentOf[id], steps - 1)
  }

  /** What a child node explains of its parent in one carrier. */
  function Explains(nodes: seq<Node>, c: Carrier, readings: Readings, child: Id): real {
    var key := ReadingKey(ResourceIdOf(nodes, child), c);
    if key in readings then readings[key] else 0.0
  }

  function Explained(nodes: seq<Node>, c: Carrier, readings: Readings, children: seq<Id>): real {
    if children == [] then 0.0
    else
      Explained(nodes, c, readings, children[..|children| - 1]) + Explains(nodes, c, readings, children[|children| - 1])
  }

  /** The figure a node competes with in a carrier, if it competes there at all. */
  function Competes(n: Node, c: Carrier, readings: Readings): Option<real> {
    if n.resourceType != DeviceResource || n.resourceId == "" then None
    else
      match PrimaryCarrier(n.resourceId, CARRIERS, readings)
      case None => None
      case Some((carrier, value)) => if carrier == c then Some(value) else None
  }

  function Left(g: Graph, id: Id, own: real, c: Carrier, readings: Readings): real {
    own - Explained(g.nodes, c, readings, ChildrenOf(g.edges, id))
  }

  /** The rule of the generator, with no name to compare. */
  function ExistingRank(g: Graph, id: Id, own: real, c: Carrier, readings: Readings): Rank {
    Rank(WalkUp(ParentTable(g.edges), id, |g.nodes| + 1), Left(g, id, own, c, readings), 0, id)
  }

  predicate CanTake(g: Graph, n: Node, c: Carrier, value: real, readings: Readings, tolerance: real) {
    var own := Competes(n, c, readings);
    own.Some? && Fits(own.value, Left(g, n.id, own.value, c, readings), value, tolerance)
  }

  function RankOfNode(g: Graph, n: Node, c: Carrier, readings: Readings): Rank
    requires Competes(n, c, readings).Some?
  {
    ExistingRank(g, n.id, Competes(n, c, readings).value, c, readings)
  }

  /** The running winner among the first `k` nodes. */
  function BestNode(g: Graph, k: nat, c: Carrier, value: real, readings: Readings, tolerance: real): (r: int)
    requires k <= |g.nodes|
    ensures -1 <= r < k && (r >= 0 ==> CanTake(g, g.nodes[r], c, value, readings, tolerance))
  {
    if k == 0 then -1
    else
      var b := BestNode(g, k - 1, c, value, readings, tolerance);
      if CanTake(g, g.nodes[k - 1], c, value, readings, tolerance)
         && (b < 0 || Shallower(RankOfNode(g, g.nodes[k - 1], c, readings), RankOfNode(g, g.nodes[b], c, readings)))
      then k - 1 else b
  }

  /** What the search promises whatever order the nodes are stored in. */
  ghost predicate IsBestNode(g: Graph, k: nat, c: Carrier, value: real, readings: Readings, tolerance: real, r: int)
    requires k <= |g.nodes|
  {
    if r < 0 then
      r == -1 && forall i :: 0 <= i < k ==> !CanTake(g, g.nodes[i], c, value, readings, tolerance)
    else
      && r < k
      && CanTake(g, g.nodes[r], c, value, readings, tolerance)
      && forall i :: 0 <= i < k && i != r && CanTake(g, g.nodes[i], c, value, readings, tolerance) ==>
                       Shallower(RankOfNode(g, g.nodes[r], c, readings), RankOfNode(g, g.nodes[i], c, readings))
  }

  lemma {:induction false} BestNodeIsBest(g: Graph, k: nat, c: Carrier, value: real, readings: Readings,
      tolerance: real)
    requires k <= |g.nodes| && DistinctNodeIds(g.nodes)
    ensures IsBestNode(g, k, c, value, readings, tolerance, BestNode(g, k, c, value, readings, tolerance))
  {
    hide ExistingRank, Competes, Fits, Left, Shallower;
    if k > 0 {
      BestNodeIsBest(g, k - 1, c, value, readings, tolerance);
      var b, n := BestNode(g, k - 1, c, value, readings, tolerance), g.nodes[k - 1];
      if b >= 0 && CanTake(g, n, c, value, readings, tolerance) {
        var rb, rk := RankOfNode(g, g.nodes[b], c, readings), RankOfNode(g, n, c, readings);
        RankIds(g, g.nodes[b], c, readings);
        RankIds(g, n, c, readings);
        ShallowerTotal(rb, rk);
        forall i | 0 <= i < k - 1 && i != b && CanTake(g, g.nodes[i], c, value, readings, tolerance) &&
          Shallower(rk, rb)
          ensures Shallower(rk, RankOfNode(g, g.nodes[i], c, readings))
        {
          ShallowerTransitive(rk, rb, RankOfNode(g, g.nodes[i], c, readings));
        }
      }
    }
  }

  lemma RankIds(g: Graph, n: Node, c: Carrier, readings: Readings)
    requires Competes(n, c, readings).Some?
    ensures RankOfNode(g, n, c, readings).id == n.id
  {}

  // ---- the search as the loops it is ----

  function Table(table: map<Id, seq<Id>>, x: Id): seq<Id> {
    if x in table then table[x] else []
  }

  method IndexChildren(edges: seq<Edge>) returns (childrenOf: map<Id, seq<Id>>)
    ensures forall x :: Table(childrenOf, x) == ChildrenOf(edges, x)
  {
    childrenOf := map[];
    for i := 0 to |edges|
      invariant forall x :: Table(childrenOf, x) == ChildrenOf(edges[..i], x)
    {
      var e := edges[i];
      assert edges[..i + 1][..i] == edges[..i];
      childrenOf := childrenOf[e.to := Table(childrenOf, e.to) + [e.from]];
    }
    assert edges[..|edges|] == edges;
  }

  method IndexResources(nodes: seq<Node>) returns (resourceIdOf: map<Id, Id>)
    ensures forall x :: (if x in resourceIdOf then resourceIdOf[x] else "") == ResourceIdOf(nodes, x)
  {
    resourceIdOf := map[];
    for i := 0 to |nodes|
      invariant forall x :: (if x in resourceIdOf then resourceIdOf[x] else "") == ResourceIdOf(nodes[..i], x)
    {
      assert nodes[..i + 1][..i] == nodes[..i];
      resourceIdOf := resourceIdOf[nodes[i].id := nodes[i].resourceId];
    }
    assert nodes[..|nodes|] == nodes;
  }

  method IndexParents(edges: seq<Edge>) returns (parentOf: map<Id, Id>)
    ensures parentOf == ParentTable(edges)
  {
    parentOf := map[];
    for i := 0 to |edges|
      invariant parentOf == ParentTable(edges[..i])
    {
      assert edges[..i + 1][..i] == edges[..i];
      parentOf := parentOf[edges[i].from := edges[i].to];
    }
    assert edges[..|edges|] == edges;
  }

  /** The three tables the search works with, one loop each. */
  method Index(g: Graph) returns (childrenOf: map<Id, seq<Id>>, resourceIdOf: map<Id, Id>, parentOf: map<Id, Id>)
    ensures forall x :: Table(childrenOf, x) == ChildrenOf(g.edges, x)
    ensures forall x :: (if x in resourceIdOf then resourceIdOf[x] else "") == ResourceIdOf(g.nodes, x)
    ensures parentOf == ParentTable(g.edges)
  {
    childrenOf := IndexChildren(g.edges);
    resourceIdOf := IndexResources(g.nodes);
    parentOf := IndexParents(g.edges);
  }

  method DepthOf(g: Graph, parentOf: map<Id, Id>, nodeId: Id) returns (depth: nat)
    ensures depth == WalkUp(parentOf, nodeId, |g.nodes| + 1)
  {
    depth := 0;
    var id := nodeId;
    for step := 0 to |g.nodes| + 1
      invariant depth + WalkUp(parentOf, id, |g.nodes| + 1 - step) == WalkUp(parentOf, nodeId, |g.nodes| + 1)
    {
      if id !in parentOf { return; }
      depth, id := depth + 1, parentOf[id];
    }
  }

  method LeftOf(g: Graph, children: seq<Id>, resourceIdOf: map<Id, Id>, own: real, c: Carrier, readings: Readings)
    returns (remaining: real)
    requires forall x :: (if x in resourceIdOf then resourceIdOf[x] else "") == ResourceIdOf(g.nodes, x)
    ensures remaining == own - Explained(g.nodes, c, readings, children)
  {
    remaining := own;
    for i := 0 to |children|
      invariant remaining == own - Explained(g.nodes, c, readings, children[..i])
    {
      assert children[..i + 1][..i] == children[..i];
      var child := children[i];
      var key := ReadingKey(if child in resourceIdOf then resourceIdOf[child] else "", c);
      if key in readings {
        remaining := remaining - readings[key];
      }
    }
    assert children[..|children|] == children;
  }

  /** The nodes weighed, in stored order; the winner is marked by its device id. */
  function Considered(g: Graph, k: nat, c: Carrier, value: real, readings: Readings, tolerance: real): seq<Candidate>
    requires k <= |g.nodes|
  {
    if k == 0 then []
    else
      Considered(g, k - 1, c, value, readings, tolerance)
      + if Competes(g.nodes[k - 1], c, readings).None? then []
        else [CandidateOf(g, g.nodes[k - 1], c, value, readings, tolerance)]
  }

  function Marked(candidates: seq<Candidate>, g: Graph, best: int): seq<Candidate>
    requires best < |g.nodes|
  {
    seq(|candidates|, i requires 0 <= i < |candidates| =>
      candidates[i].(chosen := best >= 0 && candidates[i].deviceId == g.nodes[best].id))
  }

  function CandidateOf(g: Graph, n: Node, c: Carrier, value: real, readings: Readings, tolerance: real): Candidate
    requires Competes(n, c, readings).Some?
  {
    Candidate(n.resourceId, Left(g, n.id, Competes(n, c, readings).value, c, readings),
      CanTake(g, n, c, value, readings, tolerance), false)
  }

  method WeighNode(g: Graph, node: Node, c: Carrier, value: real, readings: Readings, tolerance: real,
                   childrenOf: map<Id, seq<Id>>, resourceIdOf: map<Id, Id>, parentOf: map<Id, Id>)
    returns (weighed: Option<(Candidate, Rank)>)
    requires forall x :: Table(childrenOf, x) == ChildrenOf(g.edges, x)
    requires forall x :: (if x in resourceIdOf then resourceIdOf[x] else "") == ResourceIdOf(g.nodes, x)
    requires parentOf == ParentTable(g.edges)
    ensures weighed == if Competes(node, c, readings).None? then None
                       else Some((CandidateOf(g, node, c, value, readings, tolerance),
                         RankOfNode(g, node, c, readings)))
  {
    hide Fits, Explained, ChildrenOf, WalkUp, ParentTable, Competes;
    var own := Competes(node, c, readings);
    if own.None? { return None; }
    var remaining := LeftOf(g, Table(childrenOf, node.id), resourceIdOf, own.value, c, readings);
    var depth := DepthOf(g, parentOf, node.id);
    return Some((Candidate(node.resourceId, remaining, Fits(own.value, remaining, value, tolerance), false),
                 Rank(depth, remaining, 0, node.id)));
  }

  method BestExistingParent(g: Graph, c: Carrier, value: real, readings: Readings, tolerance: real)
    returns (best: int, candidates: seq<Candidate>)
    ensures best == BestNode(g, |g.nodes|, c, value, readings, tolerance)
    ensures candidates == Marked(Considered(g, |g.nodes|, c, value, readings, tolerance), g, best)
  {
    var childrenOf, resourceIdOf, parentOf := Index(g);
    hide Fits, Left, ChildrenOf, ParentTable, ResourceIdOf, Competes, Shallower, ExistingRank;
    best, candidates := -1, [];
    var bestRank := Rank(0, 0.0, 0, "");
    for k := 0 to |g.nodes|
      invariant best == BestNode(g, k, c, value, readings, tolerance)
      invariant best >= 0 ==> bestRank == RankOfNode(g, g.nodes[best], c, readings)
      invariant candidates == Considered(g, k, c, value, readings, tolerance)
    {
      var weighed := WeighNode(g, g.nodes[k], c, value, readings, tolerance, childrenOf, resourceIdOf, parentOf);
      if weighed.Some? {
        var (candidate, rank) := weighed.value;
        candidates := candidates + [candidate];
        if candidate.fits && (best < 0 || Shallower(rank, bestRank)) {
          best, bestRank := k, rank;
        }
      }
    }
    candidates := Marked(candidates, g, best);
  }

  // ---- attaching ----

  function AddLeaf(g: Graph, id: Id, parent: Id, edgeId: Id): Graph {
    g.(nodes := g.nodes + [Node(id, DeviceResource, id, [])],
       edges := g.edges + [Edge(edgeId, id, parent, FULL_WEIGHT, [Attribute(SYSTEM_CHANGED, "true", ATTR_ORIGIN)])])
  }

  function PlacementIn(g: Graph, d: Device, root: Id, readings: Readings, opts: Options): Placed {
    match PrimaryOf(d, readings)
    case None =>
      Placed(d.id, 0.0, if !d.HasEnergyFlow() && HasNode(g.nodes, NO_FLOW) then NO_FLOW else root, AtRootNoReading, [])
    case Some((c, value)) =>
      var best := BestNode(g, |g.nodes|, c, value, readings, opts.Tolerance());
      var weighed := Marked(Considered(g, |g.nodes|, c, value, readings, opts.Tolerance()), g, best);
      if best >= 0 then Placed(d.id, value, g.nodes[best].id, ByCapacity, weighed)
      else Placed(d.id, value, root, AtRootNothingFits, weighed)
  }

  function NextEdgeId(g: Graph, d: Device, parent: Id, opts: Options, next: nat): (Id, nat)
    requires opts.FreshIds()
  {
    UniqueId(EdgeIds(g.edges), EdgeId(d.id, parent), opts, next)
  }

  function AttachTo(g: Graph, d: Device, readings: Readings, opts: Options, next: nat,
      valid: Graph -> bool): AttachOutcome
    requires opts.FreshIds()
  {
    if d.id == "" then Refused(NoDeviceId)
    else if FindDeviceNode(g, d.id) != "" then AlreadyThere
    else if !valid(g) then Refused(InvalidInput)
    else
      match RootNodeId(g)
      case None => Refused(NoRoot)
      case Some(root) =>
        var placement := PlacementIn(g, d, root, readings, opts);
        var (edgeId, next') := NextEdgeId(g, d, placement.parentId, opts, next);
        var working := AddLeaf(g, d.id, placement.parentId, edgeId);
        if valid(working) then Attached(working, placement, next') else Refused(WouldBreak)
  }

  class GraphCell {
    var graph: Graph

    constructor (g: Graph)
      ensures graph == g
    {
      graph := g;
    }

    /** Everything happens on a copy: a refusal leaves the caller's graph as it was. */
    method Attach(d: Device, readings: Readings, opts: Options, next: nat, valid: Graph -> bool)
      returns (outcome: AttachOutcome)
      requires opts.FreshIds()
      modifies this
      ensures outcome == AttachTo(old(graph), d, readings, opts, next, valid)
      ensures graph == if outcome.Attached? then outcome.graph else old(graph)
    {
      if d.id == "" { return Refused(NoDeviceId); }
      if FindDeviceNode(graph, d.id) != "" { return AlreadyThere; }
      if !valid(graph) { return Refused(InvalidInput); }
      var working := graph;
      var root := RootNodeId(working);
      if root.None? { return Refused(NoRoot); }

      var parentId := root.value;
      if !d.HasEnergyFlow() && HasNode(working.nodes, NO_FLOW) {
        parentId := NO_FLOW;
      }
      var placement := Placed(d.id, 0.0, parentId, AtRootNoReading, []);
      var primary := PrimaryOf(d, readings);
      if primary.Some? {
        if !d.HasEnergyFlow() { NothingRead(d, readings); }
        var (c, value) := primary.value;
        var best, candidates := BestExistingParent(working, c, value, readings, opts.Tolerance());
        placement := Placed(d.id, value, parentId, AtRootNothingFits, candidates);
        if best >= 0 {
          parentId := working.nodes[best].id;
          placement := placement.(parentId := parentId, reason := ByCapacity);
        }
      }
      var edgeId, next', _ := UniqueEdgeId(EdgeIds(working.edges), d.id, parentId, opts, next);
      working := AddLeaf(working, d.id, parentId, edgeId);
      if !valid(working) { return Refused(WouldBreak); }
      graph := working;
      return Attached(working, placement, next');
    }
  }

  // ---- a fresh device always joins a valid graph ----

  /** No node carries the device, neither as its id nor as its resource. */
  predicate Absent(nodes: seq<Node>, deviceId: Id) {
    forall i :: 0 <= i < |nodes| ==> nodes[i].id != deviceId && nodes[i].resourceId != deviceId
  }

  lemma {:induction false} AbsentNotFound(nodes: seq<Node>, deviceId: Id)
    requires Absent(nodes, deviceId)
    ensures ByResource(nodes, deviceId) == "" && ByNode(nodes, deviceId) == ""
  {
    if nodes != [] { AbsentNotFound(nodes[1..], deviceId); }
  }

  lemma {:induction false} EndsAre(nodes: seq<Node>, edges: seq<Edge>, r: int)
    requires -1 <= r < |nodes|
    requires forall i :: 0 <= i < |nodes| ==> (IsSink(edges, nodes[i].id) <==> i == r)
    ensures Ends(nodes, edges) == if r < 0 then [] else [nodes[r].id]
  {
    if nodes != [] {
      EndsAre(nodes[1..], edges, if r > 0 then r - 1 else -1);
    }
  }

  lemma ValidHasRoot(g: Graph)
    requires Valid(g)
    ensures RootNodeId(g).Some? && HasNode(g.nodes, RootNodeId(g).value)
  {
    var r :| 0 <= r < |g.nodes| && IsSink(g.edges, g.nodes[r].id)
             && forall i :: 0 <= i < |g.nodes| && i != r ==> !IsSink(g.edges, g.nodes[i].id);
    EndsAre(g.nodes, g.edges, r);
  }

  lemma {:induction false} OutWeightOfSink(edges: seq<Edge>, id: Id)
    requires IsSink(edges, id)
    ensures OutWeight(edges, id) == 0
  {
    if edges != [] { OutWeightOfSink(edges[..|edges| - 1], id); }
  }

  lemma LeafKeepsAcyclic(edges: seq<Edge>, e: Edge)
    requires Acyclic(edges) && e.from != e.to
    requires forall i :: 0 <= i < |edges| ==> edges[i].to != e.from
    ensures Acyclic(edges + [e])
  {
    var more := edges + [e];
    forall p | |p| > 1 && Walk(more, p) ensures p[0] != p[|p| - 1] {
      if p[0] == p[|p| - 1] {
        forall i | 0 <= i < |p| - 1 ensures Linked(edges, p[i], p[i + 1]) {
          assert Linked(more, p[i], p[i + 1]);
          var into := if i == 0 then |p| - 2 else i - 1;
          assert Linked(more, p[into], p[into + 1]);
          assert p[into + 1] == p[i] != e.from;
        }
        assert Walk(edges, p);
      }
    }
  }

  /** A new leaf under any node of a valid graph leaves it valid. */
  lemma LeafKeepsValid(g: Graph, id: Id, parent: Id, edgeId: Id)
    requires Valid(g) && id != "" && Absent(g.nodes, id) && HasNode(g.nodes, parent) && edgeId !in EdgeIds(g.edges)
    ensures Valid(AddLeaf(g, id, parent, edgeId))
  {
    hide Acyclic, WeightsBalance, SingleRoot, EdgesConnectNodes, DistinctEdgeIds, HasNode, EdgeIds;
    var w := AddLeaf(g, id, parent, edgeId);
    var e := w.edges[|g.edges|];
    LeafKeepsAcyclicIn(g, e);
    LeafKeepsWeights(g, w, e);
    LeafKeepsRoot(g, w, e);
    LeafKeepsConnected(g, w, e);
    LeafKeepsEdgeIds(g.edges, e);
  }

  lemma LeafKeepsEdgeIds(edges: seq<Edge>, e: Edge)
    requires DistinctEdgeIds(edges) && e.id !in EdgeIds(edges)
    ensures DistinctEdgeIds(edges + [e])
  {
    assert forall i :: 0 <= i < |edges| ==> edges[i].id in EdgeIds(edges);
  }

  lemma LeafKeepsConnected(g: Graph, w: Graph, e: Edge)
    requires EdgesConnectNodes(g) && HasNode(g.nodes, e.to)
    requires w.edges == g.edges + [e] && |w.nodes| == |g.nodes| + 1 && w.nodes[..|g.nodes|] == g.nodes &&
             w.nodes[|g.nodes|].id == e.from
    ensures EdgesConnectNodes(w)
  {
    forall x | HasNode(g.nodes, x) ensures HasNode(w.nodes, x) {
      var i :| 0 <= i < |g.nodes| && g.nodes[i].id == x;
      assert w.nodes[..|g.nodes|][i] == w.nodes[i];
    }
    forall i | 0 <= i < |w.edges| ensures HasNode(w.nodes, w.edges[i].from) && HasNode(w.nodes, w.edges[i].to) {
      if i < |g.edges| { assert w.edges[i] == g.edges[i]; }
    }
  }

  lemma LeafKeepsAcyclicIn(g: Graph, e: Edge)
    requires Valid(g) && Absent(g.nodes, e.from) && HasNode(g.nodes, e.to)
    ensures Acyclic(g.edges + [e])
  {
    forall i | 0 <= i < |g.edges| ensures g.edges[i].to != e.from {
      assert HasNode(g.nodes, g.edges[i].to);
    }
    LeafKeepsAcyclic(g.edges, e);
  }

  lemma LeafKeepsWeights(g: Graph, w: Graph, e: Edge)
    requires WeightsBalance(g) && EdgesConnectNodes(g) && Absent(g.nodes, e.from) && e.weight == FULL_WEIGHT
    requires w.edges == g.edges + [e] && |w.nodes| == |g.nodes| + 1 && w.nodes[..|g.nodes|] == g.nodes &&
             w.nodes[|g.nodes|].id == e.from
    ensures WeightsBalance(w)
  {
    assert w.edges[..|g.edges|] == g.edges;
    forall i | 0 <= i < |w.nodes| ensures OutWeight(w.edges, w.nodes[i].id) in [0, 100] {
      if i < |g.nodes| {
        assert w.nodes[i] == w.nodes[..|g.nodes|][i] == g.nodes[i];
      } else {
        assert IsSink(g.edges, e.from) by {
          assert forall k :: 0 <= k < |g.edges| ==> HasNode(g.nodes, g.edges[k].from);
        }
        OutWeightOfSink(g.edges, e.from);
      }
    }
  }

  lemma LeafKeepsRoot(g: Graph, w: Graph, e: Edge)
    requires SingleRoot(g) && Absent(g.nodes, e.from)
    requires w.edges == g.edges + [e] && |w.nodes| == |g.nodes| + 1 && w.nodes[..|g.nodes|] == g.nodes &&
             w.nodes[|g.nodes|].id == e.from
    ensures SingleRoot(w)
  {
    var r :| 0 <= r < |g.nodes| && IsSink(g.edges, g.nodes[r].id) && g.nodes[r].resourceType.CustomResource?
             && forall i :: 0 <= i < |g.nodes| && i != r ==> !IsSink(g.edges, g.nodes[i].id);
    assert w.nodes[..|g.nodes|][r] == w.nodes[r];
    forall i | 0 <= i < |w.nodes| && i != r ensures !IsSink(w.edges, w.nodes[i].id) {
      if i < |g.nodes| {
        assert w.nodes[..|g.nodes|][i] == w.nodes[i];
        var k :| 0 <= k < |g.edges| && g.edges[k].from == g.nodes[i].id;
        assert w.edges[k].from == w.nodes[i].id;
      } else {
        assert w.edges[|g.edges|].from == w.nodes[i].id;
      }
    }
  }

  lemma NewcomerAddsOneLeaf(g: Graph, d: Device, readings: Readings, opts: Options, next: nat, valid: Graph -> bool)
    requires opts.FreshIds() && forall x :: valid(x) <==> Valid(x)
    requires d.id != "" && Absent(g.nodes, d.id)
    ensures var r := AttachTo(g, d, readings, opts, next, valid);
            if !Valid(g) then r == Refused(InvalidInput)
            else
              && r.Attached? && Valid(r.graph)
              && HasNode(g.nodes, r.placement.parentId)
              && (exists e :: r.graph == AddLeaf(g, d.id, r.placement.parentId, e))
  {
    hide Valid, Absent, HasNode, PlacementIn, NextEdgeId, AddLeaf, RootNodeId, ByResource, ByNode, UniqueId, EdgeIds;
    AbsentNotFound(g.nodes, d.id);
    if Valid(g) {
      ValidHasRoot(g);
      var root := RootNodeId(g).value;
      var placement := PlacementIn(g, d, root, readings, opts);
      PlacedOnANode(g, d, root, readings, opts);
      var edgeId := FreshEdgeId(g, d, placement.parentId, opts, next);
      LeafKeepsValid(g, d.id, placement.parentId, edgeId);
    }
  }

  lemma {:induction false} NotFoundByNode(nodes: seq<Node>, deviceId: Id)
    requires deviceId != "" && ByNode(nodes, deviceId) == ""
    ensures forall i :: 0 <= i < |nodes| ==> nodes[i].id != deviceId
  {
    if nodes != [] { NotFoundByNode(nodes[1..], deviceId); }
  }

  lemma NotAbsent(nodes: seq<Node>, deviceId: Id)
    requires !Absent(nodes, deviceId) && forall i :: 0 <= i < |nodes| ==> nodes[i].id != deviceId
    ensures exists i :: 0 <= i < |nodes| && nodes[i].resourceId == deviceId
  {}

  lemma SecondLeafBreaks(g: Graph, id: Id, parent: Id, edgeId: Id, i: nat)
    requires i < |g.nodes| && g.nodes[i].resourceId == id && id != ""
    ensures !Valid(AddLeaf(g, id, parent, edgeId))
  {
    var nodes := AddLeaf(g, id, parent, edgeId).nodes;
    assert nodes[i].resourceId == nodes[|g.nodes|].resourceId;
  }

  /**
   * What attaching does with any graph and device. One that is there already is left alone, a graph
   * that was broken before is refused, and so is a device that only a nameless node stands for. In
   * every other case it succeeds: exactly one node and one edge are added, everything that was there
   * stays verbatim, and the result is valid again.
   */
  lemma AttachAddsOneLeaf(g: Graph, d: Device, readings: Readings, opts: Options, next: nat, valid: Graph -> bool)
    requires opts.FreshIds() && forall x :: valid(x) <==> Valid(x)
    ensures var r := AttachTo(g, d, readings, opts, next, valid);
            if d.id == "" then r == Refused(NoDeviceId)
            else if FindDeviceNode(g, d.id) != "" then r == AlreadyThere
            else if !Valid(g) then r == Refused(InvalidInput)
            else if !Absent(g.nodes, d.id) then r == Refused(WouldBreak)
            else
              && r.Attached? && Valid(r.graph)
              && HasNode(g.nodes, r.placement.parentId)
              && (exists e :: r.graph == AddLeaf(g, d.id, r.placement.parentId, e))
  {
    hide Valid, Absent, HasNode, PlacementIn, NextEdgeId, AddLeaf, RootNodeId, ByResource, ByNode, UniqueId, EdgeIds;
    if d.id != "" && FindDeviceNode(g, d.id) == "" && Valid(g) {
      if Absent(g.nodes, d.id) {
        NewcomerAddsOneLeaf(g, d, readings, opts, next, valid);
      } else {
        NotFoundByNode(g.nodes, d.id);
        assert exists i :: 0 <= i < |g.nodes| && g.nodes[i].resourceId == d.id by { NotAbsent(g.nodes, d.id); }
        var i :| 0 <= i < |g.nodes| && g.nodes[i].resourceId == d.id;
        ValidHasRoot(g);
        var parent := PlacementIn(g, d, RootNodeId(g).value, readings, opts).parentId;
        SecondLeafBreaks(g, d.id, parent, NextEdgeId(g, d, parent, opts, next).0, i);
      }
    }
  }

  lemma FreshEdgeId(g: Graph, d: Device, parent: Id, opts: Options, next: nat) returns (edgeId: Id)
    requires opts.FreshIds()
    ensures edgeId == NextEdgeId(g, d, parent, opts, next).0 && edgeId !in EdgeIds(g.edges)
  {
    edgeId := NextEdgeId(g, d, parent, opts, next).0;
  }

  lemma PlacedOnANode(g: Graph, d: Device, root: Id, readings: Readings, opts: Options)
    requires HasNode(g.nodes, root)
    ensures HasNode(g.nodes, PlacementIn(g, d, root, readings, opts).parentId)
  {}
}
