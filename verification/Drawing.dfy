/** The generator: one graph from the devices of a group and what they read. */
module Drawing {
  import opened Sorting
  import opened Model
  import opened Placement
  import opened Tree

  // ---- a drawn tree is a graph the store accepts ----

  lemma {:induction false} OutWeightSingle(edges: seq<Edge>, id: Id)
    requires SingleParents(edges) && forall i :: 0 <= i < |edges| ==> edges[i].weight == FULL_WEIGHT
    ensures OutWeight(edges, id) == if IsSink(edges, id) then 0 else FULL_WEIGHT
  {
    if edges != [] {
      var n := |edges| - 1;
      OutWeightSingle(edges[..n], id);
      if edges[n].from == id {
        assert IsSink(edges[..n], id);
      } else {
        assert IsSink(edges, id) <==> IsSink(edges[..n], id) by {
          assert forall i :: 0 <= i < n ==> edges[i] == edges[..n][i];
        }
      }
    }
  }

  lemma {:induction false} WalkClimbs(g: Graph, ds: seq<Device>, readings: Readings, opts: Options, p: seq<Id>)
    requires Proper(ds) && Draws(g, ds, readings, opts) && |p| > 0 && Walk(g.edges, p)
    ensures Height(ds, readings, opts, p[0]) == Height(ds, readings, opts, p[|p| - 1]) + |p| - 1
  {
    if |p| > 1 {
      assert Linked(g.edges, p[0], p[1]);
      var e :| 0 <= e < |g.edges| && g.edges[e].from == p[0] && g.edges[e].to == p[1];
      EdgesLeadUp(ds, readings, opts, p[0], p[1]);
      var rest := p[1..];
      forall i | 0 <= i < |rest| - 1 ensures Linked(g.edges, rest[i], rest[i + 1]) {
        assert Linked(g.edges, p[i + 1], p[i + 2]);
      }
      WalkClimbs(g, ds, readings, opts, rest);
    }
  }

  lemma DrawnHasRoot(g: Graph, ds: seq<Device>, readings: Readings, opts: Options)
    requires Proper(ds) && Draws(g, ds, readings, opts)
    ensures SingleRoot(g) && IsSink(g.edges, ROOT)
  {
    forall i | 0 <= i < |g.edges| ensures g.edges[i].from != ROOT {
      EdgesLeadUp(ds, readings, opts, g.edges[i].from, g.edges[i].to);
    }
    assert HasNode(g.nodes, ROOT) by { assert Belongs(ds, opts, ROOT); }
    var r :| 0 <= r < |g.nodes| && g.nodes[r].id == ROOT;
    forall i | 0 <= i < |g.nodes| && i != r ensures !IsSink(g.edges, g.nodes[i].id) {
      var id := g.nodes[i].id;
      assert id != ROOT && Belongs(ds, opts, id);
      if IsDeviceId(ds, id) {
        var k :| 0 <= k < |ds| && ds[k].id == id;
        assert Wanted(ds, readings, opts, id, ParentFor(ds[k], ds, readings, opts));
      } else {
        assert Wanted(ds, readings, opts, id, ROOT);
      }
    }
    assert PlainNode(g.nodes[r], ds);
  }

  lemma DrawnIsValid(g: Graph, ds: seq<Device>, readings: Readings, opts: Options)
    requires Proper(ds) && Draws(g, ds, readings, opts)
    requires g.owner != "" && DistinctEdgeIds(g.edges)
    requires forall i :: 0 <= i < |g.edges| ==> g.edges[i].weight == FULL_WEIGHT
    ensures Valid(g)
  {
    DrawnHasRoot(g, ds, readings, opts);
    forall i, j | 0 <= i < j < |g.nodes| && g.nodes[i].resourceId != ""
      ensures g.nodes[i].resourceId != g.nodes[j].resourceId
    {
      assert PlainNode(g.nodes[i], ds) && PlainNode(g.nodes[j], ds);
    }
    forall i | 0 <= i < |g.edges| ensures HasNode(g.nodes, g.edges[i].from) && HasNode(g.nodes, g.edges[i].to) {
      EdgesLeadUp(ds, readings, opts, g.edges[i].from, g.edges[i].to);
    }
    forall i | 0 <= i < |g.nodes| ensures OutWeight(g.edges, g.nodes[i].id) in [0, 100] {
      OutWeightSingle(g.edges, g.nodes[i].id);
    }
    forall p | |p| > 1 && Walk(g.edges, p) ensures p[0] != p[|p| - 1] {
      WalkClimbs(g, ds, readings, opts, p);
    }
  }

  // ---- edge ids ----

  function EdgeId(from: Id, to: Id): Id { "edge-" + from + "-" + to }

  /** The second pair is the first read with a separator further right as the dividing one. */
  ghost predicate ReadOtherwise(a: Id, b: Id, c: Id, d: Id) {
    exists m: Id :: c == a + "-" + m && b == m + "-" + d
  }

  lemma SameBehindPrefix(a: Id, b: Id, c: Id, d: Id)
    requires EdgeId(a, b) == EdgeId(c, d)
    ensures a + "-" + b == c + "-" + d
  {
    var left, right := a + "-" + b, c + "-" + d;
    assert EdgeId(a, b) == "edge-" + left && EdgeId(c, d) == "edge-" + right;
    assert left == EdgeId(a, b)[5..] && right == EdgeId(c, d)[5..];
  }

  lemma Divided(a: Id, b: Id, s: Id)
    requires s == a + "-" + b
    ensures |s| == |a| + 1 + |b| && s[..|a|] == a && s[|a|] == '-' && s[|a| + 1..] == b
  {}

  lemma ReadsAlike(a: Id, b: Id, c: Id, d: Id)
    requires EdgeId(a, b) == EdgeId(c, d) && |a| <= |c|
    ensures (a == c && b == d) || ReadOtherwise(a, b, c, d)
  {
    SameBehindPrefix(a, b, c, d);
    var s, n := a + "-" + b, |a|;
    Divided(a, b, s);
    Divided(c, d, s);
    if n < |c| {
      var m := c[n + 1..];
      assert c[..n] == s[..|c|][..n] == a && c[n] == s[..|c|][n] == '-';
      assert c == c[..n] + [c[n]] + m == a + "-" + m;
      assert b == s[n + 1..|c|] + s[|c|..] && s[n + 1..|c|] == m && s[|c|..] == "-" + d;
      assert b == m + "-" + d;
    }
  }

  lemma OtherReadingsCoincide(a: Id, b: Id, c: Id, d: Id)
    ensures ReadOtherwise(a, b, c, d) ==> EdgeId(a, b) == EdgeId(c, d)
  {
    if ReadOtherwise(a, b, c, d) {
      var m: Id :| c == a + "-" + m && b == m + "-" + d;
      assert "edge-" + a + "-" + (m + "-" + d) == "edge-" + (a + "-" + m) + "-" + d;
    }
  }

  /** Two pairs share an edge id exactly when they are equal, or one is the other divided at another separator. */
  lemma EdgeIdsCoincide(a: Id, b: Id, c: Id, d: Id)
    ensures EdgeId(a, b) == EdgeId(c, d) <==>
            (a == c && b == d) || ReadOtherwise(a, b, c, d) || ReadOtherwise(c, d, a, b)
  {
    hide EdgeId, ReadOtherwise;
    if EdgeId(a, b) == EdgeId(c, d) {
      if |a| <= |c| { ReadsAlike(a, b, c, d); } else { ReadsAlike(c, d, a, b); }
    }
    OtherReadingsCoincide(a, b, c, d);
    OtherReadingsCoincide(c, d, a, b);
  }

  lemma SeparatorShows(a: Id, b: Id, c: Id, d: Id)
    ensures ReadOtherwise(a, b, c, d) ==> '-' in c && '-' in b
  {
    if ReadOtherwise(a, b, c, d) {
      var m: Id :| c == a + "-" + m && b == m + "-" + d;
      assert c[|a|] == '-' && b[|m|] == '-';
    }
  }

  /** So the shape is unique per pair among ids without the separator. */
  lemma PlainEdgeIdsDiffer(a: Id, b: Id, c: Id, d: Id)
    requires '-' !in a && '-' !in c && EdgeId(a, b) == EdgeId(c, d)
    ensures a == c && b == d
  {
    EdgeIdsCoincide(a, b, c, d);
    SeparatorShows(a, b, c, d);
    SeparatorShows(c, d, a, b);
  }

  /** And with the separator it is not. */
  lemma EdgeIdCollides()
    ensures EdgeId("a-b", "c") == EdgeId("a", "b-c")
  {
    assert EdgeId("a-b", "c") == "edge-a-b-c" == EdgeId("a", "b-c");
  }

  /** The taken ids that the id stream has yet to produce. */
  ghost function Upcoming(taken: set<Id>, opts: Options, next: nat): set<Id> {
    set x | x in taken && exists k: nat :: k >= next && opts.newId(k) == x
  }

  lemma UpcomingShrinks(taken: set<Id>, opts: Options, next: nat)
    requires opts.FreshIds()
    ensures |Upcoming(taken, opts, next + 1)| <= |Upcoming(taken, opts, next)|
    ensures opts.newId(next) in taken ==> |Upcoming(taken, opts, next + 1)| < |Upcoming(taken, opts, next)|
  {
    var small, large := Upcoming(taken, opts, next + 1), Upcoming(taken, opts, next);
    Subset(small, large);
    assert opts.newId(next) !in small;
    if opts.newId(next) in taken {
      assert opts.newId(next) in large;
      Subset(small, large - {opts.newId(next)});
    }
  }

  lemma {:induction false} Subset(a: set<Id>, b: set<Id>)
    requires a <= b
    ensures |a| <= |b|
  {
    if a != {} {
      var x :| x in a;
      Subset(a - {x}, b - {x});
    }
  }

  /** Keeps the wanted id unless it is taken; fresh ids do not repeat, so the search ends. */
  function UniqueId(taken: set<Id>, id: Id, opts: Options, next: nat): (r: (Id, nat))
    requires opts.FreshIds()
    ensures r.0 !in taken && r.1 >= next && (id !in taken ==> r == (id, next))
    decreases |Upcoming(taken, opts, next)|, if id in taken then 1 else 0
  {
    if id !in taken then (id, next)
    else
      UpcomingShrinks(taken, opts, next);
      UniqueId(taken, opts.newId(next), opts, next + 1)
  }

  method UniqueEdgeId(taken: set<Id>, from: Id, to: Id, opts: Options, next: nat)
    returns (id: Id, next': nat, taken': set<Id>)
    requires opts.FreshIds()
    ensures (id, next') == UniqueId(taken, EdgeId(from, to), opts, next)
    ensures taken' == taken + {id} && id !in taken
  {
    id, next' := EdgeId(from, to), next;
    while id in taken
      invariant UniqueId(taken, id, opts, next') == UniqueId(taken, EdgeId(from, to), opts, next)
      decreases |Upcoming(taken, opts, next')|, if id in taken then 1 else 0
    {
      UpcomingShrinks(taken, opts, next');
      id, next' := opts.newId(next'), next' + 1;
    }
    taken' := taken + {id};
  }

  // ---- the graph as a function of the devices ----

  function EdgeIds(edges: seq<Edge>): set<Id> { set i | 0 <= i < |edges| :: edges[i].id }

  function NewEdge(id: Id, from: Id, to: Id): Edge { Edge(id, from, to, FULL_WEIGHT, []) }

  /** One edge per pair, each with an id none before it has; and how far the id stream got. */
  function EdgesFor(pairs: seq<(Id, Id)>, opts: Options): (r: (seq<Edge>, nat))
    requires opts.FreshIds()
    ensures |r.0| == |pairs|
    ensures forall i :: 0 <= i < |pairs| ==> r.0[i].from == pairs[i].0 && r.0[i].to == pairs[i].1
    ensures forall i :: 0 <= i < |pairs| ==> r.0[i].weight == FULL_WEIGHT
    ensures DistinctEdgeIds(r.0)
  {
    if pairs == [] then ([], 0)
    else
      var n := |pairs| - 1;
      var (edges, next) := EdgesFor(pairs[..n], opts);
      var (id, next') := UniqueId(EdgeIds(edges), EdgeId(pairs[n].0, pairs[n].1), opts, next);
      (edges + [NewEdge(id, pairs[n].0, pairs[n].1)], next')
  }

  function DeviceNode(d: Device): Node { Node(d.id, DeviceResource, d.id, []) }

  function RootNode(group: Group): Node {
    Node(ROOT, CustomResource, "", [Attribute(NODE_ATTR_NAME, group.name, ATTR_ORIGIN)])
  }

  function CollectorNode(opts: Options): Node {
    Node(NO_FLOW, CustomResource, "",
         [Attribute(NODE_ATTR_NAME, opts.noFlowName, ATTR_ORIGIN),
          Attribute(NO_FLOW_TRANSLATION_KEY, "noEnergyFlow", ATTR_ORIGIN)])
  }

  function Provenance(group: Group): seq<Attribute> {
    [Attribute(ATTR_GROUP_ID, group.id, ATTR_ORIGIN),
     Attribute(ATTR_GROUP_PATH, group.path, ATTR_ORIGIN),
     Attribute(ATTR_NAME, group.name, ATTR_ORIGIN),
     Attribute(SYSTEM_CHANGED, "true", ATTR_ORIGIN)]
  }

  function Nodes(group: Group, ds: seq<Device>, opts: Options): seq<Node> {
    [RootNode(group)] + seq(|ds|, i requires 0 <= i < |ds| => DeviceNode(ds[i]))
    + if NeedsCollector(ds, opts) then [CollectorNode(opts)] else []
  }

  function Pairs(ds: seq<Device>, readings: Readings, opts: Options): seq<(Id, Id)> {
    (if NeedsCollector(ds, opts) then [(NO_FLOW, ROOT)] else []) + DevicePairs(ds, readings, opts)
  }

  function DevicePairs(ds: seq<Device>, readings: Readings, opts: Options): (r: seq<(Id, Id)>)
    ensures |r| == |ds|
    ensures forall i :: 0 <= i < |ds| ==> r[i].0 == ds[i].id && r[i].1 == ParentFor(ds[i], ds, readings, opts)
  {
    seq(|ds|, i requires 0 <= i < |ds| => (ds[i].id, ParentFor(ds[i], ds, readings, opts)))
  }

  predicate EdgeBefore(a: Edge, b: Edge) { Before(a.id, b.id) }

  function GraphOf(owner: Id, group: Group, devices: seq<Device>, readings: Readings, opts: Options): Graph
    requires opts.FreshIds()
  {
    var ds := Sort(DeviceBefore, devices);
    Graph("", owner, Provenance(group), Nodes(group, ds, opts),
          Sort(EdgeBefore, EdgesFor(Pairs(ds, readings, opts), opts).0))
  }

  function UnreadReports(ds: seq<Device>, readings: Readings, opts: Options): seq<Placed> {
    if ds == [] then []
    else
      var d := ds[|ds| - 1];
      UnreadReports(ds[..|ds| - 1], readings, opts)
      + if PrimaryOf(d, readings).None? then [Placed(d.id, 0.0, HomeOf(d, opts), AtRootNoReading, [])] else []
  }

  function CarrierReports(ds: seq<Device>, k: nat, readings: Readings, opts: Options): seq<Placed>
    requires k <= |CARRIERS|
  {
    if k == 0 then []
    else
      var ms := Order(ds, CARRIERS[k - 1], readings);
      CarrierReports(ds, k - 1, readings, opts) + Reports(ms, PlaceAll(ms, opts.Tolerance()), opts.Tolerance())
  }

  predicate LargerFirst(a: Placed, b: Placed) { a.value > b.value }

  /** The placements, largest reading first; equal readings stay in the order they were weighed. */
  function ReportsOf(devices: seq<Device>, readings: Readings, opts: Options): seq<Placed> {
    var ds := Sort(DeviceBefore, devices);
    Sort(LargerFirst, UnreadReports(ds, readings, opts) + CarrierReports(ds, |CARRIERS|, readings, opts))
  }

  // ---- order independence ----

  lemma DevicesSort(devices: seq<Device>)
    requires Proper(devices)
    ensures var ds := Sort(DeviceBefore, devices);
            StrictlySorted(DeviceBefore, ds) && SameDevices(ds, devices) && Proper(ds)
  {
    var ds := Sort(DeviceBefore, devices);
    BeforeIsStrictOrder();
    forall i, j | 0 <= i < j < |devices|
      ensures DeviceBefore(devices[i], devices[j]) || DeviceBefore(devices[j], devices[i]) {
      BeforeTotal(devices[i].id, devices[j].id);
    }
    SortSorts(DeviceBefore, devices);
    forall i | 0 <= i < |ds| ensures ds[i].id !in ["", ROOT, NO_FLOW] {
      assert ds[i] in devices;
    }
    forall i, j | 0 <= i < j < |ds| ensures ds[i].id != ds[j].id {
      assert DeviceBefore(ds[i], ds[j]);
      BeforeIrreflexive(ds[i].id);
    }
  }

  /** Whatever order the devices arrive in, graph and placements are identical, ids included. */
  lemma BuildIgnoresOrder(owner: Id, group: Group, devices: seq<Device>, permuted: seq<Device>, readings: Readings,
      opts: Options)
    requires Proper(devices) && multiset(devices) == multiset(permuted) && opts.FreshIds()
    ensures GraphOf(owner, group, devices, readings, opts) == GraphOf(owner, group, permuted, readings, opts)
    ensures ReportsOf(devices, readings, opts) == ReportsOf(permuted, readings, opts)
  {
    SameElements(devices, permuted);
    PermutedProper(devices, permuted);
    DevicesSort(devices);
    DevicesSort(permuted);
    BeforeIsStrictOrder();
    SortedUnique(DeviceBefore, Sort(DeviceBefore, devices), Sort(DeviceBefore, permuted));
  }

  lemma PermutedProper(devices: seq<Device>, permuted: seq<Device>)
    requires Proper(devices) && multiset(devices) == multiset(permuted)
    ensures Proper(permuted)
  {
    SameElements(devices, permuted);
    forall i | 0 <= i < |permuted| ensures permuted[i].id !in ["", ROOT, NO_FLOW] {
      assert permuted[i] in devices;
    }
    forall i, j | 0 <= i < j < |permuted| ensures permuted[i].id != permuted[j].id {
      assert permuted[i] in devices && permuted[j] in devices;
      AtMostOnce(devices, permuted[i]);
      CountedTwice(permuted, i, j);
    }
  }

  lemma CountedTwice(devices: seq<Device>, i: nat, j: nat)
    requires i < j < |devices|
    ensures devices[i] == devices[j] ==> multiset(devices)[devices[i]] >= 2
  {
    assert devices == devices[..j] + devices[j..];
    assert devices[..j][i] in devices[..j] && devices[j..][0] in devices[j..];
  }

  lemma {:induction false} AtMostOnce(devices: seq<Device>, d: Device)
    requires forall i, j :: 0 <= i < j < |devices| ==> devices[i].id != devices[j].id
    ensures multiset(devices)[d] <= 1
  {
    if devices != [] {
      AtMostOnce(devices[1..], d);
      assert devices == [devices[0]] + devices[1..];
      assert d == devices[0] ==> d !in devices[1..];
    }
  }

  // ---- the generated graph draws the tree ----

  lemma SortedEdges(edges: seq<Edge>)
    requires DistinctEdgeIds(edges) && SingleParents(edges)
    ensures var sorted := Sort(EdgeBefore, edges);
            && StrictlySorted(EdgeBefore, sorted) && DistinctEdgeIds(sorted) && SingleParents(sorted)
            && forall e :: e in sorted <==> e in edges
  {
    var sorted := Sort(EdgeBefore, edges);
    BeforeIsStrictOrder();
    forall i, j | 0 <= i < j < |edges| ensures EdgeBefore(edges[i], edges[j]) || EdgeBefore(edges[j], edges[i]) {
      BeforeTotal(edges[i].id, edges[j].id);
    }
    SortSorts(EdgeBefore, edges);
    forall i, j | 0 <= i < j < |sorted| ensures sorted[i].id != sorted[j].id && sorted[i].from != sorted[j].from {
      assert EdgeBefore(sorted[i], sorted[j]);
      BeforeIrreflexive(sorted[i].id);
      assert sorted[i] in edges && sorted[j] in edges;
    }
  }

  lemma PairsAreWanted(ds: seq<Device>, readings: Readings, opts: Options, i: nat)
    requires i < |Pairs(ds, readings, opts)|
    ensures var (a, b) := Pairs(ds, readings, opts)[i]; Wanted(ds, readings, opts, a, b)
  {
    var k := if NeedsCollector(ds, opts) then 1 else 0;
    if i >= k {
      assert ds[i - k].id == Pairs(ds, readings, opts)[i].0;
    }
  }

  lemma WantedIsAPair(ds: seq<Device>, readings: Readings, opts: Options, a: Id, b: Id) returns (i: nat)
    requires Wanted(ds, readings, opts, a, b)
    ensures i < |Pairs(ds, readings, opts)| && Pairs(ds, readings, opts)[i] == (a, b)
  {
    hide ParentFor;
    if a == NO_FLOW && b == ROOT && NeedsCollector(ds, opts) {
      i := 0;
    } else {
      var k :| 0 <= k < |ds| && ds[k].id == a && b == ParentFor(ds[k], ds, readings, opts);
      assert DevicePairs(ds, readings, opts)[k] == (a, b);
      i := k + if NeedsCollector(ds, opts) then 1 else 0;
    }
  }

  lemma UnsortedEdgesDraw(ds: seq<Device>, readings: Readings, opts: Options)
    requires Proper(ds) && opts.FreshIds()
    ensures DrawsEdges(EdgesFor(Pairs(ds, readings, opts), opts).0, ds, readings, opts)
  {
    var pairs := Pairs(ds, readings, opts);
    var edges := EdgesFor(pairs, opts).0;
    forall i, j | 0 <= i < j < |edges| ensures edges[i].from != edges[j].from {
      assert edges[i].from == pairs[i].0 && edges[j].from == pairs[j].0;
    }
    forall i | 0 <= i < |edges| ensures Wanted(ds, readings, opts, edges[i].from, edges[i].to) {
      PairsAreWanted(ds, readings, opts, i);
    }
    forall a, b | Wanted(ds, readings, opts, a, b) ensures Linked(edges, a, b) {
      var i := WantedIsAPair(ds, readings, opts, a, b);
      assert edges[i].from == a;
    }
  }

  lemma SortedEdgesDraw(edges: seq<Edge>, ds: seq<Device>, readings: Readings, opts: Options)
    requires DistinctEdgeIds(edges) && DrawsEdges(edges, ds, readings, opts)
    ensures DrawsEdges(Sort(EdgeBefore, edges), ds, readings, opts)
    ensures DistinctEdgeIds(Sort(EdgeBefore, edges))
    ensures forall e :: e in Sort(EdgeBefore, edges) <==> e in edges
  {
    var sorted := Sort(EdgeBefore, edges);
    SortedEdges(edges);
    forall i | 0 <= i < |sorted| ensures Wanted(ds, readings, opts, sorted[i].from, sorted[i].to) {
      assert sorted[i] in edges;
    }
    forall a, b | Wanted(ds, readings, opts, a, b) ensures Linked(sorted, a, b) {
      var i :| 0 <= i < |edges| && edges[i].from == a && edges[i].to == b;
      assert edges[i] in sorted;
    }
  }

  /** The root first, then the devices, then the collector if one is needed. */
  lemma NodeAt(group: Group, ds: seq<Device>, opts: Options, i: nat)
    requires i < |Nodes(group, ds, opts)|
    ensures var nodes := Nodes(group, ds, opts);
            && |nodes| == 1 + |ds| + (if NeedsCollector(ds, opts) then 1 else 0)
            && nodes[i] == if i == 0 then RootNode(group)
                           else if i <= |ds| then DeviceNode(ds[i - 1]) else CollectorNode(opts)
  {
    hide NeedsCollector, RootNode, CollectorNode;
  }

  lemma NodeFits(group: Group, ds: seq<Device>, opts: Options, i: nat)
    requires Proper(ds) && i < |Nodes(group, ds, opts)|
    ensures var n := Nodes(group, ds, opts)[i]; Belongs(ds, opts, n.id) && PlainNode(n, ds)
  {
    hide NeedsCollector, Nodes;
    NodeAt(group, ds, opts, i);
    if 1 <= i <= |ds| { assert ds[i - 1].id == Nodes(group, ds, opts)[i].id; }
  }

  lemma NodesDiffer(group: Group, ds: seq<Device>, opts: Options)
    requires Proper(ds)
    ensures DistinctNodeIds(Nodes(group, ds, opts))
  {
    hide NeedsCollector, Nodes;
    var nodes := Nodes(group, ds, opts);
    forall i, j | 0 <= i < j < |nodes| ensures nodes[i].id != nodes[j].id {
      NodeAt(group, ds, opts, i);
      NodeAt(group, ds, opts, j);
    }
  }

  lemma NodeOf(group: Group, ds: seq<Device>, opts: Options, id: Id)
    requires Belongs(ds, opts, id)
    ensures HasNode(Nodes(group, ds, opts), id)
  {
    hide NeedsCollector;
    var nodes := Nodes(group, ds, opts);
    if id == ROOT {
      assert nodes[0].id == id;
    } else if IsDeviceId(ds, id) {
      var i :| 0 <= i < |ds| && ds[i].id == id;
      assert nodes[i + 1].id == id;
    } else {
      assert nodes[|ds| + 1].id == id;
    }
  }

  lemma NodesDraw(group: Group, ds: seq<Device>, opts: Options)
    requires Proper(ds)
    ensures DrawsNodes(Nodes(group, ds, opts), ds, opts)
  {
    hide Belongs, PlainNode, HasNode, DistinctNodeIds, Nodes;
    var nodes := Nodes(group, ds, opts);
    NodesDiffer(group, ds, opts);
    forall i | 0 <= i < |nodes| ensures Belongs(ds, opts, nodes[i].id) && PlainNode(nodes[i], ds) {
      NodeFits(group, ds, opts, i);
    }
    forall id | Belongs(ds, opts, id) ensures HasNode(nodes, id) { NodeOf(group, ds, opts, id); }
  }

  lemma DrawsOfTheSet(g: Graph, ds: seq<Device>, es: seq<Device>, readings: Readings, opts: Options)
    requires Proper(ds) && Proper(es) && SameDevices(ds, es) && Draws(g, ds, readings, opts)
    ensures Draws(g, es, readings, opts)
  {
    CollectorOfTheSet(ds, es, opts);
    forall id ensures IsDeviceId(ds, id) == IsDeviceId(es, id) {
      if IsDeviceId(ds, id) {
        var i :| 0 <= i < |ds| && ds[i].id == id;
        assert ds[i] in es;
      }
      if IsDeviceId(es, id) {
        var i :| 0 <= i < |es| && es[i].id == id;
        assert es[i] in ds;
      }
    }
    forall a, b ensures Wanted(ds, readings, opts, a, b) == Wanted(es, readings, opts, a, b) {
      WantedOfTheSet(ds, es, readings, opts, a, b);
      WantedOfTheSet(es, ds, readings, opts, a, b);
    }
  }

  lemma WantedOfTheSet(ds: seq<Device>, es: seq<Device>, readings: Readings, opts: Options, a: Id, b: Id)
    requires Proper(ds) && Proper(es) && SameDevices(ds, es)
    ensures Wanted(ds, readings, opts, a, b) ==> Wanted(es, readings, opts, a, b)
  {
    CollectorOfTheSet(ds, es, opts);
    if Wanted(ds, readings, opts, a, b) && !(a == NO_FLOW && b == ROOT && NeedsCollector(ds, opts)) {
      var i :| 0 <= i < |ds| && ds[i].id == a && b == ParentFor(ds[i], ds, readings, opts);
      assert ds[i] in es;
      var k :| 0 <= k < |es| && es[k] == ds[i];
      ParentOfTheSet(ds[i], ds, es, readings, opts);
    }
  }

  /** The generator draws the tree its devices call for, and that is always a valid graph. */
  lemma BuildDraws(owner: Id, group: Group, devices: seq<Device>, readings: Readings, opts: Options)
    requires Proper(devices) && opts.FreshIds() && owner != ""
    ensures var g := GraphOf(owner, group, devices, readings, opts);
            Draws(g, devices, readings, opts) && Valid(g)
  {
    var g := GraphOf(owner, group, devices, readings, opts);
    var ds := Sort(DeviceBefore, devices);
    DevicesSort(devices);
    var edges := EdgesFor(Pairs(ds, readings, opts), opts).0;
    UnsortedEdgesDraw(ds, readings, opts);
    SortedEdgesDraw(edges, ds, readings, opts);
    NodesDraw(group, ds, opts);
    forall i | 0 <= i < |g.edges| ensures g.edges[i].weight == FULL_WEIGHT {
      assert g.edges[i] in edges;
    }
    DrawnIsValid(g, ds, readings, opts);
    DrawsOfTheSet(g, ds, devices, readings, opts);
  }
}
