/** What the generated graph means, in terms of the devices, readings and options it was made of alone. */
module Built {
  import opened Sorting
  import opened Model
  import opened Placement
  import opened Tree
  import opened Drawing
  import Generator

  // ---- the carrier a device is placed by ----

  /** One of the device's columns is of the carrier, and a reading of it exists. */
  predicate Reads(d: Device, readings: Readings, c: Carrier) {
    (exists i :: 0 <= i < |d.columns| && d.columns[i].carrier == c) && ReadingKey(d.id, c) in readings
  }

  function Figure(d: Device, readings: Readings, c: Carrier): real
    requires Reads(d, readings, c)
  {
    readings[ReadingKey(d.id, c)]
  }

  /** Of the carriers none was read more than the one at k, and none before it as much. */
  ghost predicate Leads(d: Device, readings: Readings, carriers: seq<Carrier>, k: nat)
    requires k < |carriers|
  {
    && Reads(d, readings, carriers[k])
    && forall j :: 0 <= j < |carriers| && Reads(d, readings, carriers[j]) ==>
         && Figure(d, readings, carriers[j]) <= Figure(d, readings, carriers[k])
         && (j < k ==> Figure(d, readings, carriers[j]) < Figure(d, readings, carriers[k]))
  }

  /** The running maximum of a device's readings, said without running. */
  ghost predicate IsLargest(d: Device, readings: Readings, carriers: seq<Carrier>, largest: Option<(Carrier, real)>) {
    match largest
    case None => forall k :: 0 <= k < |carriers| ==> !Reads(d, readings, carriers[k])
    case Some((c, v)) =>
      exists k ::
        0 <= k < |carriers| && Leads(d, readings, carriers, k) && c == carriers[k] && v == Figure(d, readings, c)
  }

  lemma NextCarrier(d: Device, readings: Readings, carriers: seq<Carrier>, was: Option<(Carrier, real)>)
    requires carriers != [] && IsLargest(d, readings, carriers[..|carriers| - 1], was)
    ensures var c := carriers[|carriers| - 1];
            IsLargest(d, readings, carriers,
              if Reads(d, readings, c) && (was.None? || Figure(d, readings, c) > was.value.1)
              then Some((c, Figure(d, readings, c))) else was)
  {
    hide Reads;
    var n := |carriers| - 1;
    if was.Some? {
      var k :| 0 <= k < n && Leads(d, readings, carriers[..n], k) && was.value.0 == carriers[..n][k] &&
        was.value.1 == Figure(d, readings, was.value.0);
      assert forall j :: 0 <= j < n ==> carriers[..n][j] == carriers[j];
      assert Leads(d, readings, carriers, k) || (Reads(d, readings, carriers[n]) && Leads(d, readings, carriers, n));
    } else {
      assert forall j :: 0 <= j < n ==> carriers[..n][j] == carriers[j];
      assert Reads(d, readings, carriers[n]) ==> Leads(d, readings, carriers, n);
    }
  }

  lemma {:induction false} LargestLeads(d: Device, readings: Readings, carriers: seq<Carrier>)
    ensures IsLargest(d, readings, carriers, LargestReading(d.id, d.MeasuredIn(carriers), readings))
  {
    hide IsLargest;
    if carriers == [] {
      NothingToRead(d, readings);
    } else {
      var n := |carriers| - 1;
      var before, c := d.MeasuredIn(carriers[..n]), carriers[n];
      LargestLeads(d, readings, carriers[..n]);
      assert carriers == carriers[..n] + [c];
      MeasuredInAppend(d, carriers[..n], c);
      assert (before + [c])[..|before|] == before && before + [] == before;
      NextCarrier(d, readings, carriers, LargestReading(d.id, before, readings));
    }
  }

  lemma NothingToRead(d: Device, readings: Readings)
    ensures IsLargest(d, readings, [], None)
  {}

  /** A device is placed by the carrier it read the most of, the first in order of those it read as much of. */
  ghost predicate PlacedBy(d: Device, readings: Readings, c: Carrier, v: real) {
    exists k ::
      0 <= k < |CARRIERS| && Leads(d, readings, CARRIERS, k) && c == CARRIERS[k] && v == Figure(d, readings, c) &&
      v > 0.0
  }

  /** No carrier of its columns has a positive reading. */
  ghost predicate ReadsNothing(d: Device, readings: Readings) {
    forall i :: 0 <= i < |d.columns| && ReadingKey(d.id, d.columns[i].carrier) in readings ==>
                  readings[ReadingKey(d.id, d.columns[i].carrier)] <= 0.0
  }

  lemma LeaderIsOne(d: Device, readings: Readings, j: nat, k: nat)
    requires j < |CARRIERS| && k < |CARRIERS| && Leads(d, readings, CARRIERS, j) && Leads(d, readings, CARRIERS, k)
    ensures j == k
  {
    hide Reads;
    assert Figure(d, readings, CARRIERS[j]) == Figure(d, readings, CARRIERS[k]);
  }

  lemma PrimaryIsPlacedBy(d: Device, readings: Readings, c: Carrier, v: real)
    ensures PrimaryOf(d, readings) == Some((c, v)) <==> PlacedBy(d, readings, c, v)
  {
    hide Reads, LargestReading, Leads;
    LargestLeads(d, readings, CARRIERS);
    if PlacedBy(d, readings, c, v) {
      var k :| 0 <= k < |CARRIERS| && Leads(d, readings, CARRIERS, k) && c == CARRIERS[k];
      LeaderReads(d, readings, k);
      var largest := LargestReading(d.id, d.CarriersOf(), readings);
      if largest.Some? {
        var j :| 0 <= j < |CARRIERS| && Leads(d, readings, CARRIERS, j) && largest.value.0 == CARRIERS[j];
        LeaderIsOne(d, readings, j, k);
      }
    }
  }

  lemma LeaderReads(d: Device, readings: Readings, k: nat)
    requires k < |CARRIERS| && Leads(d, readings, CARRIERS, k)
    ensures Reads(d, readings, CARRIERS[k])
  {}

  lemma NoPrimaryReadsNothing(d: Device, readings: Readings)
    ensures PrimaryOf(d, readings).None? <==> ReadsNothing(d, readings)
  {
    hide LargestReading;
    LargestLeads(d, readings, CARRIERS);
    EveryCarrier();
    forall i | 0 <= i < |d.columns| && ReadingKey(d.id, d.columns[i].carrier) in readings
      ensures exists k :: 0 <= k < |CARRIERS| && CARRIERS[k] == d.columns[i].carrier && Reads(d, readings, CARRIERS[k])
    {
      assert d.columns[i].carrier in CARRIERS;
      var k :| 0 <= k < |CARRIERS| && CARRIERS[k] == d.columns[i].carrier;
      assert Reads(d, readings, CARRIERS[k]);
    }
    var largest := LargestReading(d.id, d.CarriersOf(), readings);
    if largest.Some? {
      var k :| 0 <= k < |CARRIERS| && Leads(d, readings, CARRIERS, k) && largest.value.0 == CARRIERS[k];
      var i :| 0 <= i < |d.columns| && d.columns[i].carrier == CARRIERS[k];
      assert ReadsNothing(d, readings) ==> readings[ReadingKey(d.id, d.columns[i].carrier)] <= 0.0;
    }
  }

  // ---- devices without a usable reading ----

  /** The only node above x is y. */
  ghost predicate HangsUnder(g: Graph, x: Id, y: Id) {
    Linked(g.edges, x, y) && forall z :: Linked(g.edges, x, z) ==> z == y
  }

  lemma OneParentOnly(g: Graph, ds: seq<Device>, readings: Readings, opts: Options, x: Id, y: Id)
    requires Draws(g, ds, readings, opts) && Wanted(ds, readings, opts, x, y)
    ensures HangsUnder(g, x, y)
  {
    hide Wanted;
    forall z | Linked(g.edges, x, z) ensures z == y {
      var i :| 0 <= i < |g.edges| && g.edges[i].from == x && g.edges[i].to == z;
      var j :| 0 <= j < |g.edges| && g.edges[j].from == x && g.edges[j].to == y;
      assert i == j;
    }
  }

  lemma ParentDrawn(owner: Id, group: Group, devices: seq<Device>, readings: Readings, opts: Options, d: Device)
    requires Proper(devices) && opts.FreshIds() && owner != "" && d in devices
    ensures HangsUnder(GraphOf(owner, group, devices, readings, opts), d.id, ParentFor(d, devices, readings, opts))
  {
    hide GraphOf, ParentFor, Valid, Draws;
    BuildDraws(owner, group, devices, readings, opts);
    var i :| 0 <= i < |devices| && devices[i] == d;
    var parent := ParentFor(d, devices, readings, opts);
    assert Wanted(devices, readings, opts, d.id, parent) by { assert devices[i].id == d.id; }
    OneParentOnly(GraphOf(owner, group, devices, readings, opts), devices, readings, opts, d.id, parent);
  }

  /**
   * Where a device without a usable reading hangs: under the collector if it reads no carrier at all and
   * the collector has a name, and under the root otherwise.
   */
  lemma UnreadHangAside(owner: Id, group: Group, devices: seq<Device>, readings: Readings, opts: Options, d: Device)
    requires Proper(devices) && opts.FreshIds() && owner != "" && d in devices && ReadsNothing(d, readings)
    ensures var g := GraphOf(owner, group, devices, readings, opts);
            HangsUnder(g, d.id, if d.columns == [] && opts.noFlowName != "" then NO_FLOW else ROOT)
  {
    hide GraphOf, ReadsNothing;
    NoPrimaryReadsNothing(d, readings);
    ParentDrawn(owner, group, devices, readings, opts, d);
  }

  lemma NodesOfGraph(owner: Id, group: Group, devices: seq<Device>, readings: Readings, opts: Options)
    requires Proper(devices) && opts.FreshIds()
    ensures var nodes := GraphOf(owner, group, devices, readings, opts).nodes;
            && RootNode(group) in nodes
            && (NeedsCollector(devices, opts) ==> CollectorNode(opts) in nodes)
            && forall d :: d in devices ==> DeviceNode(d) in nodes
  {
    hide NeedsCollector, Sort, EdgesFor, Pairs;
    var ds, nodes := Sort(DeviceBefore, devices), GraphOf(owner, group, devices, readings, opts).nodes;
    DevicesSort(devices);
    CollectorOfTheSet(ds, devices, opts);
    assert nodes == Nodes(group, ds, opts);
    assert nodes[0] == RootNode(group);
    if NeedsCollector(ds, opts) {
      assert nodes[|ds| + 1] == CollectorNode(opts);
    }
    forall d | d in devices ensures DeviceNode(d) in nodes {
      var i :| 0 <= i < |ds| && ds[i] == d;
      assert nodes[i + 1] == DeviceNode(d);
    }
  }

  /**
   * The collector is drawn exactly if it has a name and some device reads no carrier; then it hangs under
   * the root, carries that name, and is marked for translation.
   */
  lemma CollectorWhenNeeded(owner: Id, group: Group, devices: seq<Device>, readings: Readings, opts: Options)
    requires Proper(devices) && opts.FreshIds() && owner != ""
    ensures var g := GraphOf(owner, group, devices, readings, opts);
            && (HasNode(g.nodes, NO_FLOW) <==> opts.noFlowName != "" && exists d :: d in devices && d.columns == [])
            && (HasNode(g.nodes, NO_FLOW) ==>
                  && HangsUnder(g, NO_FLOW, ROOT)
                  && exists n :: n in g.nodes && n.id == NO_FLOW && n.resourceType == CustomResource
                       && AttributeOf(n.attributes, NODE_ATTR_NAME) == opts.noFlowName
                       && AttributeOf(n.attributes, NO_FLOW_TRANSLATION_KEY) == "noEnergyFlow")
  {
    var g := GraphOf(owner, group, devices, readings, opts);
    BuildDraws(owner, group, devices, readings, opts);
    NodesOfGraph(owner, group, devices, readings, opts);
    hide GraphOf, Valid, AttributeOf, DrawsEdges;
    Generator.CollectorFor(devices, opts);
    NoFlowBelongs(devices, opts);
    if HasNode(g.nodes, NO_FLOW) {
      assert Belongs(devices, opts, NO_FLOW);
      assert Wanted(devices, readings, opts, NO_FLOW, ROOT);
      OneParentOnly(g, devices, readings, opts, NO_FLOW, ROOT);
      CollectorNamed(opts);
    }
  }

  lemma NoFlowBelongs(devices: seq<Device>, opts: Options)
    requires Proper(devices)
    ensures Belongs(devices, opts, NO_FLOW) <==> NeedsCollector(devices, opts)
  {
    hide NeedsCollector;
  }

  lemma CollectorNamed(opts: Options)
    ensures var n := CollectorNode(opts);
            && AttributeOf(n.attributes, NODE_ATTR_NAME) == opts.noFlowName
            && AttributeOf(n.attributes, NO_FLOW_TRANSLATION_KEY) == "noEnergyFlow"
  {
    var a := CollectorNode(opts).attributes;
    assert a[1..][0] == a[1] && a[0].key != a[1].key;
  }

  // ---- devices with a reading ----

  /** The meters of one carrier: the devices placed by it, larger readings first, then lower ids. */
  ghost predicate MetersOf(ms: seq<Meter>, devices: seq<Device>, c: Carrier, readings: Readings) {
    && (forall i, j :: 0 <= i < j < |ms| ==>
          ms[i].value > ms[j].value || (ms[i].value == ms[j].value && Before(ms[i].id, ms[j].id)))
    && (forall m :: m in ms <==>
       exists d :: d in devices && PlacedBy(d, readings, c, m.value) && m == Meter(d.id, d.name, m.value))
  }

  /** The tolerance the placement works with: the configured one, within the range of a fraction. */
  ghost predicate Clamped(configured: real, t: real) {
    if configured < 0.0 then t == 0.0 else if configured > 1.0 then t == 1.0 else t == configured
  }

  lemma OrderIsMeters(devices: seq<Device>, c: Carrier, readings: Readings)
    requires Proper(devices)
    ensures MetersOf(Order(devices, c, readings), devices, c, readings) && Weighable(Order(devices, c, readings))
  {
    hide PrimaryOf, PlacedBy, Order;
    var ms := Order(devices, c, readings);
    OrderWeighable(devices, c, readings);
    MeteredMembers(devices, c, readings);
    forall d, v ensures PrimaryOf(d, readings) == Some((c, v)) <==> PlacedBy(d, readings, c, v) {
      PrimaryIsPlacedBy(d, readings, c, v);
    }
    forall m ensures m in ms <==>
      exists d :: d in devices && PlacedBy(d, readings, c, m.value) && m == Meter(d.id, d.name, m.value) {
      if m in ms {
        var i :| 0 <= i < |devices| && PrimaryOf(devices[i], readings) == Some((c, m.value)) &&
          m == MeterOf(devices[i], m.value);
        assert devices[i] in devices;
      }
      if d :| d in devices && PlacedBy(d, readings, c, m.value) && m == Meter(d.id, d.name, m.value) {
        assert MeterOf(d, PrimaryOf(d, readings).value.1) == m;
      }
    }
  }

  /**
   * Where the devices of one carrier hang: there is one placing of its meters that follows the rule with
   * the clamped tolerance, and in the graph each of them hangs under the meter it is placed under there,
   * or under the root.
   */
  lemma MetersHangByCapacity(owner: Id, group: Group, devices: seq<Device>, readings: Readings, opts: Options,
      c: Carrier)
    returns (ms: seq<Meter>, ps: seq<int>, t: real)
    requires Proper(devices) && opts.FreshIds() && owner != ""
    ensures MetersOf(ms, devices, c, readings) && Weighable(ms) && Clamped(opts.configured, t) && Greedy(ms, ps, t)
    ensures forall n :: 0 <= n < |ms| ==>
              HangsUnder(GraphOf(owner, group, devices, readings, opts), ms[n].id,
                         if ps[n] < 0 then ROOT else ms[ps[n]].id)
  {
    hide GraphOf, Order, MetersOf, PrimaryOf, HangsUnder, PlaceAll, IsChoice;
    ms, t := Order(devices, c, readings), opts.Tolerance();
    ps := PlaceAll(ms, t);
    OrderIsMeters(devices, c, readings);
    PlaceAllIsGreedy(ms, t);
    forall n | 0 <= n < |ms|
      ensures HangsUnder(GraphOf(owner, group, devices, readings, opts), ms[n].id,
                         if ps[n] < 0 then ROOT else ms[ps[n]].id)
    {
      var d := MeterDevice(devices, c, n, readings, opts);
      ParentDrawn(owner, group, devices, readings, opts, d);
    }
  }

  /**
   * The nodes are the root, the collector and one node for each device; the graph says whose it is and what
   * made it.
   */
  lemma BuiltFor(owner: Id, group: Group, devices: seq<Device>, readings: Readings, opts: Options)
    requires Proper(devices) && opts.FreshIds() && owner != ""
    ensures var g := GraphOf(owner, group, devices, readings, opts);
            && g.owner == owner
            && AttributeOf(g.attributes, ATTR_GROUP_ID) == group.id &&
               AttributeOf(g.attributes, ATTR_GROUP_PATH) == group.path
            && AttributeOf(g.attributes, ATTR_NAME) == group.name && AttributeOf(g.attributes, SYSTEM_CHANGED) == "true"
            && Node(ROOT, CustomResource, "", [Attribute(NODE_ATTR_NAME, group.name, ATTR_ORIGIN)]) in g.nodes
            && (forall d :: d in devices ==> Node(d.id, DeviceResource, d.id, []) in g.nodes)
            && (forall n :: n in g.nodes ==> n.id in [ROOT, NO_FLOW] || exists d :: d in devices && d.id == n.id)
            && (forall e :: e in g.edges ==> e.weight == FULL_WEIGHT && e.attributes == [])
  {
    var g := GraphOf(owner, group, devices, readings, opts);
    BuildDraws(owner, group, devices, readings, opts);
    NodesOfGraph(owner, group, devices, readings, opts);
    ProvenanceReads(group);
    EdgesAreFull(owner, group, devices, readings, opts);
    NodesAccounted(g.nodes, devices, opts);
    assert g.attributes == Provenance(group);
    assert RootNode(group) == Node(ROOT, CustomResource, "", [Attribute(NODE_ATTR_NAME, group.name, ATTR_ORIGIN)]);
    assert forall d: Device :: DeviceNode(d) == Node(d.id, DeviceResource, d.id, []);
    hide *;
  }

  lemma NodesAccounted(nodes: seq<Node>, devices: seq<Device>, opts: Options)
    requires DrawsNodes(nodes, devices, opts)
    ensures forall n :: n in nodes ==> n.id in [ROOT, NO_FLOW] || exists d :: d in devices && d.id == n.id
  {
    forall n | n in nodes ensures n.id in [ROOT, NO_FLOW] || exists d :: d in devices && d.id == n.id {
      var i :| 0 <= i < |nodes| && nodes[i] == n;
      assert Belongs(devices, opts, nodes[i].id);
      if IsDeviceId(devices, n.id) {
        var k :| 0 <= k < |devices| && devices[k].id == n.id;
        assert devices[k] in devices;
      }
    }
  }

  lemma ProvenanceReads(group: Group)
    ensures var a := Provenance(group);
            && AttributeOf(a, ATTR_GROUP_ID) == group.id && AttributeOf(a, ATTR_GROUP_PATH) == group.path
            && AttributeOf(a, ATTR_NAME) == group.name && AttributeOf(a, SYSTEM_CHANGED) == "true"
  {
    var a := Provenance(group);
    assert a[1..][0] == a[1] && a[1..][1..] == a[2..] && a[2..][0] == a[2] && a[2..][1..] == a[3..] &&
           a[3..][0] == a[3];
    assert AttributeOf(a, ATTR_GROUP_PATH) == AttributeOf(a[1..], ATTR_GROUP_PATH);
    assert AttributeOf(a, ATTR_NAME) == AttributeOf(a[1..], ATTR_NAME) == AttributeOf(a[2..], ATTR_NAME);
    assert AttributeOf(a, SYSTEM_CHANGED) == AttributeOf(a[1..], SYSTEM_CHANGED) == AttributeOf(a[2..], SYSTEM_CHANGED)
        == AttributeOf(a[3..], SYSTEM_CHANGED);
  }

  lemma {:induction false} PairsAreFull(pairs: seq<(Id, Id)>, opts: Options)
    requires opts.FreshIds()
    ensures forall e :: e in EdgesFor(pairs, opts).0 ==> e.weight == FULL_WEIGHT && e.attributes == []
  {
    if pairs != [] { PairsAreFull(pairs[..|pairs| - 1], opts); }
  }

  lemma EdgesAreFull(owner: Id, group: Group, devices: seq<Device>, readings: Readings, opts: Options)
    requires opts.FreshIds()
    ensures forall e :: e in GraphOf(owner, group, devices, readings, opts).edges ==>
            e.weight == FULL_WEIGHT && e.attributes == []
  {
    hide Pairs, EdgesFor, Nodes;
    var edges := EdgesFor(Pairs(Sort(DeviceBefore, devices), readings, opts), opts).0;
    PairsAreFull(Pairs(Sort(DeviceBefore, devices), readings, opts), opts);
    SameElements(Sort(EdgeBefore, edges), edges);
  }

  // ---- the placements that go with the graph ----

  lemma {:induction false} UnreadReport(ds: seq<Device>, readings: Readings, opts: Options, r: Placed)
    returns (d: Device)
    requires r in UnreadReports(ds, readings, opts)
    ensures d in ds && PrimaryOf(d, readings).None? && r == Placed(d.id, 0.0, HomeOf(d, opts), AtRootNoReading, [])
  {
    hide PrimaryOf, HomeOf;
    var n := |ds| - 1;
    if r in UnreadReports(ds[..n], readings, opts) {
      d := UnreadReport(ds[..n], readings, opts, r);
    } else {
      d := ds[n];
    }
  }

  /**
   * What is said of a device without a usable reading, or of a meter: its figure, the node it hangs under in
   * the graph, and why - no reading, the largest of its carrier, or by what was left of the others.
   */
  ghost predicate Tells(r: Placed, d: Device, g: Graph, readings: Readings) {
    && r.deviceId == d.id && HangsUnder(g, d.id, r.parentId)
    && (ReadsNothing(d, readings) ==> r.value == 0.0 && r.reason == AtRootNoReading && r.candidates == [])
    && forall c, v :: PlacedBy(d, readings, c, v) ==>
         r.value == v && r.reason == if r.parentId == ROOT then AtRootLargest else ByCapacity
  }

  /** For a meter: the candidates were the larger meters, in their order, with what each had left and the one chosen. */
  ghost predicate Weighs(r: Placed, ms: seq<Meter>, ps: seq<int>, t: real, n: nat)
    requires n < |ms| == |ps|
  {
    && r.deviceId == ms[n].id && |r.candidates| == n
    && forall j :: 0 <= j < n ==>
         r.candidates[j] == Candidate(ms[j].id, Remaining(ms, ps, j, n), Takes(ms, ps, j, n, t), ps[n] == j)
  }

  /** Every placement the generator returns tells what the graph shows. */
  lemma ReportsTell(owner: Id, group: Group, devices: seq<Device>, readings: Readings, opts: Options, r: Placed)
    returns (d: Device)
    requires Proper(devices) && opts.FreshIds() && owner != "" && r in ReportsOf(devices, readings, opts)
    ensures d in devices && Tells(r, d, GraphOf(owner, group, devices, readings, opts), readings)
  {
    hide GraphOf, PrimaryOf, Order, PlaceAll, UnreadReports, CarrierReports, PlacedBy, ReadsNothing, HangsUnder, HomeOf,
      Report;
    var ds := Sort(DeviceBefore, devices);
    DevicesSort(devices);
    var unsorted := UnreadReports(ds, readings, opts) + CarrierReports(ds, |CARRIERS|, readings, opts);
    SameElements(Sort(LargerFirst, unsorted), unsorted);
    if r in UnreadReports(ds, readings, opts) {
      d := UnreadReport(ds, readings, opts, r);
    } else {
      var c, n := Generator.CarrierReport(ds, |CARRIERS|, readings, opts, r);
      OrderOfTheSet(ds, devices, c, readings);
      d := MeterDevice(devices, c, n, readings, opts);
      MeterTold(devices, c, n, readings, opts, d);
    }
    ParentDrawn(owner, group, devices, readings, opts, d);
    NoPrimaryReadsNothing(d, readings);
    forall c, v ensures PrimaryOf(d, readings) == Some((c, v)) <==> PlacedBy(d, readings, c, v) {
      PrimaryIsPlacedBy(d, readings, c, v);
    }
  }

  lemma MeterTold(devices: seq<Device>, c: Carrier, n: nat, readings: Readings, opts: Options, d: Device)
    requires Proper(devices) && n < |Order(devices, c, readings)| && d in devices
    requires var ms := Order(devices, c, readings);
             PrimaryOf(d, readings) == Some((c, ms[n].value)) && ms[n] == MeterOf(d, ms[n].value)
             && ParentFor(d, devices, readings, opts) == ParentId(ms, PlaceAll(ms, opts.Tolerance())[n])
    ensures var ms, t := Order(devices, c, readings), opts.Tolerance();
            var r := Report(ms, PlaceAll(ms, t), n, t);
            && r.deviceId == d.id && r.value == ms[n].value && r.parentId == ParentFor(d, devices, readings, opts)
            && r.reason == if r.parentId == ROOT then AtRootLargest else ByCapacity
  {
    hide Order, PlaceAll, PrimaryOf, ParentFor, Greedy;
    var ms, t := Order(devices, c, readings), opts.Tolerance();
    var ps := PlaceAll(ms, t);
    OrderWeighable(devices, c, readings);
    PlaceAllIsGreedy(ms, t);
    OnlyLargestAtRoot(ms, ps, t);
    if ps[n] >= 0 {
      var other := MeterDevice(devices, c, ps[n], readings, opts);
      assert ms[ps[n]].id == other.id != ROOT;
    }
  }

  /** The candidates of a meter's placement, by the one placing of its carrier's meters that follows the rule. */
  lemma MetersAreWeighed(devices: seq<Device>, readings: Readings, opts: Options, r: Placed)
    returns (c: Carrier, ms: seq<Meter>, ps: seq<int>, t: real, n: nat)
    requires Proper(devices) && r in ReportsOf(devices, readings, opts) && r.reason != AtRootNoReading
    ensures MetersOf(ms, devices, c, readings) && Clamped(opts.configured, t) && Greedy(ms, ps, t)
    ensures n < |ms| && Weighs(r, ms, ps, t, n)
  {
    hide PrimaryOf, Order, PlaceAll, UnreadReports, CarrierReports, HomeOf, MetersOf, IsChoice;
    var ds := Sort(DeviceBefore, devices);
    DevicesSort(devices);
    var unsorted := UnreadReports(ds, readings, opts) + CarrierReports(ds, |CARRIERS|, readings, opts);
    SameElements(Sort(LargerFirst, unsorted), unsorted);
    if r in UnreadReports(ds, readings, opts) {
      var d := UnreadReport(ds, readings, opts, r);
    }
    c, n := Generator.CarrierReport(ds, |CARRIERS|, readings, opts, r);
    OrderOfTheSet(ds, devices, c, readings);
    ms, t := Order(devices, c, readings), opts.Tolerance();
    ps := PlaceAll(ms, t);
    OrderIsMeters(devices, c, readings);
    PlaceAllIsGreedy(ms, t);
  }

  // ---- edge ids ----

  function ShapeOf(e: Edge): Id { "edge-" + e.from + "-" + e.to }

  ghost predicate ShapesDiffer(edges: seq<Edge>) {
    forall i, j :: 0 <= i < j < |edges| ==> ShapeOf(edges[i]) != ShapeOf(edges[j])
  }

  ghost predicate ShapesStand(edges: seq<Edge>) { forall i :: 0 <= i < |edges| ==> edges[i].id == ShapeOf(edges[i]) }

  lemma ShapesGrow(before: seq<Edge>, last: Edge)
    requires ShapesDiffer(before + [last])
    ensures ShapesDiffer(before)
    ensures ShapesStand(before) ==> ShapeOf(last) !in EdgeIds(before)
    ensures ShapesStand(before) && last.id == ShapeOf(last) ==> ShapesStand(before + [last])
  {
    hide ShapeOf;
    var edges := before + [last];
    assert edges[|before|] == last;
    forall i | 0 <= i < |before| ensures ShapeOf(before[i]) != ShapeOf(last) {
      assert edges[i] == before[i] && ShapeOf(edges[i]) != ShapeOf(edges[|before|]);
    }
    forall i, j | 0 <= i < j < |before| ensures ShapeOf(before[i]) != ShapeOf(before[j]) {
      assert edges[i] == before[i] && edges[j] == before[j];
    }
  }

  lemma {:induction false} ShapesKept(pairs: seq<(Id, Id)>, opts: Options)
    requires opts.FreshIds() && ShapesDiffer(EdgesFor(pairs, opts).0)
    ensures ShapesStand(EdgesFor(pairs, opts).0)
  {
    hide ShapesDiffer, UniqueId;
    if pairs != [] {
      var n := |pairs| - 1;
      var (before, next) := EdgesFor(pairs[..n], opts);
      var id := UniqueId(EdgeIds(before), EdgeId(pairs[n].0, pairs[n].1), opts, next).0;
      var last := NewEdge(id, pairs[n].0, pairs[n].1);
      assert EdgesFor(pairs, opts).0 == before + [last];
      hide EdgesFor, ShapesStand;
      ShapesGrow(before, last);
      ShapesKept(pairs[..n], opts);
      assert ShapeOf(last) == EdgeId(pairs[n].0, pairs[n].1);
    }
  }

  /** If no two edges of the graph have one shape of id, every edge's id is its shape: no invented id is used. */
  lemma EdgeIdsHaveTheirShape(owner: Id, group: Group, devices: seq<Device>, readings: Readings, opts: Options)
    requires opts.FreshIds()
    requires var edges := GraphOf(owner, group, devices, readings, opts).edges;
             forall e, f :: e in edges && f in edges && ShapeOf(e) == ShapeOf(f) ==> e == f
    ensures forall e :: e in GraphOf(owner, group, devices, readings, opts).edges ==> e.id == ShapeOf(e)
  {
    hide Pairs, EdgesFor, Nodes, ShapeOf;
    var pairs := Pairs(Sort(DeviceBefore, devices), readings, opts);
    var drawn, edges := EdgesFor(pairs, opts).0, GraphOf(owner, group, devices, readings, opts).edges;
    SameElements(Sort(EdgeBefore, drawn), drawn);
    forall i, j | 0 <= i < j < |drawn| ensures ShapeOf(drawn[i]) != ShapeOf(drawn[j]) {
      assert drawn[i] in edges && drawn[j] in edges && drawn[i].id != drawn[j].id;
    }
    ShapesKept(pairs, opts);
    forall e | e in edges ensures e.id == ShapeOf(e) {
      var i :| 0 <= i < |drawn| && drawn[i] == e;
    }
  }
}
