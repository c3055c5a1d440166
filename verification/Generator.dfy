/** The generator's loops, against the graph they promise. */
module Generator {
  import opened Sorting
  import opened Model
  import opened Placement
  import opened Tree
  import opened Drawing

  // ---- the parent table ----

  function UnreadTable(ds: seq<Device>, readings: Readings, opts: Options): map<Id, Id> {
    if ds == [] then map[]
    else
      var d := ds[|ds| - 1];
      var table := UnreadTable(ds[..|ds| - 1], readings, opts);
      if PrimaryOf(d, readings).None? then table[d.id := HomeOf(d, opts)] else table
  }

  lemma {:induction false} RecordAppend(a: seq<Placed>, b: seq<Placed>, table: map<Id, Id>)
    ensures Record(a + b, table) == Record(b, Record(a, table))
  {
    if b == [] {
      assert a + b == a;
    } else {
      var n := |b| - 1;
      assert (a + b)[..|a + b| - 1] == a + b[..n];
      RecordAppend(a, b[..n], table);
    }
  }

  lemma {:induction false} RecordLookup(reports: seq<Placed>, table: map<Id, Id>, id: Id, parent: Id)
    requires forall i :: 0 <= i < |reports| && reports[i].deviceId == id ==> reports[i].parentId == parent
    requires (exists i :: 0 <= i < |reports| && reports[i].deviceId == id) || (id in table && table[id] == parent)
    ensures id in Record(reports, table) && Record(reports, table)[id] == parent
  {
    if reports != [] {
      var n := |reports| - 1;
      if reports[n].deviceId != id {
        if i :| 0 <= i < |reports| && reports[i].deviceId == id {
          assert reports[..n][i].deviceId == id;
        }
        RecordLookup(reports[..n], table, id, parent);
      }
    }
  }

  lemma {:induction false} UnreadLookup(ds: seq<Device>, readings: Readings, opts: Options, i: nat)
    requires Proper(ds) && i < |ds| && PrimaryOf(ds[i], readings).None?
    ensures ds[i].id in UnreadTable(ds, readings, opts) &&
            UnreadTable(ds, readings, opts)[ds[i].id] == HomeOf(ds[i], opts)
  {
    var n := |ds| - 1;
    if i < n {
      UnreadLookup(ds[..n], readings, opts, i);
    }
  }

  lemma {:induction false} CarrierReport(ds: seq<Device>, k: nat, readings: Readings, opts: Options, r: Placed)
    returns (c: Carrier, n: nat)
    requires k <= |CARRIERS| && r in CarrierReports(ds, k, readings, opts)
    ensures c in CARRIERS[..k] && n < |Order(ds, c, readings)|
    ensures var ms := Order(ds, c, readings);
            r == Report(ms, PlaceAll(ms, opts.Tolerance()), n, opts.Tolerance())
  {
    hide Order, PlaceAll, Report, Reports;
    c := CARRIERS[k - 1];
    var ms := Order(ds, c, readings);
    var last := Reports(ms, PlaceAll(ms, opts.Tolerance()), opts.Tolerance());
    if r in last {
      n :| 0 <= n < |last| && last[n] == r;
    } else {
      c, n := CarrierReport(ds, k - 1, readings, opts, r);
      assert c in CARRIERS[..k - 1] && CARRIERS[..k - 1] <= CARRIERS[..k];
    }
  }

  lemma {:induction false} ReportOfMeter(ds: seq<Device>, k: nat, c: Carrier, n: nat, readings: Readings, opts: Options)
    requires k <= |CARRIERS| && c in CARRIERS[..k] && n < |Order(ds, c, readings)|
    ensures var ms := Order(ds, c, readings);
            Report(ms, PlaceAll(ms, opts.Tolerance()), n, opts.Tolerance()) in CarrierReports(ds, k, readings, opts)
  {
    hide Order, PlaceAll, Report, Reports;
    var ms := Order(ds, c, readings);
    var reports := Reports(ms, PlaceAll(ms, opts.Tolerance()), opts.Tolerance());
    if c == CARRIERS[k - 1] {
      assert reports[n] in reports;
    } else {
      assert c in CARRIERS[..k - 1];
      ReportOfMeter(ds, k - 1, c, n, readings, opts);
    }
  }

  /** The table the loops fill sends every device to the parent the tree gives it. */
  lemma TableIsTheTree(ds: seq<Device>, readings: Readings, opts: Options, i: nat)
    requires Proper(ds) && i < |ds|
    ensures var table := Record(CarrierReports(ds, |CARRIERS|, readings, opts), UnreadTable(ds, readings, opts));
            ds[i].id in table && table[ds[i].id] == ParentFor(ds[i], ds, readings, opts)
  {
    hide PlaceUpTo, Metered, Sort, LargestReading, Best;
    var d, reports := ds[i], CarrierReports(ds, |CARRIERS|, readings, opts);
    forall j | 0 <= j < |reports| && reports[j].deviceId == d.id
      ensures reports[j].parentId == ParentFor(d, ds, readings, opts)
      ensures PrimaryOf(d, readings).Some?
    {
      var c, n := CarrierReport(ds, |CARRIERS|, readings, opts, reports[j]);
      var e := MeterDevice(ds, c, n, readings, opts);
      assert e.id == d.id;
      assert e == d;
    }
    if PrimaryOf(d, readings).None? {
      UnreadLookup(ds, readings, opts, i);
    } else {
      var c, p := MeterPlace(d, ds, readings, opts);
      EveryCarrier();
      assert CARRIERS[..|CARRIERS|] == CARRIERS;
      ReportOfMeter(ds, |CARRIERS|, c, p, readings, opts);
    }
    RecordLookup(reports, UnreadTable(ds, readings, opts), d.id, ParentFor(d, ds, readings, opts));
  }

  // ---- the placements that go with the graph ----

  /** The placement says of a device what the tree does, and why. */
  ghost predicate Tells(r: Placed, d: Device, ds: seq<Device>, readings: Readings, opts: Options) {
    && r.deviceId == d.id && r.parentId == ParentFor(d, ds, readings, opts)
    && r.reason != AtRootNothingFits
    && (r.reason == AtRootNoReading <==> PrimaryOf(d, readings).None?)
    && r.value == if PrimaryOf(d, readings).Some? then PrimaryOf(d, readings).value.1 else 0.0
  }

  lemma {:induction false} UnreadReportTells(all: seq<Device>, ds: seq<Device>, readings: Readings, opts: Options,
      r: Placed)
    requires r in UnreadReports(ds, readings, opts) && forall x :: x in ds ==> x in all
    ensures exists d :: d in ds && Tells(r, d, all, readings, opts)
  {
    hide PrimaryOf;
    var n := |ds| - 1;
    if r in UnreadReports(ds[..n], readings, opts) {
      UnreadReportTells(all, ds[..n], readings, opts, r);
    } else {
      assert Tells(r, ds[n], all, readings, opts);
    }
  }

  lemma CarrierReportTells(ds: seq<Device>, readings: Readings, opts: Options, r: Placed)
    requires Proper(ds) && r in CarrierReports(ds, |CARRIERS|, readings, opts)
    ensures exists d :: d in ds && Tells(r, d, ds, readings, opts)
  {
    hide Order, PlaceAll, LargestReading, Weighed, Greedy;
    var c, n := CarrierReport(ds, |CARRIERS|, readings, opts, r);
    var d := MeterDevice(ds, c, n, readings, opts);
    var ms, tol := Order(ds, c, readings), opts.Tolerance();
    OrderWeighable(ds, c, readings);
    PlaceAllIsGreedy(ms, tol);
    OnlyLargestAtRoot(ms, PlaceAll(ms, tol), tol);
    assert Tells(r, d, ds, readings, opts);
  }

  lemma {:induction false} UnreadReported(ds: seq<Device>, readings: Readings, opts: Options, d: Device)
    requires d in ds && PrimaryOf(d, readings).None?
    ensures Placed(d.id, 0.0, HomeOf(d, opts), AtRootNoReading, []) in UnreadReports(ds, readings, opts)
  {
    var n := |ds| - 1;
    if d != ds[n] { UnreadReported(ds[..n], readings, opts, d); }
  }

  /** How many meters the first k carriers have. */
  function MetersUpTo(ds: seq<Device>, k: nat, readings: Readings): nat
    requires k <= |CARRIERS|
  {
    if k == 0 then 0 else MetersUpTo(ds, k - 1, readings) + |Metered(ds, CARRIERS[k - 1], readings)|
  }

  lemma {:induction false} ReportsPerMeter(ds: seq<Device>, k: nat, readings: Readings, opts: Options)
    requires k <= |CARRIERS|
    ensures |CarrierReports(ds, k, readings, opts)| == MetersUpTo(ds, k, readings)
  {
    hide PlaceAll, Metered;
    if k > 0 { ReportsPerMeter(ds, k - 1, readings, opts); }
  }

  lemma {:induction false} OneMoreMeter(ds: seq<Device>, k: nat, readings: Readings)
    requires ds != [] && k <= |CARRIERS|
    ensures var d := ds[|ds| - 1];
            MetersUpTo(ds, k, readings) == MetersUpTo(ds[..|ds| - 1], k, readings)
              + if PrimaryOf(d, readings).Some? && PrimaryOf(d, readings).value.0 in CARRIERS[..k] then 1 else 0
  {
    hide PrimaryOf;
    if k > 0 {
      OneMoreMeter(ds, k - 1, readings);
      assert CARRIERS[..k] == CARRIERS[..k - 1] + [CARRIERS[k - 1]];
      CarriersDiffer(k - 1);
    }
  }

  lemma CarriersDiffer(k: nat)
    requires k < |CARRIERS|
    ensures CARRIERS[k] !in CARRIERS[..k]
  {
    assert CARRIERS[0] == Electricity && CARRIERS[1] == Gas && CARRIERS[2] == Oil && CARRIERS[3] == Heat &&
           CARRIERS[4] == Water;
  }

  lemma {:induction false} AsManyReports(ds: seq<Device>, readings: Readings, opts: Options)
    ensures |UnreadReports(ds, readings, opts)| + MetersUpTo(ds, |CARRIERS|, readings) == |ds|
  {
    hide PrimaryOf;
    if ds == [] {
      NoMeters(readings);
    } else {
      AsManyReports(ds[..|ds| - 1], readings, opts);
      OneMoreMeter(ds, |CARRIERS|, readings);
      EveryCarrier();
      assert CARRIERS[..|CARRIERS|] == CARRIERS;
    }
  }

  lemma NoMeters(readings: Readings)
    ensures MetersUpTo([], |CARRIERS|, readings) == 0
  {
    assert MetersUpTo([], 0, readings) == MetersUpTo([], 1, readings) == MetersUpTo([], 2, readings) == 0;
    assert MetersUpTo([], 3, readings) == MetersUpTo([], 4, readings) == 0;
  }

  lemma {:induction false} LargestFirst(s: seq<Placed>)
    ensures forall i, j :: 0 <= i < j < |s| ==> Sort(LargerFirst, s)[i].value >= Sort(LargerFirst, s)[j].value
  {
    if s != [] {
      LargestFirst(s[1..]);
      InsertLargestFirst(s[0], Sort(LargerFirst, s[1..]));
    }
  }

  lemma {:induction false} InsertLargestFirst(x: Placed, s: seq<Placed>)
    requires forall i, j :: 0 <= i < j < |s| ==> s[i].value >= s[j].value
    ensures forall i, j :: 0 <= i < j < |s| + 1 ==>
            Insert(LargerFirst, x, s)[i].value >= Insert(LargerFirst, x, s)[j].value
  {
    if s != [] && LargerFirst(s[0], x) {
      InsertLargestFirst(x, s[1..]);
      InsertMembers(LargerFirst, x, s[1..]);
      var r := Insert(LargerFirst, x, s[1..]);
      forall k | 0 <= k < |r| ensures s[0].value >= r[k].value {
        assert r[k] in r;
      }
    }
  }

  /**
   * The placements returned with the graph: one for every device, saying the parent the tree gives it,
   * largest reading first. "Nothing fits" is never the reason, "no reading" exactly for want of one.
   */
  lemma PlacementsTellTheTree(devices: seq<Device>, readings: Readings, opts: Options)
    requires Proper(devices)
    ensures var reports := ReportsOf(devices, readings, opts);
            && |reports| == |devices|
            && (forall r :: r in reports ==> exists d :: d in devices && Tells(r, d, devices, readings, opts))
            && (forall d :: d in devices ==> exists r :: r in reports && r.deviceId == d.id)
            && (forall i, j :: 0 <= i < j < |reports| ==> reports[i].value >= reports[j].value)
  {
    hide Tells, PrimaryOf, UnreadReports, CarrierReports, Sort, LargerFirst;
    var ds := Sort(DeviceBefore, devices);
    DevicesSort(devices);
    var unsorted := UnreadReports(ds, readings, opts) + CarrierReports(ds, |CARRIERS|, readings, opts);
    SameElements(Sort(LargerFirst, unsorted), unsorted);
    LargestFirst(unsorted);
    AsManyReports(ds, readings, opts);
    ReportsPerMeter(ds, |CARRIERS|, readings, opts);
    forall r | r in unsorted ensures exists d :: d in devices && Tells(r, d, devices, readings, opts) {
      if r in UnreadReports(ds, readings, opts) {
        UnreadReportTells(ds, ds, readings, opts, r);
      } else {
        CarrierReportTells(ds, readings, opts, r);
      }
      var d :| d in ds && Tells(r, d, ds, readings, opts);
      TellsTheSet(r, d, ds, devices, readings, opts);
    }
    forall d | d in devices ensures exists r :: r in unsorted && r.deviceId == d.id {
      Reported(ds, d, readings, opts);
    }
  }

  lemma TellsTheSet(r: Placed, d: Device, ds: seq<Device>, es: seq<Device>, readings: Readings, opts: Options)
    requires Tells(r, d, ds, readings, opts) && Proper(ds) && Proper(es) && SameDevices(ds, es)
    ensures Tells(r, d, es, readings, opts)
  {
    hide PrimaryOf;
    ParentOfTheSet(d, ds, es, readings, opts);
  }

  lemma Reported(ds: seq<Device>, d: Device, readings: Readings, opts: Options)
    requires Proper(ds) && d in ds
    ensures exists r ::
            r in UnreadReports(ds, readings, opts) + CarrierReports(ds, |CARRIERS|, readings, opts) &&
            r.deviceId == d.id
  {
    hide PrimaryOf, Order, PlaceAll, Weighed;
    if PrimaryOf(d, readings).None? {
      UnreadReported(ds, readings, opts, d);
      assert Placed(d.id, 0.0, HomeOf(d, opts), AtRootNoReading, []).deviceId == d.id;
    } else {
      var c, p := MeterPlace(d, ds, readings, opts);
      EveryCarrier();
      assert CARRIERS[..|CARRIERS|] == CARRIERS;
      ReportOfMeter(ds, |CARRIERS|, c, p, readings, opts);
      var ms := Order(ds, c, readings);
      assert Report(ms, PlaceAll(ms, opts.Tolerance()), p, opts.Tolerance()).deviceId == d.id;
    }
  }

  // ---- the loops ----

  function Filed(perCarrier: map<Carrier, seq<Meter>>, c: Carrier): seq<Meter> {
    if c in perCarrier then perCarrier[c] else []
  }

  /** What the first loop has collected once the devices `ds` are behind it. */
  ghost predicate Sifted(ds: seq<Device>, readings: Readings, opts: Options, perCarrier: map<Carrier, seq<Meter>>,
                         parentOf: map<Id, Id>, placements: seq<Placed>, noFlow: bool) {
    && (forall c :: Filed(perCarrier, c) == Metered(ds, c, readings))
    && parentOf == UnreadTable(ds, readings, opts)
    && placements == UnreadReports(ds, readings, opts)
    && noFlow == NeedsCollector(ds, opts)
  }

  lemma SiftStep(ds: seq<Device>, d: Device, readings: Readings, opts: Options)
    ensures var after, primary := ds + [d], PrimaryOf(d, readings);
            && (forall c :: Metered(after, c, readings) == Metered(ds, c, readings)
                            + if primary.Some? && primary.value.0 == c then [MeterOf(d, primary.value.1)] else [])
            && UnreadTable(after, readings, opts)
               == (if primary.None? then UnreadTable(ds, readings, opts)[d.id := HomeOf(d, opts)]
                 else UnreadTable(ds, readings, opts))
            && UnreadReports(after, readings, opts) == UnreadReports(ds, readings, opts)
               + (if primary.None? then [Placed(d.id, 0.0, HomeOf(d, opts), AtRootNoReading, [])] else [])
            && NeedsCollector(after, opts) == (NeedsCollector(ds, opts) || HomeOf(d, opts) == NO_FLOW)
  {
    hide PrimaryOf, HomeOf;
    var after := ds + [d];
    assert after[..|ds|] == ds && after[|ds|] == d;
    assert forall i :: 0 <= i < |ds| ==> after[i] == ds[i];
  }

  /**
   * In the table the device hangs under the collector if it reads no carrier and that has a name, else under
   * the root.
   */
  predicate HangsAside(parentOf: map<Id, Id>, d: Device, opts: Options) {
    d.id in parentOf && parentOf[d.id] == if d.columns == [] && opts.noFlowName != "" then NO_FLOW else ROOT
  }

  method Sift(sorted: seq<Device>, readings: Readings, opts: Options)
    returns (nodes: seq<Node>, perCarrier: map<Carrier, seq<Meter>>, parentOf: map<Id, Id>, placements: seq<Placed>,
      noFlow: bool)
    ensures nodes == seq(|sorted|, i requires 0 <= i < |sorted| => DeviceNode(sorted[i]))
    ensures Sifted(sorted, readings, opts, perCarrier, parentOf, placements, noFlow)
    ensures noFlow <==> opts.noFlowName != "" && exists d :: d in sorted && d.columns == []
    ensures Proper(sorted) ==>
              forall d :: d in sorted && PrimaryOf(d, readings).None? ==> HangsAside(parentOf, d, opts)
  {
    hide Metered, UnreadTable, UnreadReports, NeedsCollector, PrimaryOf;
    nodes, perCarrier, parentOf, placements, noFlow := [], map[], map[], [], false;
    NothingSifted(readings, opts);
    for i := 0 to |sorted|
      invariant nodes == seq(i, k requires 0 <= k < i => DeviceNode(sorted[k]))
      invariant Sifted(sorted[..i], readings, opts, perCarrier, parentOf, placements, noFlow)
    {
      var device := sorted[i];
      assert sorted[..i + 1] == sorted[..i] + [device];
      SiftStep(sorted[..i], device, readings, opts);
      nodes := nodes + [DeviceNode(device)];
      var primary := PrimaryOf(device, readings);
      if primary.None? {
        var parent := ROOT;
        if !device.HasEnergyFlow() && opts.noFlowName != "" {
          parent := NO_FLOW;
          noFlow := true;
        }
        parentOf := parentOf[device.id := parent];
        placements := placements + [Placed(device.id, 0.0, parent, AtRootNoReading, [])];
      } else {
        if !device.HasEnergyFlow() { NothingRead(device, readings); }
        var (carrier, value) := primary.value;
        perCarrier := perCarrier[carrier := Filed(perCarrier, carrier) + [MeterOf(device, value)]];
      }
    }
    assert sorted[..|sorted|] == sorted;
    CollectorFor(sorted, opts);
    if Proper(sorted) { TableHangsAside(sorted, readings, opts); }
  }

  lemma CollectorFor(ds: seq<Device>, opts: Options)
    ensures NeedsCollector(ds, opts) <==> opts.noFlowName != "" && exists d :: d in ds && d.columns == []
  {
    if NeedsCollector(ds, opts) {
      var i :| 0 <= i < |ds| && HomeOf(ds[i], opts) == NO_FLOW;
      assert ds[i] in ds;
    }
    if d :| d in ds && d.columns == [] && opts.noFlowName != "" {
      var i :| 0 <= i < |ds| && ds[i] == d;
      assert HomeOf(ds[i], opts) == NO_FLOW;
    }
  }

  lemma {:induction false} TableHangsAside(ds: seq<Device>, readings: Readings, opts: Options)
    requires Proper(ds)
    ensures forall d :: d in ds && PrimaryOf(d, readings).None? ==> HangsAside(UnreadTable(ds, readings, opts), d, opts)
  {
    hide PrimaryOf;
    if ds != [] {
      var n := |ds| - 1;
      TableHangsAside(ds[..n], readings, opts);
      forall d | d in ds && PrimaryOf(d, readings).None? ensures HangsAside(UnreadTable(ds, readings, opts), d, opts) {
        var i :| 0 <= i < |ds| && ds[i] == d;
        if i < n { assert d in ds[..n] && d.id != ds[n].id; }
      }
    }
  }

  lemma NothingSifted(readings: Readings, opts: Options)
    ensures Sifted([], readings, opts, map[], map[], [], false)
  {}

  lemma EdgesForStep(pairs: seq<(Id, Id)>, p: (Id, Id), opts: Options)
    requires opts.FreshIds()
    ensures var (edges, next) := EdgesFor(pairs, opts);
            var (id, next') := UniqueId(EdgeIds(edges), EdgeId(p.0, p.1), opts, next);
            EdgesFor(pairs + [p], opts) == (edges + [NewEdge(id, p.0, p.1)], next')
            && EdgeIds(edges + [NewEdge(id, p.0, p.1)]) == EdgeIds(edges) + {id}
  {
    hide UniqueId, EdgeId;
    assert (pairs + [p])[..|pairs|] == pairs;
    var (edges, next) := EdgesFor(pairs, opts);
    EdgeIdsAppend(edges, NewEdge(UniqueId(EdgeIds(edges), EdgeId(p.0, p.1), opts, next).0, p.0, p.1));
  }

  method DrawEdges(sorted: seq<Device>, parentOf: map<Id, Id>, noFlow: bool, readings: Readings, opts: Options)
    returns (edges: seq<Edge>)
    requires opts.FreshIds() && noFlow == NeedsCollector(sorted, opts)
    requires forall i :: 0 <= i < |sorted| ==>
                           (sorted[i].id in parentOf &&
                             parentOf[sorted[i].id] == ParentFor(sorted[i], sorted, readings, opts))
    ensures edges == EdgesFor(Pairs(sorted, readings, opts), opts).0
  {
    hide EdgesFor, EdgeIds, UniqueId, ParentFor, NeedsCollector, EdgeId;
    ghost var collector := if noFlow then [(NO_FLOW, ROOT)] else [];
    ghost var pairs := DevicePairs(sorted, readings, opts);
    var taken: set<Id>, next: nat := {}, 0;
    edges := [];
    NoEdgesYet(opts);
    if noFlow {
      EdgesForStep([], (NO_FLOW, ROOT), opts);
      assert [] + [(NO_FLOW, ROOT)] == collector;
      var id;
      id, next, taken := UniqueEdgeId(taken, NO_FLOW, ROOT, opts, next);
      edges := edges + [NewEdge(id, NO_FLOW, ROOT)];
    }
    assert collector + pairs[..0] == collector;
    for i := 0 to |sorted|
      invariant (edges, next) == EdgesFor(collector + pairs[..i], opts) && taken == EdgeIds(edges)
    {
      var device := sorted[i];
      EdgesForStep(collector + pairs[..i], pairs[i], opts);
      assert collector + pairs[..i] + [pairs[i]] == collector + pairs[..i + 1];
      var id;
      id, next, taken := UniqueEdgeId(taken, device.id, parentOf[device.id], opts, next);
      edges := edges + [NewEdge(id, device.id, parentOf[device.id])];
    }
    assert pairs[..|sorted|] == pairs;
  }

  lemma NoEdgesYet(opts: Options)
    requires opts.FreshIds()
    ensures EdgesFor([], opts) == ([], 0) && EdgeIds([]) == {}
  {}

  lemma EdgeIdsAppend(edges: seq<Edge>, e: Edge)
    ensures EdgeIds(edges + [e]) == EdgeIds(edges) + {e.id}
  {
    forall x | x in EdgeIds(edges) + {e.id} ensures x in EdgeIds(edges + [e]) {
      if x == e.id {
        assert (edges + [e])[|edges|].id == x;
      } else {
        var i :| 0 <= i < |edges| && edges[i].id == x;
        assert (edges + [e])[i].id == x;
      }
    }
  }

  method PlaceCarrier(competing: seq<Meter>, tolerance: real, table: map<Id, Id>)
    returns (reports: seq<Placed>, parentOf: map<Id, Id>)
    ensures var ms := Sort(MeterBefore, competing); reports == Reports(ms, PlaceAll(ms, tolerance), tolerance)
    ensures parentOf == Record(reports, table)
  {
    hide Sort, Reports, PlaceAll, Record;
    var meters := new Meter[|competing|](i requires 0 <= i < |competing| => competing[i]);
    assert meters[..] == competing;
    reports, parentOf := Place(meters, tolerance, table);
  }

  lemma NothingRecorded(table: map<Id, Id>)
    ensures Record([], table) == table
  {}

  /** One pass per carrier: a gas meter is never the sub-meter of an electricity meter. */
  method PlaceCarriers(ghost sorted: seq<Device>, perCarrier: map<Carrier, seq<Meter>>, table: map<Id, Id>,
      readings: Readings, opts: Options)
    returns (placements: seq<Placed>, parentOf: map<Id, Id>)
    requires forall c :: Filed(perCarrier, c) == Metered(sorted, c, readings)
    ensures placements == CarrierReports(sorted, |CARRIERS|, readings, opts)
    ensures parentOf == Record(placements, table)
  {
    hide Sort, Reports, PlaceAll, Metered, Record, Filed;
    placements, parentOf := [], table;
    NothingRecorded(table);
    for k := 0 to |CARRIERS|
      invariant placements == CarrierReports(sorted, k, readings, opts)
      invariant parentOf == Record(placements, table)
    {
      var reports;
      reports, parentOf := PlaceCarrier(Filed(perCarrier, CARRIERS[k]), opts.Tolerance(), parentOf);
      RecordAppend(placements, reports, table);
      placements := placements + reports;
    }
  }

  /**
   * Creates the initial graph of a group. The store's own validation is consulted last and never
   * objects, so the error exit is unreachable: `ok` is promised.
   */
  method Build(owner: Id, group: Group, devices: seq<Device>, readings: Readings, opts: Options, valid: Graph -> bool)
    returns (graph: Graph, placements: seq<Placed>, ok: bool)
    requires Proper(devices) && opts.FreshIds() && owner != ""
    requires forall g :: valid(g) <==> Valid(g)
    ensures ok && valid(graph)
    ensures graph == GraphOf(owner, group, devices, readings, opts)
    ensures placements == ReportsOf(devices, readings, opts)
  {
    hide Sort, Metered, NeedsCollector, UnreadTable, UnreadReports, CarrierReports, EdgesFor, Valid, Record, ParentFor,
      Draws;
    var sorted := Sort(DeviceBefore, devices);
    DevicesSort(devices);
    var deviceNodes, perCarrier, table, unread, noFlow := Sift(sorted, readings, opts);
    var metered, parentOf := PlaceCarriers(sorted, perCarrier, table, readings, opts);
    var nodes := [RootNode(group)] + deviceNodes;
    if noFlow {
      nodes := nodes + [CollectorNode(opts)];
    }
    assert nodes == Nodes(group, sorted, opts);
    forall i | 0 <= i < |sorted|
      ensures sorted[i].id in parentOf && parentOf[sorted[i].id] == ParentFor(sorted[i], sorted, readings, opts)
    {
      TableIsTheTree(sorted, readings, opts, i);
    }
    var edges := DrawEdges(sorted, parentOf, noFlow, readings, opts);
    graph := Graph("", owner, Provenance(group), nodes, Sort(EdgeBefore, edges));
    placements := Sort(LargerFirst, unread + metered);
    BuildDraws(owner, group, devices, readings, opts);
    ok := valid(graph);
  }
}
