/**
 * The tree a set of devices calls for: which meters take part in which carrier's pass, and where
 * each device hangs. Stated on the devices alone, so that the generator and the incremental form
 * have one thing to agree with.
 */
module Tree {
  import opened Sorting
  import opened Model
  import opened Placement

  datatype Options = Options(configured: real, noFlowName: string, newId: nat -> Id) {
    /** The configured tolerance, clamped into the range the test is defined on. */
    function Tolerance(): real {
      if configured < 0.0 then 0.0 else if configured > 1.0 then 1.0 else configured
    }

    ghost predicate FreshIds() {
      forall i: nat, j: nat :: i != j ==> newId(i) != newId(j)
    }
  }

  /** Ids that can stand for device nodes beside the two invented ones. */
  predicate Proper(ds: seq<Device>) {
    && (forall i, j :: 0 <= i < j < |ds| ==> ds[i].id != ds[j].id)
    && (forall i :: 0 <= i < |ds| ==> ds[i].id !in ["", ROOT, NO_FLOW])
  }

  predicate DeviceBefore(a: Device, b: Device) { Before(a.id, b.id) }

  function MeterOf(d: Device, value: real): Meter { Meter(d.id, d.name, value) }

  /** The devices that take part in the pass of one carrier, in the order given. */
  function Metered(ds: seq<Device>, c: Carrier, readings: Readings): seq<Meter> {
    if ds == [] then []
    else
      var d := ds[|ds| - 1];
      var primary := PrimaryOf(d, readings);
      Metered(ds[..|ds| - 1], c, readings)
      + if primary.Some? && primary.value.0 == c then [MeterOf(d, primary.value.1)] else []
  }

  function Order(ds: seq<Device>, c: Carrier, readings: Readings): seq<Meter> {
    Sort(MeterBefore, Metered(ds, c, readings))
  }

  function Position(ms: seq<Meter>, id: Id): (p: nat)
    ensures p <= |ms|
    ensures p < |ms| ==> ms[p].id == id
    ensures p == |ms| ==> forall i :: 0 <= i < |ms| ==> ms[i].id != id
  {
    if ms == [] then 0 else if ms[0].id == id then 0 else 1 + Position(ms[1..], id)
  }

  /** Where a device without a usable reading hangs. */
  function HomeOf(d: Device, opts: Options): Id {
    if !d.HasEnergyFlow() && opts.noFlowName != "" then NO_FLOW else ROOT
  }

  predicate NeedsCollector(ds: seq<Device>, opts: Options) {
    exists i :: 0 <= i < |ds| && HomeOf(ds[i], opts) == NO_FLOW
  }

  function ParentFor(d: Device, ds: seq<Device>, readings: Readings, opts: Options): Id {
    match PrimaryOf(d, readings)
    case None => HomeOf(d, opts)
    case Some((c, _)) =>
      var ms := Order(ds, c, readings);
      var p := Position(ms, d.id);
      if p == |ms| then ROOT else ParentId(ms, PlaceAll(ms, opts.Tolerance())[p])
  }

  // ---- the meters of one carrier ----

  lemma {:induction false} MeteredMembers(ds: seq<Device>, c: Carrier, readings: Readings)
    ensures forall d :: d in ds && PrimaryOf(d, readings).Some? && PrimaryOf(d, readings).value.0 == c ==>
                          MeterOf(d, PrimaryOf(d, readings).value.1) in Metered(ds, c, readings)
    ensures forall m :: m in Metered(ds, c, readings) ==>
                          exists i ::
                            0 <= i < |ds| && PrimaryOf(ds[i], readings) == Some((c, m.value)) &&
                            m == MeterOf(ds[i], m.value)
  {
    if ds != [] {
      var n := |ds| - 1;
      MeteredMembers(ds[..n], c, readings);
      forall m | m in Metered(ds, c, readings)
        ensures exists i ::
                0 <= i < |ds| && PrimaryOf(ds[i], readings) == Some((c, m.value)) && m == MeterOf(ds[i], m.value)
      {
        if m in Metered(ds[..n], c, readings) {
          var i :| 0 <= i < n && PrimaryOf(ds[..n][i], readings) == Some((c, m.value)) &&
            m == MeterOf(ds[..n][i], m.value);
          assert ds[i] == ds[..n][i];
        } else {
          assert PrimaryOf(ds[n], readings) == Some((c, m.value)) && m == MeterOf(ds[n], m.value);
        }
      }
      assert forall d :: d in ds ==> d == ds[n] || d in ds[..n];
    }
  }

  lemma {:induction false} MeteredDistinct(ds: seq<Device>, c: Carrier, readings: Readings)
    requires Proper(ds)
    ensures DistinctIds(Metered(ds, c, readings))
  {
    if ds != [] {
      var n := |ds| - 1;
      MeteredDistinct(ds[..n], c, readings);
      MeteredMembers(ds[..n], c, readings);
      var before := Metered(ds[..n], c, readings);
      forall k | 0 <= k < |before| ensures before[k].id != ds[n].id {
        assert before[k] in before;
      }
    }
  }

  /** The meters of one carrier satisfy what the allocator is entitled to. */
  lemma OrderWeighable(ds: seq<Device>, c: Carrier, readings: Readings)
    requires Proper(ds)
    ensures Weighable(Order(ds, c, readings))
    ensures forall m :: m in Order(ds, c, readings) <==> m in Metered(ds, c, readings)
  {
    var metered, ms := Metered(ds, c, readings), Order(ds, c, readings);
    MeteredDistinct(ds, c, readings);
    DistinctIdsDecide(metered);
    MeterBeforeIsStrictOrder();
    SortSorts(MeterBefore, metered);
    MeteredMembers(ds, c, readings);
    forall i, j | 0 <= i < j < |ms| ensures ms[i].id != ms[j].id {
      assert ms[i] in metered && ms[j] in metered && MeterBefore(ms[i], ms[j]);
    }
    forall i | 0 <= i < |ms| ensures ms[i].value > 0.0 {
      assert ms[i] in metered;
    }
  }

  ghost predicate SameDevices(ds: seq<Device>, es: seq<Device>) {
    forall d :: d in ds <==> d in es
  }

  lemma OrderOfTheSet(ds: seq<Device>, es: seq<Device>, c: Carrier, readings: Readings)
    requires Proper(ds) && Proper(es) && SameDevices(ds, es)
    ensures Order(ds, c, readings) == Order(es, c, readings)
  {
    hide Sort, Metered, MeterBefore, PrimaryOf;
    OrderWeighable(ds, c, readings);
    OrderWeighable(es, c, readings);
    MeteredMembers(ds, c, readings);
    MeteredMembers(es, c, readings);
    MeterBeforeIsStrictOrder();
    SortedUnique(MeterBefore, Order(ds, c, readings), Order(es, c, readings));
  }

  lemma CollectorOfTheSet(ds: seq<Device>, es: seq<Device>, opts: Options)
    requires SameDevices(ds, es)
    ensures NeedsCollector(ds, opts) == NeedsCollector(es, opts)
  {
    if NeedsCollector(ds, opts) {
      var i :| 0 <= i < |ds| && HomeOf(ds[i], opts) == NO_FLOW;
      assert ds[i] in es;
    }
    if NeedsCollector(es, opts) {
      var i :| 0 <= i < |es| && HomeOf(es[i], opts) == NO_FLOW;
      assert es[i] in ds;
    }
  }

  /** Where a device hangs is a function of the set of devices, not of the order they came in. */
  lemma ParentOfTheSet(d: Device, ds: seq<Device>, es: seq<Device>, readings: Readings, opts: Options)
    requires Proper(ds) && Proper(es) && SameDevices(ds, es)
    ensures ParentFor(d, ds, readings, opts) == ParentFor(d, es, readings, opts)
  {
    var primary := PrimaryOf(d, readings);
    if primary.Some? {
      OrderOfTheSet(ds, es, primary.value.0, readings);
    }
  }

  /** The position of a metered device in its carrier's order, and where that puts it. */
  lemma MeterPlace(d: Device, ds: seq<Device>, readings: Readings, opts: Options) returns (c: Carrier, p: nat)
    requires Proper(ds) && d in ds && PrimaryOf(d, readings).Some?
    ensures PrimaryOf(d, readings).value.0 == c
    ensures var ms := Order(ds, c, readings);
            p < |ms| && ms[p] == MeterOf(d, PrimaryOf(d, readings).value.1)
            && ParentFor(d, ds, readings, opts) == ParentId(ms, PlaceAll(ms, opts.Tolerance())[p])
  {
    var m := MeterOf(d, PrimaryOf(d, readings).value.1);
    c := PrimaryOf(d, readings).value.0;
    assert m in Order(ds, c, readings) by {
      OrderWeighable(ds, c, readings);
      MeteredMembers(ds, c, readings);
    }
    p := MeterPosition(ds, c, m, readings);
  }

  lemma MeterPosition(ds: seq<Device>, c: Carrier, m: Meter, readings: Readings) returns (p: nat)
    requires Proper(ds) && m in Order(ds, c, readings)
    ensures p < |Order(ds, c, readings)| && Order(ds, c, readings)[p] == m &&
            p == Position(Order(ds, c, readings), m.id)
  {
    OrderWeighable(ds, c, readings);
    var ms := Order(ds, c, readings);
    var k :| 0 <= k < |ms| && ms[k] == m;
    p := Position(ms, m.id);
    assert p == k;
  }

  /** A meter of a carrier is some device's, and hangs where its position says. */
  lemma MeterDevice(ds: seq<Device>, c: Carrier, p: nat, readings: Readings, opts: Options) returns (d: Device)
    requires Proper(ds) && p < |Order(ds, c, readings)|
    ensures var ms := Order(ds, c, readings);
            d in ds && PrimaryOf(d, readings) == Some((c, ms[p].value)) && ms[p] == MeterOf(d, ms[p].value)
            && ParentFor(d, ds, readings, opts) == ParentId(ms, PlaceAll(ms, opts.Tolerance())[p])
  {
    var m := Order(ds, c, readings)[p];
    d := DeviceOfMeter(ds, c, m, readings);
    var q := MeterPosition(ds, c, m, readings);
    assert p == q by { OrderWeighable(ds, c, readings); }
  }

  lemma DeviceOfMeter(ds: seq<Device>, c: Carrier, m: Meter, readings: Readings) returns (d: Device)
    requires Proper(ds) && m in Order(ds, c, readings)
    ensures d in ds && PrimaryOf(d, readings) == Some((c, m.value)) && m == MeterOf(d, m.value)
  {
    OrderWeighable(ds, c, readings);
    MeteredMembers(ds, c, readings);
    var i :| 0 <= i < |ds| && PrimaryOf(ds[i], readings) == Some((c, m.value)) && m == MeterOf(ds[i], m.value);
    d := ds[i];
  }

  // ---- the tree itself ----

  predicate IsDeviceId(ds: seq<Device>, id: Id) {
    exists i :: 0 <= i < |ds| && ds[i].id == id
  }

  /** The nodes of the tree over `ds`. */
  predicate Belongs(ds: seq<Device>, opts: Options, id: Id) {
    id == ROOT || IsDeviceId(ds, id) || (id == NO_FLOW && NeedsCollector(ds, opts))
  }

  /** Edge `a` to `b` is one the tree over `ds` has. */
  predicate Wanted(ds: seq<Device>, readings: Readings, opts: Options, a: Id, b: Id) {
    || (a == NO_FLOW && b == ROOT && NeedsCollector(ds, opts))
    || exists i :: 0 <= i < |ds| && ds[i].id == a && b == ParentFor(ds[i], ds, readings, opts)
  }

  predicate SingleParents(edges: seq<Edge>) {
    forall i, j :: 0 <= i < j < |edges| ==> edges[i].from != edges[j].from
  }

  predicate PlainNode(n: Node, ds: seq<Device>) {
    if IsDeviceId(ds, n.id) then n.resourceType == DeviceResource && n.resourceId == n.id
    else n.resourceType == CustomResource && n.resourceId == ""
  }

  ghost predicate DrawsNodes(nodes: seq<Node>, ds: seq<Device>, opts: Options) {
    && DistinctNodeIds(nodes)
    && (forall i :: 0 <= i < |nodes| ==> Belongs(ds, opts, nodes[i].id) && PlainNode(nodes[i], ds))
    && (forall id :: Belongs(ds, opts, id) ==> HasNode(nodes, id))
  }

  ghost predicate DrawsEdges(edges: seq<Edge>, ds: seq<Device>, readings: Readings, opts: Options) {
    && SingleParents(edges)
    && (forall i :: 0 <= i < |edges| ==> Wanted(ds, readings, opts, edges[i].from, edges[i].to))
    && (forall a, b :: Wanted(ds, readings, opts, a, b) ==> Linked(edges, a, b))
  }

  /** `g` is the tree over `ds`: its nodes, and each of them under the parent the readings give it. */
  ghost predicate Draws(g: Graph, ds: seq<Device>, readings: Readings, opts: Options) {
    DrawsNodes(g.nodes, ds, opts) && DrawsEdges(g.edges, ds, readings, opts)
  }

  /** Steps up to the root along the tree. */
  function Height(ds: seq<Device>, readings: Readings, opts: Options, id: Id): nat {
    if id == ROOT then 0
    else if id == NO_FLOW then 1
    else HeightOfDevice(ds, ds, readings, opts, id)
  }

  function HeightOfDevice(all: seq<Device>, ds: seq<Device>, readings: Readings, opts: Options, id: Id): nat {
    if ds == [] then 0
    else if ds[0].id != id then HeightOfDevice(all, ds[1..], readings, opts, id)
    else
      match PrimaryOf(ds[0], readings)
      case None => if HomeOf(ds[0], opts) == NO_FLOW then 2 else 1
      case Some((c, _)) =>
        var ms := Order(all, c, readings);
        var p := Position(ms, id);
        if p == |ms| then 1 else Depth(PlaceAll(ms, opts.Tolerance()), p)
  }

  lemma {:induction false} HeightFound(all: seq<Device>, ds: seq<Device>, readings: Readings, opts: Options, i: nat)
    requires Proper(ds) && i < |ds|
    ensures HeightOfDevice(all, ds, readings, opts, ds[i].id) == HeightOfDevice(all, [ds[i]], readings, opts, ds[i].id)
  {
    if i > 0 {
      HeightFound(all, ds[1..], readings, opts, i - 1);
    }
  }

  lemma MeterHeight(ds: seq<Device>, c: Carrier, p: nat, readings: Readings, opts: Options)
    requires Proper(ds) && p < |Order(ds, c, readings)|
    ensures var ms := Order(ds, c, readings);
            Height(ds, readings, opts, ms[p].id) == Depth(PlaceAll(ms, opts.Tolerance()), p)
  {
    var ms := Order(ds, c, readings);
    var d := MeterDevice(ds, c, p, readings, opts);
    var i :| 0 <= i < |ds| && ds[i] == d;
    HeightFound(ds, ds, readings, opts, i);
    OrderWeighable(ds, c, readings);
    assert ms[Position(ms, d.id)].id == ms[p].id;
  }

  /** Every edge of the tree leads one level up, and no edge leads out of the root. */
  lemma EdgesLeadUp(ds: seq<Device>, readings: Readings, opts: Options, a: Id, b: Id)
    requires Proper(ds) && Wanted(ds, readings, opts, a, b)
    ensures Height(ds, readings, opts, a) == Height(ds, readings, opts, b) + 1
    ensures a != ROOT && Belongs(ds, opts, a) && Belongs(ds, opts, b)
  {
    hide PlaceUpTo, Metered, Sort, LargestReading;
    if !(a == NO_FLOW && b == ROOT && NeedsCollector(ds, opts)) {
      var i :| 0 <= i < |ds| && ds[i].id == a && b == ParentFor(ds[i], ds, readings, opts);
      if PrimaryOf(ds[i], readings).None? {
        HeightFound(ds, ds, readings, opts, i);
      } else {
        var c, p := MeterPlace(ds[i], ds, readings, opts);
        var ms := Order(ds, c, readings);
        var q := PlaceAll(ms, opts.Tolerance())[p];
        MeterHeight(ds, c, p, readings, opts);
        if q >= 0 {
          MeterHeight(ds, c, q, readings, opts);
          var parent := MeterDevice(ds, c, q, readings, opts);
          var k :| 0 <= k < |ds| && ds[k] == parent;
          assert ds[k].id == b;
        }
      }
    }
  }
}
