/** What several packages have to agree about: carriers, devices, readings, graphs. */
module Model {
  import opened Sorting

  datatype Option<+T> = None | Some(value: T)

  datatype Carrier = Electricity | Gas | Oil | Heat | Water

  const CARRIERS: seq<Carrier> := [Electricity, Gas, Oil, Heat, Water]

  datatype Column = Column(serviceId: Id, name: string, carrier: Carrier)

  datatype Device = Device(id: Id, name: string, deviceTypeId: Id, columns: seq<Column>, groups: seq<string>)
  {
    predicate HasEnergyFlow() { columns != [] }

    predicate Measures(c: Carrier) { exists i :: 0 <= i < |columns| && columns[i].carrier == c }

    /** The carriers a device measures, in the order of CARRIERS. */
    function CarriersOf(): seq<Carrier> { MeasuredIn(CARRIERS) }

    function MeasuredIn(carriers: seq<Carrier>): seq<Carrier> {
      if carriers == [] then []
      else (if Measures(carriers[0]) then [carriers[0]] else []) + MeasuredIn(carriers[1..])
    }
  }

  datatype ReadingKey = ReadingKey(deviceId: Id, carrier: Carrier)

  type Readings = map<ReadingKey, real>

  datatype Group = Group(id: Id, path: string, name: string)

  ghost predicate DistinctDeviceIds(ds: seq<Device>) {
    forall i, j :: 0 <= i < j < |ds| ==> ds[i].id != ds[j].id
  }

  // ---- graphs ----

  datatype Attribute = Attribute(key: string, value: string, origin: string)

  datatype ResourceType = DeviceResource | CustomResource

  datatype Node = Node(id: Id, resourceType: ResourceType, resourceId: Id, attributes: seq<Attribute>)

  datatype Edge = Edge(id: Id, from: Id, to: Id, weight: int, attributes: seq<Attribute>)

  datatype Graph = Graph(id: Id, owner: Id, attributes: seq<Attribute>, nodes: seq<Node>, edges: seq<Edge>)

  const ATTR_GROUP_ID := "graph-provider/keycloak-group-id"
  const ATTR_GROUP_PATH := "graph-provider/keycloak-group"
  const ATTR_NAME := "graph-provider/name"
  const ATTR_ORIGIN := "graph-provider"
  const NODE_ATTR_NAME := "name"
  const NO_FLOW_TRANSLATION_KEY := "fallback_translation_string"
  const SYSTEM_CHANGED := "system_changed"
  const NO_FLOW: Id := "no-energy-flow"
  const FULL_WEIGHT := 100

  /** No edge points up from the node. */
  predicate IsSink(edges: seq<Edge>, id: Id) {
    forall i :: 0 <= i < |edges| ==> edges[i].from != id
  }

  function OutWeight(edges: seq<Edge>, id: Id): int {
    if edges == [] then 0
    else
      var last := edges[|edges| - 1];
      OutWeight(edges[..|edges| - 1], id) + if last.from == id then last.weight else 0
  }

  predicate Linked(edges: seq<Edge>, a: Id, b: Id) {
    exists i :: 0 <= i < |edges| && edges[i].from == a && edges[i].to == b
  }

  ghost predicate Walk(edges: seq<Edge>, p: seq<Id>) {
    forall i :: 0 <= i < |p| - 1 ==> Linked(edges, p[i], p[i + 1])
  }

  ghost predicate Acyclic(edges: seq<Edge>) {
    forall p :: |p| > 1 && Walk(edges, p) ==> p[0] != p[|p| - 1]
  }

  predicate HasNode(nodes: seq<Node>, id: Id) {
    exists i :: 0 <= i < |nodes| && nodes[i].id == id
  }

  predicate DistinctNodeIds(nodes: seq<Node>) {
    forall i, j :: 0 <= i < j < |nodes| ==> nodes[i].id != nodes[j].id
  }

  predicate DistinctResources(nodes: seq<Node>) {
    forall i, j :: 0 <= i < j < |nodes| && nodes[i].resourceId != "" ==> nodes[i].resourceId != nodes[j].resourceId
  }

  predicate DistinctEdgeIds(edges: seq<Edge>) {
    forall i, j :: 0 <= i < j < |edges| ==> edges[i].id != edges[j].id
  }

  /** Exactly one node without an outgoing edge, and it is no device. */
  predicate SingleRoot(g: Graph) {
    exists r :: 0 <= r < |g.nodes|
      && IsSink(g.edges, g.nodes[r].id)
      && g.nodes[r].resourceType.CustomResource?
      && forall i :: 0 <= i < |g.nodes| && i != r ==> !IsSink(g.edges, g.nodes[i].id)
  }

  predicate WeightsBalance(g: Graph) {
    && (forall i :: 0 <= i < |g.edges| ==> 1 <= g.edges[i].weight <= 100)
    && (forall i :: 0 <= i < |g.nodes| ==> OutWeight(g.edges, g.nodes[i].id) in [0, 100])
  }

  predicate EdgesConnectNodes(g: Graph) {
    forall i :: 0 <= i < |g.edges| ==> HasNode(g.nodes, g.edges[i].from) && HasNode(g.nodes, g.edges[i].to)
  }

  /** What the store accepts. */
  ghost predicate Valid(g: Graph) {
    && g.owner != ""
    && DistinctNodeIds(g.nodes)
    && DistinctResources(g.nodes)
    && DistinctEdgeIds(g.edges)
    && EdgesConnectNodes(g)
    && SingleRoot(g)
    && WeightsBalance(g)
    && Acyclic(g.edges)
  }

  // ---- attributes ----

  function AttributeOf(attributes: seq<Attribute>, key: string): string {
    if attributes == [] then ""
    else if attributes[0].key == key then attributes[0].value
    else AttributeOf(attributes[1..], key)
  }

  function WithoutKey(attributes: seq<Attribute>, key: string): seq<Attribute> {
    if attributes == [] then []
    else (if attributes[0].key == key then [] else [attributes[0]]) + WithoutKey(attributes[1..], key)
  }

  function SetAttribute(attributes: seq<Attribute>, key: string, value: string): seq<Attribute> {
    WithoutKey(attributes, key) + [Attribute(key, value, ATTR_ORIGIN)]
  }

  lemma WithoutFirst(attributes: seq<Attribute>, key: string)
    requires attributes != []
    ensures var rest := WithoutKey(attributes[1..], key);
            if attributes[0].key == key then WithoutKey(attributes, key) == rest
            else WithoutKey(attributes, key) == [attributes[0]] + rest && WithoutKey(attributes, key)[1..] == rest
  {
    assert [] + WithoutKey(attributes[1..], key) == WithoutKey(attributes[1..], key);
  }

  lemma {:induction false} AttributeOfWithout(attributes: seq<Attribute>, key: string, other: string)
    ensures AttributeOf(WithoutKey(attributes, key), other) == if other == key then ""
            else AttributeOf(attributes, other)
    ensures WithoutKey(attributes, key) == attributes ==> AttributeOf(attributes, key) == ""
  {
    if attributes != [] {
      AttributeOfWithout(attributes[1..], key, other);
      WithoutShorter(attributes[1..], key);
      WithoutFirst(attributes, key);
    }
  }

  lemma {:induction false} WithoutShorter(attributes: seq<Attribute>, key: string)
    ensures |WithoutKey(attributes, key)| <= |attributes|
  {
    if attributes != [] { WithoutShorter(attributes[1..], key); }
  }

  lemma {:induction false} AttributeOfAppended(attributes: seq<Attribute>, a: Attribute, key: string)
    ensures AttributeOf(attributes + [a], key)
         == if AttributeOf(attributes, key) == "" && !Carries(attributes, key) && a.key == key then a.value
            else AttributeOf(attributes, key)
  {
    if attributes != [] {
      assert (attributes + [a])[1..] == attributes[1..] + [a];
      AttributeOfAppended(attributes[1..], a, key);
    }
  }

  predicate Carries(attributes: seq<Attribute>, key: string) {
    attributes != [] && (attributes[0].key == key || Carries(attributes[1..], key))
  }

  lemma {:induction false} WithoutDoesNotCarry(attributes: seq<Attribute>, key: string)
    ensures !Carries(WithoutKey(attributes, key), key)
  {
    if attributes != [] {
      WithoutDoesNotCarry(attributes[1..], key);
      WithoutFirst(attributes, key);
    }
  }

  /** Setting one attribute makes it read back, and leaves every other one as it was. */
  lemma SetThenGet(attributes: seq<Attribute>, key: string, value: string, other: string)
    ensures AttributeOf(SetAttribute(attributes, key, value), other)
         == if other == key then value else AttributeOf(attributes, other)
  {
    AttributeOfWithout(attributes, key, other);
    WithoutDoesNotCarry(attributes, key);
    AttributeOfAppended(WithoutKey(attributes, key), Attribute(key, value, ATTR_ORIGIN), other);
  }

  // ---- the carrier a device is placed by ----

  /** The running maximum over the carriers read so far. */
  function LargestReading(deviceId: Id, carriers: seq<Carrier>, readings: Readings): Option<(Carrier, real)> {
    if carriers == [] then None
    else
      var n := |carriers| - 1;
      var best := LargestReading(deviceId, carriers[..n], readings);
      var key := ReadingKey(deviceId, carriers[n]);
      if key in readings && (best.None? || readings[key] > best.value.1) then Some((carriers[n], readings[key]))
      else best
  }

  /** The one it read the most of; zero and below count as no reading. */
  function PrimaryCarrier(deviceId: Id, carriers: seq<Carrier>, readings: Readings): Option<(Carrier, real)> {
    var best := LargestReading(deviceId, carriers, readings);
    if best.None? || best.value.1 <= 0.0 then None else best
  }

  function PrimaryOf(d: Device, readings: Readings): Option<(Carrier, real)> {
    PrimaryCarrier(d.id, d.CarriersOf(), readings)
  }

  lemma {:induction false} LargestReadingIsLargest(deviceId: Id, carriers: seq<Carrier>, readings: Readings)
    ensures var r := LargestReading(deviceId, carriers, readings);
            match r
            case None => forall c :: c in carriers ==> ReadingKey(deviceId, c) !in readings
            case Some((c, v)) =>
              && c in carriers && ReadingKey(deviceId, c) in readings && v == readings[ReadingKey(deviceId, c)]
              && forall o :: o in carriers && ReadingKey(deviceId, o) in readings ==>
                 readings[ReadingKey(deviceId, o)] <= v
  {
    if carriers != [] {
      var n := |carriers| - 1;
      LargestReadingIsLargest(deviceId, carriers[..n], readings);
      assert forall c :: c in carriers <==> c == carriers[n] || c in carriers[..n];
    }
  }

  lemma EveryCarrier()
    ensures forall c: Carrier :: c in CARRIERS
  {
    forall c: Carrier ensures c in CARRIERS {
      var i := match c case Electricity => 0 case Gas => 1 case Oil => 2 case Heat => 3 case Water => 4;
      assert CARRIERS[i] == c;
    }
  }

  lemma NothingRead(d: Device, readings: Readings)
    requires !d.HasEnergyFlow()
    ensures PrimaryOf(d, readings).None?
  {
    assert d.MeasuredIn(CARRIERS[5..]) == [];
    assert d.MeasuredIn(CARRIERS[4..]) == [];
    assert d.MeasuredIn(CARRIERS[3..]) == [];
    assert d.MeasuredIn(CARRIERS[2..]) == [];
    assert d.MeasuredIn(CARRIERS[1..]) == [];
  }

  /** Readings exist only for carriers in the device's columns. */
  ghost predicate ReadingsMatchColumns(d: Device, readings: Readings) {
    forall c :: ReadingKey(d.id, c) in readings ==> d.Measures(c)
  }

  lemma {:induction false} LargestOverMeasured(d: Device, carriers: seq<Carrier>, readings: Readings,
      measured: seq<Carrier>)
    requires ReadingsMatchColumns(d, readings)
    requires measured == d.MeasuredIn(carriers)
    ensures LargestReading(d.id, measured, readings) == LargestReading(d.id, carriers, readings)
  {
    if carriers != [] {
      var n := |carriers| - 1;
      MeasuredInAppend(d, carriers[..n], carriers[n]);
      assert carriers[..n] + [carriers[n]] == carriers;
      LargestOverMeasured(d, carriers[..n], readings, d.MeasuredIn(carriers[..n]));
      assert d.Measures(carriers[n]) ==> measured[..|measured| - 1] == d.MeasuredIn(carriers[..n]);
      assert !d.Measures(carriers[n]) ==> measured == d.MeasuredIn(carriers[..n]);
    }
  }

  lemma {:induction false} MeasuredInAppend(d: Device, carriers: seq<Carrier>, c: Carrier)
    ensures d.MeasuredIn(carriers + [c]) == d.MeasuredIn(carriers) + if d.Measures(c) then [c] else []
  {
    if carriers != [] {
      assert (carriers + [c])[1..] == carriers[1..] + [c];
      MeasuredInAppend(d, carriers[1..], c);
    }
  }

  /** Asking for every carrier, as a stored graph has to, finds what asking for the columns finds. */
  lemma PrimaryFromEveryCarrier(d: Device, readings: Readings)
    requires ReadingsMatchColumns(d, readings)
    ensures PrimaryCarrier(d.id, CARRIERS, readings) == PrimaryOf(d, readings)
  {
    LargestOverMeasured(d, CARRIERS, readings, d.CarriersOf());
  }
}
