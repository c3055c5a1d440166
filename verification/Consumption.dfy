/** What each device used: questions asked in batches, answers matched by index, differences summed. */
module Consumption {
  import opened Sorting
  import opened Model

  const DEFAULT_BATCH_SIZE := 500

  datatype Bound = First | Last

  /** What one column of one device read over the window. */
  datatype Ask = Ask(deviceId: Id, serviceId: Id, column: string, carrier: Carrier)

  /** One request element: an ask's column, read from one end of the window. */
  datatype Element = Element(deviceId: Id, serviceId: Id, column: string, bound: Bound)

  datatype Leg = Leg(askIndex: nat, bound: Bound)

  datatype Cell = Readable(value: real) | Unreadable

  type Row = seq<Cell>

  datatype ResponseElement = ResponseElement(requestIndex: int, data: seq<seq<Row>>)

  /** One call: the context was already done, the call failed, or it was answered. */
  datatype Answer = Gone | Failed | Response(elements: seq<ResponseElement>)

  datatype Result<+T> = Ok(value: T) | Cancelled | Broken

  /** The wrapper, by call number and the elements of the call. */
  type Wrapper = (nat, seq<Element>) -> Answer

  // ---- reading one answer ----

  function FirstNumber(rows: seq<Row>): Option<real> {
    if rows == [] then None
    else if rows[0] != [] && rows[0][|rows[0]| - 1].Readable? then Some(rows[0][|rows[0]| - 1].value)
    else FirstNumber(rows[1..])
  }

  function ReadingOf(data: seq<seq<Row>>): Option<real> {
    if data == [] then None
    else
      var x := FirstNumber(data[0]);
      if x.Some? then x else ReadingOf(data[1..])
  }

  /** The row's last cell can be read. */
  predicate EndsReadable(row: Row) { row != [] && row[|row| - 1].Readable? }

  predicate EndsIn(row: Row, x: real) { row != [] && row[|row| - 1] == Readable(x) }

  /** No row before this one, series by series and row by row, ends in a cell that can be read. */
  ghost predicate NoneBefore(data: seq<seq<Row>>, s: nat, r: nat)
    requires s < |data| && r <= |data[s]|
  {
    && (forall i, k :: 0 <= i < s && 0 <= k < |data[i]| ==> !EndsReadable(data[i][k]))
    && (forall k :: 0 <= k < r ==> !EndsReadable(data[s][k]))
  }

  /** The first row that ends in a cell that can be read ends in this figure. */
  ghost predicate Says(data: seq<seq<Row>>, x: real) {
    exists s, r :: 0 <= s < |data| && 0 <= r < |data[s]| && EndsIn(data[s][r], x) && NoneBefore(data, s, r)
  }

  lemma {:induction false} FirstNumberIs(rows: seq<Row>)
    ensures match FirstNumber(rows)
            case None => forall k :: 0 <= k < |rows| ==> !EndsReadable(rows[k])
            case Some(x) =>
              exists r :: 0 <= r < |rows| && EndsIn(rows[r], x) &&
                          forall k :: 0 <= k < r ==> !EndsReadable(rows[k])
  {
    if rows != [] && !EndsReadable(rows[0]) {
      FirstNumberIs(rows[1..]);
      assert forall k :: 0 < k < |rows| ==> rows[k] == rows[1..][k - 1];
      if FirstNumber(rows).Some? {
        var r :| 0 <= r < |rows[1..]| && EndsIn(rows[1..][r], FirstNumber(rows).value) &&
          forall k :: 0 <= k < r ==> !EndsReadable(rows[1..][k]);
        assert EndsIn(rows[r + 1], FirstNumber(rows).value);
      }
    }
  }

  lemma SaysOneThing(data: seq<seq<Row>>, x: real, y: real)
    requires Says(data, x) && Says(data, y)
    ensures x == y
  {
    var s, r :| 0 <= s < |data| && 0 <= r < |data[s]| && EndsIn(data[s][r], x) && NoneBefore(data, s, r);
    var t, q :| 0 <= t < |data| && 0 <= q < |data[t]| && EndsIn(data[t][q], y) && NoneBefore(data, t, q);
    assert s == t && r == q;
  }

  lemma SaysLater(data: seq<seq<Row>>, x: real)
    requires data != [] && Says(data[1..], x) && forall k :: 0 <= k < |data[0]| ==> !EndsReadable(data[0][k])
    ensures Says(data, x)
  {
    var rest: seq<seq<Row>> := data[1..];
    var s: nat, r: nat :| 0 <= s < |rest| && 0 <= r < |rest[s]| && EndsIn(rest[s][r], x) && NoneBefore(rest, s, r);
    assert data[s + 1] == rest[s];
    forall i, k | 0 <= i < s + 1 && 0 <= k < |data[i]| ensures !EndsReadable(data[i][k]) {
      if i > 0 { assert data[i] == rest[i - 1]; }
    }
    assert NoneBefore(data, s + 1, r);
  }

  lemma {:induction false} SomeReading(data: seq<seq<Row>>)
    ensures match ReadingOf(data)
            case None => forall s, r :: 0 <= s < |data| && 0 <= r < |data[s]| ==> !EndsReadable(data[s][r])
            case Some(x) => Says(data, x)
  {
    hide Says, FirstNumber;
    if data != [] {
      FirstNumberIs(data[0]);
      if FirstNumber(data[0]).Some? {
        SaysAtOnce(data);
      } else {
        SomeReading(data[1..]);
        if ReadingOf(data[1..]).Some? { SaysLater(data, ReadingOf(data[1..]).value); }
        assert forall s :: 0 < s < |data| ==> data[s] == data[1..][s - 1];
      }
    }
  }

  lemma SaysAtOnce(data: seq<seq<Row>>)
    requires data != [] && FirstNumber(data[0]).Some?
    ensures Says(data, FirstNumber(data[0]).value)
  {
    hide FirstNumber;
    FirstNumberIs(data[0]);
    var r :| 0 <= r < |data[0]| && EndsIn(data[0][r], FirstNumber(data[0]).value) &&
      forall k :: 0 <= k < r ==> !EndsReadable(data[0][k]);
    assert NoneBefore(data, 0, r);
  }

  /**
   * The reading in an answer is the last cell of the first row that ends in one that can be read, series
   * by series and row by row; there is none exactly when no row does.
   */
  lemma ReadingIsTheFirst(data: seq<seq<Row>>)
    ensures forall x :: ReadingOf(data) == Some(x) <==> Says(data, x)
    ensures ReadingOf(data) == None <==>
            forall s, r :: 0 <= s < |data| && 0 <= r < |data[s]| ==> !EndsReadable(data[s][r])
  {
    hide ReadingOf;
    SomeReading(data);
    forall x ensures ReadingOf(data) == Some(x) <==> Says(data, x) {
      if Says(data, x) && ReadingOf(data).Some? { SaysOneThing(data, x, ReadingOf(data).value); }
    }
  }

  /** The first readable answer about the element at an index of the call; any other index is nobody's. */
  function FirstReadable(response: seq<ResponseElement>, index: int): Option<real> {
    if response == [] then None
    else
      var earlier := FirstReadable(response[..|response| - 1], index);
      var it := response[|response| - 1];
      if earlier.Some? then earlier else if it.requestIndex == index then ReadingOf(it.data) else None
  }

  /** What a call's response says about each of its n elements. */
  function Heard(response: seq<ResponseElement>, n: nat): (r: seq<Option<real>>)
    ensures |r| == n
  {
    seq(n, i => FirstReadable(response, i))
  }

  // ---- the questions ----

  predicate SameValue(a: Column, b: Column) { a.carrier == b.carrier && a.name == b.name }

  predicate AskedAlready(columns: seq<Column>, c: Column) { exists i :: 0 <= i < |columns| && SameValue(columns[i], c) }

  /** A column path is asked once per carrier, whatever services expose it. */
  function DistinctColumns(columns: seq<Column>): seq<Column> {
    if columns == [] then []
    else
      var before, c := columns[..|columns| - 1], columns[|columns| - 1];
      DistinctColumns(before) + if AskedAlready(before, c) then [] else [c]
  }

  function AsksOf(deviceId: Id, columns: seq<Column>): seq<Ask> {
    seq(|columns|,
      i requires 0 <= i < |columns| => Ask(deviceId, columns[i].serviceId, columns[i].name, columns[i].carrier))
  }

  function Asks(devices: seq<Device>): seq<Ask> {
    if devices == [] then []
    else
      var d := devices[|devices| - 1];
      Asks(devices[..|devices| - 1]) + AsksOf(d.id, DistinctColumns(d.columns))
  }

  function BoundOf(i: nat): Bound { if i % 2 == 0 then First else Last }

  function ElementOf(a: Ask, bound: Bound): Element { Element(a.deviceId, a.serviceId, a.column, bound) }

  /** Both ends of every ask, first before last. */
  function Elements(asks: seq<Ask>): seq<Element> {
    seq(2 * |asks|, i requires 0 <= i < 2 * |asks| => ElementOf(asks[i / 2], BoundOf(i)))
  }

  function Legs(n: nat): seq<Leg> { seq(2 * n, i requires 0 <= i < 2 * n => Leg(i / 2, BoundOf(i))) }

  /** The three lists are grown together: legs[i] says what elements[i] asks. */
  ghost predicate Aligned(asks: seq<Ask>, legs: seq<Leg>, elements: seq<Element>) {
    legs == Legs(|asks|) && elements == Elements(asks)
  }

  method AskDevice(device: Device, asks: seq<Ask>, legs: seq<Leg>, elements: seq<Element>)
    returns (moreAsks: seq<Ask>, moreLegs: seq<Leg>, moreElements: seq<Element>)
    requires Aligned(asks, legs, elements)
    ensures moreAsks == asks + AsksOf(device.id, DistinctColumns(device.columns))
    ensures Aligned(moreAsks, moreLegs, moreElements)
  {
    moreAsks, moreLegs, moreElements := asks, legs, elements;
    var asked: set<(Carrier, string)> := {};
    var k := 0;
    hide AskedAlready, DistinctColumns, AsksOf, Aligned;
    NothingAsked(device.id);
    assert asks + [] == asks;
    while k < |device.columns|
      invariant 0 <= k <= |device.columns|
      invariant forall c, n :: (c, n) in asked <==> AskedAlready(device.columns[..k], Column("", n, c))
      invariant moreAsks == asks + AsksOf(device.id, DistinctColumns(device.columns[..k]))
      invariant Aligned(moreAsks, moreLegs, moreElements)
    {
      var column := device.columns[k];
      ghost var seen, before := device.columns[..k], moreAsks;
      OneMoreColumn(device.id, device.columns, k);
      AskedNext(seen, column);
      assert device.columns[..k + 1] == seen + [column];
      k := k + 1;
      if (column.carrier, column.name) in asked {
        continue;
      }
      asked := asked + {(column.carrier, column.name)};
      var one := Ask(device.id, column.serviceId, column.name, column.carrier);
      AlignedGrows(moreAsks, moreLegs, moreElements, one);
      moreLegs := moreLegs + [Leg(|moreAsks|, First), Leg(|moreAsks|, Last)];
      moreElements := moreElements + [ElementOf(one, First), ElementOf(one, Last)];
      moreAsks := moreAsks + [one];
      assert before + [one] == asks + (AsksOf(device.id, DistinctColumns(seen)) + [one]);
    }
    assert device.columns[..k] == device.columns;
  }

  lemma NothingAsked(deviceId: Id)
    ensures forall c: Column :: !AskedAlready([], c)
    ensures AsksOf(deviceId, DistinctColumns([])) == []
  {}

  lemma OneMoreColumn(deviceId: Id, columns: seq<Column>, k: nat)
    requires k < |columns|
    ensures var c, before := columns[k], AsksOf(deviceId, DistinctColumns(columns[..k]));
            AsksOf(deviceId, DistinctColumns(columns[..k + 1])) ==
            if AskedAlready(columns[..k], c) then before else before + [Ask(deviceId, c.serviceId, c.name, c.carrier)]
  {
    hide AskedAlready;
    assert columns[..k + 1][..k] == columns[..k] && columns[..k + 1][k] == columns[k];
  }

  lemma AlignedGrows(asks: seq<Ask>, legs: seq<Leg>, elements: seq<Element>, one: Ask)
    requires Aligned(asks, legs, elements)
    ensures Aligned(asks + [one], legs + [Leg(|asks|, First), Leg(|asks|, Last)],
                    elements + [ElementOf(one, First), ElementOf(one, Last)])
  {
    AsksGrow(asks, one);
    hide Legs, Elements;
  }

  method Build(devices: seq<Device>) returns (asks: seq<Ask>, legs: seq<Leg>, elements: seq<Element>)
    ensures asks == Asks(devices) && Aligned(asks, legs, elements)
  {
    asks, legs, elements := [], [], [];
    var i := 0;
    while i < |devices|
      invariant 0 <= i <= |devices|
      invariant asks == Asks(devices[..i]) && Aligned(asks, legs, elements)
    {
      asks, legs, elements := AskDevice(devices[i], asks, legs, elements);
      assert devices[..i + 1][..i] == devices[..i] && devices[..i + 1][i] == devices[i];
      i := i + 1;
    }
    assert devices[..i] == devices;
  }

  lemma AskedNext(columns: seq<Column>, c: Column)
    ensures forall x: Column :: AskedAlready(columns + [c], x) <==> AskedAlready(columns, x) || SameValue(c, x)
    ensures AskedAlready(columns, c) <==> AskedAlready(columns, Column("", c.name, c.carrier))
  {
    forall x: Column ensures AskedAlready(columns + [c], x) <==> AskedAlready(columns, x) || SameValue(c, x) {
      if AskedAlready(columns, x) {
        var i :| 0 <= i < |columns| && SameValue(columns[i], x);
        assert SameValue((columns + [c])[i], x);
      }
      if SameValue(c, x) { assert SameValue((columns + [c])[|columns|], x); }
    }
  }

  lemma AsksGrow(asks: seq<Ask>, a: Ask)
    ensures Legs(|asks| + 1) == Legs(|asks|) + [Leg(|asks|, First), Leg(|asks|, Last)]
    ensures Elements(asks + [a]) == Elements(asks) + [ElementOf(a, First), ElementOf(a, Last)]
  {}

  // ---- the plain specification ----

  /** What the distance of one ask is, given what was read at every leg. */
  function Distance(read: seq<Option<real>>, k: nat): Option<real>
    requires 2 * k + 1 < |read|
  {
    if read[2 * k].Some? && read[2 * k + 1].Some? then Some(read[2 * k + 1].value - read[2 * k].value) else None
  }

  function Plus(a: Option<real>, b: Option<real>): Option<real> {
    match (a, b)
    case (None, _) => b
    case (_, None) => a
    case (Some(x), Some(y)) => Some(x + y)
  }

  /** The sum of the distances of the first n asks about one device and carrier; None when there is none. */
  function Sum(asks: seq<Ask>, read: seq<Option<real>>, key: ReadingKey, n: nat): Option<real>
    requires n <= |asks| && |read| == 2 * |asks|
  {
    if n == 0 then None
    else
      var a := asks[n - 1];
      Plus(Sum(asks, read, key, n - 1), if a.deviceId == key.deviceId &&
        a.carrier == key.carrier then Distance(read, n - 1) else None)
  }

  ghost predicate IsTotal(m: Readings, asks: seq<Ask>, read: seq<Option<real>>, n: nat)
    requires n <= |asks| && |read| == 2 * |asks|
  {
    forall key :: if key in m then Sum(asks, read, key, n) == Some(m[key]) else Sum(asks, read, key, n) == None
  }

  // ---- the calls ----

  /** What is read at every leg: call after call, each over the next elements, until one does not answer. */
  function Values(wrapper: Wrapper, elements: seq<Element>, size: nat, call: nat): Result<seq<Option<real>>>
    requires size > 0
    decreases |elements|
  {
    if elements == [] then Ok([])
    else
      var n := if size < |elements| then size else |elements|;
      match wrapper(call, elements[..n])
      case Gone => Cancelled
      case Failed => Broken
      case Response(response) => Append(Heard(response, n), Values(wrapper, elements[n..], size, call + 1))
  }

  function Append(values: seq<Option<real>>, rest: Result<seq<Option<real>>>): Result<seq<Option<real>>> {
    if rest.Ok? then Ok(values + rest.value) else rest
  }

  function BatchSize(configured: int): (size: nat)
    ensures size > 0
  {
    if configured <= 0 then DEFAULT_BATCH_SIZE else configured
  }

  datatype Ends = Ends(first: Option<real>, last: Option<real>) {
    function At(b: Bound): Option<real> { if b == First then first else last }
    function With(b: Bound, x: real): Ends { if b == First then Ends(Some(x), last) else Ends(first, Some(x)) }
  }

  /** The slot of a leg among the ends read. */
  function Slot(read: seq<Ends>, i: nat): Option<real>
    requires i < 2 * |read|
  {
    read[i / 2].At(BoundOf(i))
  }

  /** The slots from start on were taken from the values, and no others. */
  ghost predicate TookIn(was: seq<Ends>, now: seq<Ends>, start: nat, values: seq<Option<real>>) {
    && |now| == |was|
    && forall i :: 0 <= i < 2 * |was| ==>
       Slot(now, i) == if start <= i < start + |values| then values[i - start] else Slot(was, i)
  }

  /** The first slots hold the values, and the others nothing yet. */
  ghost predicate Filled(read: seq<Ends>, values: seq<Option<real>>) {
    forall i :: 0 <= i < 2 * |read| ==> Slot(read, i) == if i < |values| then values[i] else None
  }

  lemma FilledGrows(was: seq<Ends>, now: seq<Ends>, values: seq<Option<real>>, more: seq<Option<real>>)
    requires Filled(was, values) && TookIn(was, now, |values|, more)
    ensures Filled(now, values + more)
  {}

  lemma FilledLeavesRoom(read: seq<Ends>, values: seq<Option<real>>)
    requires Filled(read, values)
    ensures forall i :: |values| <= i < 2 * |read| ==> Slot(read, i) == None
  {}

  /** One call's answers go into the slots of its batch; the first readable one wins, strangers are skipped. */
  method TakeIn(read: array<Ends>, legs: seq<Leg>, start: nat, end: nat, response: seq<ResponseElement>)
    requires legs == Legs(read.Length) && start <= end <= |legs|
    requires forall i :: start <= i < end ==> Slot(read[..], i) == None
    modifies read
    ensures TookIn(old(read[..]), read[..], start, Heard(response, end - start))
  {
    hide ReadingOf;
    var j := 0;
    while j < |response|
      invariant 0 <= j <= |response|
      invariant forall i :: 0 <= i < |legs| && !(start <= i < end) ==> Slot(read[..], i) == old(Slot(read[..], i))
      invariant forall i :: start <= i < end ==> Slot(read[..], i) == FirstReadable(response[..j], i - start)
    {
      var element := response[j];
      ghost var was := read[..];
      var value := None;
      if 0 <= element.requestIndex && start + element.requestIndex < end {
        var leg := legs[start + element.requestIndex];
        if read[leg.askIndex].At(leg.bound).None? {
          value := ReadingOf(element.data);
          if value.Some? {
            read[leg.askIndex] := read[leg.askIndex].With(leg.bound, value.value);
            OneSlot(was, read[..], start + element.requestIndex, value.value);
          }
        }
      }
      forall i | start <= i < end ensures Slot(read[..], i) == FirstReadable(response[..j + 1], i - start) {
        OneResponse(response, j, i - start);
        assert Slot(was, i) == FirstReadable(response[..j], i - start);
      }
      j := j + 1;
    }
    assert response[..j] == response;
  }

  lemma OneResponse(response: seq<ResponseElement>, j: nat, index: int)
    requires j < |response|
    ensures FirstReadable(response[..j + 1], index) ==
                                 if FirstReadable(response[..j], index).Some? then FirstReadable(response[..j], index)
                                 else if response[j].requestIndex == index then ReadingOf(response[j].data) else None
  {
    assert response[..j + 1][..j] == response[..j] && response[..j + 1][j] == response[j];
  }

  lemma OneSlot(was: seq<Ends>, now: seq<Ends>, at: nat, x: real)
    requires at < 2 * |was| && now == was[at / 2 := was[at / 2].With(BoundOf(at), x)]
    ensures forall i :: 0 <= i < 2 * |was| ==> Slot(now, i) == if i == at then Some(x) else Slot(was, i)
  {}

  method Sums(asks: seq<Ask>, read: seq<Ends>, ghost values: seq<Option<real>>) returns (totals: Readings)
    requires |read| == |asks| && |values| == 2 * |asks| && Filled(read, values)
    ensures IsTotal(totals, asks, values, |asks|)
  {
    totals := map[];
    var k := 0;
    hide Sum;
    NothingSummed(asks, values);
    while k < |asks|
      invariant 0 <= k <= |asks|
      invariant IsTotal(totals, asks, values, k)
    {
      TotalGrows(totals, asks, values, k);
      assert Slot(read, 2 * k) == values[2 * k] && Slot(read, 2 * k + 1) == values[2 * k + 1];
      if read[k].first.Some? && read[k].last.Some? {
        var key := ReadingKey(asks[k].deviceId, asks[k].carrier);
        var sum := if key in totals then totals[key] else 0.0;
        totals := totals[key := sum + (read[k].last.value - read[k].first.value)];
      }
      k := k + 1;
    }
  }

  lemma NothingSummed(asks: seq<Ask>, values: seq<Option<real>>)
    requires |values| == 2 * |asks|
    ensures IsTotal(map[], asks, values, 0)
  {}

  /** One more ask adds its distance, if it has one, to the figure of its device and carrier. */
  lemma TotalGrows(m: Readings, asks: seq<Ask>, values: seq<Option<real>>, k: nat)
    requires k < |asks| && |values| == 2 * |asks| && IsTotal(m, asks, values, k)
    ensures var key, d := ReadingKey(asks[k].deviceId, asks[k].carrier), Distance(values, k);
            IsTotal(if d.Some? then m[key := (if key in m then m[key] else 0.0) + d.value] else m, asks, values, k + 1)
  {
    var key := ReadingKey(asks[k].deviceId, asks[k].carrier);
    assert forall o: ReadingKey :: (o.deviceId == asks[k].deviceId && o.carrier == asks[k].carrier) <==> o == key;
  }

  /** The calls, batch after batch; no partial answer when one of them fails. */
  method ReadEnds(wrapper: Wrapper, legs: seq<Leg>, elements: seq<Element>, configured: int, read: array<Ends>)
    returns (ok: Result<()>, ghost values: seq<Option<real>>)
    requires legs == Legs(read.Length) && |elements| == |legs| && Filled(read[..], [])
    modifies read
    ensures match Values(wrapper, elements, BatchSize(configured), 0)
            case Ok(v) => ok == Ok(()) && values == v && |v| == |elements| && Filled(read[..], v)
            case Cancelled => ok == Cancelled
            case Broken => ok == Broken
  {
    hide Values, Heard, TookIn, Filled, Append, Slot, Legs;
    var batchSize := if configured <= 0 then DEFAULT_BATCH_SIZE else configured;
    var start, calls := 0, 0;
    values := [];
    ghost var all := Values(wrapper, elements, batchSize, 0);
    AtTheStart(wrapper, elements, batchSize, read.Length);
    while start < |elements|
      invariant 0 <= start && |values| == (if start < |elements| then start else |elements|)
      invariant all == Append(values, Values(wrapper, elements[|values|..], batchSize, calls))
      invariant Filled(read[..], values)
      decreases |elements| - start
    {
      var end := start + batchSize;
      if end > |elements| {
        end := |elements|;
      }
      OneBatch(wrapper, elements, start, batchSize, calls, values);
      var answer := wrapper(calls, elements[start..end]);
      if answer.Gone? {
        return Cancelled, values;
      }
      if answer.Failed? {
        return Broken, values;
      }
      ghost var was := read[..];
      FilledLeavesRoom(was, values);
      TakeIn(read, legs, start, end, answer.elements);
      FilledGrows(was, read[..], values, Heard(answer.elements, end - start));
      values := values + Heard(answer.elements, end - start);
      calls, start := calls + 1, start + batchSize;
    }
    NothingLeft(wrapper, elements, |values|, batchSize, calls, values);
    ok := Ok(());
  }

  method Fetch(wrapper: Wrapper, devices: seq<Device>, configured: int) returns (r: Result<Readings>)
    ensures match Values(wrapper, Elements(Asks(devices)), BatchSize(configured), 0)
            case Ok(values) => |values| == 2 * |Asks(devices)| && r.Ok? &&
              IsTotal(r.value, Asks(devices), values, |Asks(devices)|)
            case Cancelled => r == Cancelled
            case Broken => r == Broken
    ensures forall meters :: Honest(meters, wrapper) && DistinctDeviceIds(devices) ==>
              r.Ok? && Measures(r.value, meters, devices)
  {
    hide Honest, Measures;
    var asks, legs, elements := Build(devices);
    if |elements| == 0 {
      HonestIsMeasured(wrapper, devices, configured, map[]);
      return Ok(map[]);
    }
    var read := new Ends[|asks|](_ => Ends(None, None));
    ghost var values;
    var ok;
    ok, values := ReadEnds(wrapper, legs, elements, configured, read);
    if !ok.Ok? {
      HonestIsMeasured(wrapper, devices, configured, map[]);
      return if ok.Cancelled? then Cancelled else Broken;
    }
    var totals := Sums(asks, read[..], values);
    HonestIsMeasured(wrapper, devices, configured, totals);
    r := Ok(totals);
  }

  lemma HonestIsMeasured(wrapper: Wrapper, devices: seq<Device>, configured: int, m: Readings)
    requires var values := Values(wrapper, Elements(Asks(devices)), BatchSize(configured), 0);
             values.Ok? ==>
               && |values.value| == 2 * |Asks(devices)|
               && IsTotal(m, Asks(devices), values.value, |Asks(devices)|)
    ensures forall meters :: Honest(meters, wrapper) && DistinctDeviceIds(devices) ==>
              Values(wrapper, Elements(Asks(devices)), BatchSize(configured), 0).Ok? && Measures(m, meters, devices)
  {
    hide Values, IsTotal, Honest, Measures, Elements, Asks;
    forall meters | Honest(meters, wrapper) && DistinctDeviceIds(devices)
      ensures Values(wrapper, Elements(Asks(devices)), BatchSize(configured), 0).Ok? && Measures(m, meters, devices)
    {
      FetchedIsUsed(meters, wrapper, devices, configured, m);
    }
  }

  lemma AtTheStart(wrapper: Wrapper, elements: seq<Element>, size: nat, n: nat)
    requires size > 0
    ensures Values(wrapper, elements, size, 0) == Append([], Values(wrapper, elements[0..], size, 0))
    ensures |Legs(n)| == 2 * n
  {
    hide Values;
    var all := Values(wrapper, elements, size, 0);
    assert elements[0..] == elements && (all.Ok? ==> [] + all.value == all.value);
  }

  lemma NothingLeft(wrapper: Wrapper, elements: seq<Element>, start: nat, size: nat, call: nat,
      values: seq<Option<real>>)
    requires size > 0 && start == |elements|
    ensures Append(values, Values(wrapper, elements[start..], size, call)) == Ok(values)
  {
    assert values + [] == values;
  }

  /** One call covers the elements from start to end and leaves the rest to the next. */
  lemma OneBatch(wrapper: Wrapper, elements: seq<Element>, start: nat, size: nat, call: nat, values: seq<Option<real>>)
    requires size > 0 && start < |elements|
    ensures var end := if start + size > |elements| then |elements| else start + size;
            Append(values, Values(wrapper, elements[start..], size, call)) ==
            match wrapper(call, elements[start..end])
            case Gone => Cancelled
            case Failed => Broken
            case Response(response) =>
              Append(values + Heard(response, end - start), Values(wrapper, elements[end..], size, call + 1))
  {
    hide Heard, Append;
    var end := if start + size > |elements| then |elements| else start + size;
    var rest, n := elements[start..], end - start;
    assert rest[..n] == elements[start..end] && rest[n..] == elements[end..];
    var answer := wrapper(call, elements[start..end]);
    FailureAppends(values);
    if answer.Response? {
      AppendTwice(values, Heard(answer.elements, n), Values(wrapper, elements[end..], size, call + 1));
    }
  }

  lemma FailureAppends(values: seq<Option<real>>)
    ensures Append(values, Cancelled) == Cancelled && Append(values, Broken) == Broken
  {}

  lemma AppendTwice(a: seq<Option<real>>, b: seq<Option<real>>, rest: Result<seq<Option<real>>>)
    ensures Append(a, Append(b, rest)) == Append(a + b, rest)
  {
    if rest.Ok? { assert a + (b + rest.value) == a + b + rest.value; }
  }

  // ---- batching is invisible ----

  /** What the meters really say at an element. */
  type Meters = Element -> Option<real>

  /**
   * The call was answered about the meters: whatever is readable for an index of the batch is what that
   * element's meter says, and what a meter says is readable somewhere. Order, empty and repeated
   * answers and answers about other indexes are the wrapper's own business.
   */
  ghost predicate Answers(meters: Meters, batch: seq<Element>, answer: Answer) {
    && answer.Response?
    && (forall j, x ::
          0 <= j < |answer.elements| && 0 <= answer.elements[j].requestIndex < |batch| &&
            Says(answer.elements[j].data, x)
          ==> meters(batch[answer.elements[j].requestIndex]) == Some(x))
    && (forall i :: 0 <= i < |batch| && meters(batch[i]).Some? ==> SaidAbout(answer.elements, i))
  }

  /** Something can be read about the element at an index of the call. */
  ghost predicate SaidAbout(response: seq<ResponseElement>, i: int) {
    exists j, x :: 0 <= j < |response| && response[j].requestIndex == i && Says(response[j].data, x)
  }

  lemma {:induction false} FirstReadableIsTheReading(response: seq<ResponseElement>, index: int, y: Option<real>)
    requires forall j, x :: 0 <= j < |response| && response[j].requestIndex == index && Says(response[j].data, x) ==>
                              y == Some(x)
    ensures FirstReadable(response, index) == if SaidAbout(response, index) then y else None
  {
    hide ReadingOf, Says;
    if response != [] {
      var n := |response| - 1;
      FirstReadableIsTheReading(response[..n], index, y);
      ReadingIsTheFirst(response[n].data);
      SaidAboutMore(response, index);
      if ReadingOf(response[n].data).Some? {
        assert Says(response[n].data, ReadingOf(response[n].data).value);
      }
    }
  }

  lemma SaidAboutMore(response: seq<ResponseElement>, index: int)
    requires response != []
    ensures var n := |response| - 1;
            SaidAbout(response, index) <==>
            SaidAbout(response[..n], index) ||
              (response[n].requestIndex == index && exists x :: Says(response[n].data, x))
  {
    hide Says;
    var n := |response| - 1;
    if j, x :| 0 <= j < n && response[..n][j].requestIndex == index && Says(response[..n][j].data, x) {
      assert response[j] == response[..n][j];
    }
    if j, x :| 0 <= j < |response| && response[j].requestIndex == index && Says(response[j].data, x) {
      if j < n { assert response[..n][j] == response[j]; }
    }
  }

  lemma HonestAbout(meters: Meters, batch: seq<Element>, answer: Answer, i: nat)
    requires Answers(meters, batch, answer) && i < |batch|
    ensures FirstReadable(answer.elements, i) == meters(batch[i])
  {
    hide Says, FirstReadable;
    FirstReadableIsTheReading(answer.elements, i, meters(batch[i]));
  }

  /** What is at every element when every call is answered about the meters, whatever the batch size. */
  lemma {:induction false} ValuesAreTheMeters(meters: Meters, wrapper: Wrapper, elements: seq<Element>, size: nat,
      call: nat)
    requires size > 0 && forall c, batch :: Answers(meters, batch, wrapper(c, batch))
    ensures Values(wrapper, elements, size, call) == Ok(Read(meters, elements))
    decreases |elements|
  {
    if elements != [] {
      var n := if size < |elements| then size else |elements|;
      var batch := elements[..n];
      var answer := wrapper(call, batch);
      assert Answers(meters, batch, answer);
      ValuesAreTheMeters(meters, wrapper, elements[n..], size, call + 1);
      forall i | 0 <= i < n ensures FirstReadable(answer.elements, i) == meters(elements[i]) {
        assert batch[i] == elements[i];
        HonestAbout(meters, batch, answer, i);
      }
      assert Heard(answer.elements, n) + Read(meters, elements[n..]) == Read(meters, elements);
    }
  }

  /** Two fetchers with any batch sizes and any wrappers that answer about the same meters read the same. */
  lemma BatchingIsInvisible(meters: Meters, a: Wrapper, b: Wrapper, devices: seq<Device>, sizeA: int, sizeB: int)
    requires forall c, batch :: Answers(meters, batch, a(c, batch))
    requires forall c, batch :: Answers(meters, batch, b(c, batch))
    ensures Values(a, Elements(Asks(devices)), BatchSize(sizeA), 0) ==
            Values(b, Elements(Asks(devices)), BatchSize(sizeB), 0)
    ensures Values(a, Elements(Asks(devices)), BatchSize(sizeA), 0).Ok?
  {
    ValuesAreTheMeters(meters, a, Elements(Asks(devices)), BatchSize(sizeA), 0);
    ValuesAreTheMeters(meters, b, Elements(Asks(devices)), BatchSize(sizeB), 0);
  }

  // ---- what a device's reading is ----

  /** A column's distance, by what the meters say at both ends of it. */
  function ColumnDistance(meters: Meters, deviceId: Id, c: Column): Option<real> {
    var a, b := meters(Element(deviceId, c.serviceId, c.name, First)),
      meters(Element(deviceId, c.serviceId, c.name, Last));
    if a.Some? && b.Some? then Some(b.value - a.value) else None
  }

  /** The plain definition: over a device's distinct columns of the carrier, the sum of the distances there are. */
  function Used(meters: Meters, deviceId: Id, columns: seq<Column>, carrier: Carrier): Option<real> {
    if columns == [] then None
    else
      var c := columns[|columns| - 1];
      Plus(Used(meters, deviceId, columns[..|columns| - 1], carrier),
           if c.carrier == carrier then ColumnDistance(meters, deviceId, c) else None)
  }

  function Read(meters: Meters, elements: seq<Element>): (r: seq<Option<real>>)
    ensures |r| == |elements|
  {
    seq(|elements|, i requires 0 <= i < |elements| => meters(elements[i]))
  }

  lemma PlusAssociates(a: Option<real>, b: Option<real>, c: Option<real>)
    ensures Plus(Plus(a, b), c) == Plus(a, Plus(b, c))
  {}

  /** The asks of one more device add what that device used, if it is the one looked at. */
  lemma {:induction false} SumOfOneMore(meters: Meters, before: seq<Ask>, deviceId: Id, columns: seq<Column>,
      key: ReadingKey)
    ensures var asks := before + AsksOf(deviceId, columns);
            Sum(asks, Read(meters, Elements(asks)), key, |asks|) ==
            Plus(Sum(before, Read(meters, Elements(before)), key, |before|),
                 if deviceId == key.deviceId then Used(meters, deviceId, columns, key.carrier) else None)
    decreases |columns|
  {
    if columns == [] {
      assert before + AsksOf(deviceId, columns) == before;
    } else {
      var shorter, c := columns[..|columns| - 1], columns[|columns| - 1];
      SumOfOneMore(meters, before, deviceId, shorter, key);
      var asks, fewer := before + AsksOf(deviceId, columns), before + AsksOf(deviceId, shorter);
      var a := Ask(deviceId, c.serviceId, c.name, c.carrier);
      assert asks == fewer + [a];
      SumGrows(meters, fewer, a, key);
      PlusAssociates(Sum(before, Read(meters, Elements(before)), key, |before|),
                     if deviceId == key.deviceId then Used(meters, deviceId, shorter, key.carrier) else None,
                     if deviceId == key.deviceId &&
                        c.carrier == key.carrier then ColumnDistance(meters, deviceId, c) else None);
    }
  }

  lemma SumGrows(meters: Meters, asks: seq<Ask>, a: Ask, key: ReadingKey)
    ensures var more := asks + [a];
            Sum(more, Read(meters, Elements(more)), key, |more|) ==
            Plus(Sum(asks, Read(meters, Elements(asks)), key, |asks|),
                 if a.deviceId == key.deviceId && a.carrier == key.carrier
                 then ColumnDistance(meters, a.deviceId, Column(a.serviceId, a.column, a.carrier)) else None)
  {
    var more := asks + [a];
    AsksGrow(asks, a);
    SumOfPrefix(asks, more, Read(meters, Elements(asks)), Read(meters, Elements(more)), key, |asks|);
  }

  lemma {:induction false} SumOfPrefix(asks: seq<Ask>, more: seq<Ask>, read: seq<Option<real>>,
      readMore: seq<Option<real>>, key: ReadingKey, n: nat)
    requires n <= |asks| && asks <= more && read <= readMore && |read| == 2 * |asks| && |readMore| == 2 * |more|
    ensures Sum(asks, read, key, n) == Sum(more, readMore, key, n)
  {
    if n > 0 { SumOfPrefix(asks, more, read, readMore, key, n - 1); }
  }

  lemma {:induction false} NothingElsewhere(meters: Meters, devices: seq<Device>, key: ReadingKey)
    requires forall d :: d in devices ==> d.id != key.deviceId
    ensures Sum(Asks(devices), Read(meters, Elements(Asks(devices))), key, |Asks(devices)|) == None
    decreases |devices|
  {
    if devices != [] {
      var before, d := devices[..|devices| - 1], devices[|devices| - 1];
      NothingElsewhere(meters, before, key);
      SumOfOneMore(meters, Asks(before), d.id, DistinctColumns(d.columns), key);
    }
  }

  /** A device's figure is its own and nobody else's, wherever it stands among the devices asked about. */
  lemma {:induction false} EachDeviceOnItsOwn(meters: Meters, devices: seq<Device>, k: nat, carrier: Carrier)
    requires DistinctDeviceIds(devices) && k < |devices|
    ensures Sum(Asks(devices), Read(meters, Elements(Asks(devices))), ReadingKey(devices[k].id, carrier),
            |Asks(devices)|) ==
            Used(meters, devices[k].id, DistinctColumns(devices[k].columns), carrier)
    decreases |devices|
  {
    var before, d := devices[..|devices| - 1], devices[|devices| - 1];
    var key := ReadingKey(devices[k].id, carrier);
    SumOfOneMore(meters, Asks(before), d.id, DistinctColumns(d.columns), key);
    if k < |devices| - 1 {
      EachDeviceOnItsOwn(meters, before, k, carrier);
    } else {
      NothingElsewhere(meters, before, key);
    }
  }

  // ---- the same, column by column ----

  /** A device's column counts for a carrier if none before it names the same value and both its ends were read. */
  ghost predicate Counts(meters: Meters, deviceId: Id, columns: seq<Column>, k: nat, carrier: Carrier)
    requires k < |columns|
  {
    var c := columns[k];
    && c.carrier == carrier
    && (forall j :: 0 <= j < k ==> !(columns[j].carrier == c.carrier && columns[j].name == c.name))
    && meters(Element(deviceId, c.serviceId, c.name, First)).Some?
    && meters(Element(deviceId, c.serviceId, c.name, Last)).Some?
  }

  /** The later end less the earlier one, over the columns that count among the first n. */
  ghost function Total(meters: Meters, deviceId: Id, columns: seq<Column>, carrier: Carrier, n: nat): real
    requires n <= |columns|
  {
    if n == 0 then 0.0
    else
      var c := columns[n - 1];
      Total(meters, deviceId, columns, carrier, n - 1)
      + if Counts(meters, deviceId, columns, n - 1, carrier)
        then meters(Element(deviceId, c.serviceId, c.name, Last)).value
             - meters(Element(deviceId, c.serviceId, c.name, First)).value
        else 0.0
  }

  ghost predicate AnyCounts(meters: Meters, deviceId: Id, columns: seq<Column>, carrier: Carrier, n: nat)
    requires n <= |columns|
  {
    exists k :: 0 <= k < n && Counts(meters, deviceId, columns, k, carrier)
  }

  lemma {:induction false} UsedIsTotal(meters: Meters, deviceId: Id, columns: seq<Column>, carrier: Carrier, n: nat)
    requires n <= |columns|
    ensures Used(meters, deviceId, DistinctColumns(columns[..n]), carrier) ==
            if AnyCounts(meters, deviceId, columns, carrier, n) then Some(Total(meters, deviceId, columns, carrier, n))
            else None
    ensures !AnyCounts(meters, deviceId, columns, carrier, n) ==> Total(meters, deviceId, columns, carrier, n) == 0.0
  {
    hide Counts, AnyCounts, DistinctColumns, Used;
    if n == 0 {
      NothingCounts(meters, deviceId, columns, carrier);
    } else {
      UsedIsTotal(meters, deviceId, columns, carrier, n - 1);
      UsedGrows(meters, deviceId, columns, carrier, n - 1);
      AnyCountsGrows(meters, deviceId, columns, carrier, n - 1);
      CountsHasEnds(meters, deviceId, columns, carrier, n - 1);
    }
  }

  lemma NothingCounts(meters: Meters, deviceId: Id, columns: seq<Column>, carrier: Carrier)
    ensures !AnyCounts(meters, deviceId, columns, carrier, 0)
    ensures Used(meters, deviceId, DistinctColumns(columns[..0]), carrier) == None
  {}

  lemma AnyCountsGrows(meters: Meters, deviceId: Id, columns: seq<Column>, carrier: Carrier, k: nat)
    requires k < |columns|
    ensures AnyCounts(meters, deviceId, columns, carrier, k + 1) <==>
            AnyCounts(meters, deviceId, columns, carrier, k) || Counts(meters, deviceId, columns, k, carrier)
  {
    hide Counts;
  }

  lemma CountsHasEnds(meters: Meters, deviceId: Id, columns: seq<Column>, carrier: Carrier, k: nat)
    requires k < |columns|
    ensures Counts(meters, deviceId, columns, k, carrier) ==> ColumnDistance(meters, deviceId, columns[k]).Some?
  {}

  lemma UsedGrows(meters: Meters, deviceId: Id, columns: seq<Column>, carrier: Carrier, k: nat)
    requires k < |columns|
    ensures Used(meters, deviceId, DistinctColumns(columns[..k + 1]), carrier) ==
            Plus(Used(meters, deviceId, DistinctColumns(columns[..k]), carrier),
                 if Counts(meters, deviceId, columns, k, carrier) then ColumnDistance(meters, deviceId, columns[k])
                 else None)
  {
    hide AskedAlready;
    var c, before := columns[k], DistinctColumns(columns[..k]);
    assert columns[..k + 1][..k] == columns[..k] && columns[..k + 1][k] == c;
    assert DistinctColumns(columns[..k + 1]) == before + if AskedAlready(columns[..k], c) then [] else [c];
    assert (before + [c])[..|before|] == before && before + [] == before;
    AskedBefore(columns, k);
  }

  lemma AskedBefore(columns: seq<Column>, k: nat)
    requires k < |columns|
    ensures AskedAlready(columns[..k], columns[k]) <==>
            exists j :: 0 <= j < k && columns[j].carrier == columns[k].carrier && columns[j].name == columns[k].name
  {
    if j :| 0 <= j < k && columns[j].carrier == columns[k].carrier && columns[j].name == columns[k].name {
      assert SameValue(columns[..k][j], columns[k]);
    }
  }

  /** The figures there are, are those of the devices' columns that count, each device's own. */
  ghost predicate Measures(m: Readings, meters: Meters, devices: seq<Device>) {
    && (forall k, carrier :: 0 <= k < |devices| ==> MeasuresOne(m, meters, devices[k], carrier))
    && (forall key :: key in m ==> exists k :: 0 <= k < |devices| && devices[k].id == key.deviceId)
  }

  ghost predicate MeasuresOne(m: Readings, meters: Meters, d: Device, carrier: Carrier) {
    var key := ReadingKey(d.id, carrier);
    && (key in m <==> AnyCounts(meters, d.id, d.columns, carrier, |d.columns|))
    && (key in m ==> m[key] == Total(meters, d.id, d.columns, carrier, |d.columns|))
  }

  /** The wrapper answers every call about these meters. */
  ghost predicate Honest(meters: Meters, wrapper: Wrapper) {
    forall c, batch :: Answers(meters, batch, wrapper(c, batch))
  }

  /**
   * Batched and matched by index or not: of an honest wrapper Fetch learns, for every device and
   * carrier, the sum of the distances over the columns that count - no entry where none does, and no
   * entry about anything else.
   */
  lemma FetchedIsUsed(meters: Meters, wrapper: Wrapper, devices: seq<Device>, configured: int, m: Readings)
    requires DistinctDeviceIds(devices) && Honest(meters, wrapper)
    requires var values := Values(wrapper, Elements(Asks(devices)), BatchSize(configured), 0);
             values.Ok? ==>
               && |values.value| == 2 * |Asks(devices)|
               && IsTotal(m, Asks(devices), values.value, |Asks(devices)|)
    ensures Values(wrapper, Elements(Asks(devices)), BatchSize(configured), 0).Ok? && Measures(m, meters, devices)
  {
    hide Values, Sum, Answers, Elements, Asks, Used, DistinctColumns, AnyCounts, Total;
    ValuesAreTheMeters(meters, wrapper, Elements(Asks(devices)), BatchSize(configured), 0);
    forall k, carrier | 0 <= k < |devices| ensures MeasuresOne(m, meters, devices[k], carrier) {
      var d := devices[k];
      EachDeviceOnItsOwn(meters, devices, k, carrier);
      UsedIsTotal(meters, d.id, d.columns, carrier, |d.columns|);
      assert d.columns[..|d.columns|] == d.columns;
    }
    forall key | key in m ensures exists k :: 0 <= k < |devices| && devices[k].id == key.deviceId {
      if forall d :: d in devices ==> d.id != key.deviceId {
        NothingElsewhere(meters, devices, key);
      }
    }
  }

  // ---- no partial answer ----

  function Flat(batches: seq<seq<Element>>): seq<Element> {
    if batches == [] then [] else batches[0] + Flat(batches[1..])
  }

  /** The elements in calls of this size, the last one perhaps shorter, none empty. */
  ghost predicate Batched(elements: seq<Element>, size: nat, batches: seq<seq<Element>>) {
    && Flat(batches) == elements
    && (forall k :: 0 <= k < |batches| ==> 0 < |batches[k]| <= size)
    && (forall k :: 0 <= k < |batches| - 1 ==> |batches[k]| == size)
  }

  /** What the calls over the batches are answered, from this call number on. */
  ghost predicate AnswersTo(wrapper: Wrapper, batches: seq<seq<Element>>, call: nat, answers: seq<Answer>) {
    |answers| == |batches| && forall k :: 0 <= k < |answers| ==> answers[k] == wrapper(call + k, batches[k])
  }

  /** All calls before this one were answered, and it ended otherwise. */
  ghost predicate StopsAt(answers: seq<Answer>, k: nat, answer: Answer)
    requires k < |answers|
  {
    answers[k] == answer && forall i :: 0 <= i < k ==> answers[i].Response?
  }

  /**
   * All or nothing: there is an answer exactly when every call was answered, and otherwise the failure
   * is that of the first call that was not.
   */
  ghost predicate AllOrNothing(answers: seq<Answer>, r: Result<seq<Option<real>>>) {
    && (r.Ok? <==> forall k :: 0 <= k < |answers| ==> answers[k].Response?)
    && (r.Cancelled? <==> exists k :: 0 <= k < |answers| && StopsAt(answers, k, Gone))
    && (r.Broken? <==> exists k :: 0 <= k < |answers| && StopsAt(answers, k, Failed))
  }

  lemma {:induction false} ValuesAreWhole(wrapper: Wrapper, elements: seq<Element>, size: nat, call: nat)
    returns (batches: seq<seq<Element>>, answers: seq<Answer>)
    requires size > 0
    ensures Batched(elements, size, batches) && AnswersTo(wrapper, batches, call, answers)
    ensures AllOrNothing(answers, Values(wrapper, elements, size, call))
    decreases |elements|
  {
    hide Heard, Batched, AllOrNothing, AnswersTo;
    if elements == [] {
      batches, answers := [], [];
      NoBatches(wrapper, size, call);
    } else {
      var n := if size < |elements| then size else |elements|;
      var rest, later := ValuesAreWhole(wrapper, elements[n..], size, call + 1);
      batches, answers := [elements[..n]] + rest, [wrapper(call, elements[..n])] + later;
      BatchedGrows(elements, size, n, rest);
      AnswersGrow(wrapper, elements[..n], rest, call, later);
      assert answers[1..] == later;
      WholeGrows(answers, Values(wrapper, elements[n..], size, call + 1), Values(wrapper, elements, size, call));
    }
  }

  lemma NoBatches(wrapper: Wrapper, size: nat, call: nat)
    ensures Batched([], size, []) && AnswersTo(wrapper, [], call, []) && AllOrNothing([], Ok([]))
  {}

  lemma AnswersGrow(wrapper: Wrapper, first: seq<Element>, rest: seq<seq<Element>>, call: nat, later: seq<Answer>)
    requires AnswersTo(wrapper, rest, call + 1, later)
    ensures AnswersTo(wrapper, [first] + rest, call, [wrapper(call, first)] + later)
  {
    var batches, answers := [first] + rest, [wrapper(call, first)] + later;
    forall k | 0 <= k < |answers| ensures answers[k] == wrapper(call + k, batches[k]) {
      if k > 0 { assert answers[k] == later[k - 1] == wrapper(call + 1 + (k - 1), rest[k - 1]); }
    }
  }

  lemma BatchedGrows(elements: seq<Element>, size: nat, n: nat, rest: seq<seq<Element>>)
    requires 0 < n <= |elements| && n <= size && (n < size ==> n == |elements|) && Batched(elements[n..], size, rest)
    ensures Batched(elements, size, [elements[..n]] + rest)
  {
    var batches := [elements[..n]] + rest;
    assert batches[1..] == rest && elements[..n] + elements[n..] == elements;
    assert n == |elements| ==> rest == [] by { if rest != [] { assert |Flat(rest)| >= |rest[0]|; } }
  }

  lemma WholeGrows(answers: seq<Answer>, later: Result<seq<Option<real>>>, r: Result<seq<Option<real>>>)
    requires answers != [] && AllOrNothing(answers[1..], later)
    requires match answers[0]
             case Gone => r == Cancelled
             case Failed => r == Broken
             case Response(_) => r.Ok? == later.Ok? && r.Cancelled? == later.Cancelled? && r.Broken? == later.Broken?
    ensures AllOrNothing(answers, r)
  {
    StopsLater(answers, Gone);
    StopsLater(answers, Failed);
    assert forall k :: 0 < k < |answers| ==> answers[k] == answers[1..][k - 1];
  }

  lemma StopsLater(answers: seq<Answer>, answer: Answer)
    requires answers != []
    ensures (exists k :: 0 <= k < |answers| && StopsAt(answers, k, answer)) <==>
            answers[0] == answer
            || (answers[0].Response? && exists k :: 0 <= k < |answers[1..]| && StopsAt(answers[1..], k, answer))
  {
    var rest := answers[1..];
    if answers[0] == answer { assert StopsAt(answers, 0, answer); }
    if k :| 0 <= k < |rest| && StopsAt(rest, k, answer) {
      assert forall i :: 0 < i <= k + 1 ==> answers[i] == rest[i - 1];
      assert answers[0].Response? ==> StopsAt(answers, k + 1, answer);
    }
    if k :| 0 <= k < |answers| && StopsAt(answers, k, answer) {
      if k > 0 {
        assert forall i :: 0 <= i < k ==> rest[i] == answers[i + 1];
        assert StopsAt(rest, k - 1, answer);
      }
    }
  }
}
