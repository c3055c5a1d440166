/** The incremental form answers like the generator. */
module Refinement {
  import opened Sorting
  import opened Model
  import opened Placement
  import opened Tree
  import opened Drawing
  import opened Attaching

  // ---- the two rules side by side, on a placing ----

  function Nameless(r: Rank): Rank { r.(prefix := 0) }

  /** Meter `a` is what the rule picks when names are not compared; -1 if nothing fits. */
  ghost predicate IsNamelessChoice(ms: seq<Meter>, ps: seq<int>, n: nat, tolerance: real, a: int)
    requires n < |ms| && n <= |ps| && Upward(ps)
  {
    if a < 0 then a == -1 && forall j :: 0 <= j < n ==> !Takes(ms, ps, j, n, tolerance)
    else
      && a < n && Takes(ms, ps, a, n, tolerance)
      && forall j :: 0 <= j < n && j != a && Takes(ms, ps, j, n, tolerance) ==>
                       Shallower(Nameless(RankOf(ms, ps, a, n, ms[n].name)), Nameless(RankOf(ms, ps, j, n, ms[n].name)))
  }

  /** `j` can take meter `n` and ties with `a` on depth and remaining capacity. */
  predicate Ties(ms: seq<Meter>, ps: seq<int>, n: nat, tolerance: real, a: nat, j: nat)
    requires a < n && j < n < |ms| && n <= |ps| && Upward(ps)
  {
    && Takes(ms, ps, j, n, tolerance)
    && Depth(ps, j) == Depth(ps, a)
    && Remaining(ms, ps, j, n) == Remaining(ms, ps, a, n)
  }

  /** No meter that ties with the lowest-id winner shares a longer name prefix with the newcomer. */
  predicate NamesDecideNothing(ms: seq<Meter>, ps: seq<int>, n: nat, tolerance: real, a: int)
    requires a < n < |ms| && n <= |ps| && Upward(ps)
  {
    a >= 0 ==> forall j :: 0 <= j < n && Ties(ms, ps, n, tolerance, a, j) ==>
                             CommonPrefixLength(ms[j].name, ms[n].name) <= CommonPrefixLength(ms[a].name, ms[n].name)
  }

  /** The two rules agree exactly when the name prefix does not break a tie against the lower id. */
  lemma ChoicesAgree(ms: seq<Meter>, ps: seq<int>, n: nat, tolerance: real, b: int, a: int)
    requires n < |ms| && n <= |ps| && Upward(ps)
    requires IsChoice(ms, ps, n, tolerance, b) && IsNamelessChoice(ms, ps, n, tolerance, a)
    ensures a == b <==> NamesDecideNothing(ms, ps, n, tolerance, a)
  {
    hide Takes, Depth, Remaining, CommonPrefixLength, Before;
    if a >= 0 && b >= 0 && a != b {
      var ra, rb := RankOf(ms, ps, a, n, ms[n].name), RankOf(ms, ps, b, n, ms[n].name);
      assert Shallower(rb, ra) && Shallower(Nameless(ra), Nameless(rb));
      BeforeAsymmetric(ra.id, rb.id);
      assert Ties(ms, ps, n, tolerance, a, b);
    }
  }

  /**
   * The condition is not idle. Two meters of 30 under a supply of 60 tie for a newcomer of 20: the
   * generator follows the name, the incremental form, which cannot see names, the lower id.
   */
  lemma NamesMayDecide()
    ensures var ms :=
            [Meter("t", "supply", 60.0), Meter("u", "office", 30.0), Meter("v", "shop light", 30.0),
            Meter("w", "shop fridge", 20.0)];
            IsChoice(ms, [-1, 0, 0], 3, 0.0, 2) && IsNamelessChoice(ms, [-1, 0, 0], 3, 0.0, 1)
  {
    hide ChildSum, Depth, CommonPrefixLength, Before;
    TieFigures();
  }

  lemma TieFigures()
    ensures var ms :=
            [Meter("t", "supply", 60.0), Meter("u", "office", 30.0), Meter("v", "shop light", 30.0),
            Meter("w", "shop fridge", 20.0)];
            && ChildSum(ms, [-1, 0, 0], 0, 3) == 60.0 && ChildSum(ms, [-1, 0, 0], 1, 3) == 0.0 &&
               ChildSum(ms, [-1, 0, 0], 2, 3) == 0.0
    ensures Depth([-1, 0, 0], 0) == 1 && Depth([-1, 0, 0], 1) == 2 && Depth([-1, 0, 0], 2) == 2
    ensures CommonPrefixLength("office", "shop fridge") == 0 < CommonPrefixLength("shop light", "shop fridge")
    ensures Before("u", "v")
  {
    var ms := [Meter("t", "supply", 60.0), Meter("u", "office", 30.0), Meter("v", "shop light", 30.0),
      Meter("w", "shop fridge", 20.0)];
    assert forall j :: ChildSum(ms, [-1, 0, 0], j, 1) == if -1 == j then 60.0 else 0.0;
    assert forall j :: ChildSum(ms, [-1, 0, 0], j, 2) == ChildSum(ms, [-1, 0, 0], j, 1) + if 0 == j then 30.0 else 0.0;
  }

  // ---- sums over sets of children ----

  ghost function SumOver(s: set<Id>, f: Id -> real): real {
    if s == {} then 0.0
    else
      var x :| x in s;
      f(x) + SumOver(s - {x}, f)
  }

  lemma {:induction false} SumOverWith(s: set<Id>, x: Id, f: Id -> real)
    requires x !in s
    ensures SumOver(s + {x}, f) == SumOver(s, f) + f(x)
  {
    var t := s + {x};
    var y :| y in t && SumOver(t, f) == f(y) + SumOver(t - {y}, f);
    if y == x {
      assert t - {y} == s;
    } else {
      assert t - {y} == (s - {y}) + {x};
      SumOverWith(s - {y}, x, f);
      assert s == (s - {y}) + {y};
      SumOverWith(s - {y}, y, f);
    }
  }

  ghost function Members(ids: seq<Id>): set<Id> { set i | 0 <= i < |ids| :: ids[i] }

  predicate NoRepeats(ids: seq<Id>) {
    forall i, j :: 0 <= i < j < |ids| ==> ids[i] != ids[j]
  }

  lemma MembersAppend(ids: seq<Id>)
    requires ids != [] && NoRepeats(ids)
    ensures var n := |ids| - 1;
            Members(ids) == Members(ids[..n]) + {ids[n]} && ids[n] !in Members(ids[..n]) && NoRepeats(ids[..n])
  {
    var n := |ids| - 1;
    forall x | x in Members(ids) ensures x in Members(ids[..n]) + {ids[n]} {
      var i :| 0 <= i < |ids| && ids[i] == x;
      if i < n { assert ids[..n][i] == x; }
    }
    forall x | x in Members(ids[..n]) + {ids[n]} ensures x in Members(ids) {
      if x != ids[n] {
        var i :| 0 <= i < n && ids[..n][i] == x;
        assert ids[i] == x;
      }
    }
  }

  lemma {:induction false} ExplainedIsSum(nodes: seq<Node>, c: Carrier, readings: Readings, children: seq<Id>)
    requires NoRepeats(children)
    ensures Explained(nodes, c, readings, children) == SumOver(Members(children), x => Explains(nodes, c, readings, x))
  {
    hide Explains;
    if children != [] {
      var n := |children| - 1;
      MembersAppend(children);
      ExplainedIsSum(nodes, c, readings, children[..n]);
      SumOverWith(Members(children[..n]), children[n], x => Explains(nodes, c, readings, x));
    }
  }

  /** The ids of the meters among the first `n` that hang under meter `j`. */
  ghost function KidsOf(ms: seq<Meter>, ps: seq<int>, j: int, n: nat): set<Id>
    requires n <= |ms| && n <= |ps|
  {
    set k | 0 <= k < n && ps[k] == j :: ms[k].id
  }

  lemma {:induction false} ChildSumIsSum(ms: seq<Meter>, ps: seq<int>, j: int, n: nat, f: Id -> real)
    requires n <= |ms| && n <= |ps| && DistinctIds(ms)
    requires forall k :: 0 <= k < n && ps[k] == j ==> f(ms[k].id) == ms[k].value
    ensures ChildSum(ms, ps, j, n) == SumOver(KidsOf(ms, ps, j, n), f)
  {
    if n > 0 {
      ChildSumIsSum(ms, ps, j, n - 1, f);
      if ps[n - 1] == j {
        assert KidsOf(ms, ps, j, n) == KidsOf(ms, ps, j, n - 1) + {ms[n - 1].id};
        SumOverWith(KidsOf(ms, ps, j, n - 1), ms[n - 1].id, f);
      } else {
        assert KidsOf(ms, ps, j, n) == KidsOf(ms, ps, j, n - 1);
      }
    }
  }

  // ---- what a drawn tree looks like from the stored side ----

  lemma {:induction false} ChildrenAre(edges: seq<Edge>, x: Id)
    requires SingleParents(edges)
    ensures NoRepeats(ChildrenOf(edges, x))
    ensures forall y :: y in Members(ChildrenOf(edges, x)) <==> Linked(edges, y, x)
  {
    if edges != [] {
      var n := |edges| - 1;
      ChildrenAre(edges[..n], x);
      var before, after := ChildrenOf(edges[..n], x), ChildrenOf(edges, x);
      if edges[n].to == x {
        forall i | 0 <= i < |before| ensures before[i] != edges[n].from {
          assert before[i] in Members(before);
        }
        MembersAppend(after);
        assert after[..|after| - 1] == before;
      } else {
        assert after == before;
      }
      forall y ensures Linked(edges, y, x) <==> Linked(edges[..n], y, x) || (edges[n].to == x && edges[n].from == y) {
        LinkedAppend(edges, y, x);
      }
    }
  }

  lemma LinkedAppend(edges: seq<Edge>, y: Id, x: Id)
    requires edges != []
    ensures var n := |edges| - 1;
            Linked(edges, y, x) <==> Linked(edges[..n], y, x) || (edges[n].to == x && edges[n].from == y)
  {
    var n := |edges| - 1;
    if Linked(edges, y, x) {
      var i :| 0 <= i < |edges| && edges[i].from == y && edges[i].to == x;
      assert i < n ==> edges[..n][i] == edges[i];
    }
    if Linked(edges[..n], y, x) {
      var i :| 0 <= i < n && edges[..n][i].from == y && edges[..n][i].to == x;
      assert edges[i] == edges[..n][i];
    }
  }

  lemma {:induction false} TableIsLinks(edges: seq<Edge>, y: Id)
    requires SingleParents(edges)
    ensures y in ParentTable(edges) <==> !IsSink(edges, y)
    ensures y in ParentTable(edges) ==> Linked(edges, y, ParentTable(edges)[y])
  {
    if edges != [] {
      var n := |edges| - 1;
      TableIsLinks(edges[..n], y);
      assert IsSink(edges, y) <==> IsSink(edges[..n], y) && edges[n].from != y by {
        assert forall i :: 0 <= i < n ==> edges[..n][i] == edges[i];
      }
      if y in ParentTable(edges) {
        LinkedAppend(edges, y, ParentTable(edges)[y]);
      }
    }
  }

  /** Walking up a drawn tree counts the levels to the root. */
  lemma {:induction false} WalkIsHeight(g: Graph, ds: seq<Device>, readings: Readings, opts: Options, id: Id,
      steps: nat)
    requires Proper(ds) && Draws(g, ds, readings, opts) && Belongs(ds, opts, id)
    requires Height(ds, readings, opts, id) <= steps
    ensures WalkUp(ParentTable(g.edges), id, steps) == Height(ds, readings, opts, id)
    decreases steps
  {
    hide ParentFor, HeightOfDevice, ParentTable;
    TableIsLinks(g.edges, id);
    DrawnHasRoot(g, ds, readings, opts);
    if id != ROOT {
      DrawnHasParent(g, ds, readings, opts, id);
      var parent := ParentTable(g.edges)[id];
      var i :| 0 <= i < |g.edges| && g.edges[i].from == id && g.edges[i].to == parent;
      EdgesLeadUp(ds, readings, opts, id, parent);
      WalkIsHeight(g, ds, readings, opts, parent, steps - 1);
    }
  }

  lemma DrawnHasParent(g: Graph, ds: seq<Device>, readings: Readings, opts: Options, id: Id)
    requires Proper(ds) && Draws(g, ds, readings, opts) && Belongs(ds, opts, id) && id != ROOT
    ensures !IsSink(g.edges, id)
  {
    hide ParentFor;
    if IsDeviceId(ds, id) {
      var k :| 0 <= k < |ds| && ds[k].id == id;
      assert Wanted(ds, readings, opts, id, ParentFor(ds[k], ds, readings, opts));
    } else {
      assert Wanted(ds, readings, opts, id, ROOT);
    }
  }

  lemma {:induction false} DepthBound(ps: seq<int>, i: nat)
    requires Upward(ps) && i < |ps|
    ensures Depth(ps, i) <= i + 1
    decreases i
  {
    if ps[i] >= 0 { DepthBound(ps, ps[i]); }
  }

  lemma {:induction false} NotMoreThan(a: seq<Id>, b: seq<Id>)
    requires NoRepeats(a) && forall i :: 0 <= i < |a| ==> a[i] in b
    ensures |a| <= |b|
  {
    if a != [] {
      var k :| 0 <= k < |b| && b[k] == a[0];
      var rest := b[..k] + b[k + 1..];
      forall i | 0 <= i < |a| - 1 ensures a[1..][i] in rest {
        var m :| 0 <= m < |b| && b[m] == a[i + 1];
        assert rest[if m < k then m else m - 1] == b[m];
      }
      NotMoreThan(a[1..], rest);
    }
  }

  lemma MetersAreNodes(g: Graph, ds: seq<Device>, c: Carrier, readings: Readings, opts: Options)
    requires Proper(ds) && Draws(g, ds, readings, opts)
    ensures |Order(ds, c, readings)| <= |g.nodes|
    ensures forall j :: 0 <= j < |Order(ds, c, readings)| ==> HasNode(g.nodes, Order(ds, c, readings)[j].id)
  {
    hide ParentFor, Order, PlaceAll;
    var ms := Order(ds, c, readings);
    assert DistinctIds(ms) by { OrderWeighable(ds, c, readings); }
    var a, b := seq(|ms|, i requires 0 <= i < |ms| => ms[i].id),
      seq(|g.nodes|, i requires 0 <= i < |g.nodes| => g.nodes[i].id);
    forall j | 0 <= j < |ms| ensures HasNode(g.nodes, ms[j].id) && a[j] in b {
      var d := MeterDevice(ds, c, j, readings, opts);
      var i :| 0 <= i < |ds| && ds[i] == d;
      assert ds[i].id == ms[j].id;
      assert Belongs(ds, opts, ms[j].id);
      var k :| 0 <= k < |g.nodes| && g.nodes[k].id == ms[j].id;
      assert b[k] == a[j];
    }
    NotMoreThan(a, b);
  }

  /** The bounded walk reads off the depth the generator kept. */
  lemma StoredDepth(g: Graph, ds: seq<Device>, c: Carrier, j: nat, readings: Readings, opts: Options)
    requires Proper(ds) && Draws(g, ds, readings, opts) && j < |Order(ds, c, readings)|
    ensures var ms := Order(ds, c, readings);
            WalkUp(ParentTable(g.edges), ms[j].id, |g.nodes| + 1) == Depth(PlaceAll(ms, opts.Tolerance()), j)
  {
    hide Order, PlaceAll, ParentFor, HeightOfDevice, WalkUp;
    var ms := Order(ds, c, readings);
    MeterHeight(ds, c, j, readings, opts);
    DepthBound(PlaceAll(ms, opts.Tolerance()), j);
    MetersAreNodes(g, ds, c, readings, opts);
    var k :| 0 <= k < |g.nodes| && g.nodes[k].id == ms[j].id;
    WalkIsHeight(g, ds, readings, opts, ms[j].id, |g.nodes| + 1);
  }

  // ---- capacity, read off the stored graph ----

  ghost predicate AllMatchColumns(ds: seq<Device>, readings: Readings) {
    forall i :: 0 <= i < |ds| ==> ReadingsMatchColumns(ds[i], readings)
  }

  lemma KidIsLinked(g: Graph, ds: seq<Device>, c: Carrier, j: nat, k: nat, readings: Readings, opts: Options)
    requires Proper(ds) && Draws(g, ds, readings, opts)
    requires var ms := Order(ds, c, readings); j < |ms| && k < |ms| && PlaceAll(ms, opts.Tolerance())[k] == j
    ensures Linked(g.edges, Order(ds, c, readings)[k].id, Order(ds, c, readings)[j].id)
  {
    hide Order, PlaceAll, ParentFor;
    var ms := Order(ds, c, readings);
    var d := MeterDevice(ds, c, k, readings, opts);
    var i :| 0 <= i < |ds| && ds[i] == d;
    assert Wanted(ds, readings, opts, ds[i].id, ms[j].id);
  }

  lemma LinkedIsKid(g: Graph, ds: seq<Device>, c: Carrier, j: nat, y: Id, readings: Readings, opts: Options)
    returns (k: nat)
    requires Proper(ds) && Draws(g, ds, readings, opts) && j < |Order(ds, c, readings)|
    requires Linked(g.edges, y, Order(ds, c, readings)[j].id)
    ensures var ms := Order(ds, c, readings);
            k < |ms| && ms[k].id == y && PlaceAll(ms, opts.Tolerance())[k] == j
  {
    hide Order, PlaceAll, PrimaryOf;
    var x := Order(ds, c, readings)[j].id;
    var owner := MeterDevice(ds, c, j, readings, opts);
    assert x !in [ROOT, NO_FLOW];
    var e :| 0 <= e < |g.edges| && g.edges[e].from == y && g.edges[e].to == x;
    assert Wanted(ds, readings, opts, y, x);
    var i :| 0 <= i < |ds| && ds[i].id == y && x == ParentFor(ds[i], ds, readings, opts);
    var c', p := MeterPlace(ds[i], ds, readings, opts);
    var q := PlaceAll(Order(ds, c', readings), opts.Tolerance())[p];
    var other := MeterDevice(ds, c', q, readings, opts);
    assert owner.id == other.id;
    assert owner == other && c == c';
    assert DistinctIds(Order(ds, c, readings)) by { OrderWeighable(ds, c, readings); }
    k := p;
  }

  lemma {:induction false} ResourceFound(nodes: seq<Node>, i: nat)
    requires DistinctNodeIds(nodes) && i < |nodes|
    ensures ResourceIdOf(nodes, nodes[i].id) == nodes[i].resourceId
  {
    if i < |nodes| - 1 { ResourceFound(nodes[..|nodes| - 1], i); }
  }

  lemma PrimaryIsARead(d: Device, readings: Readings)
    requires PrimaryOf(d, readings).Some?
    ensures var (c, v) := PrimaryOf(d, readings).value;
            ReadingKey(d.id, c) in readings && readings[ReadingKey(d.id, c)] == v
  {
    LargestReadingIsLargest(d.id, d.CarriersOf(), readings);
  }

  lemma MeterExplains(g: Graph, ds: seq<Device>, c: Carrier, k: nat, readings: Readings, opts: Options)
    requires Proper(ds) && Draws(g, ds, readings, opts) && k < |Order(ds, c, readings)|
    ensures Explains(g.nodes, c, readings, Order(ds, c, readings)[k].id) == Order(ds, c, readings)[k].value
  {
    hide Order, PlaceAll, PrimaryOf, ParentFor;
    var d := MeterDevice(ds, c, k, readings, opts);
    var i :| 0 <= i < |ds| && ds[i] == d;
    assert IsDeviceId(ds, d.id);
    assert Belongs(ds, opts, d.id);
    var n :| 0 <= n < |g.nodes| && g.nodes[n].id == d.id;
    assert PlainNode(g.nodes[n], ds);
    ResourceFound(g.nodes, n);
    PrimaryIsARead(d, readings);
  }

  /** The children a meter has in the stored graph are those it was given when placing. */
  lemma KidsAreDrawn(g: Graph, ds: seq<Device>, c: Carrier, j: nat, readings: Readings, opts: Options)
    requires Proper(ds) && Draws(g, ds, readings, opts) && j < |Order(ds, c, readings)|
    ensures var ms := Order(ds, c, readings);
            Members(ChildrenOf(g.edges, ms[j].id)) == KidsOf(ms, PlaceAll(ms, opts.Tolerance()), j, |ms|)
  {
    hide Order, PlaceAll, ParentFor, ChildrenOf, Draws, Linked;
    var ms := Order(ds, c, readings);
    var ps := PlaceAll(ms, opts.Tolerance());
    var children := ChildrenOf(g.edges, ms[j].id);
    assert SingleParents(g.edges) by { DrawnSingle(g, ds, readings, opts); }
    ChildrenAre(g.edges, ms[j].id);
    forall y ensures y in Members(children) <==> y in KidsOf(ms, ps, j, |ms|) {
      if y in KidsOf(ms, ps, j, |ms|) {
        var k :| 0 <= k < |ms| && ps[k] == j && ms[k].id == y;
        KidIsLinked(g, ds, c, j, k, readings, opts);
      }
      if y in Members(children) {
        var k := LinkedIsKid(g, ds, c, j, y, readings, opts);
      }
    }
  }

  /** What the stored graph leaves a meter is what the generator's running array holds for it. */
  lemma StoredRemaining(g: Graph, ds: seq<Device>, c: Carrier, j: nat, readings: Readings, opts: Options)
    requires Proper(ds) && Draws(g, ds, readings, opts) && j < |Order(ds, c, readings)|
    ensures var ms := Order(ds, c, readings);
            Left(g, ms[j].id, ms[j].value, c, readings) == Remaining(ms, PlaceAll(ms, opts.Tolerance()), j, |ms|)
  {
    hide Order, PlaceAll, ParentFor, Explains, ChildSum, Explained, ChildrenOf, SumOver, Draws, Linked;
    var ms := Order(ds, c, readings);
    var ps := PlaceAll(ms, opts.Tolerance());
    var f := x => Explains(g.nodes, c, readings, x);
    var children := ChildrenOf(g.edges, ms[j].id);
    assert DistinctIds(ms) by { OrderWeighable(ds, c, readings); }
    assert SingleParents(g.edges) by { DrawnSingle(g, ds, readings, opts); }
    ChildrenAre(g.edges, ms[j].id);
    forall k | 0 <= k < |ms| ensures f(ms[k].id) == ms[k].value { MeterExplains(g, ds, c, k, readings, opts); }
    KidsAreDrawn(g, ds, c, j, readings, opts);
    ExplainedIsSum(g.nodes, c, readings, children);
    ChildSumIsSum(ms, ps, j, |ms|, f);
  }

  lemma DrawnSingle(g: Graph, ds: seq<Device>, readings: Readings, opts: Options)
    requires Draws(g, ds, readings, opts)
    ensures SingleParents(g.edges)
  {}

  // ---- the same candidates, ranked the same way ----

  lemma CompetesIsMeter(g: Graph, ds: seq<Device>, c: Carrier, n: nat, readings: Readings, opts: Options)
    returns (j: nat)
    requires Proper(ds) && Draws(g, ds, readings, opts) && AllMatchColumns(ds, readings)
    requires n < |g.nodes| && Competes(g.nodes[n], c, readings).Some?
    ensures j < |Order(ds, c, readings)| && Order(ds, c, readings)[j].id == g.nodes[n].id
  {
    hide Order, PlaceAll, LargestReading, ParentFor;
    assert PlainNode(g.nodes[n], ds);
    var i :| 0 <= i < |ds| && ds[i].id == g.nodes[n].id;
    PrimaryFromEveryCarrier(ds[i], readings);
    var c', p := MeterPlace(ds[i], ds, readings, opts);
    j := p;
  }

  lemma MeterCompetes(g: Graph, ds: seq<Device>, c: Carrier, j: nat, readings: Readings, opts: Options) returns (n: nat)
    requires Proper(ds) && Draws(g, ds, readings, opts) && AllMatchColumns(ds, readings) && j < |Order(ds, c, readings)|
    ensures n < |g.nodes| && g.nodes[n].id == Order(ds, c, readings)[j].id
    ensures Competes(g.nodes[n], c, readings) == Some(Order(ds, c, readings)[j].value)
  {
    hide Order, PlaceAll, LargestReading, ParentFor;
    var d := MeterDevice(ds, c, j, readings, opts);
    var i :| 0 <= i < |ds| && ds[i] == d;
    assert IsDeviceId(ds, d.id) && Belongs(ds, opts, d.id);
    n :| 0 <= n < |g.nodes| && g.nodes[n].id == d.id;
    assert PlainNode(g.nodes[n], ds);
    PrimaryFromEveryCarrier(d, readings);
  }

  /** A meter's node is weighed with the meter's own figures, name aside. */
  lemma SameWeighing(g: Graph, ds: seq<Device>, c: Carrier, m: Meter, j: nat, n: nat, readings: Readings, opts: Options)
    requires Proper(ds) && Draws(g, ds, readings, opts) && j < |Order(ds, c, readings)| && n < |g.nodes|
    requires g.nodes[n].id == Order(ds, c, readings)[j].id
    requires Competes(g.nodes[n], c, readings) == Some(Order(ds, c, readings)[j].value)
    ensures var ms := Order(ds, c, readings); var ps := PlaceAll(ms, opts.Tolerance());
            && CanTake(g, g.nodes[n], c, m.value, readings, opts.Tolerance()) ==
               Takes(ms + [m], ps, j, |ms|, opts.Tolerance())
            && RankOfNode(g, g.nodes[n], c, readings) == Nameless(RankOf(ms + [m], ps, j, |ms|, m.name))
  {
    hide Order, PlaceAll, ParentFor, Competes, Draws, Fits, WalkUp, Left, ChildSum, CommonPrefixLength;
    var ms := Order(ds, c, readings);
    var ps := PlaceAll(ms, opts.Tolerance());
    StoredRemaining(g, ds, c, j, readings, opts);
    StoredDepth(g, ds, c, j, readings, opts);
    ChildSumFrame(ms, ps, ms + [m], ps, j, |ms|);
  }

  /** The search over the stored graph finds the nameless choice of the generator's rule. */
  lemma StoredChoice(g: Graph, ds: seq<Device>, c: Carrier, m: Meter, readings: Readings, opts: Options)
    returns (a: int)
    requires Proper(ds) && Draws(g, ds, readings, opts) && AllMatchColumns(ds, readings)
    ensures var ms := Order(ds, c, readings);
            && IsNamelessChoice(ms + [m], PlaceAll(ms, opts.Tolerance()), |ms|, opts.Tolerance(), a)
            && var best := BestNode(g, |g.nodes|, c, m.value, readings, opts.Tolerance());
               if a < 0 then best < 0 else best >= 0 && g.nodes[best].id == ms[a].id
  {
    hide Order, PlaceAll, ParentFor, Competes, Takes, RankOf, RankOfNode, CanTake, Shallower, Draws, BestNode, Depth,
      ChildSum;
    var tol, ms := opts.Tolerance(), Order(ds, c, readings);
    var ps := PlaceAll(ms, tol);
    var best := BestNode(g, |g.nodes|, c, m.value, readings, tol);
    assert DistinctIds(ms) by { OrderWeighable(ds, c, readings); }
    assert DistinctNodeIds(g.nodes) by { DrawnDistinct(g, ds, readings, opts); }
    BestNodeIsBest(g, |g.nodes|, c, m.value, readings, tol);
    a := -1;
    if best >= 0 {
      CanTakeCompetes(g, g.nodes[best], c, m.value, readings, tol);
      a := CompetesIsMeter(g, ds, c, best, readings, opts);
      var n := MeterCompetes(g, ds, c, a, readings, opts);
      assert n == best;
      SameWeighing(g, ds, c, m, a, best, readings, opts);
    }
    forall j | 0 <= j < |ms| && j != a && Takes(ms + [m], ps, j, |ms|, tol)
      ensures a >= 0 &&
              Shallower(Nameless(RankOf(ms + [m], ps, a, |ms|, m.name)),
              Nameless(RankOf(ms + [m], ps, j, |ms|, m.name)))
    {
      var n := MeterCompetes(g, ds, c, j, readings, opts);
      SameWeighing(g, ds, c, m, j, n, readings, opts);
    }
  }

  lemma DrawnDistinct(g: Graph, ds: seq<Device>, readings: Readings, opts: Options)
    requires Draws(g, ds, readings, opts)
    ensures DistinctNodeIds(g.nodes)
  {}

  lemma CanTakeCompetes(g: Graph, n: Node, c: Carrier, value: real, readings: Readings, tolerance: real)
    requires CanTake(g, n, c, value, readings, tolerance)
    ensures Competes(n, c, readings).Some?
  {}

  // ---- the newcomer sorts last ----

  /** A device with a positive reading that sorts last in its carrier. */
  ghost predicate SortsLast(ds: seq<Device>, d: Device, readings: Readings) {
    PrimaryOf(d, readings).Some? ==>
      var (c, v) := PrimaryOf(d, readings).value;
      forall j :: 0 <= j < |Order(ds, c, readings)| ==> MeterBefore(Order(ds, c, readings)[j], MeterOf(d, v))
  }

  lemma OrderExtends(ds: seq<Device>, d: Device, c: Carrier, readings: Readings)
    requires Proper(ds + [d]) && Proper(ds) && SortsLast(ds, d, readings)
    ensures var primary := PrimaryOf(d, readings);
            Order(ds + [d], c, readings)
            == Order(ds, c, readings) + if primary.Some? &&
              primary.value.0 == c then [MeterOf(d, primary.value.1)] else []
  {
    hide PrimaryOf, MeterBefore, Sort;
    var after, primary := ds + [d], PrimaryOf(d, readings);
    assert after[..|ds|] == ds;
    if primary.Some? && primary.value.0 == c {
      var extended := Order(ds, c, readings) + [MeterOf(d, primary.value.1)];
      OrderWeighable(after, c, readings);
      OrderWeighable(ds, c, readings);
      MeterBeforeIsStrictOrder();
      SortedUnique(MeterBefore, Order(after, c, readings), extended);
    } else {
      assert Metered(after, c, readings) == Metered(ds, c, readings);
    }
  }

  lemma PlaceExtends(ms: seq<Meter>, m: Meter, tolerance: real) returns (b: int)
    requires DistinctIds(ms + [m])
    ensures PlaceAll(ms + [m], tolerance) == PlaceAll(ms, tolerance) + [b]
    ensures IsChoice(ms + [m], PlaceAll(ms, tolerance), |ms|, tolerance, b)
  {
    hide IsChoiceAmong;
    var ms', ps := ms + [m], PlaceAll(ms + [m], tolerance);
    b := ps[|ms|];
    assert ms'[..|ms|] == ms && ms[..|ms|] == ms;
    PlaceUpToFrame(ms, ms', |ms|, tolerance);
    PlaceUpToGrows(ms', |ms|, |ms'|, tolerance);
    assert ps == ps[..|ms|] + [b];
    PlaceAllIsGreedy(ms', tolerance);
    ChoiceFrame(ms', ps, ms', ps[..|ms|], |ms|, tolerance, b);
  }

  /**
   * Attaching a device that sorts last gives it the parent the generator would give it over the
   * extended set, exactly when no name prefix breaks a tie against the lower id.
   */
  lemma AttachAnswersAsBuild(g: Graph, ds: seq<Device>, d: Device, readings: Readings, opts: Options) returns (a: int)
    requires Proper(ds + [d]) && Proper(ds) && Draws(g, ds, readings, opts) && AllMatchColumns(ds, readings)
    requires PrimaryOf(d, readings).Some? && SortsLast(ds, d, readings)
    ensures var (c, v) := PrimaryOf(d, readings).value;
            var ms, tol := Order(ds, c, readings), opts.Tolerance();
            && IsNamelessChoice(ms + [MeterOf(d, v)], PlaceAll(ms, tol), |ms|, tol, a)
            && (PlacementIn(g, d, ROOT, readings, opts).parentId == ParentFor(d, ds + [d], readings, opts)
                <==> NamesDecideNothing(ms + [MeterOf(d, v)], PlaceAll(ms, tol), |ms|, tol, a))
  {
    hide Order, PlaceAll, Draws, Shallower, Takes, RankOf, BestNode, Considered, Marked, IsNamelessChoice,
      NamesDecideNothing, IsChoice, LargestReading;
    var (c, v) := PrimaryOf(d, readings).value;
    var ms, m, tol := Order(ds, c, readings), MeterOf(d, v), opts.Tolerance();
    OrderExtends(ds, d, c, readings);
    assert Weighable(ms + [m]) by { OrderWeighable(ds + [d], c, readings); }
    var b := PlaceExtends(ms, m, tol);
    a := StoredChoice(g, ds, c, m, readings, opts);
    NamelessInRange(ms + [m], PlaceAll(ms, tol), |ms|, tol, a);
    ChoicesAgree(ms + [m], PlaceAll(ms, tol), |ms|, tol, b, a);
    var c', p := MeterPlace(d, ds + [d], readings, opts);
    assert (ms + [m])[p].id == (ms + [m])[|ms|].id;
    assert p == |ms|;
    RootlessMeters(ds, c, readings, opts);
    ChoiceInRange(ms + [m], PlaceAll(ms, tol), |ms|, tol, b, a);
  }

  lemma NamelessInRange(ms: seq<Meter>, ps: seq<int>, n: nat, tolerance: real, a: int)
    requires n < |ms| && n <= |ps| && Upward(ps) && IsNamelessChoice(ms, ps, n, tolerance, a)
    ensures -1 <= a < n
  {}

  lemma ChoiceInRange(ms: seq<Meter>, ps: seq<int>, n: nat, tolerance: real, b: int, a: int)
    requires n < |ms| && n <= |ps| && Upward(ps)
    requires IsChoice(ms, ps, n, tolerance, b) && IsNamelessChoice(ms, ps, n, tolerance, a)
    ensures -1 <= b < n && (a < 0 <==> b < 0)
  {}

  lemma RootlessMeters(ds: seq<Device>, c: Carrier, readings: Readings, opts: Options)
    requires Proper(ds)
    ensures forall j :: 0 <= j < |Order(ds, c, readings)| ==> Order(ds, c, readings)[j].id != ROOT
    ensures DistinctIds(Order(ds, c, readings))
  {
    hide Order, ParentFor, PlaceAll;
    OrderWeighable(ds, c, readings);
    forall j | 0 <= j < |Order(ds, c, readings)| ensures Order(ds, c, readings)[j].id != ROOT {
      var d := MeterDevice(ds, c, j, readings, opts);
    }
  }

  // ---- the tree grows leaf by leaf ----

  lemma OthersStay(ds: seq<Device>, d: Device, e: Device, readings: Readings, opts: Options)
    requires Proper(ds + [d]) && Proper(ds) && e in ds && SortsLast(ds, d, readings)
    ensures ParentFor(e, ds + [d], readings, opts) == ParentFor(e, ds, readings, opts)
  {
    hide Order, PlaceUpTo, LargestReading, Best;
    if PrimaryOf(e, readings).Some? {
      var c, p := MeterPlace(e, ds, readings, opts);
      var ms, tol := Order(ds, c, readings), opts.Tolerance();
      OrderExtends(ds, d, c, readings);
      assert e in ds + [d];
      var c', p' := MeterPlace(e, ds + [d], readings, opts);
      var after := Order(ds + [d], c, readings);
      assert DistinctIds(after) by { OrderWeighable(ds + [d], c, readings); }
      assert after[p].id == after[p'].id;
      assert after[..|ms|] == ms[..|ms|];
      PlaceUpToFrame(ms, after, |ms|, tol);
      PlaceUpToGrows(after, |ms|, |after|, tol);
      assert PlaceAll(after, tol)[..|ms|] == PlaceAll(ms, tol);
    }
  }

  /** `d` brings no node of its own beside its device node. */
  predicate NeedsNoCollector(ds: seq<Device>, d: Device, opts: Options) {
    HomeOf(d, opts) == NO_FLOW ==> NeedsCollector(ds, opts)
  }

  lemma CollectorStays(ds: seq<Device>, d: Device, opts: Options)
    requires NeedsNoCollector(ds, d, opts)
    ensures NeedsCollector(ds + [d], opts) == NeedsCollector(ds, opts)
  {
    assert forall i :: 0 <= i < |ds| ==> (ds + [d])[i] == ds[i];
    if NeedsCollector(ds, opts) {
      var i :| 0 <= i < |ds| && HomeOf(ds[i], opts) == NO_FLOW;
      assert HomeOf((ds + [d])[i], opts) == NO_FLOW;
    }
  }

  lemma IdsExtend(ds: seq<Device>, d: Device, id: Id)
    ensures IsDeviceId(ds + [d], id) <==> IsDeviceId(ds, id) || id == d.id
  {
    assert (ds + [d])[|ds|] == d;
    assert forall i :: 0 <= i < |ds| ==> (ds + [d])[i] == ds[i];
    if IsDeviceId(ds, id) {
      var i :| 0 <= i < |ds| && ds[i].id == id;
      assert (ds + [d])[i].id == id;
    }
  }

  lemma WantedExtends(ds: seq<Device>, d: Device, readings: Readings, opts: Options, a: Id, b: Id)
    requires Proper(ds + [d]) && Proper(ds) && SortsLast(ds, d, readings) && NeedsNoCollector(ds, d, opts)
    ensures Wanted(ds + [d], readings, opts, a, b)
            <==> Wanted(ds, readings, opts, a, b) || (a == d.id && b == ParentFor(d, ds + [d], readings, opts))
  {
    hide ParentFor;
    var after := ds + [d];
    CollectorStays(ds, d, opts);
    assert after[|ds|] == d;
    forall i | 0 <= i < |ds|
      ensures after[i] == ds[i] && ParentFor(ds[i], after, readings, opts) == ParentFor(ds[i], ds, readings, opts)
    {
      OthersStay(ds, d, ds[i], readings, opts);
    }
    if Wanted(ds, readings, opts, a, b) && !(a == NO_FLOW && b == ROOT && NeedsCollector(ds, opts)) {
      var i :| 0 <= i < |ds| && ds[i].id == a && b == ParentFor(ds[i], ds, readings, opts);
      assert after[i].id == a;
    }
  }

  lemma LeafNodesDraw(g: Graph, ds: seq<Device>, d: Device, readings: Readings, opts: Options, parent: Id, edgeId: Id)
    requires Proper(ds + [d]) && Draws(g, ds, readings, opts) && NeedsNoCollector(ds, d, opts)
    ensures DrawsNodes(AddLeaf(g, d.id, parent, edgeId).nodes, ds + [d], opts)
  {
    hide ParentFor;
    var w := AddLeaf(g, d.id, parent, edgeId);
    CollectorStays(ds, d, opts);
    forall id ensures IsDeviceId(ds + [d], id) <==> IsDeviceId(ds, id) || id == d.id { IdsExtend(ds, d, id); }
    assert (ds + [d])[|ds|] == d;
    assert forall i :: 0 <= i < |ds| ==> (ds + [d])[i] == ds[i];
    assert !IsDeviceId(ds, d.id);
    assert !Belongs(ds, opts, d.id);
    forall i | 0 <= i < |w.nodes| ensures Belongs(ds + [d], opts, w.nodes[i].id) && PlainNode(w.nodes[i], ds + [d]) {
      if i < |g.nodes| { assert w.nodes[i] == g.nodes[i] && Belongs(ds, opts, g.nodes[i].id) &&
         PlainNode(g.nodes[i], ds); }
    }
    forall id | Belongs(ds + [d], opts, id) ensures HasNode(w.nodes, id) {
      if id == d.id {
        assert w.nodes[|g.nodes|].id == id;
      } else {
        assert Belongs(ds, opts, id);
        var i :| 0 <= i < |g.nodes| && g.nodes[i].id == id;
        assert w.nodes[i].id == id;
      }
    }
  }

  lemma LeafEdgesDraw(g: Graph, ds: seq<Device>, d: Device, readings: Readings, opts: Options, parent: Id, edgeId: Id)
    requires Proper(ds + [d]) && Proper(ds) && Draws(g, ds, readings, opts)
    requires SortsLast(ds, d, readings) && NeedsNoCollector(ds, d, opts) &&
             parent == ParentFor(d, ds + [d], readings, opts)
    ensures DrawsEdges(AddLeaf(g, d.id, parent, edgeId).edges, ds + [d], readings, opts)
  {
    hide ParentFor, Wanted, Belongs;
    var w := AddLeaf(g, d.id, parent, edgeId);
    forall a, b
      ensures Wanted(ds + [d], readings, opts, a, b) <==> Wanted(ds, readings, opts, a, b) || (a == d.id && b == parent)
      ensures Linked(w.edges, a, b) <==> Linked(g.edges, a, b) || (a == d.id && b == parent)
    {
      WantedExtends(ds, d, readings, opts, a, b);
      LinkedAppend(w.edges, a, b);
      assert w.edges[..|g.edges|] == g.edges;
    }
    forall i | 0 <= i < |g.edges| ensures w.edges[i] == g.edges[i] && g.edges[i].from != d.id {
      NotYetThere(ds, d, readings, opts, g.edges[i].from, g.edges[i].to);
    }
  }

  lemma NotYetThere(ds: seq<Device>, d: Device, readings: Readings, opts: Options, a: Id, b: Id)
    requires Proper(ds + [d]) && Wanted(ds, readings, opts, a, b)
    ensures a != d.id
  {
    hide ParentFor;
    assert (ds + [d])[|ds|] == d;
    assert forall i :: 0 <= i < |ds| ==> (ds + [d])[i] == ds[i];
  }

  /** `d` can join the tree over `ds` next: it is placed after what is there, and by no name. */
  ghost predicate Joins(ds: seq<Device>, d: Device, readings: Readings, opts: Options) {
    && Proper(ds + [d]) && ReadingsMatchColumns(d, readings)
    && NeedsNoCollector(ds, d, opts)
    && SortsLast(ds, d, readings)
    && (PrimaryOf(d, readings).Some? ==> PlacedByNoName(ds, d, readings, opts))
  }

  ghost predicate PlacedByNoName(ds: seq<Device>, d: Device, readings: Readings, opts: Options)
    requires PrimaryOf(d, readings).Some?
  {
    var (c, v) := PrimaryOf(d, readings).value;
    var ms, tol := Order(ds, c, readings), opts.Tolerance();
    forall a | IsNamelessChoice(ms + [MeterOf(d, v)], PlaceAll(ms, tol), |ms|, tol, a) ::
      NamesDecideNothing(ms + [MeterOf(d, v)], PlaceAll(ms, tol), |ms|, tol, a)
  }

  lemma JoinedParent(g: Graph, ds: seq<Device>, d: Device, readings: Readings, opts: Options)
    requires Proper(ds) && Draws(g, ds, readings, opts) && AllMatchColumns(ds, readings) && Joins(ds, d, readings, opts)
    ensures PlacementIn(g, d, ROOT, readings, opts).parentId == ParentFor(d, ds + [d], readings, opts)
  {
    hide Draws, PrimaryOf, BestNode, Considered, Marked, Order, PlaceAll, NamesDecideNothing, IsNamelessChoice;
    if PrimaryOf(d, readings).Some? {
      var a := AttachAnswersAsBuild(g, ds, d, readings, opts);
    } else {
      DrawnCollector(g, ds, readings, opts);
    }
  }

  lemma DrawnCollector(g: Graph, ds: seq<Device>, readings: Readings, opts: Options)
    requires Proper(ds) && Draws(g, ds, readings, opts)
    ensures HasNode(g.nodes, NO_FLOW) <==> NeedsCollector(ds, opts)
    ensures RootNodeId(g) == Some(ROOT)
  {
    hide ParentFor;
    assert Belongs(ds, opts, ROOT);
    if HasNode(g.nodes, NO_FLOW) {
      var i :| 0 <= i < |g.nodes| && g.nodes[i].id == NO_FLOW;
      assert Belongs(ds, opts, g.nodes[i].id);
    }
    if NeedsCollector(ds, opts) { assert Belongs(ds, opts, NO_FLOW); }
  }

  lemma NewcomerAbsent(g: Graph, ds: seq<Device>, d: Device, readings: Readings, opts: Options)
    requires Proper(ds + [d]) && Draws(g, ds, readings, opts)
    ensures d.id != "" && Absent(g.nodes, d.id)
  {
    hide ParentFor;
    assert (ds + [d])[|ds|] == d;
    assert forall i :: 0 <= i < |ds| ==> (ds + [d])[i] == ds[i];
    forall i | 0 <= i < |g.nodes| ensures g.nodes[i].id != d.id && g.nodes[i].resourceId != d.id {
      assert Belongs(ds, opts, g.nodes[i].id) && PlainNode(g.nodes[i], ds);
    }
  }

  /** One attach: a drawn tree stays a drawn tree, over one device more. */
  lemma AttachDraws(g: Graph, ds: seq<Device>, d: Device, readings: Readings, opts: Options, next: nat,
      valid: Graph -> bool)
    requires opts.FreshIds() && (forall x :: valid(x) <==> Valid(x)) && Valid(g)
    requires Proper(ds) && Draws(g, ds, readings, opts) && AllMatchColumns(ds, readings) && Joins(ds, d, readings, opts)
    ensures var r := AttachTo(g, d, readings, opts, next, valid);
            && r.Attached? && Valid(r.graph) && Draws(r.graph, ds + [d], readings, opts)
            && r.placement.parentId == ParentFor(d, ds + [d], readings, opts)
  {
    hide Valid, PlacementIn, ParentFor, AddLeaf, FindDeviceNode, Draws, Absent;
    NewcomerAbsent(g, ds, d, readings, opts);
    NewcomerAddsOneLeaf(g, d, readings, opts, next, valid);
    DrawnCollector(g, ds, readings, opts);
    JoinedParent(g, ds, d, readings, opts);
    var r := AttachTo(g, d, readings, opts, next, valid);
    var edgeId :| r.graph == AddLeaf(g, d.id, r.placement.parentId, edgeId);
    LeafDraws(g, ds, d, readings, opts, r.placement.parentId, edgeId);
  }

  lemma LeafDraws(g: Graph, ds: seq<Device>, d: Device, readings: Readings, opts: Options, parent: Id, edgeId: Id)
    requires Proper(ds + [d]) && Proper(ds) && Draws(g, ds, readings, opts)
    requires SortsLast(ds, d, readings) && NeedsNoCollector(ds, d, opts) &&
             parent == ParentFor(d, ds + [d], readings, opts)
    ensures Draws(AddLeaf(g, d.id, parent, edgeId), ds + [d], readings, opts)
  {
    hide ParentFor, DrawsNodes, DrawsEdges;
    LeafNodesDraw(g, ds, d, readings, opts, parent, edgeId);
    LeafEdgesDraw(g, ds, d, readings, opts, parent, edgeId);
  }

  ghost predicate JoinInTurn(ds: seq<Device>, queue: seq<Device>, readings: Readings, opts: Options)
    decreases |queue|
  {
    queue == [] || (Joins(ds, queue[0], readings, opts) && JoinInTurn(ds + [queue[0]], queue[1..], readings, opts))
  }

  /** Attaches the devices of a queue one after the other; the first refusal ends it. */
  function AttachAll(g: Graph, queue: seq<Device>, readings: Readings, opts: Options, next: nat,
      valid: Graph -> bool): Option<Graph>
    requires opts.FreshIds()
    decreases |queue|
  {
    if queue == [] then Some(g)
    else
      match AttachTo(g, queue[0], readings, opts, next, valid)
      case AlreadyThere => AttachAll(g, queue[1..], readings, opts, next, valid)
      case Attached(g', _, next') => AttachAll(g', queue[1..], readings, opts, next', valid)
      case Refused(_) => None
  }

  lemma {:induction false} AttachAllDraws(g: Graph, ds: seq<Device>, queue: seq<Device>, readings: Readings,
      opts: Options, next: nat, valid: Graph -> bool)
    requires opts.FreshIds() && (forall x :: valid(x) <==> Valid(x)) && Valid(g)
    requires Proper(ds) && Draws(g, ds, readings, opts) && AllMatchColumns(ds, readings) &&
             JoinInTurn(ds, queue, readings, opts)
    ensures var r := AttachAll(g, queue, readings, opts, next, valid);
            r.Some? && Valid(r.value) && Draws(r.value, ds + queue, readings, opts)
    ensures Proper(ds + queue)
    decreases |queue|
  {
    hide Valid, Draws, AttachTo, Joins, ReadingsMatchColumns;
    if queue == [] {
      assert ds + queue == ds;
    } else {
      JoinedIsProper(ds, queue[0], readings, opts);
      AttachDraws(g, ds, queue[0], readings, opts, next, valid);
      var r := AttachTo(g, queue[0], readings, opts, next, valid);
      AttachAllDraws(r.graph, ds + [queue[0]], queue[1..], readings, opts, r.next, valid);
      assert ds + [queue[0]] + queue[1..] == ds + queue;
    }
  }

  lemma JoinedIsProper(ds: seq<Device>, d: Device, readings: Readings, opts: Options)
    requires Joins(ds, d, readings, opts) && AllMatchColumns(ds, readings)
    ensures Proper(ds + [d]) && AllMatchColumns(ds + [d], readings)
  {
    hide ReadingsMatchColumns;
    assert forall i :: 0 <= i < |ds + [d]| ==> (ds + [d])[i] == if i < |ds| then ds[i] else d;
  }

  /**
   * Folding the incremental form over devices in placing order, from the graph the generator makes
   * of the others - none of them, for the bare root - rebuilds the generator's tree.
   */
  lemma FoldRebuildsBuild(owner: Id, group: Group, ds: seq<Device>, queue: seq<Device>, readings: Readings,
      opts: Options, next: nat, valid: Graph -> bool)
    requires opts.FreshIds() && (forall x :: valid(x) <==> Valid(x)) && owner != ""
    requires Proper(ds) && AllMatchColumns(ds, readings) && JoinInTurn(ds, queue, readings, opts)
    ensures var r := AttachAll(GraphOf(owner, group, ds, readings, opts), queue, readings, opts, next, valid);
            var built := GraphOf(owner, group, ds + queue, readings, opts);
            && r.Some? && Valid(r.value)
            && (forall id :: HasNode(r.value.nodes, id) <==> HasNode(built.nodes, id))
            && (forall a, b :: Linked(r.value.edges, a, b) <==> Linked(built.edges, a, b))
  {
    hide GraphOf, Valid, AttachAll, ParentFor, HasNode, Linked;
    BuildDraws(owner, group, ds, readings, opts);
    AttachAllDraws(GraphOf(owner, group, ds, readings, opts), ds, queue, readings, opts, next, valid);
    BuildDraws(owner, group, ds + queue, readings, opts);
    var r := AttachAll(GraphOf(owner, group, ds, readings, opts), queue, readings, opts, next, valid).value;
    SameTree(r, GraphOf(owner, group, ds + queue, readings, opts), ds + queue, readings, opts);
  }

  lemma SameTree(g: Graph, h: Graph, ds: seq<Device>, readings: Readings, opts: Options)
    requires Draws(g, ds, readings, opts) && Draws(h, ds, readings, opts)
    ensures forall id :: HasNode(g.nodes, id) <==> HasNode(h.nodes, id)
    ensures forall a, b :: Linked(g.edges, a, b) <==> Linked(h.edges, a, b)
  {
    hide ParentFor, Wanted, Belongs;
    forall a, b ensures Linked(g.edges, a, b) <==> Wanted(ds, readings, opts, a, b)
      ensures Linked(h.edges, a, b) <==> Wanted(ds, readings, opts, a, b)
    {
      if Linked(g.edges, a, b) { var i :| 0 <= i < |g.edges| && g.edges[i].from == a && g.edges[i].to == b; }
      if Linked(h.edges, a, b) { var i :| 0 <= i < |h.edges| && h.edges[i].from == a && h.edges[i].to == b; }
    }
    forall id ensures HasNode(g.nodes, id) <==> Belongs(ds, opts, id)
      ensures HasNode(h.nodes, id) <==> Belongs(ds, opts, id)
    {
      if HasNode(g.nodes, id) { var i :| 0 <= i < |g.nodes| && g.nodes[i].id == id; }
      if HasNode(h.nodes, id) { var i :| 0 <= i < |h.nodes| && h.nodes[i].id == id; }
    }
  }
}
