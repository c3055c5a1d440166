/**
 * The greedy allocator that hangs the meters of one carrier under each other.
 *
 * A placing is a sequence `ps`: `ps[i]` is the position of the parent of meter `i`, or -1 for the
 * root. What a meter has left and how deep it sits are read off the placing itself, so the running
 * `remaining` and `depth` arrays of the loop are implementation.
 */
module Placement {
  import opened Sorting

  datatype Meter = Meter(id: Id, name: string, value: real)

  datatype Reason = ByCapacity | AtRootNothingFits | AtRootNoReading | AtRootLargest

  datatype Candidate = Candidate(deviceId: Id, remaining: real, fits: bool, chosen: bool)

  datatype Placed = Placed(deviceId: Id, value: real, parentId: Id, reason: Reason, candidates: seq<Candidate>)

  const ROOT: Id := "root"

  /** Descending by reading, then by id. */
  predicate MeterBefore(a: Meter, b: Meter) {
    a.value > b.value || (a.value == b.value && Before(a.id, b.id))
  }

  predicate DistinctIds(ms: seq<Meter>) {
    forall i, j :: 0 <= i < j < |ms| ==> ms[i].id != ms[j].id
  }

  /** What the placing loop is entitled to assume about the meters of one carrier. */
  ghost predicate Weighable(ms: seq<Meter>) {
    && StrictlySorted(MeterBefore, ms)
    && DistinctIds(ms)
    && forall i :: 0 <= i < |ms| ==> ms[i].value > 0.0
  }

  lemma MeterBeforeIsStrictOrder()
    ensures StrictOrder(MeterBefore)
  {
    BeforeIsStrictOrder();
  }

  lemma DistinctIdsDecide(ms: seq<Meter>)
    requires DistinctIds(ms)
    ensures Decided(MeterBefore, ms)
  {
    forall i, j | 0 <= i < j < |ms| ensures MeterBefore(ms[i], ms[j]) || MeterBefore(ms[j], ms[i]) {
      BeforeTotal(ms[i].id, ms[j].id);
    }
  }

  // ---- what a placing says ----

  predicate Upward(ps: seq<int>) {
    forall i :: 0 <= i < |ps| ==> -1 <= ps[i] < i
  }

  /** What the children among the first `n` meters read together under meter `j`. */
  function ChildSum(ms: seq<Meter>, ps: seq<int>, j: int, n: nat): real
    requires n <= |ms| && n <= |ps|
  {
    if n == 0 then 0.0
    else ChildSum(ms, ps, j, n - 1) + if ps[n - 1] == j then ms[n - 1].value else 0.0
  }

  /** What meter `j` measured that none of the first `n` meters explains. */
  function Remaining(ms: seq<Meter>, ps: seq<int>, j: nat, n: nat): real
    requires j < |ms| && n <= |ms| && n <= |ps|
  {
    ms[j].value - ChildSum(ms, ps, j, n)
  }

  /** The number of edges between meter `i` and the root. */
  function Depth(ps: seq<int>, i: nat): nat
    requires i < |ps| && Upward(ps)
    decreases i
  {
    if ps[i] < 0 then 1 else 1 + Depth(ps, ps[i])
  }

  /** The containment test: not explained by its own children yet, and room left. */
  predicate Fits(own: real, remaining: real, value: real, tolerance: real) {
    !(remaining < own * tolerance) && remaining >= value * (1.0 - tolerance)
  }

  function CommonPrefixLength(a: string, b: string): nat {
    if a == [] || b == [] || a[0] != b[0] then 0 else 1 + CommonPrefixLength(a[1..], b[1..])
  }

  /** The length of the longest prefix two names share. */
  lemma {:induction false} PrefixIsLongestCommon(a: string, b: string)
    ensures var n := CommonPrefixLength(a, b);
            && n <= |a| && n <= |b| && a[..n] == b[..n]
            && forall k :: 0 <= k <= |a| && k <= |b| && a[..k] == b[..k] ==> k <= n
  {
    var n := CommonPrefixLength(a, b);
    if n > 0 {
      PrefixIsLongestCommon(a[1..], b[1..]);
      assert a[..n] == [a[0]] + a[1..][..n - 1] && b[..n] == [b[0]] + b[1..][..n - 1];
      forall k | 0 < k <= |a| && k <= |b| && a[..k] == b[..k] ensures k <= n {
        assert a[1..][..k - 1] == a[..k][1..] && b[1..][..k - 1] == b[..k][1..];
      }
    } else {
      forall k | 0 < k <= |a| && k <= |b| ensures a[..k] != b[..k] {
        assert a[..k][0] == a[0] && b[..k][0] == b[0];
      }
    }
  }

  datatype Rank = Rank(depth: int, remaining: real, prefix: int, id: Id)

  /** Shallowest, then roomiest, then by the longer common name prefix, then by id. */
  predicate Shallower(a: Rank, b: Rank) {
    if a.depth != b.depth then a.depth < b.depth
    else if a.remaining != b.remaining then a.remaining > b.remaining
    else if a.prefix != b.prefix then a.prefix > b.prefix
    else Before(a.id, b.id)
  }

  lemma ShallowerTransitive(a: Rank, b: Rank, c: Rank)
    requires Shallower(a, b) && Shallower(b, c)
    ensures Shallower(a, c)
  {
    if a.depth == c.depth && a.remaining == c.remaining && a.prefix == c.prefix {
      BeforeTransitive(a.id, b.id, c.id);
    }
  }

  lemma ShallowerTotal(a: Rank, b: Rank)
    requires a.id != b.id
    ensures Shallower(a, b) || Shallower(b, a)
  {
    BeforeTotal(a.id, b.id);
  }

  /** The rule is a strict total order as soon as the ids differ, so it never leaves a tie. */
  lemma ShallowerIsStrictOrder()
    ensures StrictOrder(Shallower)
    ensures forall a: Rank, b: Rank :: a.id != b.id ==> Shallower(a, b) || Shallower(b, a)
  {
    BeforeIsStrictOrder();
    forall a: Rank, b: Rank, c: Rank | Shallower(a, b) && Shallower(b, c) ensures Shallower(a, c) {
      ShallowerTransitive(a, b, c);
    }
    forall a: Rank, b: Rank | a.id != b.id ensures Shallower(a, b) || Shallower(b, a) {
      BeforeTotal(a.id, b.id);
    }
  }

  function RankOf(ms: seq<Meter>, ps: seq<int>, j: nat, n: nat, name: string): Rank
    requires j < n <= |ms| && n <= |ps| && Upward(ps)
  {
    Rank(Depth(ps, j), Remaining(ms, ps, j, n), CommonPrefixLength(ms[j].name, name), ms[j].id)
  }

  /** Meter `j` can take meter `n` once the first `n` meters are placed. */
  predicate Takes(ms: seq<Meter>, ps: seq<int>, j: nat, n: nat, tolerance: real)
    requires j < n < |ms| && n <= |ps|
  {
    Fits(ms[j].value, Remaining(ms, ps, j, n), ms[n].value, tolerance)
  }

  /** `b` is the best for meter `n` of the first `k` meters that can take it, -1 if none can. */
  ghost predicate IsChoiceAmong(ms: seq<Meter>, ps: seq<int>, n: nat, k: nat, tolerance: real, b: int)
    requires k <= n < |ms| && n <= |ps| && Upward(ps)
  {
    if b < 0 then
      b == -1 && forall j :: 0 <= j < k ==> !Takes(ms, ps, j, n, tolerance)
    else
      && b < k
      && Takes(ms, ps, b, n, tolerance)
      && forall j :: 0 <= j < k && j != b && Takes(ms, ps, j, n, tolerance) ==>
                       Shallower(RankOf(ms, ps, b, n, ms[n].name), RankOf(ms, ps, j, n, ms[n].name))
  }

  /** `b` is the parent the rule asks for: the best of those that fit, the root if none does. */
  ghost predicate IsChoice(ms: seq<Meter>, ps: seq<int>, n: nat, tolerance: real, b: int)
    requires n < |ms| && n <= |ps| && Upward(ps)
  {
    IsChoiceAmong(ms, ps, n, n, tolerance, b)
  }

  /** The reference form of the allocator: every meter, in order, hangs where the rule says. */
  ghost predicate Greedy(ms: seq<Meter>, ps: seq<int>, tolerance: real) {
    && |ps| == |ms|
    && Upward(ps)
    && forall n :: 0 <= n < |ms| ==> IsChoice(ms, ps, n, tolerance, ps[n])
  }

  // ---- the allocator as a function ----

  /** The running winner after weighing the first `k` candidates for meter `n`. */
  function Best(ms: seq<Meter>, ps: seq<int>, n: nat, k: nat, tolerance: real): (b: int)
    requires k <= n < |ms| && n <= |ps| && Upward(ps)
    ensures -1 <= b < k
  {
    if k == 0 then -1
    else
      var b := Best(ms, ps, n, k - 1, tolerance);
      if Takes(ms, ps, k - 1, n, tolerance)
         && (b == -1 || Shallower(RankOf(ms, ps, k - 1, n, ms[n].name), RankOf(ms, ps, b, n, ms[n].name)))
      then k - 1 else b
  }

  function PlaceUpTo(ms: seq<Meter>, n: nat, tolerance: real): (ps: seq<int>)
    requires n <= |ms|
    ensures |ps| == n && Upward(ps)
  {
    if n == 0 then []
    else
      var ps := PlaceUpTo(ms, n - 1, tolerance);
      ps + [Best(ms, ps, n - 1, n - 1, tolerance)]
  }

  function PlaceAll(ms: seq<Meter>, tolerance: real): (ps: seq<int>)
    ensures |ps| == |ms| && Upward(ps)
  {
    PlaceUpTo(ms, |ms|, tolerance)
  }

  // ---- a placing depends on its beginning only ----

  lemma {:induction false} ChildSumFrame(ms: seq<Meter>, ps: seq<int>, ms': seq<Meter>, ps': seq<int>, j: int, n: nat)
    requires n <= |ms| && n <= |ps| && n <= |ms'| && n <= |ps'|
    requires ms[..n] == ms'[..n] && ps[..n] == ps'[..n]
    ensures ChildSum(ms, ps, j, n) == ChildSum(ms', ps', j, n)
  {
    if n > 0 {
      assert ms[n - 1] == ms[..n][n - 1] && ms'[n - 1] == ms'[..n][n - 1];
      assert ps[n - 1] == ps[..n][n - 1] && ps'[n - 1] == ps'[..n][n - 1];
      assert ms[..n - 1] == ms[..n][..n - 1] && ms'[..n - 1] == ms'[..n][..n - 1];
      assert ps[..n - 1] == ps[..n][..n - 1] && ps'[..n - 1] == ps'[..n][..n - 1];
      ChildSumFrame(ms, ps, ms', ps', j, n - 1);
    }
  }

  lemma {:induction false} DepthFrame(ps: seq<int>, ps': seq<int>, i: nat, n: nat)
    requires i < n <= |ps| && n <= |ps'| && Upward(ps) && Upward(ps')
    requires ps[..n] == ps'[..n]
    ensures Depth(ps, i) == Depth(ps', i)
    decreases i
  {
    assert ps[i] == ps[..n][i] == ps'[i];
    if ps[i] >= 0 {
      DepthFrame(ps, ps', ps[i], n);
    }
  }

  lemma CandidateFrame(ms: seq<Meter>, ps: seq<int>, ms': seq<Meter>, ps': seq<int>, n: nat, tolerance: real)
    requires n < |ms| && n <= |ps| && n < |ms'| && n <= |ps'| && Upward(ps) && Upward(ps')
    requires ms[..n + 1] == ms'[..n + 1] && ps[..n] == ps'[..n]
    ensures forall j :: 0 <= j < n ==>
                          && Takes(ms, ps, j, n, tolerance) == Takes(ms', ps', j, n, tolerance)
                          && RankOf(ms, ps, j, n, ms[n].name) == RankOf(ms', ps', j, n, ms'[n].name)
  {
    forall j | 0 <= j < n
      ensures Remaining(ms, ps, j, n) == Remaining(ms', ps', j, n) && Depth(ps, j) == Depth(ps', j)
      ensures ms[j] == ms'[j]
    {
      assert ms[j] == ms[..n + 1][j] && ms'[j] == ms'[..n + 1][j];
      assert ms[..n] == ms[..n + 1][..n] && ms'[..n] == ms'[..n + 1][..n];
      ChildSumFrame(ms, ps, ms', ps', j, n);
      DepthFrame(ps, ps', j, n);
    }
    assert ms[n] == ms[..n + 1][n] && ms'[n] == ms'[..n + 1][n];
  }

  lemma {:induction false} BestFrame(ms: seq<Meter>, ps: seq<int>, ms': seq<Meter>, ps': seq<int>, n: nat, k: nat,
      tolerance: real)
    requires k <= n < |ms| && n <= |ps| && n < |ms'| && n <= |ps'| && Upward(ps) && Upward(ps')
    requires ms[..n + 1] == ms'[..n + 1] && ps[..n] == ps'[..n]
    ensures Best(ms, ps, n, k, tolerance) == Best(ms', ps', n, k, tolerance)
  {
    if k > 0 {
      CandidateFrame(ms, ps, ms', ps', n, tolerance);
      BestFrame(ms, ps, ms', ps', n, k - 1, tolerance);
    }
  }

  /** Meters that come later never change where the earlier ones hang. */
  lemma {:induction false} PlaceUpToFrame(ms: seq<Meter>, ms': seq<Meter>, n: nat, tolerance: real)
    requires n <= |ms| && n <= |ms'| && ms[..n] == ms'[..n]
    ensures PlaceUpTo(ms, n, tolerance) == PlaceUpTo(ms', n, tolerance)
  {
    if n > 0 {
      assert ms[..n - 1] == ms[..n][..n - 1] && ms'[..n - 1] == ms'[..n][..n - 1];
      PlaceUpToFrame(ms, ms', n - 1, tolerance);
      var ps := PlaceUpTo(ms, n - 1, tolerance);
      BestFrame(ms, ps, ms', ps, n - 1, n - 1, tolerance);
    }
  }

  lemma {:induction false} PlaceUpToGrows(ms: seq<Meter>, n: nat, k: nat, tolerance: real)
    requires n <= k <= |ms|
    ensures PlaceUpTo(ms, k, tolerance)[..n] == PlaceUpTo(ms, n, tolerance)
    decreases k
  {
    if n < k {
      PlaceUpToGrows(ms, n, k - 1, tolerance);
      assert PlaceUpTo(ms, k, tolerance)[..n] == PlaceUpTo(ms, k - 1, tolerance)[..n];
    }
  }

  // ---- the function is the reference form ----

  lemma {:induction false} BestIsLeast(ms: seq<Meter>, ps: seq<int>, n: nat, k: nat, tolerance: real)
    requires k <= n < |ms| && n <= |ps| && Upward(ps) && DistinctIds(ms)
    ensures IsChoiceAmong(ms, ps, n, k, tolerance, Best(ms, ps, n, k, tolerance))
  {
    if k > 0 {
      BestIsLeast(ms, ps, n, k - 1, tolerance);
      var b := Best(ms, ps, n, k - 1, tolerance);
      if b >= 0 && Takes(ms, ps, k - 1, n, tolerance) {
        var rb, rk := RankOf(ms, ps, b, n, ms[n].name), RankOf(ms, ps, k - 1, n, ms[n].name);
        assert rb.id == ms[b].id && rk.id == ms[k - 1].id;
        BeforeTotal(rb.id, rk.id);
        forall j | 0 <= j < k - 1 && j != b && Takes(ms, ps, j, n, tolerance) && Shallower(rk, rb)
          ensures Shallower(rk, RankOf(ms, ps, j, n, ms[n].name))
        {
          ShallowerTransitive(rk, rb, RankOf(ms, ps, j, n, ms[n].name));
        }
      }
    }
  }

  /** The allocator follows the rule, and the rule leaves it no choice. */
  lemma PlaceAllIsGreedy(ms: seq<Meter>, tolerance: real)
    requires DistinctIds(ms)
    ensures Greedy(ms, PlaceAll(ms, tolerance), tolerance)
  {
    var ps := PlaceAll(ms, tolerance);
    forall n | 0 <= n < |ms| ensures IsChoice(ms, ps, n, tolerance, ps[n]) {
      BestIsStep(ms, n, tolerance);
      BestIsLeast(ms, ps, n, n, tolerance);
    }
  }

  lemma ChoiceUnique(ms: seq<Meter>, ps: seq<int>, n: nat, tolerance: real, b: int, c: int)
    requires n < |ms| && n <= |ps| && Upward(ps)
    requires IsChoice(ms, ps, n, tolerance, b) && IsChoice(ms, ps, n, tolerance, c)
    ensures b == c
  {
    ShallowerIsStrictOrder();
  }

  lemma ChoiceFrame(ms: seq<Meter>, ps: seq<int>, ms': seq<Meter>, ps': seq<int>, n: nat, tolerance: real, b: int)
    requires n < |ms| && n <= |ps| && n < |ms'| && n <= |ps'| && Upward(ps) && Upward(ps')
    requires ms[..n + 1] == ms'[..n + 1] && ps[..n] == ps'[..n]
    ensures IsChoice(ms, ps, n, tolerance, b) == IsChoice(ms', ps', n, tolerance, b)
  {
    CandidateFrame(ms, ps, ms', ps', n, tolerance);
  }

  lemma {:induction false} GreedyUniqueUpTo(ms: seq<Meter>, ps: seq<int>, qs: seq<int>, n: nat, tolerance: real)
    requires Greedy(ms, ps, tolerance) && Greedy(ms, qs, tolerance) && n <= |ms|
    ensures ps[..n] == qs[..n]
  {
    hide IsChoice;
    if n > 0 {
      GreedyUniqueUpTo(ms, ps, qs, n - 1, tolerance);
      assert IsChoice(ms, ps, n - 1, tolerance, ps[n - 1]) && IsChoice(ms, qs, n - 1, tolerance, qs[n - 1]);
      ChoiceFrame(ms, ps, ms, qs, n - 1, tolerance, qs[n - 1]);
      ChoiceUnique(ms, ps, n - 1, tolerance, ps[n - 1], qs[n - 1]);
      assert ps[..n] == ps[..n - 1] + [ps[n - 1]] && qs[..n] == qs[..n - 1] + [qs[n - 1]];
    }
  }

  lemma GreedyUnique(ms: seq<Meter>, ps: seq<int>, tolerance: real)
    requires DistinctIds(ms) && Greedy(ms, ps, tolerance)
    ensures ps == PlaceAll(ms, tolerance)
  {
    PlaceAllIsGreedy(ms, tolerance);
    GreedyUniqueUpTo(ms, ps, PlaceAll(ms, tolerance), |ms|, tolerance);
    assert ps[..|ms|] == ps && PlaceAll(ms, tolerance)[..|ms|] == PlaceAll(ms, tolerance);
  }

  // ---- what follows for the tree ----

  /** A meter that nothing has been placed after has its whole reading left. */
  lemma {:induction false} NoChildrenYet(ms: seq<Meter>, ps: seq<int>, j: nat, n: nat)
    requires n <= |ms| && n <= |ps| && Upward(ps) && n <= j + 1
    ensures ChildSum(ms, ps, j, n) == 0.0
  {
    if n > 0 {
      NoChildrenYet(ms, ps, j, n - 1);
    }
  }

  lemma WholeFits(own: real, value: real, tolerance: real)
    requires own >= value > 0.0 && 0.0 <= tolerance <= 1.0
    ensures Fits(own, own, value, tolerance)
  {
    assert own * tolerance <= own;
    assert value * tolerance >= 0.0;
  }

  lemma FitBounds(own: real, explained: real, value: real, tolerance: real)
    requires Fits(own, own - explained, value, tolerance)
    ensures explained <= own - own * tolerance
    ensures explained + value <= own + value * tolerance
  {}

  lemma OverrunStep(own: real, explained: real, value: real, larger: real, tolerance: real)
    requires Fits(own, own - explained, value, tolerance) && larger >= value && tolerance >= 0.0
    ensures explained <= own - own * tolerance
    ensures explained + value <= own + larger * tolerance
  {
    FitBounds(own, explained, value, tolerance);
    assert larger * tolerance >= value * tolerance;
  }

  /** Every meter but the largest has an eligible parent: the one weighed just before it. */
  lemma PredecessorTakes(ms: seq<Meter>, ps: seq<int>, n: nat, tolerance: real)
    requires Weighable(ms) && 0.0 <= tolerance <= 1.0 && Upward(ps)
    requires 0 < n < |ms| && n <= |ps|
    ensures Takes(ms, ps, n - 1, n, tolerance)
  {
    NoChildrenYet(ms, ps, n - 1, n);
    assert MeterBefore(ms[n - 1], ms[n]);
    WholeFits(ms[n - 1].value, ms[n].value, tolerance);
  }

  /** A carrier has exactly one meter under the root, its largest. */
  lemma OnlyLargestAtRoot(ms: seq<Meter>, ps: seq<int>, tolerance: real)
    requires Weighable(ms) && 0.0 <= tolerance <= 1.0 && Greedy(ms, ps, tolerance)
    ensures forall n :: 0 <= n < |ms| ==> (ps[n] == -1 <==> n == 0)
    ensures forall n :: 0 <= n < |ms| ==> ms[n].value <= ms[0].value
  {
    forall n | 0 < n < |ms| ensures ps[n] != -1 && ms[n].value <= ms[0].value {
      assert IsChoice(ms, ps, n, tolerance, ps[n]);
      PredecessorTakes(ms, ps, n, tolerance);
      assert MeterBefore(ms[0], ms[n]);
    }
    if ms != [] {
      assert IsChoice(ms, ps, 0, tolerance, ps[0]);
    }
  }

  /**
   * What the containment test asks, in terms of the children: they explain at most `1 - tolerance` of
   * the meter, and what they leave of it covers at least `1 - tolerance` of the newcomer.
   */
  lemma TakesExactly(ms: seq<Meter>, ps: seq<int>, j: nat, n: nat, tolerance: real)
    requires j < n < |ms| && n <= |ps|
    ensures Takes(ms, ps, j, n, tolerance) <==>
            && ChildSum(ms, ps, j, n) <= (1.0 - tolerance) * ms[j].value
            && ms[j].value >= ChildSum(ms, ps, j, n) + (1.0 - tolerance) * ms[n].value
  {
    assert (1.0 - tolerance) * ms[j].value == ms[j].value - ms[j].value * tolerance;
  }

  /**
   * The parent among those that can take a meter: none of them is shallower, none as shallow has more
   * room, none as roomy shares a longer prefix of the name, and none that ties in all has a lower id.
   */
  lemma ParentIsShallowestRoomiest(ms: seq<Meter>, ps: seq<int>, tolerance: real, n: nat, j: nat)
    requires Greedy(ms, ps, tolerance) && j < n < |ms| && Takes(ms, ps, j, n, tolerance)
    ensures var b := ps[n];
            && 0 <= b < n && Depth(ps, n) == Depth(ps, b) + 1 && Depth(ps, b) <= Depth(ps, j)
            && (Depth(ps, b) == Depth(ps, j) ==> Remaining(ms, ps, b, n) >= Remaining(ms, ps, j, n))
            && (Depth(ps, b) == Depth(ps, j) && Remaining(ms, ps, b, n) == Remaining(ms, ps, j, n) ==>
                  CommonPrefixLength(ms[b].name, ms[n].name) >= CommonPrefixLength(ms[j].name, ms[n].name))
            && (b != j && RankOf(ms, ps, b, n, ms[n].name).(id := "") == RankOf(ms, ps, j, n, ms[n].name).(id := "") ==>
                  Before(ms[b].id, ms[j].id))
  {
    hide Takes, CommonPrefixLength, Remaining;
    assert IsChoice(ms, ps, n, tolerance, ps[n]);
  }

  /** A level is only added when every shallower meter is out of capacity. */
  lemma DepthOnlyWhenForced(ms: seq<Meter>, ps: seq<int>, tolerance: real, n: nat, j: nat)
    requires Weighable(ms) && 0.0 <= tolerance <= 1.0 && Greedy(ms, ps, tolerance)
    requires j < n < |ms| && Depth(ps, j) + 1 < Depth(ps, n)
    ensures !Takes(ms, ps, j, n, tolerance)
  {
    assert IsChoice(ms, ps, n, tolerance, ps[n]);
  }

  /**
   * Capacity accounting for the children of one meter: before its child `i` arrived the others
   * explained at most `1 - tolerance` of it, and all children together exceed it by at most the
   * tolerance share of child `i` - of any child, hence of its smallest.
   */
  lemma CapacityRespected(ms: seq<Meter>, ps: seq<int>, tolerance: real, i: nat)
    requires Weighable(ms) && 0.0 <= tolerance <= 1.0 && Greedy(ms, ps, tolerance)
    requires i < |ms| && ps[i] >= 0
    ensures ChildSum(ms, ps, ps[i], i) <= ms[ps[i]].value - ms[ps[i]].value * tolerance
    ensures ChildSum(ms, ps, ps[i], |ms|) <= ms[ps[i]].value + ms[i].value * tolerance
    ensures Remaining(ms, ps, ps[i], |ms|) >= -(ms[i].value * tolerance)
  {
    var j := ps[i];
    ChildBound(ms, ps, tolerance, i, i);
    forall k | i <= k < |ms| && ps[k] == j
      ensures ChildSum(ms, ps, j, k) + ms[k].value <= ms[j].value + ms[i].value * tolerance
    {
      ChildBound(ms, ps, tolerance, i, k);
    }
    SumBounded(ms, ps, j, i, |ms|, ms[j].value + ms[i].value * tolerance);
  }

  lemma ChildBound(ms: seq<Meter>, ps: seq<int>, tolerance: real, i: nat, k: nat)
    requires Weighable(ms) && 0.0 <= tolerance <= 1.0 && Greedy(ms, ps, tolerance)
    requires i <= k < |ms| && 0 <= ps[k] == ps[i]
    ensures ChildSum(ms, ps, ps[k], k) <= ms[ps[k]].value - ms[ps[k]].value * tolerance
    ensures ChildSum(ms, ps, ps[k], k) + ms[k].value <= ms[ps[k]].value + ms[i].value * tolerance
  {
    hide Shallower, RankOf, Depth, MeterBefore;
    GreedyTakes(ms, ps, tolerance, k);
    Descending(ms, i, k);
    hide *;
    TakenBound(ms, ps, tolerance, i, k);
  }

  lemma GreedyTakes(ms: seq<Meter>, ps: seq<int>, tolerance: real, k: nat)
    requires Greedy(ms, ps, tolerance) && k < |ms| && ps[k] >= 0
    ensures Takes(ms, ps, ps[k], k, tolerance)
  {
    assert IsChoice(ms, ps, k, tolerance, ps[k]);
  }

  lemma Descending(ms: seq<Meter>, i: nat, k: nat)
    requires StrictlySorted(MeterBefore, ms) && i <= k < |ms|
    ensures ms[i].value >= ms[k].value
  {
    assert i < k ==> MeterBefore(ms[i], ms[k]);
  }

  lemma TakenBound(ms: seq<Meter>, ps: seq<int>, tolerance: real, i: nat, k: nat)
    requires i <= k < |ms| == |ps| && 0 <= ps[k] < k && tolerance >= 0.0
    requires Takes(ms, ps, ps[k], k, tolerance) && ms[i].value >= ms[k].value
    ensures ChildSum(ms, ps, ps[k], k) <= ms[ps[k]].value - ms[ps[k]].value * tolerance
    ensures ChildSum(ms, ps, ps[k], k) + ms[k].value <= ms[ps[k]].value + ms[i].value * tolerance
  {
    hide Fits, ChildSum;
    OverrunStep(ms[ps[k]].value, ChildSum(ms, ps, ps[k], k), ms[k].value, ms[i].value, tolerance);
  }

  lemma {:induction false} SumBounded(ms: seq<Meter>, ps: seq<int>, j: int, i: nat, n: nat, bound: real)
    requires |ps| == |ms| && i < n <= |ms| && ps[i] == j
    requires forall k :: i <= k < |ms| && ps[k] == j ==> ChildSum(ms, ps, j, k) + ms[k].value <= bound
    ensures ChildSum(ms, ps, j, n) <= bound
  {
    if ps[n - 1] != j {
      SumBounded(ms, ps, j, i, n - 1, bound);
    }
  }

  // ---- the loop over the running arrays ----

  function ParentId(ms: seq<Meter>, p: int): Id
    requires -1 <= p < |ms|
  {
    if p < 0 then ROOT else ms[p].id
  }

  /** The candidates weighed for meter `n`, with what each had left. */
  function Weighed(ms: seq<Meter>, ps: seq<int>, n: nat, k: nat, chosen: int, tolerance: real): seq<Candidate>
    requires k <= n < |ms| && n <= |ps|
  {
    seq(k, j requires 0 <= j < k =>
      Candidate(ms[j].id, Remaining(ms, ps, j, n), Takes(ms, ps, j, n, tolerance), j == chosen))
  }

  function Report(ms: seq<Meter>, ps: seq<int>, n: nat, tolerance: real): Placed
    requires n < |ms| == |ps| && Upward(ps)
  {
    var reason := if ps[n] >= 0 then ByCapacity else if n == 0 then AtRootLargest else AtRootNothingFits;
    Placed(ms[n].id, ms[n].value, ParentId(ms, ps[n]), reason, Weighed(ms, ps, n, n, ps[n], tolerance))
  }

  function Reports(ms: seq<Meter>, ps: seq<int>, tolerance: real): (r: seq<Placed>)
    requires |ms| == |ps| && Upward(ps)
    ensures |r| == |ms| && forall n :: 0 <= n < |ms| ==> r[n] == Report(ms, ps, n, tolerance)
  {
    seq(|ms|, n requires 0 <= n < |ms| => Report(ms, ps, n, tolerance))
  }

  /** The generator's parent table once these placements are written into it. */
  function Record(placements: seq<Placed>, parentOf: map<Id, Id>): map<Id, Id> {
    if placements == [] then parentOf
    else
      var last := placements[|placements| - 1];
      Record(placements[..|placements| - 1], parentOf)[last.deviceId := last.parentId]
  }

  /** The running arrays hold what the placing says about the first `i` meters. */
  ghost predicate Tracks(ms: seq<Meter>, ps: seq<int>, remaining: seq<real>, depth: seq<nat>, i: nat)
    requires i <= |ms| == |ps| == |remaining| == |depth| && Upward(ps)
  {
    forall j :: 0 <= j < i ==> remaining[j] == Remaining(ms, ps, j, i) && depth[j] == Depth(ps, j)
  }

  /** The inner loop: weighs the meters placed so far as parents of meter `i`. */
  method Weigh(devices: array<Meter>, remaining: array<real>, depth: array<nat>, i: nat, tolerance: real,
      ghost ps: seq<int>)
    returns (best: int, candidates: seq<Candidate>)
    requires i < devices.Length == remaining.Length == depth.Length == |ps| && Upward(ps)
    requires Tracks(devices[..], ps, remaining[..], depth[..], i)
    ensures best == Best(devices[..], ps, i, i, tolerance)
    ensures candidates == Weighed(devices[..], ps, i, i, best, tolerance)
  {
    ghost var ms := devices[..];
    var device := devices[i];
    best, candidates := -1, [];
    for j := 0 to i
      invariant best == Best(ms, ps, i, j, tolerance)
      invariant candidates == Weighed(ms, ps, i, j, -1, tolerance)
    {
      assert remaining[..][j] == remaining[j] && depth[..][j] == depth[j];
      assert best >= 0 ==> remaining[..][best] == remaining[best] && depth[..][best] == depth[best];
      var fits := Fits(devices[j].value, remaining[j], device.value, tolerance);
      assert fits == Takes(ms, ps, j, i, tolerance);
      candidates := candidates + [Candidate(devices[j].id, remaining[j], fits, false)];
      if fits && (best == -1 || Shallower(
          Rank(depth[j], remaining[j], CommonPrefixLength(devices[j].name, device.name), devices[j].id),
          Rank(depth[best], remaining[best], CommonPrefixLength(devices[best].name, device.name), devices[best].id))) {
        best := j;
      }
    }
    if best >= 0 {
      candidates := candidates[best := candidates[best].(chosen := true)];
    }
  }

  method Settle(remaining: array<real>, depth: array<nat>, i: nat, best: int, value: real)
    requires -1 <= best < i < remaining.Length == depth.Length
    modifies remaining, depth
    ensures remaining[..] == var before := old(remaining[..]);
                             (if best < 0 then before else before[best := before[best] - value])[i := value]
    ensures depth[..] == var before := old(depth[..]); before[i := if best < 0 then 1 else before[best] + 1]
  {
    if best == -1 {
      depth[i] := 1;
    } else {
      remaining[best] := remaining[best] - value;
      depth[i] := depth[best] + 1;
    }
    remaining[i] := value;
  }

  /** Placing meter `i` costs its parent, and nobody else, the meter's reading. */
  lemma TrackStep(ms: seq<Meter>, ps: seq<int>, remaining: seq<real>, depth: seq<nat>, i: nat, remaining': seq<real>,
      depth': seq<nat>)
    requires i < |ms| == |ps| == |remaining| == |depth| && Upward(ps)
    requires Tracks(ms, ps, remaining, depth, i)
    requires var taken := if ps[i] < 0 then remaining else remaining[ps[i] := remaining[ps[i]] - ms[i].value];
             remaining' == taken[i := ms[i].value]
    requires depth' == depth[i := if ps[i] < 0 then 1 else depth[ps[i]] + 1]
    ensures Tracks(ms, ps, remaining', depth', i + 1)
  {
    NoChildrenYet(ms, ps, i, i + 1);
  }

  /** One turn of the outer loop. */
  method PlaceOne(devices: array<Meter>, remaining: array<real>, depth: array<nat>, i: nat, tolerance: real)
    returns (placement: Placed)
    requires i < devices.Length == remaining.Length == depth.Length
    requires Tracks(devices[..], PlaceAll(devices[..], tolerance), remaining[..], depth[..], i)
    modifies remaining, depth
    ensures Tracks(devices[..], PlaceAll(devices[..], tolerance), remaining[..], depth[..], i + 1)
    ensures placement == Report(devices[..], PlaceAll(devices[..], tolerance), i, tolerance)
  {
    ghost var ms, ps := devices[..], PlaceAll(devices[..], tolerance);
    var best, candidates := Weigh(devices, remaining, depth, i, tolerance, ps);
    BestIsStep(ms, i, tolerance);

    var reason := ByCapacity;
    var parent := ROOT;
    if best == -1 {
      reason := if i == 0 then AtRootLargest else AtRootNothingFits;
    } else {
      parent := devices[best].id;
    }
    placement := Placed(devices[i].id, devices[i].value, parent, reason, candidates);
    Settle(remaining, depth, i, best, devices[i].value);
    TrackStep(ms, ps, old(remaining[..]), old(depth[..]), i, remaining[..], depth[..]);
  }

  method SortInPlace(devices: array<Meter>)
    modifies devices
    ensures devices[..] == Sort(MeterBefore, old(devices[..]))
  {
    var sorted := Sort(MeterBefore, devices[..]);
    SameElements(sorted, devices[..]);
    forall i | 0 <= i < devices.Length { devices[i] := sorted[i]; }
  }

  /** Assigns every device of one carrier to a parent and records it. */
  method Place(devices: array<Meter>, tolerance: real, parentOf: map<Id, Id>)
    returns (placements: seq<Placed>, placed: map<Id, Id>)
    modifies devices
    ensures devices[..] == Sort(MeterBefore, old(devices[..]))
    ensures placements == Reports(devices[..], PlaceAll(devices[..], tolerance), tolerance)
    ensures placed == Record(placements, parentOf)
  {
    SortInPlace(devices);
    placements, placed := PlaceSorted(devices, tolerance, parentOf);
  }

  method PlaceSorted(devices: array<Meter>, tolerance: real, parentOf: map<Id, Id>)
    returns (placements: seq<Placed>, placed: map<Id, Id>)
    ensures placements == Reports(devices[..], PlaceAll(devices[..], tolerance), tolerance)
    ensures placed == Record(placements, parentOf)
  {
    ghost var ms := devices[..];
    ghost var ps := PlaceAll(ms, tolerance);
    var remaining := new real[devices.Length];
    var depth := new nat[devices.Length];
    placements, placed := [], parentOf;
    for i := 0 to devices.Length
      invariant devices[..] == ms
      invariant Tracks(ms, ps, remaining[..], depth[..], i)
      invariant |placements| == i && forall k :: 0 <= k < i ==> placements[k] == Report(ms, ps, k, tolerance)
      invariant placed == Record(placements, parentOf)
    {
      var placement := PlaceOne(devices, remaining, depth, i, tolerance);
      assert devices[..] == ms;
      assert placement == Report(ms, ps, i, tolerance);
      assert (placements + [placement])[..i] == placements;
      placements := placements + [placement];
      placed := placed[placement.deviceId := placement.parentId];
    }
  }

  /** The loop's winner is the position the placing records. */
  lemma BestIsStep(ms: seq<Meter>, n: nat, tolerance: real)
    requires n < |ms|
    ensures Best(ms, PlaceAll(ms, tolerance), n, n, tolerance) == PlaceAll(ms, tolerance)[n]
  {
    var ps, before := PlaceAll(ms, tolerance), PlaceUpTo(ms, n, tolerance);
    PlaceUpToGrows(ms, n, |ms|, tolerance);
    PlaceUpToGrows(ms, n + 1, |ms|, tolerance);
    assert ps[n] == PlaceUpTo(ms, n + 1, tolerance)[n];
    BestFrame(ms, before, ms, ps, n, n, tolerance);
  }
}
