/** Orders, and the sorts the service leaves to its language's library. */
module Sorting {

  type Id = string

  /** Go's `<` on strings: byte order of the encoding, which is code point order. */
  predicate Before(a: Id, b: Id) {
    b != [] && (a == [] || a[0] < b[0] || (a[0] == b[0] && Before(a[1..], b[1..])))
  }

  /** The strings agree up to k, and there the first one ends or has the lower code point. */
  predicate LessAt(a: Id, b: Id, k: nat) {
    k <= |a| && k < |b| && a[..k] == b[..k] && (k == |a| || a[k] < b[k])
  }

  lemma LessAtTails(a: Id, b: Id, k: nat)
    requires a != [] && b != [] && a[0] == b[0]
    ensures LessAt(a, b, k + 1) <==> LessAt(a[1..], b[1..], k)
  {
    if k < |a| && k < |b| {
      assert a[..k + 1] == [a[0]] + a[1..][..k] && b[..k + 1] == [b[0]] + b[1..][..k];
      assert a[1..][..k] == a[..k + 1][1..] && b[1..][..k] == b[..k + 1][1..];
    }
  }

  /** The order of the first code point that differs; a proper prefix comes first. */
  lemma {:induction false} BeforeByFirstDifference(a: Id, b: Id)
    ensures Before(a, b) <==> exists k :: LessAt(a, b, k)
  {
    if a != [] && b != [] && a[0] == b[0] {
      hide LessAt;
      BeforeByFirstDifference(a[1..], b[1..]);
      NotLessAtOnce(a, b);
      if k: nat :| LessAt(a[1..], b[1..], k) { LessAtTails(a, b, k); }
      if k: nat :| LessAt(a, b, k) { LessAtTails(a, b, k - 1); }
    } else if a == [] || b == [] || a[0] < b[0] {
      assert a[..0] == b[..0];
      assert b != [] ==> LessAt(a, b, 0);
    } else {
      assert forall k :: 0 < k <= |a| && k < |b| && a[..k] == b[..k] ==> a[..k][0] == b[..k][0];
    }
  }

  lemma NotLessAtOnce(a: Id, b: Id)
    requires a != [] && b != [] && a[0] == b[0]
    ensures !LessAt(a, b, 0)
  {}

  lemma {:induction false} BeforeIrreflexive(a: Id)
    ensures !Before(a, a)
  {
    if a != [] {
      BeforeIrreflexive(a[1..]);
    }
  }

  lemma {:induction false} BeforeTransitive(a: Id, b: Id, c: Id)
    requires Before(a, b) && Before(b, c)
    ensures Before(a, c)
  {
    if a != [] && a[0] == b[0] == c[0] {
      BeforeTransitive(a[1..], b[1..], c[1..]);
    }
  }

  lemma {:induction false} BeforeTotal(a: Id, b: Id)
    requires a != b
    ensures Before(a, b) || Before(b, a)
  {
    if a != [] && b != [] && a[0] == b[0] {
      assert a == [a[0]] + a[1..] && b == [b[0]] + b[1..];
      BeforeTotal(a[1..], b[1..]);
    }
  }

  lemma BeforeAsymmetric(a: Id, b: Id)
    ensures !(Before(a, b) && Before(b, a))
  {
    BeforeIrreflexive(a);
    if Before(a, b) && Before(b, a) {
      BeforeTransitive(a, b, a);
    }
  }

  ghost predicate StrictOrder<T(!new)>(less: (T, T) -> bool) {
    && (forall x :: !less(x, x))
    && (forall x, y, z :: less(x, y) && less(y, z) ==> less(x, z))
  }

  lemma BeforeIsStrictOrder()
    ensures StrictOrder(Before)
  {
    forall a ensures !Before(a, a) { BeforeIrreflexive(a); }
    forall a, b, c | Before(a, b) && Before(b, c) ensures Before(a, c) { BeforeTransitive(a, b, c); }
  }

  ghost predicate StrictlySorted<T>(less: (T, T) -> bool, s: seq<T>) {
    forall i, j :: 0 <= i < j < |s| ==> less(s[i], s[j])
  }

  /** No two positions hold elements that the order leaves undecided. */
  ghost predicate Decided<T>(less: (T, T) -> bool, s: seq<T>) {
    forall i, j :: 0 <= i < j < |s| ==> less(s[i], s[j]) || less(s[j], s[i])
  }

  /** Stable: an element goes in front of those it is not ordered after. */
  function Insert<T>(less: (T, T) -> bool, x: T, s: seq<T>): (r: seq<T>)
    ensures |r| == |s| + 1 && multiset(r) == multiset(s) + multiset{x}
  {
    if s == [] || !less(s[0], x) then [x] + s
    else
      assert s == [s[0]] + s[1..];
      [s[0]] + Insert(less, x, s[1..])
  }

  function Sort<T>(less: (T, T) -> bool, s: seq<T>): (r: seq<T>)
    ensures |r| == |s| && multiset(r) == multiset(s)
  {
    if s == [] then []
    else
      assert s == [s[0]] + s[1..];
      Insert(less, s[0], Sort(less, s[1..]))
  }

  lemma SameElements<T>(a: seq<T>, b: seq<T>)
    requires multiset(a) == multiset(b)
    ensures |a| == |b| && forall x :: x in a <==> x in b
  {
    assert |multiset(a)| == |a| && |multiset(b)| == |b|;
    forall x ensures x in a <==> x in b {
      assert x in a <==> x in multiset(a);
      assert x in b <==> x in multiset(b);
    }
  }

  lemma {:induction false} InsertMembers<T>(less: (T, T) -> bool, x: T, s: seq<T>)
    ensures forall y :: y in Insert(less, x, s) <==> y == x || y in s
  {
    if s != [] && less(s[0], x) {
      InsertMembers(less, x, s[1..]);
      assert s == [s[0]] + s[1..];
    }
  }

  lemma {:induction false} InsertSorts<T(!new)>(less: (T, T) -> bool, x: T, s: seq<T>)
    requires StrictOrder(less) && StrictlySorted(less, s)
    requires forall i :: 0 <= i < |s| ==> less(x, s[i]) || less(s[i], x)
    ensures StrictlySorted(less, Insert(less, x, s))
  {
    if s != [] && less(s[0], x) {
      InsertSorts(less, x, s[1..]);
      InsertMembers(less, x, s[1..]);
      var r := Insert(less, x, s[1..]);
      forall k | 0 <= k < |r| ensures less(s[0], r[k]) {
        assert r[k] in r;
        if r[k] != x {
          var i :| 0 <= i < |s| - 1 && s[1..][i] == r[k];
          assert s[i + 1] == r[k];
        }
      }
    }
  }

  lemma {:induction false} SortSorts<T(!new)>(less: (T, T) -> bool, s: seq<T>)
    requires StrictOrder(less) && Decided(less, s)
    ensures StrictlySorted(less, Sort(less, s))
    ensures |Sort(less, s)| == |s| && forall x :: x in Sort(less, s) <==> x in s
  {
    if s != [] {
      SortSorts(less, s[1..]);
      assert s == [s[0]] + s[1..];
      forall k | 0 <= k < |s| - 1 ensures less(s[0], Sort(less, s[1..])[k]) || less(Sort(less, s[1..])[k], s[0]) {
        assert Sort(less, s[1..])[k] in s[1..];
      }
      InsertSorts(less, s[0], Sort(less, s[1..]));
      InsertMembers(less, s[0], Sort(less, s[1..]));
    }
  }

  /** What is not ordered against an element stands on the same side of every other. */
  ghost predicate WeakOrder<T(!new)>(less: (T, T) -> bool) {
    StrictOrder(less) && forall x, y, z :: less(x, z) ==> less(x, y) || less(y, z)
  }

  /** No element stands behind one it precedes. */
  ghost predicate NoneBehind<T>(less: (T, T) -> bool, s: seq<T>) {
    forall i, j :: 0 <= i < j < |s| ==> !less(s[j], s[i])
  }

  lemma {:induction false} InsertKeepsOrder<T(!new)>(less: (T, T) -> bool, x: T, s: seq<T>)
    requires WeakOrder(less) && NoneBehind(less, s)
    ensures NoneBehind(less, Insert(less, x, s))
  {
    if s != [] {
      var tail := s[1..];
      InsertKeepsOrder(less, x, tail);
      InsertMembers(less, x, tail);
      var r := Insert(less, x, tail);
      forall k | 0 <= k < |r| ensures less(s[0], x) ==> !less(r[k], s[0]) {
        assert r[k] in r;
        if r[k] in tail {
          var i :| 0 <= i < |tail| && tail[i] == r[k];
          assert s[i + 1] == r[k];
        }
      }
      forall k | 0 <= k < |s| ensures !less(s[0], x) ==> !less(s[k], x) {
        assert less(s[k], x) ==> less(s[k], s[0]) || less(s[0], x);
      }
    }
  }

  lemma {:induction false} SortKeepsOrder<T(!new)>(less: (T, T) -> bool, s: seq<T>)
    requires WeakOrder(less)
    ensures NoneBehind(less, Sort(less, s))
  {
    if s != [] {
      SortKeepsOrder(less, s[1..]);
      InsertKeepsOrder(less, s[0], Sort(less, s[1..]));
    }
  }

  /**
   * Whatever a sort does with the positions, its outcome is fixed once the order decides every
   * pair: an unstable library sort cannot answer the same elements two ways.
   */
  lemma {:induction false} SortedUnique<T(!new)>(less: (T, T) -> bool, a: seq<T>, b: seq<T>)
    requires StrictOrder(less) && StrictlySorted(less, a) && StrictlySorted(less, b)
    requires forall x :: x in a <==> x in b
    ensures a == b
  {
    assert a != [] ==> a[0] in b;
    assert b != [] ==> b[0] in a;
    if a != [] && b != [] {
      assert a[0] == b[0];
      forall x ensures x in a[1..] <==> x in b[1..] {
        if x in a[1..] {
          assert x in a && less(a[0], x);
          assert x in b && x != b[0];
        }
        if x in b[1..] {
          assert x in b && less(b[0], x);
          assert x in a && x != a[0];
        }
      }
      SortedUnique(less, a[1..], b[1..]);
      assert a == [a[0]] + a[1..] && b == [b[0]] + b[1..];
    }
  }

  /** The elements of a set, each once, in no order that anyone may rely on. */
  method ListOf<T(==)>(s: set<T>) returns (r: seq<T>)
    ensures forall x :: x in r <==> x in s
    ensures forall i, j :: 0 <= i < j < |r| ==> r[i] != r[j]
  {
    r := [];
    var rest := s;
    while rest != {}
      invariant rest <= s && forall x :: x in r <==> x in s && x !in rest
      invariant forall i, j :: 0 <= i < j < |r| ==> r[i] != r[j]
      decreases rest
    {
      var x :| x in rest;
      rest, r := rest - {x}, r + [x];
    }
  }
}
