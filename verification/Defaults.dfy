/** Finding this service's own graphs: two filtered, paged listings indexed by id and by path. */
module Defaults {
  import opened Sorting
  import opened Model
  import opened Updating
  import opened Pass

  const PAGE_SIZE := 500

  /** The store's ids are its keys. */
  ghost predicate DistinctGraphs(w: World) {
    forall i, j :: 0 <= i < j < |w| ==> w[i].graph.id != w[j].graph.id
  }

  /** The listing of one attribute filter: the positions of the graphs that carry the key. */
  function Listing(w: World, n: nat, key: string): seq<nat>
    requires n <= |w|
  {
    if n == 0 then [] else Listing(w, n - 1, key) + if Carries(w[n - 1].graph.attributes, key) then [n - 1] else []
  }

  datatype Index = Index(byId: map<string, nat>, byPath: map<string, nat>)

  ghost predicate Positions(ix: Index, w: World) {
    (forall k :: k in ix.byId ==> ix.byId[k] < |w|) && (forall k :: k in ix.byPath ==> ix.byPath[k] < |w|)
  }

  function Kept(m: map<string, nat>, key: string, w: World, i: nat): map<string, nat>
    requires i < |w| && (key in m ==> m[key] < |w|)
  {
    if key in m && Before(w[m[key]].graph.id, w[i].graph.id) then m else m[key := i]
  }

  /** One listed graph goes into the index it can be recognised by. */
  function Indexed(ix: Index, w: World, i: nat): (r: Index)
    requires Positions(ix, w) && i < |w|
    ensures Positions(r, w)
  {
    var id, path := GroupIdOf(w[i].graph), GroupPathOf(w[i].graph);
    if id != "" then ix.(byId := Kept(ix.byId, id, w, i))
    else if path != "" then ix.(byPath := Kept(ix.byPath, path, w, i))
    else ix
  }

  function IndexAll(ix: Index, w: World, listed: seq<nat>): (r: Index)
    requires Positions(ix, w) && forall k :: 0 <= k < |listed| ==> listed[k] < |w|
    ensures Positions(r, w)
  {
    if listed == [] then ix else Indexed(IndexAll(ix, w, listed[..|listed| - 1]), w, listed[|listed| - 1])
  }

  lemma {:induction false} ListingInRange(w: World, n: nat, key: string)
    requires n <= |w|
    ensures forall k :: 0 <= k < |Listing(w, n, key)| ==> Listing(w, n, key)[k] < n
    ensures forall i: nat :: i in Listing(w, n, key) <==> i < n && Carries(w[i].graph.attributes, key)
  {
    if n > 0 { ListingInRange(w, n - 1, key); }
  }

  /** Pages of one listing: a page shorter than the page size ends it. */
  method Collect(w: World, key: string, ix: Index) returns (r: Index)
    requires Positions(ix, w)
    requires forall k :: 0 <= k < |Listing(w, |w|, key)| ==> Listing(w, |w|, key)[k] < |w|
    ensures r == IndexAll(ix, w, Listing(w, |w|, key))
  {
    hide Indexed, Listing;
    var listing := Listing(w, |w|, key);
    var offset, ended := 0, false;
    r := ix;
    while !ended
      invariant offset <= |listing|
      invariant Positions(r, w) && r == IndexAll(ix, w, listing[..offset])
      invariant ended ==> offset == |listing|
      decreases |listing| - offset, if ended then 0 else 1
    {
      var page := listing[offset..if offset + PAGE_SIZE < |listing| then offset + PAGE_SIZE else |listing|];
      for k := 0 to |page|
        invariant Positions(r, w) && r == IndexAll(ix, w, listing[..offset + k])
      {
        assert listing[..offset + k + 1][..offset + k] == listing[..offset + k];
        assert page[k] == listing[offset + k];
        r := Indexed(r, w, page[k]);
      }
      offset := offset + |page|;
      ended := |page| < PAGE_SIZE;
    }
    assert listing[..offset] == listing;
  }

  method Defaults(w: World) returns (ix: Index)
    ensures ix == IndexAll(IndexAll(Index(map[], map[]), w, Safe(w, ATTR_GROUP_ID)), w, Safe(w, ATTR_GROUP_PATH))
  {
    ListingInRange(w, |w|, ATTR_GROUP_ID);
    ListingInRange(w, |w|, ATTR_GROUP_PATH);
    ix := Index(map[], map[]);
    ix := Collect(w, ATTR_GROUP_ID, ix);
    ix := Collect(w, ATTR_GROUP_PATH, ix);
  }

  function Safe(w: World, key: string): (r: seq<nat>)
    ensures r == Listing(w, |w|, key) && forall k :: 0 <= k < |r| ==> r[k] < |w|
  {
    ListingInRange(w, |w|, key);
    Listing(w, |w|, key)
  }

  // ---- the index names the lowest claimant, however it was listed ----

  ghost predicate Claimant(w: World, i: nat, byId: bool, key: string)
    requires i < |w|
  {
    if byId then key != "" && GroupIdOf(w[i].graph) == key else ClaimsPath(w[i].graph, key)
  }

  /** `m` names, for the graphs offered so far, the lowest claimant of every key. */
  ghost predicate NamesLowest(m: map<string, nat>, w: World, byId: bool, offered: set<nat>)
    requires forall k :: k in m ==> m[k] < |w|
    requires forall i :: i in offered ==> i < |w|
  {
    && (forall k :: k in m ==> m[k] in offered && Claimant(w, m[k], byId, k))
    && (forall k, i :: i in offered && Claimant(w, i, byId, k) ==>
          k in m && (m[k] == i || Before(w[m[k]].graph.id, w[i].graph.id)))
  }

  ghost function Offered(listed: seq<nat>): set<nat> { set x | x in listed }

  /** Offering one more claimant of a key keeps the lowest. */
  lemma KeptIsLowest(m: map<string, nat>, key: string, w: World, i: nat, byId: bool, offered: set<nat>)
    requires DistinctGraphs(w) && i < |w| && (forall k :: k in m ==> m[k] < |w|) &&
             (forall k :: k in offered ==> k < |w|)
    requires NamesLowest(m, w, byId, offered)
    requires forall k :: Claimant(w, i, byId, k) <==> k == key
    ensures NamesLowest(Kept(m, key, w, i), w, byId, offered + {i})
  {
    hide Before, Claimant;
    var r := Kept(m, key, w, i);
    forall k, j | j in offered + {i} && Claimant(w, j, byId, k)
      ensures k in r && (r[k] == j || Before(w[r[k]].graph.id, w[j].graph.id)) {
      if k == key && key in m && m[key] != i {
        BeforeTotal(w[m[key]].graph.id, w[i].graph.id);
        if j in offered && m[key] != j && Before(w[i].graph.id, w[m[key]].graph.id) {
          BeforeTransitive(w[i].graph.id, w[m[key]].graph.id, w[j].graph.id);
        }
      }
    }
  }

  lemma NotOffered(m: map<string, nat>, w: World, i: nat, byId: bool, offered: set<nat>)
    requires i < |w| && (forall k :: k in m ==> m[k] < |w|) && (forall k :: k in offered ==> k < |w|)
    requires NamesLowest(m, w, byId, offered) && forall k :: !Claimant(w, i, byId, k)
    ensures NamesLowest(m, w, byId, offered + {i})
  {}

  lemma IndexedKeepsLowest(ix: Index, w: World, i: nat, offered: set<nat>)
    requires DistinctGraphs(w) && Positions(ix, w) && i < |w| && (forall k :: k in offered ==> k < |w|)
    requires NamesLowest(ix.byId, w, true, offered) && NamesLowest(ix.byPath, w, false, offered)
    ensures var r := Indexed(ix, w, i);
            NamesLowest(r.byId, w, true, offered + {i}) && NamesLowest(r.byPath, w, false, offered + {i})
  {
    var id, path := GroupIdOf(w[i].graph), GroupPathOf(w[i].graph);
    ClaimsOf(w, i);
    hide NamesLowest, Claimant, DistinctGraphs, GroupIdOf, GroupPathOf, Kept;
    if id != "" {
      KeptIsLowest(ix.byId, id, w, i, true, offered);
      NotOffered(ix.byPath, w, i, false, offered);
    } else if path != "" {
      NotOffered(ix.byId, w, i, true, offered);
      KeptIsLowest(ix.byPath, path, w, i, false, offered);
    } else {
      NotOffered(ix.byId, w, i, true, offered);
      NotOffered(ix.byPath, w, i, false, offered);
    }
  }

  /** A graph claims its id, or without one its path, and nothing else. */
  lemma ClaimsOf(w: World, i: nat)
    requires i < |w|
    ensures var id, path := GroupIdOf(w[i].graph), GroupPathOf(w[i].graph);
            && (forall k :: Claimant(w, i, true, k) <==> id != "" && k == id)
            && (forall k :: Claimant(w, i, false, k) <==> id == "" && path != "" && k == path)
  {}

  lemma {:induction false} IndexAllKeepsLowest(ix: Index, w: World, listed: seq<nat>, offered: set<nat>)
    requires DistinctGraphs(w) && Positions(ix, w) && (forall k :: k in offered ==> k < |w|)
    requires forall k :: 0 <= k < |listed| ==> listed[k] < |w|
    requires NamesLowest(ix.byId, w, true, offered) && NamesLowest(ix.byPath, w, false, offered)
    ensures var r, all := IndexAll(ix, w, listed), offered + Offered(listed);
            NamesLowest(r.byId, w, true, all) && NamesLowest(r.byPath, w, false, all)
  {
    hide Indexed, NamesLowest, DistinctGraphs;
    if listed == [] {
      assert offered + Offered(listed) == offered;
    } else {
      var n := |listed| - 1;
      IndexAllKeepsLowest(ix, w, listed[..n], offered);
      var before := offered + Offered(listed[..n]);
      IndexedKeepsLowest(IndexAll(ix, w, listed[..n]), w, listed[n], before);
      assert before + {listed[n]} == offered + Offered(listed);
    }
  }

  lemma {:induction false} SearchIsLowest(w: World, n: nat, key: string)
    requires DistinctGraphs(w) && n <= |w|
    ensures var b := ById(w, n, key);
            b >= 0 ==> forall i :: 0 <= i < n && i != b && Claimant(w, i, true, key) ==>
              Before(w[b].graph.id, w[i].graph.id)
    ensures var b := ByPath(w, n, key);
            b >= 0 ==> forall i :: 0 <= i < n && i != b && Claimant(w, i, false, key) ==>
              Before(w[b].graph.id, w[i].graph.id)
  {
    hide Before, GroupIdOf, GroupPathOf;
    if n > 0 {
      SearchIsLowest(w, n - 1, key);
      forall b | 0 <= b < n - 1
        ensures Before(w[b].graph.id, w[n - 1].graph.id) || Before(w[n - 1].graph.id, w[b].graph.id) {
        BeforeTotal(w[b].graph.id, w[n - 1].graph.id);
      }
      forall b, i | 0 <= b < n - 1 && 0 <= i < n - 1 && Before(w[n - 1].graph.id, w[b].graph.id) &&
        Before(w[b].graph.id, w[i].graph.id)
        ensures Before(w[n - 1].graph.id, w[i].graph.id)
      {
        BeforeTransitive(w[n - 1].graph.id, w[b].graph.id, w[i].graph.id);
      }
    }
  }

  /**
   * Two listings and any paging find, for every group id and path, the graph with the lowest id
   * among those that claim it; a graph with only the path attribute is not missed.
   */
  lemma DefaultsFindLowest(w: World, ix: Index, key: string)
    requires DistinctGraphs(w)
    requires ix == IndexAll(IndexAll(Index(map[], map[]), w, Safe(w, ATTR_GROUP_ID)), w, Safe(w, ATTR_GROUP_PATH))
    ensures (if key in ix.byId then ix.byId[key] as int else -1) == ById(w, |w|, key)
    ensures (if key in ix.byPath then ix.byPath[key] as int else -1) == ByPath(w, |w|, key)
  {
    hide Before, IndexAll, ById, ByPath, Listing, DistinctGraphs, Safe;
    var byIdKey, byPathKey := Safe(w, ATTR_GROUP_ID), Safe(w, ATTR_GROUP_PATH);
    assert NamesLowest(map[], w, true, {}) && NamesLowest(map[], w, false, {});
    IndexAllKeepsLowest(Index(map[], map[]), w, byIdKey, {});
    var first := {} + Offered(byIdKey);
    IndexAllKeepsLowest(IndexAll(Index(map[], map[]), w, byIdKey), w, byPathKey, first);
    var all := first + Offered(byPathKey);
    forall i, byId | 0 <= i < |w| && Claimant(w, i, byId, key) ensures i in all {
      ClaimantListed(w, i, byId, key);
    }
    SearchIsLowest(w, |w|, key);
    LowestAgree(w, ix.byId, true, all, key, ById(w, |w|, key));
    LowestAgree(w, ix.byPath, false, all, key, ByPath(w, |w|, key));
  }

  lemma LowestAgree(w: World, m: map<string, nat>, byId: bool, all: set<nat>, key: string, b: int)
    requires (forall k :: k in m ==> m[k] < |w|) && (forall i :: i in all ==> i < |w|)
    requires NamesLowest(m, w, byId, all) && (forall i :: 0 <= i < |w| && Claimant(w, i, byId, key) ==> i in all)
    requires -1 <= b < |w|
    requires b < 0 ==> forall i :: 0 <= i < |w| ==> !Claimant(w, i, byId, key)
    requires b >= 0 ==> Claimant(w, b, byId, key) && forall i :: 0 <= i < |w| && i != b && Claimant(w, i, byId, key) ==>
             Before(w[b].graph.id, w[i].graph.id)
    ensures (if key in m then m[key] as int else -1) == b
  {
    hide Before, Claimant;
    assert b >= 0 ==> b in all && Claimant(w, b, byId, key);
    assert key in m ==> m[key] in all && Claimant(w, m[key], byId, key);
    if b >= 0 && key in m {
      BeforeAsymmetric(w[b].graph.id, w[m[key]].graph.id);
    }
  }

  lemma {:induction false} ValueIsCarried(attributes: seq<Attribute>, key: string)
    ensures AttributeOf(attributes, key) != "" ==> Carries(attributes, key)
  {
    if attributes != [] { ValueIsCarried(attributes[1..], key); }
  }

  lemma ClaimantListed(w: World, i: nat, byId: bool, key: string)
    requires i < |w| && Claimant(w, i, byId, key)
    ensures var listed := Safe(w, if byId then ATTR_GROUP_ID else ATTR_GROUP_PATH);
            i in Offered(listed)
  {
    hide Listing;
    var attr := if byId then ATTR_GROUP_ID else ATTR_GROUP_PATH;
    ValueIsCarried(w[i].graph.attributes, attr);
    ListingInRange(w, |w|, attr);
    assert i in Listing(w, |w|, attr);
  }
}
