/** Reading the group tree of an identity provider that may answer anything: pages, depth, repeats. */
module GroupTree {
  import opened Sorting
  import opened Model

  const MAX_DEPTH := 32
  const MAX_PAGES := 10_000

  datatype Entry = Entry(id: Id, path: string, subGroups: seq<Entry>, subGroupCount: Option<int>)

  /** What one request answers: a page, status 404, or any other failure. */
  datatype Answer = Page(entries: seq<Entry>) | NotFound | Broken

  /** A paginated listing, by page number. */
  type Listing = nat -> Answer

  /** What one poll finds: the top level, the children of an id, and the group count. */
  datatype Realm = Realm(top: Listing, below: Id -> Listing, count: Option<int>)

  datatype Error = TooDeep | Endless | Missing | Failed | MayNotView

  datatype Result<+T> = Ok(value: T) | Err(error: Error)

  // ---- one paginated listing ----

  function ListFrom(pages: Listing, n: nat): Result<seq<Entry>>
    requires n <= MAX_PAGES
    decreases MAX_PAGES - n
  {
    if n == MAX_PAGES then Err(Endless)
    else
      match pages(n)
      case NotFound => Err(Missing)
      case Broken => Err(Failed)
      case Page(entries) =>
        if entries == [] then Ok([]) else
        match ListFrom(pages, n + 1)
        case Err(e) => Err(e)
        case Ok(rest) => Ok(entries + rest)
  }

  /** The listing ends with page n: it is empty, and no page before it was. */
  ghost predicate EndsAt(pages: Listing, from: nat, n: nat) {
    from <= n && pages(n) == Page([]) && forall i: nat :: from <= i < n ==> pages(i).Page? && pages(i).entries != []
  }

  function Joined(pages: Listing, from: nat, n: nat): seq<Entry>
    decreases n - from
  {
    if from >= n then []
    else (match pages(from) case Page(entries) => entries case _ => []) + Joined(pages, from + 1, n)
  }

  /** A listing is answered exactly when an empty page ends it in time, and then nothing is cut off. */
  lemma {:induction false} ListingIsWhole(pages: Listing, from: nat, r: seq<Entry>)
    requires from <= MAX_PAGES
    ensures ListFrom(pages, from) == Ok(r) <==>
            exists n: nat :: n < MAX_PAGES && EndsAt(pages, from, n) && r == Joined(pages, from, n)
    decreases MAX_PAGES - from
  {
    if from < MAX_PAGES && pages(from).Page? {
      if pages(from).entries == [] {
        assert EndsAt(pages, from, from) && Joined(pages, from, from) == [];
      } else {
        var rest := ListFrom(pages, from + 1);
        if rest.Ok? {
          ListingIsWhole(pages, from + 1, rest.value);
          var n: nat :| n < MAX_PAGES && EndsAt(pages, from + 1, n) && rest.value == Joined(pages, from + 1, n);
          assert EndsAt(pages, from, n) && pages(from).entries + rest.value == Joined(pages, from, n);
          OneEnd(pages, from, n);
        }
        forall n: nat | n < MAX_PAGES && EndsAt(pages, from, n) ensures rest == Ok(Joined(pages, from + 1, n)) {
          assert EndsAt(pages, from + 1, n);
          ListingIsWhole(pages, from + 1, Joined(pages, from + 1, n));
        }
      }
    }
  }

  lemma OneEnd(pages: Listing, from: nat, n: nat)
    requires EndsAt(pages, from, n)
    ensures forall m: nat :: EndsAt(pages, from, m) ==> m == n
  {}

  method ListGroups(pages: Listing) returns (r: Result<seq<Entry>>)
    ensures r == ListFrom(pages, 0)
  {
    var result: seq<Entry> := [];
    var pageNumber := 0;
    ghost var all := ListFrom(pages, 0);
    assert all.Ok? ==> [] + all.value == all.value;
    while pageNumber < MAX_PAGES
      invariant 0 <= pageNumber <= MAX_PAGES
      invariant ListFrom(pages, 0) ==
                match ListFrom(pages, pageNumber) case Ok(rest) => Ok(result + rest) case Err(e) => Err(e)
    {
      var page := pages(pageNumber);
      match page {
        case NotFound => return Err(Missing);
        case Broken => return Err(Failed);
        case Page(entries) =>
          if entries == [] {
            assert result + [] == result;
            return Ok(result);
          }
          ghost var rest := ListFrom(pages, pageNumber + 1);
          assert rest.Ok? ==> result + (entries + rest.value) == (result + entries) + rest.value;
          result := result + entries;
      }
      pageNumber := pageNumber + 1;
    }
    r := Err(Endless);
  }

  // ---- the descent ----

  predicate Usable(e: Entry) { e.id != "" && e.path != "" }

  /** The children endpoint's answer; 404 means there are none. */
  function Fetched(realm: Realm, id: Id): Result<seq<Entry>> {
    var listed := ListFrom(realm.below(id), 0);
    if listed == Err(Missing) then Ok([]) else listed
  }

  /** Inline children are taken as they are; otherwise they are fetched, unless there are known to be none. */
  function ChildrenOf(realm: Realm, e: Entry): Result<seq<Entry>> {
    if e.subGroups == [] && (e.subGroupCount.None? || e.subGroupCount.value > 0) then Fetched(realm, e.id)
    else Ok(e.subGroups)
  }

  // ---- whose child is whose, by the answers alone ----

  /** The pages before n are there and none of them is empty. */
  ghost predicate GoesOnTo(pages: Listing, n: nat) {
    forall i: nat :: i < n ==> pages(i).Page? && pages(i).entries != []
  }

  /** A listing that an empty page ends in time: all entries before it. */
  ghost predicate Lists(pages: Listing, entries: seq<Entry>) {
    exists n: nat :: n < MAX_PAGES && EndsAt(pages, 0, n) && entries == Joined(pages, 0, n)
  }

  ghost predicate StopsWith(pages: Listing, answer: Answer) {
    exists n: nat :: n < MAX_PAGES && pages(n) == answer && GoesOnTo(pages, n)
  }

  /** Whether there is anything to ask for: no children given with the entry, and none is not known to be all. */
  predicate MustAsk(e: Entry) { e.subGroups == [] && !(e.subGroupCount.Some? && e.subGroupCount.value <= 0) }

  /** The children of a group: given with the entry, or listed, or none on a 404 or by the count. */
  ghost predicate ChildrenAre(realm: Realm, e: Entry, children: seq<Entry>) {
    if !MustAsk(e) then children == e.subGroups
    else Lists(realm.below(e.id), children) || (StopsWith(realm.below(e.id), NotFound) && children == [])
  }

  ghost predicate IsChild(realm: Realm, parent: Entry, child: Entry) {
    exists children :: ChildrenAre(realm, parent, children) && child in children
  }

  /** The children have to be asked for, and the answer is a failure, or pages without an end. */
  ghost predicate Unreadable(realm: Realm, e: Entry, error: Error) {
    MustAsk(e) &&
    match error
    case Failed => StopsWith(realm.below(e.id), Broken)
    case Endless => GoesOnTo(realm.below(e.id), MAX_PAGES)
    case _ => false
  }

  lemma {:induction false} StopIs(pages: Listing, from: nat, answer: Answer, error: Error)
    requires from <= MAX_PAGES && GoesOnTo(pages, from)
    requires (answer == NotFound && error == Missing) || (answer == Broken && error == Failed)
    ensures ListFrom(pages, from) == Err(error) <==>
            exists n: nat :: from <= n < MAX_PAGES && pages(n) == answer && GoesOnTo(pages, n)
    decreases MAX_PAGES - from
  {
    if from < MAX_PAGES && pages(from).Page? && pages(from).entries != [] {
      StopIs(pages, from + 1, answer, error);
    } else if from < MAX_PAGES {
      assert pages(from) == answer ==> GoesOnTo(pages, from);
    }
  }

  lemma {:induction false} EndlessIs(pages: Listing, from: nat)
    requires from <= MAX_PAGES && GoesOnTo(pages, from)
    ensures ListFrom(pages, from) == Err(Endless) <==> GoesOnTo(pages, MAX_PAGES)
    decreases MAX_PAGES - from
  {
    if from < MAX_PAGES && pages(from).Page? && pages(from).entries != [] {
      EndlessIs(pages, from + 1);
    }
  }

  lemma ListsIs(pages: Listing, entries: seq<Entry>)
    ensures ListFrom(pages, 0) == Ok(entries) <==> Lists(pages, entries)
  {
    ListingIsWhole(pages, 0, entries);
  }

  /** What the descent takes for the children of an entry are its children, and it fails where they are unreadable. */
  lemma ChildrenOfIs(realm: Realm, e: Entry)
    ensures forall children :: ChildrenOf(realm, e) == Ok(children) <==> ChildrenAre(realm, e, children)
    ensures forall error :: ChildrenOf(realm, e) == Err(error) <==> Unreadable(realm, e, error)
    ensures forall child :: ChildrenOf(realm, e).Ok? && child in ChildrenOf(realm, e).value <==>
            IsChild(realm, e, child)
  {
    hide ListFrom, Lists, GoesOnTo;
    var pages := realm.below(e.id);
    forall children ensures ChildrenOf(realm, e) == Ok(children) <==> ChildrenAre(realm, e, children) {
      ListsIs(pages, children);
      StopIs(pages, 0, NotFound, Missing);
    }
    StopIs(pages, 0, NotFound, Missing);
    StopIs(pages, 0, Broken, Failed);
    EndlessIs(pages, 0);
    ListErrors(pages, 0);
  }

  lemma {:induction false} ListErrors(pages: Listing, n: nat)
    requires n <= MAX_PAGES
    ensures ListFrom(pages, n).Err? ==> ListFrom(pages, n).error in [Endless, Missing, Failed]
    decreases MAX_PAGES - n
  {
    if n < MAX_PAGES { ListErrors(pages, n + 1); }
  }

  // ---- the descent as a function ----

  /** The ids seen, and the entries emitted, in order. */
  datatype Found = Found(seen: set<Id>, into: seq<Entry>)

  function Visit(f: Found, e: Entry): Found { Found(f.seen + {e.id}, f.into + [e]) }

  function Collected(realm: Realm, groups: seq<Entry>, depth: nat, f: Found): Result<Found>
    requires depth <= MAX_DEPTH
    decreases MAX_DEPTH - depth, |groups|
  {
    if groups == [] then Ok(f)
    else if depth == MAX_DEPTH then Err(TooDeep)
    else if !Usable(groups[0]) || groups[0].id in f.seen then Collected(realm, groups[1..], depth, f)
    else
      match ChildrenOf(realm, groups[0])
      case Err(e) => Err(e)
      case Ok(children) =>
        match Collected(realm, children, depth + 1, Visit(f, groups[0]))
        case Err(e) => Err(e)
        case Ok(g) => Collected(realm, groups[1..], depth, g)
  }

  /** One new group with all that is below it. */
  function Entered(realm: Realm, e: Entry, depth: nat, f: Found): Result<Found>
    requires depth < MAX_DEPTH
  {
    match ChildrenOf(realm, e)
    case Err(error) => Err(error)
    case Ok(children) => Collected(realm, children, depth + 1, Visit(f, e))
  }

  /** What one entry of a level does to the rest of it. */
  lemma OneGroup(realm: Realm, groups: seq<Entry>, i: nat, depth: nat, f: Found)
    requires depth < MAX_DEPTH
    ensures i == |groups| ==> Collected(realm, groups[i..], depth, f) == Ok(f)
    ensures i < |groups| && (!Usable(groups[i]) || groups[i].id in f.seen) ==>
              Collected(realm, groups[i..], depth, f) == Collected(realm, groups[i + 1..], depth, f)
    ensures i < |groups| && Usable(groups[i]) && groups[i].id !in f.seen ==>
              Collected(realm, groups[i..], depth, f) ==
              match Entered(realm, groups[i], depth, f)
              case Err(e) => Err(e)
              case Ok(g) => Collected(realm, groups[i + 1..], depth, g)
  {
    hide ChildrenOf;
    if i < |groups| {
      assert groups[i..][0] == groups[i] && groups[i..][1..] == groups[i + 1..];
    }
  }

  /** The accumulators that every level of the recursion shares. */
  class Walk {
    var seen: set<Id>
    var into: seq<Entry>

    constructor ()
      ensures seen == {} && into == []
    {
      seen, into := {}, [];
    }

    method Children(realm: Realm, e: Entry) returns (r: Result<seq<Entry>>)
      ensures r == ChildrenOf(realm, e)
      ensures forall children :: r == Ok(children) <==> ChildrenAre(realm, e, children)
      ensures forall error :: r == Err(error) <==> Unreadable(realm, e, error)
    {
      hide ChildrenAre, Unreadable;
      ChildrenOfIs(realm, e);
      r := Ok(e.subGroups);
      if |e.subGroups| == 0 && (e.subGroupCount.None? || e.subGroupCount.value > 0) {
        r := ListGroups(realm.below(e.id));
        if r == Err(Missing) {
          r := Ok([]);
        }
      }
    }

    method Enter(realm: Realm, group: Entry, depth: nat) returns (error: Option<Error>)
      requires depth < MAX_DEPTH
      modifies this
      ensures match Entered(realm, group, depth, old(Found(seen, into)))
              case Ok(f) => error == None && Found(seen, into) == f
              case Err(e) => error == Some(e)
      decreases MAX_DEPTH - depth, 0
    {
      seen, into := seen + {group.id}, into + [group];
      var children := Children(realm, group);
      if children.Err? {
        return Some(children.error);
      }
      error := Collect(realm, children.value, depth + 1);
    }

    method Collect(realm: Realm, groups: seq<Entry>, depth: nat) returns (error: Option<Error>)
      requires depth <= MAX_DEPTH
      modifies this
      ensures match Collected(realm, groups, depth, old(Found(seen, into)))
              case Ok(f) => error == None && Found(seen, into) == f
              case Err(e) => error == Some(e)
      decreases MAX_DEPTH - depth, 1
    {
      if |groups| == 0 {
        return None;
      }
      if depth >= MAX_DEPTH {
        return Some(TooDeep);
      }
      hide Collected, Entered;
      var i := 0;
      assert groups[0..] == groups;
      while i < |groups|
        invariant 0 <= i <= |groups|
        invariant Collected(realm, groups[i..], depth, Found(seen, into)) ==
                  Collected(realm, groups, depth, old(Found(seen, into)))
      {
        var group := groups[i];
        OneGroup(realm, groups, i, depth, Found(seen, into));
        i := i + 1;
        if group.id == "" || group.path == "" || group.id in seen {
          continue;
        }
        error := Enter(realm, group, depth);
        if error.Some? {
          return;
        }
      }
      OneGroup(realm, groups, i, depth, Found(seen, into));
      error := None;
    }
  }

  // ---- reachable groups ----

  /** A way down: usable entries, the first on the top level, each next among its parent's children. */
  ghost predicate Chain(realm: Realm, top: seq<Entry>, c: seq<Entry>) {
    && (forall i :: 0 <= i < |c| ==> c[i].id != "" && c[i].path != "")
    && (c != [] ==> c[0] in top)
    && (forall i :: 0 <= i < |c| - 1 ==> IsChild(realm, c[i], c[i + 1]))
  }

  /** What lies under the end of a way down: the top level itself, under none. */
  ghost predicate Under(realm: Realm, top: seq<Entry>, c: seq<Entry>, groups: seq<Entry>) {
    if c == [] then forall e :: e in groups ==> e in top
    else forall e :: e in groups ==> IsChild(realm, c[|c| - 1], e)
  }

  ghost predicate Reachable(realm: Realm, top: seq<Entry>, e: Entry) {
    exists c :: c != [] && Chain(realm, top, c) && c[|c| - 1] == e
  }

  /** A way down to the entry that the limit does not stop: there is room below it, or nothing to find. */
  ghost predicate WithinLimit(realm: Realm, top: seq<Entry>, e: Entry) {
    exists c :: c != [] && Chain(realm, top, c) && c[|c| - 1] == e &&
                (|c| < MAX_DEPTH || ChildrenAre(realm, e, []))
  }

  ghost predicate DistinctIds(c: seq<Entry>) { forall i, j :: 0 <= i < j < |c| ==> c[i].id != c[j].id }

  ghost predicate HasChild(realm: Realm, e: Entry) { exists child :: IsChild(realm, e, child) }

  /** Deeper than the limit: a way down through that many different groups, with entries still below. */
  ghost predicate NestsTooDeep(realm: Realm, top: seq<Entry>) {
    exists c :: |c| == MAX_DEPTH && Chain(realm, top, c) && DistinctIds(c) &&
                HasChild(realm, c[|c| - 1])
  }

  ghost predicate FetchFails(realm: Realm, top: seq<Entry>, error: Error) {
    exists e :: Reachable(realm, top, e) && Unreadable(realm, e, error)
  }

  /** Every entry emitted is seen and the other way round, each id once. */
  ghost predicate Tidy(f: Found) {
    && DistinctIds(f.into)
    && (forall i :: 0 <= i < |f.into| ==> Usable(f.into[i]) && f.into[i].id in f.seen)
    && (forall id :: id in f.seen ==> exists i :: 0 <= i < |f.into| && f.into[i].id == id)
  }

  lemma VisitKeepsTidy(f: Found, e: Entry)
    requires Tidy(f) && Usable(e) && e.id !in f.seen
    ensures Tidy(Visit(f, e))
  {
    var n := Visit(f, e);
    forall id | id in n.seen ensures exists i :: 0 <= i < |n.into| && n.into[i].id == id {
      if id in f.seen {
        var i :| 0 <= i < |f.into| && f.into[i].id == id;
        assert n.into[i].id == id;
      } else {
        assert n.into[|f.into|].id == id;
      }
    }
  }

  lemma {:induction false} CollectKeepsTidy(realm: Realm, groups: seq<Entry>, depth: nat, f: Found)
    requires depth <= MAX_DEPTH && Tidy(f)
    ensures match Collected(realm, groups, depth, f) case Ok(g) => Tidy(g) && f.seen <= g.seen &&
            f.into <= g.into case Err(_) => true
    decreases MAX_DEPTH - depth, |groups|
  {
    hide Tidy, ChildrenOf, Usable;
    if groups != [] && depth < MAX_DEPTH {
      if !Usable(groups[0]) || groups[0].id in f.seen {
        CollectKeepsTidy(realm, groups[1..], depth, f);
      } else if ChildrenOf(realm, groups[0]).Ok? {
        var children := ChildrenOf(realm, groups[0]).value;
        VisitKeepsTidy(f, groups[0]);
        CollectKeepsTidy(realm, children, depth + 1, Visit(f, groups[0]));
        var inner := Collected(realm, children, depth + 1, Visit(f, groups[0]));
        if inner.Ok? {
          CollectKeepsTidy(realm, groups[1..], depth, inner.value);
        }
      }
    }
  }

  /** What the descent emits can be reached, and what makes it fail is really there. */
  ghost predicate Justified(realm: Realm, top: seq<Entry>, f: Found, r: Result<Found>) {
    match r
    case Ok(g) => forall e :: e in g.into && e !in f.into ==> Reachable(realm, top, e) && WithinLimit(realm, top, e)
    case Err(error) => if error == TooDeep then NestsTooDeep(realm, top) else FetchFails(realm, top, error)
  }

  lemma ChainGrows(realm: Realm, top: seq<Entry>, c: seq<Entry>, groups: seq<Entry>, e: Entry)
    requires Chain(realm, top, c) && Under(realm, top, c, groups) && e in groups && Usable(e)
    ensures Chain(realm, top, c + [e]) && Reachable(realm, top, e)
  {
    hide IsChild;
    assert (c + [e])[|c + [e]| - 1] == e;
  }

  lemma {:induction false} CollectIsJustified(realm: Realm, top: seq<Entry>, trail: seq<Entry>, groups: seq<Entry>,
      f: Found)
    requires |trail| <= MAX_DEPTH && Chain(realm, top, trail) && DistinctIds(trail) && Under(realm, top, trail, groups)
    requires Tidy(f) && forall i :: 0 <= i < |trail| ==> trail[i].id in f.seen
    ensures Justified(realm, top, f, Collected(realm, groups, |trail|, f))
    decreases MAX_DEPTH - |trail|, |groups|
  {
    hide Reachable, WithinLimit, Chain, ChildrenOf, Tidy, FetchFails, IsChild, DistinctIds;
    if groups != [] && |trail| == MAX_DEPTH {
      assert groups[0] in groups && IsChild(realm, trail[|trail| - 1], groups[0]);
    } else if groups != [] {
      var e := groups[0];
      assert forall e :: e in groups[1..] ==> e in groups;
      if !Usable(e) || e.id in f.seen {
        CollectIsJustified(realm, top, trail, groups[1..], f);
      } else {
        ChainGrows(realm, top, trail, groups, e);
        if ChildrenOf(realm, e).Err? {
          NoChildren(realm, top, e);
        } else {
          Descend(realm, top, trail, groups, f);
        }
      }
    }
  }

  lemma NoChildren(realm: Realm, top: seq<Entry>, e: Entry)
    requires Reachable(realm, top, e) && ChildrenOf(realm, e).Err?
    ensures ChildrenOf(realm, e).error != TooDeep && FetchFails(realm, top, ChildrenOf(realm, e).error)
  {
    ChildrenOfIs(realm, e);
  }

  lemma FitsBelow(realm: Realm, top: seq<Entry>, c: seq<Entry>)
    requires c != [] && Chain(realm, top, c)
    ensures |c| < MAX_DEPTH || ChildrenOf(realm, c[|c| - 1]) == Ok([]) ==> WithinLimit(realm, top, c[|c| - 1])
  {
    hide ChildrenAre;
    ChildrenOfIs(realm, c[|c| - 1]);
  }

  lemma {:induction false} Descend(realm: Realm, top: seq<Entry>, trail: seq<Entry>, groups: seq<Entry>, f: Found)
    requires |trail| < MAX_DEPTH && Chain(realm, top, trail) && DistinctIds(trail) && Under(realm, top, trail, groups)
    requires Tidy(f) && forall i :: 0 <= i < |trail| ==> trail[i].id in f.seen
    requires groups != [] && Usable(groups[0]) && groups[0].id !in f.seen && ChildrenOf(realm, groups[0]).Ok?
    requires Reachable(realm, top, groups[0]) && Chain(realm, top, trail + [groups[0]])
    ensures Justified(realm, top, f, Collected(realm, groups, |trail|, f))
    decreases MAX_DEPTH - |trail|, |groups|, 0
  {
    hide Reachable, WithinLimit, Chain, ChildrenOf, Tidy, FetchFails, NestsTooDeep, IsChild;
    var e := groups[0];
    var children := ChildrenOf(realm, e).value;
    var longer := trail + [e];
    VisitKeepsTidy(f, e);
    ChildrenOfIs(realm, e);
    assert longer[|longer| - 1] == e && Under(realm, top, longer, children);
    CollectIsJustified(realm, top, longer, children, Visit(f, e));
    CollectKeepsTidy(realm, children, |longer|, Visit(f, e));
    var inner := Collected(realm, children, |longer|, Visit(f, e));
    if inner.Ok? {
      FitsBelow(realm, top, longer);
      assert forall e :: e in groups[1..] ==> e in groups;
      CollectIsJustified(realm, top, trail, groups[1..], inner.value);
    }
  }

  // ---- nothing is left out ----

  /** All usable entries are among the ids. */
  ghost predicate Covers(ids: set<Id>, groups: seq<Entry>) {
    forall e :: e in groups && Usable(e) ==> e.id in ids
  }

  ghost predicate ChildrenCovered(realm: Realm, ids: set<Id>, e: Entry) {
    ChildrenOf(realm, e).Ok? && Covers(ids, ChildrenOf(realm, e).value)
  }

  /** A descent through the groups that went from f to g missed none of them, and no child of what it added. */
  ghost predicate Complete(realm: Realm, groups: seq<Entry>, f: Found, g: Found) {
    && f.seen <= g.seen && f.into <= g.into && Covers(g.seen, groups)
    && forall i :: |f.into| <= i < |g.into| ==> ChildrenCovered(realm, g.seen, g.into[i])
  }

  lemma SkipIsComplete(realm: Realm, groups: seq<Entry>, f: Found, g: Found)
    requires groups != [] && (!Usable(groups[0]) || groups[0].id in f.seen) && Complete(realm, groups[1..], f, g)
    ensures Complete(realm, groups, f, g)
  {
    hide ChildrenCovered;
    assert groups == [groups[0]] + groups[1..];
  }

  lemma VisitIsComplete(realm: Realm, groups: seq<Entry>, children: seq<Entry>, f: Found, inner: Found, g: Found)
    requires groups != [] && ChildrenOf(realm, groups[0]) == Ok(children)
    requires Complete(realm, children, Visit(f, groups[0]), inner) && Complete(realm, groups[1..], inner, g)
    ensures Complete(realm, groups, f, g)
  {
    hide ChildrenOf, Usable;
    assert groups == [groups[0]] + groups[1..];
    forall i | |f.into| <= i < |g.into| ensures ChildrenCovered(realm, g.seen, g.into[i]) {
      if |f.into| < i < |inner.into| {
        assert g.into[i] == inner.into[i];
      }
    }
  }

  lemma {:induction false} CollectIsComplete(realm: Realm, groups: seq<Entry>, depth: nat, f: Found)
    requires depth <= MAX_DEPTH && Tidy(f)
    ensures match Collected(realm, groups, depth, f) case Ok(g) => Complete(realm, groups, f, g) case Err(_) => true
    decreases MAX_DEPTH - depth, |groups|
  {
    hide Tidy, ChildrenOf, Complete, Usable;
    if groups == [] {
      EmptyIsComplete(realm, f);
    } else if depth < MAX_DEPTH {
      if !Usable(groups[0]) || groups[0].id in f.seen {
        CollectIsComplete(realm, groups[1..], depth, f);
        var r := Collected(realm, groups[1..], depth, f);
        if r.Ok? { SkipIsComplete(realm, groups, f, r.value); }
      } else if ChildrenOf(realm, groups[0]).Ok? {
        var children := ChildrenOf(realm, groups[0]).value;
        VisitKeepsTidy(f, groups[0]);
        CollectIsComplete(realm, children, depth + 1, Visit(f, groups[0]));
        CollectKeepsTidy(realm, children, depth + 1, Visit(f, groups[0]));
        var inner := Collected(realm, children, depth + 1, Visit(f, groups[0]));
        if inner.Ok? {
          CollectIsComplete(realm, groups[1..], depth, inner.value);
          var r := Collected(realm, groups[1..], depth, inner.value);
          if r.Ok? { VisitIsComplete(realm, groups, children, f, inner.value, r.value); }
        }
      }
    }
  }

  lemma EmptyIsComplete(realm: Realm, f: Found)
    ensures Complete(realm, [], f, f)
  {}

  /** The provider is of one mind about a group: entries with one id have the same children. */
  ghost predicate OneMind(realm: Realm, top: seq<Entry>) {
    forall a, b :: Reachable(realm, top, a) && Reachable(realm, top, b) && a.id == b.id ==>
                     forall children :: ChildrenAre(realm, a, children) ==> ChildrenAre(realm, b, children)
  }

  /** The usable children of a reachable group whose id is seen are seen. */
  lemma ChildIsSeen(realm: Realm, top: seq<Entry>, f: Found, parent: Entry, child: Entry)
    requires OneMind(realm, top) && Tidy(f) && parent.id in f.seen && Reachable(realm, top, parent) && Usable(child)
    requires forall i :: 0 <= i < |f.into| ==>
             Reachable(realm, top, f.into[i]) && ChildrenCovered(realm, f.seen, f.into[i])
    requires IsChild(realm, parent, child)
    ensures child.id in f.seen
  {
    hide Reachable, ChildrenOf, ChildrenAre;
    var i :| 0 <= i < |f.into| && f.into[i].id == parent.id;
    var children :| ChildrenAre(realm, parent, children) && child in children;
    ChildrenOfIs(realm, f.into[i]);
    assert ChildrenAre(realm, f.into[i], children);
  }

  lemma ChainShortens(realm: Realm, top: seq<Entry>, c: seq<Entry>)
    requires |c| > 1 && Chain(realm, top, c)
    ensures Chain(realm, top, c[..|c| - 1]) && Reachable(realm, top, c[|c| - 2])
    ensures Usable(c[|c| - 1]) && IsChild(realm, c[|c| - 2], c[|c| - 1])
  {
    hide IsChild;
    var shorter := c[..|c| - 1];
    forall i | 0 <= i < |shorter| - 1 ensures IsChild(realm, shorter[i], shorter[i + 1]) {
      assert shorter[i] == c[i] && shorter[i + 1] == c[i + 1];
    }
    assert shorter[|shorter| - 1] == c[|c| - 2] && c[|c| - 2 + 1] == c[|c| - 1];
  }

  lemma {:induction false} ChainIsSeen(realm: Realm, top: seq<Entry>, f: Found, c: seq<Entry>)
    requires OneMind(realm, top) && Tidy(f) && Covers(f.seen, top)
    requires forall i :: 0 <= i < |f.into| ==>
             Reachable(realm, top, f.into[i]) && ChildrenCovered(realm, f.seen, f.into[i])
    requires c != [] && Chain(realm, top, c)
    ensures c[|c| - 1].id in f.seen
    decreases |c|
  {
    hide OneMind, Tidy, Reachable, ChildrenCovered, ChildrenOf, IsChild;
    if |c| > 1 {
      ChainShortens(realm, top, c);
      assert c[..|c| - 1][|c| - 2] == c[|c| - 2];
      ChainIsSeen(realm, top, f, c[..|c| - 1]);
      ChildIsSeen(realm, top, f, c[|c| - 2], c[|c| - 1]);
    }
  }

  /** Only groups that can be reached, each id once, and the id of every one of them. */
  ghost predicate ExactlyReachable(realm: Realm, top: seq<Entry>, groups: seq<Entry>) {
    && DistinctIds(groups)
    && (forall e :: e in groups ==> Reachable(realm, top, e))
    && (forall e :: Reachable(realm, top, e) ==> exists i :: 0 <= i < |groups| && groups[i].id == e.id)
  }

  /**
   * On success the descent emits exactly the groups that can be reached through entries with an id
   * and a path, each id once - cycles, repeats and shared subtrees included, nothing cut off.
   */
  lemma CollectsExactlyTheReachable(realm: Realm, top: seq<Entry>)
    requires OneMind(realm, top)
    ensures var r := Collected(realm, top, 0, Found({}, [])); r.Ok? ==> ExactlyReachable(realm, top, r.value.into)
  {
    var start := Found({}, []);
    CollectKeepsTidy(realm, top, 0, start);
    CollectIsComplete(realm, top, 0, start);
    assert Chain(realm, top, []) && Under(realm, top, [], top);
    CollectIsJustified(realm, top, [], top, start);
    var r := Collected(realm, top, 0, start);
    if r.Ok? {
      forall e | Reachable(realm, top, e) ensures exists i :: 0 <= i < |r.value.into| && r.value.into[i].id == e.id {
        var c :| c != [] && Chain(realm, top, c) && c[|c| - 1] == e;
        ChainIsSeen(realm, top, r.value, c);
      }
    }
  }

  /**
   * The descent fails only for a reason found in the realm: more levels of different groups than the
   * limit, or a reachable group whose children could not be read. So a tree is never cut to fit.
   */
  lemma FailsOnlyForCause(realm: Realm, top: seq<Entry>)
    ensures var r := Collected(realm, top, 0, Found({}, []));
            r.Err? ==> if r.error == TooDeep then NestsTooDeep(realm, top) else FetchFails(realm, top, r.error)
  {
    assert Chain(realm, top, []) && Under(realm, top, [], top);
    CollectIsJustified(realm, top, [], top, Found({}, []));
  }

  /** A real tree: there is one way down to a group. */
  ghost predicate OneWayDown(realm: Realm, top: seq<Entry>) {
    forall c: seq<Entry>, d: seq<Entry> ::
      c != [] && d != [] && Chain(realm, top, c) && Chain(realm, top, d) && c[|c| - 1].id == d[|d| - 1].id ==> c == d
  }

  lemma TreeIsOfOneMind(realm: Realm, top: seq<Entry>)
    requires OneWayDown(realm, top)
    ensures OneMind(realm, top)
  {
    hide Chain, ChildrenOf;
  }

  /**
   * On a tree the descent succeeds exactly when every reachable group's children can be read and
   * nothing is nested deeper than the limit.
   */
  lemma SucceedsExactlyWhenReadable(realm: Realm, top: seq<Entry>)
    requires OneWayDown(realm, top)
    ensures Collected(realm, top, 0, Found({}, [])).Ok? <==>
            !NestsTooDeep(realm, top) && forall e, error :: Reachable(realm, top, e) ==> !Unreadable(realm, e, error)
  {
    hide Collected, NestsTooDeep, Unreadable, Reachable;
    FailsOnlyForCause(realm, top);
    if Collected(realm, top, 0, Found({}, [])).Ok? {
      ReadableWhenItSucceeds(realm, top);
      NotTooDeepWhenItSucceeds(realm, top);
    }
  }

  /** Every reachable group was emitted, through the same entry, with its children read and within the limit. */
  lemma EmittedAsReached(realm: Realm, top: seq<Entry>, e: Entry)
    requires OneWayDown(realm, top) && Reachable(realm, top, e) && Collected(realm, top, 0, Found({}, [])).Ok?
    ensures ChildrenOf(realm, e).Ok? && WithinLimit(realm, top, e)
  {
    hide Chain, ChildrenOf, ChildrenAre, WithinLimit, Collected, Covers;
    TreeIsOfOneMind(realm, top);
    CollectsExactlyTheReachable(realm, top);
    CollectIsComplete(realm, top, 0, Found({}, []));
    assert Chain(realm, top, []) by { NoChain(realm, top); }
    CollectIsJustified(realm, top, [], top, Found({}, []));
    var f := Collected(realm, top, 0, Found({}, [])).value;
    var i :| 0 <= i < |f.into| && f.into[i].id == e.id;
    assert f.into[i] in f.into && ChildrenCovered(realm, f.seen, f.into[i]);
    assert f.into[i] == e;
  }

  lemma NoChain(realm: Realm, top: seq<Entry>)
    ensures Chain(realm, top, [])
  {}

  lemma ReadableWhenItSucceeds(realm: Realm, top: seq<Entry>)
    requires OneWayDown(realm, top) && Collected(realm, top, 0, Found({}, [])).Ok?
    ensures forall e, error :: Reachable(realm, top, e) ==> !Unreadable(realm, e, error)
  {
    hide Reachable, Unreadable, Collected, ChildrenOf;
    forall e, error | Reachable(realm, top, e) ensures !Unreadable(realm, e, error) {
      EmittedAsReached(realm, top, e);
      ChildrenOfIs(realm, e);
    }
  }

  lemma NotTooDeepWhenItSucceeds(realm: Realm, top: seq<Entry>)
    requires OneWayDown(realm, top) && Collected(realm, top, 0, Found({}, [])).Ok?
    ensures !NestsTooDeep(realm, top)
  {
    hide Chain, ChildrenOf, ChildrenAre, Collected, DistinctIds;
    forall c: seq<Entry> | |c| == MAX_DEPTH && Chain(realm, top, c) ensures !HasChild(realm, c[|c| - 1])
    {
      var e := c[|c| - 1];
      assert Reachable(realm, top, e);
      EmittedAsReached(realm, top, e);
      var d :| d != [] && Chain(realm, top, d) && d[|d| - 1] == e &&
        (|d| < MAX_DEPTH || ChildrenAre(realm, e, []));
      assert c == d && ChildrenAre(realm, e, []);
      ChildrenOfIs(realm, e);
    }
  }

  // ---- the whole poll ----

  predicate ByPath(a: Entry, b: Entry) { Before(a.path, b.path) }

  lemma SortedIdsStayDistinct(groups: seq<Entry>, sorted: seq<Entry>)
    requires DistinctIds(groups) && multiset(sorted) == multiset(groups)
    ensures DistinctIds(sorted)
  {
    forall i, j | 0 <= i < j < |sorted| ensures sorted[i].id != sorted[j].id {
      assert sorted == sorted[..j] + [sorted[j]] + sorted[j + 1..] && sorted[i] in sorted[..j];
      assert sorted[i] in multiset(groups) && sorted[j] in multiset(groups);
      if sorted[i] == sorted[j] {
        assert multiset(groups)[sorted[i]] >= 2;
        OnceEach(groups, sorted[i]);
      }
    }
  }

  lemma {:induction false} OnceEach(groups: seq<Entry>, e: Entry)
    requires DistinctIds(groups)
    ensures multiset(groups)[e] <= 1
  {
    if groups != [] {
      var n := |groups| - 1;
      assert groups == groups[..n] + [groups[n]];
      OnceEach(groups[..n], e);
      if e == groups[n] { assert e !in groups[..n] && e !in multiset(groups[..n]); }
    }
  }

  lemma SortedIsReachable(realm: Realm, top: seq<Entry>, groups: seq<Entry>, sorted: seq<Entry>)
    requires ExactlyReachable(realm, top, groups) && multiset(sorted) == multiset(groups)
    ensures ExactlyReachable(realm, top, sorted)
  {
    hide Reachable;
    SortedIdsStayDistinct(groups, sorted);
    SameElements(sorted, groups);
    forall e | Reachable(realm, top, e) ensures exists i :: 0 <= i < |sorted| && sorted[i].id == e.id {
      var i :| 0 <= i < |groups| && groups[i].id == e.id;
      assert groups[i] in sorted;
      var k :| 0 <= k < |sorted| && sorted[k] == groups[i];
    }
  }

  /** What a poll promises about its answer: every group of the realm, or a reason found in it. */
  ghost predicate Polled(realm: Realm, r: Result<seq<Entry>>) {
    && (forall top :: Lists(realm.top, top) && OneMind(realm, top) && r.Ok? ==> ExactlyReachable(realm, top, r.value))
    && (forall top :: Lists(realm.top, top) && r == Err(TooDeep) ==> NestsTooDeep(realm, top))
    && (forall top, error :: Lists(realm.top, top) && r == Err(error) && error !in [TooDeep, MayNotView] ==>
          FetchFails(realm, top, error))
    && (r == Err(MayNotView) <==> Lists(realm.top, []) && realm.count.Some? && realm.count.value > 0)
  }

  /** The answer of a poll, by the walk it makes. */
  ghost predicate WalkAnswers(realm: Realm, r: Result<seq<Entry>>) {
    match ListFrom(realm.top, 0)
    case Err(e) => r == Err(e)
    case Ok(top) =>
      if top == [] && realm.count.Some? && realm.count.value > 0 then r == Err(MayNotView)
      else
        match Collected(realm, top, 0, Found({}, []))
        case Ok(f) => r.Ok? && multiset(r.value) == multiset(f.into)
        case Err(e) => r == Err(e)
  }

  lemma WalkMeansPolled(realm: Realm, r: Result<seq<Entry>>)
    requires WalkAnswers(realm, r)
    ensures Polled(realm, r)
  {
    hide Lists, Collected, OneMind, ExactlyReachable, NestsTooDeep, FetchFails;
    forall top ensures Lists(realm.top, top) <==> ListFrom(realm.top, 0) == Ok(top) { ListsIs(realm.top, top); }
    ListErrors(realm.top, 0);
    if ListFrom(realm.top, 0).Ok? {
      var top := ListFrom(realm.top, 0).value;
      FailsOnlyForCause(realm, top);
      NoViewingBelow(realm, top);
      if OneMind(realm, top) && r.Ok? {
        CollectsExactlyTheReachable(realm, top);
        SortedIsReachable(realm, top, Collected(realm, top, 0, Found({}, [])).value.into, r.value);
      }
    }
  }

  lemma NoViewingBelow(realm: Realm, top: seq<Entry>)
    ensures !FetchFails(realm, top, MayNotView)
  {}

  /**
   * One poll: an empty top level is believed only if the count does not contradict it, and what was
   * collected is sorted by path.
   */
  method Groups(realm: Realm) returns (r: Result<seq<Entry>>)
    ensures WalkAnswers(realm, r)
    ensures r.Ok? ==> forall i, j :: 0 <= i < j < |r.value| ==> !Before(r.value[j].path, r.value[i].path)
    ensures Polled(realm, r)
  {
    hide Polled, Collected;
    var roots := ListGroups(realm.top);
    if roots.Err? {
      WalkMeansPolled(realm, Err(roots.error));
      return Err(roots.error);
    }
    if |roots.value| == 0 && realm.count.Some? && realm.count.value > 0 {
      WalkMeansPolled(realm, Err(MayNotView));
      return Err(MayNotView);
    }
    var walk := new Walk();
    var error := walk.Collect(realm, roots.value, 0);
    if error.Some? {
      WalkMeansPolled(realm, Err(error.value));
      return Err(error.value);
    }
    r := Ok(Sort(ByPath, walk.into));
    SortedByPath(walk.into);
    WalkMeansPolled(realm, r);
  }

  lemma SortedByPath(groups: seq<Entry>)
    ensures var s := Sort(ByPath, groups);
            multiset(s) == multiset(groups) && forall i, j :: 0 <= i < j < |s| ==> !Before(s[j].path, s[i].path)
  {
    BeforeIsStrictOrder();
    forall a: Entry, b: Entry, c: Entry | ByPath(a, c) ensures ByPath(a, b) || ByPath(b, c) {
      if a.path != b.path { BeforeTotal(a.path, b.path); }
      if ByPath(b, a) { BeforeTransitive(b.path, a.path, c.path); }
    }
    SortKeepsOrder(ByPath, groups);
    assert NoneBehind(ByPath, Sort(ByPath, groups));
  }
}
