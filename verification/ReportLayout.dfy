/** How the lines of the report lie: which nodes are shown under which, in what order, and where a branch ends. */
module ReportLayout {
  import opened Sorting
  import opened Model
  import opened ReportWalk
  import Updating

  /** The line is one of the tree's, as deep as this or deeper. */
  predicate DeepAs(line: Line, depth: nat) { !line.Unreachable? && line.depth >= depth }

  /** The ids one step below this depth, up to the line that is no deeper than it. */
  function Below(lines: seq<Line>, depth: nat): seq<Id> {
    if lines == [] || !DeepAs(lines[0], depth + 1) then []
    else (if lines[0].depth == depth + 1 then [lines[0].id] else []) + Below(lines[1..], depth)
  }

  /** A node's children are shown below it, in their order; under a repeated line nothing is. */
  ghost predicate Nested(children: Children, lines: seq<Line>) {
    forall j :: 0 <= j < |lines| && !lines[j].Unreachable? ==>
      Below(lines[j + 1..], lines[j].depth) == if lines[j].Shown? then KidsAt(children, lines[j].id) else []
  }

  /** Some siblings at this depth, with what is below each of them. */
  ghost predicate Forest(children: Children, lines: seq<Line>, depth: nat, ids: seq<Id>) {
    && depth > 0 && Nested(children, lines) && Below(lines, depth - 1) == ids
    && (forall j :: 0 <= j < |lines| ==> DeepAs(lines[j], depth))
    && (lines != [] ==> lines[0].depth == depth)
  }

  lemma {:induction false} BelowJoins(a: seq<Line>, b: seq<Line>, depth: nat)
    requires forall j :: 0 <= j < |a| ==> DeepAs(a[j], depth + 1)
    ensures Below(a + b, depth) == Below(a, depth) + Below(b, depth)
  {
    if a == [] {
      assert a + b == b;
    } else {
      assert (a + b)[1..] == a[1..] + b;
      BelowJoins(a[1..], b, depth);
    }
  }

  /** What follows a line that is no deeper does not count. */
  lemma {:induction false} BelowStops(a: seq<Line>, b: seq<Line>, depth: nat)
    requires b != [] ==> !DeepAs(b[0], depth + 1)
    ensures Below(a + b, depth) == Below(a, depth)
  {
    if a == [] {
      assert a + b == b;
    } else {
      assert (a + b)[1..] == a[1..] + b;
      BelowStops(a[1..], b, depth);
    }
  }

  lemma {:induction false} TooDeepToCount(lines: seq<Line>, depth: nat)
    requires forall j :: 0 <= j < |lines| ==> DeepAs(lines[j], depth + 2)
    ensures Below(lines, depth) == []
  {
    if lines != [] { TooDeepToCount(lines[1..], depth); }
  }

  lemma NestedJoins(children: Children, a: seq<Line>, b: seq<Line>, depth: nat)
    requires Nested(children, a) && Nested(children, b) && forall j :: 0 <= j < |a| ==> DeepAs(a[j], depth)
    requires b != [] ==> !DeepAs(b[0], depth + 1)
    ensures Nested(children, a + b)
  {
    hide KidsAt;
    var lines := a + b;
    forall j | 0 <= j < |lines| && !lines[j].Unreachable?
      ensures Below(lines[j + 1..], lines[j].depth) == if lines[j].Shown? then KidsAt(children, lines[j].id) else []
    {
      if j < |a| {
        assert lines[j + 1..] == a[j + 1..] + b && lines[j] == a[j];
        BelowStops(a[j + 1..], b, a[j].depth);
      } else {
        assert lines[j + 1..] == b[j - |a| + 1..] && lines[j] == b[j - |a|];
      }
    }
  }

  lemma ForestJoins(children: Children, a: seq<Line>, b: seq<Line>, depth: nat, first: seq<Id>, rest: seq<Id>)
    requires Forest(children, a, depth, first) && Forest(children, b, depth, rest)
    ensures Forest(children, a + b, depth, first + rest)
  {
    hide Nested;
    NestedJoins(children, a, b, depth);
    BelowJoins(a, b, depth - 1);
  }

  lemma NodeOverForest(children: Children, id: Id, depth: nat, below: seq<Line>)
    requires depth > 0 && Forest(children, below, depth + 1, KidsAt(children, id))
    ensures Forest(children, [Shown(id, depth)] + below, depth, [id])
  {
    var lines := [Shown(id, depth)] + below;
    assert lines[1..] == below;
    TooDeepToCount(below, depth - 1);
    forall j | 0 <= j < |lines| && !lines[j].Unreachable?
      ensures Below(lines[j + 1..], lines[j].depth) == if lines[j].Shown? then KidsAt(children, lines[j].id) else []
    {
      if j > 0 { assert lines[j] == below[j - 1] && lines[j + 1..] == below[j..]; }
    }
  }

  lemma RepeatIsForest(children: Children, id: Id, depth: nat)
    requires depth > 0
    ensures Forest(children, [Repeated(id, depth)], depth, [id])
  {
    assert [Repeated(id, depth)][1..] == [];
  }

  lemma {:induction false} WalkedIsForest(children: Children, u: set<Id>, ids: seq<Id>, depth: nat, s: Seen)
    returns (lines: seq<Line>)
    requires ReportWalk.Within(children, u) && AllIn(ids, u) && depth > 0
    ensures Walked(children, u, ids, depth, s).lines == s.lines + lines && Forest(children, lines, depth, ids)
    decreases u - s.visited, |ids|
  {
    hide Forest;
    if ids == [] {
      lines := [];
      NothingIsForest(children, depth);
    } else {
      var a := OneIsForest(children, u, ids[0], depth, s);
      var b := WalkedIsForest(children, u, ids[1..], depth, WalkedOne(children, u, ids[0], depth, s));
      ForestJoins(children, a, b, depth, [ids[0]], ids[1..]);
      lines := a + b;
      assert [ids[0]] + ids[1..] == ids && s.lines + a + b == s.lines + lines;
    }
  }

  lemma NothingIsForest(children: Children, depth: nat)
    requires depth > 0
    ensures Forest(children, [], depth, [])
  {}

  lemma {:induction false} OneIsForest(children: Children, u: set<Id>, id: Id, depth: nat, s: Seen)
    returns (lines: seq<Line>)
    requires ReportWalk.Within(children, u) && id in u && depth > 0
    ensures WalkedOne(children, u, id, depth, s).lines == s.lines + lines && Forest(children, lines, depth, [id])
    decreases u - s.visited, 0
  {
    hide Forest;
    if id in s.visited {
      lines := [Repeated(id, depth)];
      RepeatIsForest(children, id, depth);
    } else {
      var start := Seen(s.visited + {id}, s.lines + [Shown(id, depth)]);
      var below := WalkedIsForest(children, u, KidsAt(children, id), depth + 1, start);
      lines := [Shown(id, depth)] + below;
      NodeOverForest(children, id, depth, below);
      assert s.lines + [Shown(id, depth)] + below == s.lines + lines;
    }
  }

  // ---- which lines repeat ----

  /** A line repeats a node exactly if a line before it shows it. */
  ghost predicate RepeatsWhatWasShown(lines: seq<Line>) {
    forall j :: 0 <= j < |lines| && !lines[j].Unreachable? ==>
      (lines[j].Repeated? <==> exists i :: 0 <= i < j && lines[i].Shown? && lines[i].id == lines[j].id)
  }

  ghost predicate ShowsVisited(s: Seen) {
    && RepeatsWhatWasShown(s.lines)
    && forall id :: id in s.visited <==> exists i :: 0 <= i < |s.lines| && s.lines[i].Shown? && s.lines[i].id == id
  }

  lemma LineShowsVisited(s: Seen, id: Id, depth: nat)
    requires ShowsVisited(s)
    ensures id in s.visited ==> ShowsVisited(s.(lines := s.lines + [Repeated(id, depth)]))
    ensures id !in s.visited ==> ShowsVisited(Seen(s.visited + {id}, s.lines + [Shown(id, depth)]))
  {
    var line := if id in s.visited then Repeated(id, depth) else Shown(id, depth);
    var lines := s.lines + [line];
    assert forall i :: 0 <= i < |s.lines| ==> lines[i] == s.lines[i];
    assert lines[|s.lines|] == line;
    forall j | 0 <= j < |lines| && !lines[j].Unreachable?
      ensures lines[j].Repeated? <==> exists i :: 0 <= i < j && lines[i].Shown? && lines[i].id == lines[j].id
    {
      assert forall i :: 0 <= i < j ==> lines[i] == s.lines[i];
    }
  }

  lemma {:induction false} WalkedShowsVisited(children: Children, u: set<Id>, ids: seq<Id>, depth: nat, s: Seen)
    requires ReportWalk.Within(children, u) && AllIn(ids, u) && ShowsVisited(s)
    ensures ShowsVisited(Walked(children, u, ids, depth, s))
    decreases u - s.visited, |ids|
  {
    hide ShowsVisited;
    if ids != [] {
      OneShowsVisited(children, u, ids[0], depth, s);
      WalkedShowsVisited(children, u, ids[1..], depth, WalkedOne(children, u, ids[0], depth, s));
    }
  }

  lemma {:induction false} OneShowsVisited(children: Children, u: set<Id>, id: Id, depth: nat, s: Seen)
    requires ReportWalk.Within(children, u) && id in u && ShowsVisited(s)
    ensures ShowsVisited(WalkedOne(children, u, id, depth, s))
    decreases u - s.visited, 0
  {
    hide ShowsVisited;
    LineShowsVisited(s, id, depth);
    if id !in s.visited {
      WalkedShowsVisited(children, u, KidsAt(children, id), depth + 1,
        Seen(s.visited + {id}, s.lines + [Shown(id, depth)]));
    }
  }

  // ---- the whole report ----

  /** The report of a graph lies like this: the root's tree, then the nodes outside it in the order of their ids. */
  ghost predicate LaidOut(g: Graph, children: Children, lines: seq<Line>, n: nat) {
    && n <= |lines| && Nested(children, lines) && RepeatsWhatWasShown(lines)
    && (forall j :: 0 <= j < n ==> DeepAs(lines[j], 1))
    && (forall j :: n <= j < |lines| ==> lines[j].Unreachable?)
    && (forall i, j :: n <= i < j < |lines| ==> !Before(lines[j].id, lines[i].id))
    && (if exists k :: 0 <= k < |g.nodes| && IsSink(g.edges, g.nodes[k].id)
        then exists k :: 0 <= k < |g.nodes| && IsSink(g.edges, g.nodes[k].id) && Below(lines, 0) == [g.nodes[k].id]
        else n == 0)
  }

  lemma {:induction false} SomeRoot(nodes: seq<Node>, edges: seq<Edge>)
    ensures Updating.RootOf(nodes, edges) < |nodes| <==> exists k :: 0 <= k < |nodes| && IsSink(edges, nodes[k].id)
  {
    hide IsSink;
    if nodes != [] {
      SomeRoot(nodes[1..], edges);
      assert forall k :: 0 < k < |nodes| ==> nodes[k] == nodes[1..][k - 1];
      if k :| 0 <= k < |nodes[1..]| && IsSink(edges, nodes[1..][k].id) {
        assert IsSink(edges, nodes[k + 1].id);
      }
    }
  }

  /** On the first level is the one node no edge leaves, the first in order if there are several. */
  ghost predicate StartsAtRoot(g: Graph, lines: seq<Line>, root: seq<Id>) {
    if exists k :: 0 <= k < |g.nodes| && IsSink(g.edges, g.nodes[k].id)
      then exists k :: 0 <= k < |g.nodes| && IsSink(g.edges, g.nodes[k].id) && root == [g.nodes[k].id]
      else lines == []
  }

  lemma TheWalkIsForest(g: Graph, children: Children) returns (root: seq<Id>)
    ensures var s := FromTheRoot(g, children);
            && Forest(children, s.lines, 1, root) && ShowsVisited(s)
            && StartsAtRoot(g, s.lines, root)
  {
    hide Walked, WalkedOne, Universe, Forest, IsSink;
    var k, u := Updating.RootOf(g.nodes, g.edges), Universe(children, g);
    UniverseHolds(children, g);
    SomeRoot(g.nodes, g.edges);
    assert ShowsVisited(Seen({}, []));
    if k < |g.nodes| {
      root := [g.nodes[k].id];
      var lines := OneIsForest(children, u, g.nodes[k].id, 1, Seen({}, []));
      assert [] + lines == lines;
      OneShowsVisited(children, u, g.nodes[k].id, 1, Seen({}, []));
    } else {
      root := [];
      NothingIsForest(children, 1);
    }
  }

  lemma UnreachableIsNested(children: Children, ids: seq<Id>)
    ensures Nested(children, AsLines(ids))
  {}

  lemma {:induction false} NothingShown(lines: seq<Line>, rest: seq<Line>)
    requires RepeatsWhatWasShown(lines) && forall j :: 0 <= j < |rest| ==> rest[j].Unreachable?
    ensures RepeatsWhatWasShown(lines + rest)
  {
    var all := lines + rest;
    forall j | 0 <= j < |all| && !all[j].Unreachable?
      ensures all[j].Repeated? <==> exists i :: 0 <= i < j && all[i].Shown? && all[i].id == all[j].id
    {
      assert j < |lines| && all[j] == lines[j] && forall i :: 0 <= i < j ==> all[i] == lines[i];
    }
  }

  /**
   * In the report every node is shown under the node its edge leads to: below each line are its children, in
   * their order, one step deeper; a node shown before is repeated with nothing below it; and what the walk
   * did not come to is listed behind, by id.
   */
  lemma ReportIsLaidOut(g: Graph, children: Children, lines: seq<Line>) returns (n: nat)
    requires Drawn(g, children, lines)
    ensures LaidOut(g, children, lines, n)
  {
    hide Forest, LaidOut, ShowsVisited, FromTheRoot, StartsAtRoot, Unreached, AsLines, Sort, Ascending;
    var root := TheWalkIsForest(g, children);
    var s := FromTheRoot(g, children);
    var rest := Sort(Before, Unreached(g.nodes, s.visited));
    n := |s.lines|;
    SortedIds(Unreached(g.nodes, s.visited));
    TreeThenRest(g, children, s, root, rest);
  }

  lemma TreeThenRest(g: Graph, children: Children, s: Seen, root: seq<Id>, rest: seq<Id>)
    requires Forest(children, s.lines, 1, root) && ShowsVisited(s)
    requires StartsAtRoot(g, s.lines, root)
    requires Ascending(rest)
    ensures LaidOut(g, children, s.lines + AsLines(rest), |s.lines|)
  {
    hide Nested, RepeatsWhatWasShown, IsSink, Before;
    UnreachableIsNested(children, rest);
    NestedJoins(children, s.lines, AsLines(rest), 1);
    NothingShown(s.lines, AsLines(rest));
    BelowStops(s.lines, AsLines(rest), 0);
  }

  ghost predicate Ascending(ids: seq<Id>) { forall i, j :: 0 <= i < j < |ids| ==> !Before(ids[j], ids[i]) }

  lemma SortedIds(ids: seq<Id>)
    ensures Ascending(Sort(Before, ids))
  {
    BeforeIsStrictOrder();
    forall a, b, c | Before(a, c) ensures Before(a, b) || Before(b, c) {
      if a != b { BeforeTotal(a, b); }
      if Before(b, a) { BeforeTransitive(b, a, c); }
    }
    SortKeepsOrder(Before, ids);
  }
}
