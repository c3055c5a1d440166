/** The report's walk from the root down, over graphs that need not be trees, and its figures. */
module ReportWalk {
  import opened Sorting
  import opened Model
  import opened Placement
  import opened Tree
  import opened Attaching
  import opened Refinement
  import opened Updating

  datatype Line = Shown(id: Id, depth: nat) | Repeated(id: Id, depth: nat) | Unreachable(id: Id)

  type Children = map<Id, seq<Id>>

  datatype Seen = Seen(visited: set<Id>, lines: seq<Line>)

  // ---- the parent-to-children map ----

  predicate ByLabel(names: map<Id, string>, a: Id, b: Id) {
    var left, right := if a in names then names[a] else "", if b in names then names[b] else "";
    if left != right then Before(left, right) else Before(a, b)
  }

  function KidsAt(children: Children, id: Id): seq<Id> { if id in children then children[id] else [] }

  /** The edges inverted, each node's children once per edge, in some order. */
  ghost predicate Inverts(children: Children, edges: seq<Edge>) {
    forall x :: multiset(KidsAt(children, x)) == multiset(ChildrenOf(edges, x))
  }

  /** The children of one node in the order they are shown: by label, then by id. */
  function Siblings(names: map<Id, string>, ids: seq<Id>): seq<Id> { Sort((a, b) => ByLabel(names, a, b), ids) }

  ghost predicate Arranges(children: Children, edges: seq<Edge>, names: map<Id, string>) {
    forall x :: KidsAt(children, x) == Siblings(names, ChildrenOf(edges, x))
  }

  /** A node is shown by its name, and by an empty one if it has none. */
  function LabelIn(names: map<Id, string>, id: Id): string { if id in names then names[id] else "" }

  lemma LabelsOrder(names: map<Id, string>)
    ensures WeakOrder((a, b) => ByLabel(names, a, b))
    ensures forall a, b :: ByLabel(names, a, b) <==>
              Before(LabelIn(names, a), LabelIn(names, b)) || (LabelIn(names, a) == LabelIn(names, b) && Before(a, b))
  {
    var less := (a, b) => ByLabel(names, a, b);
    BeforeIsStrictOrder();
    forall a, b | a != b ensures less(a, b) || less(b, a) {
      BeforeTotal(a, b);
      if LabelIn(names, a) != LabelIn(names, b) { BeforeTotal(LabelIn(names, a), LabelIn(names, b)); }
    }
    forall a, b ensures !(Before(a, b) && Before(b, a)) { BeforeAsymmetric(a, b); }
  }

  /**
   * Arranged children are the inverted edges; none stands behind one with a later label, or the same and a
   * later id.
   */
  lemma ArrangedInOrder(children: Children, edges: seq<Edge>, names: map<Id, string>)
    requires Arranges(children, edges, names)
    ensures Inverts(children, edges)
    ensures forall x, i, j :: 0 <= i < j < |KidsAt(children, x)| ==>
              var a, b := KidsAt(children, x)[i], KidsAt(children, x)[j];
              !Before(LabelIn(names, b), LabelIn(names, a))
              && (LabelIn(names, a) == LabelIn(names, b) ==> !Before(b, a))
  {
    hide KidsAt, ChildrenOf, LabelIn, ByLabel;
    LabelsOrder(names);
    forall x ensures NoneBehind((a, b) => ByLabel(names, a, b), Siblings(names, ChildrenOf(edges, x))) {
      SortKeepsOrder((a, b) => ByLabel(names, a, b), ChildrenOf(edges, x));
    }
    forall x, i, j | 0 <= i < j < |KidsAt(children, x)|
      ensures !ByLabel(names, KidsAt(children, x)[j], KidsAt(children, x)[i])
    {
      assert KidsAt(children, x) == Siblings(names, ChildrenOf(edges, x));
    }
  }

  method Invert(edges: seq<Edge>, names: map<Id, string>) returns (children: Children)
    ensures Arranges(children, edges, names)
  {
    children := map[];
    for i := 0 to |edges|
      invariant forall x :: KidsAt(children, x) == ChildrenOf(edges[..i], x)
    {
      assert edges[..i + 1][..i] == edges[..i];
      children := children[edges[i].to := KidsAt(children, edges[i].to) + [edges[i].from]];
    }
    assert edges[..|edges|] == edges;
    ghost var unsorted := children;
    children := map x | x in children :: Siblings(names, children[x]);
    forall x ensures KidsAt(children, x) == Siblings(names, ChildrenOf(edges, x)) {
      assert KidsAt(unsorted, x) == ChildrenOf(edges, x);
    }
  }

  lemma {:induction false} ChildIsLinked(edges: seq<Edge>, x: Id, y: Id)
    ensures y in ChildrenOf(edges, x) <==> Linked(edges, y, x)
  {
    if edges != [] {
      var n := |edges| - 1;
      ChildIsLinked(edges[..n], x, y);
      if Linked(edges, y, x) {
        var i :| 0 <= i < |edges| && edges[i].from == y && edges[i].to == x;
        if i < n { assert edges[..n][i] == edges[i]; }
      }
    }
  }

  lemma KidIsLinkedUp(children: Children, edges: seq<Edge>, x: Id, y: Id)
    requires Inverts(children, edges)
    ensures y in KidsAt(children, x) <==> Linked(edges, y, x)
  {
    SameElements(KidsAt(children, x), ChildrenOf(edges, x));
    ChildIsLinked(edges, x, y);
  }

  // ---- the walk ----

  /** Every id a walk can come to is one of these finitely many. */
  ghost predicate Within(children: Children, u: set<Id>) {
    forall x, y :: x in children && y in children[x] ==> y in u
  }

  ghost predicate AllIn(ids: seq<Id>, u: set<Id>) { forall y :: y in ids ==> y in u }

  /** The walk over some siblings and all that is below them. */
  ghost function Walked(children: Children, u: set<Id>, ids: seq<Id>, depth: nat, s: Seen): (r: Seen)
    requires Within(children, u) && AllIn(ids, u)
    ensures s.visited <= r.visited
    decreases u - s.visited, |ids|
  {
    if ids == [] then s
    else Walked(children, u, ids[1..], depth, WalkedOne(children, u, ids[0], depth, s))
  }

  /** One node: a line that ends a branch if it was shown before, otherwise its line and its children. */
  ghost function WalkedOne(children: Children, u: set<Id>, id: Id, depth: nat, s: Seen): (r: Seen)
    requires Within(children, u) && id in u
    ensures s.visited <= r.visited
    decreases u - s.visited, 0
  {
    if id in s.visited then s.(lines := s.lines + [Repeated(id, depth)])
    else Walked(children, u, KidsAt(children, id), depth + 1, Seen(s.visited + {id}, s.lines + [Shown(id, depth)]))
  }

  class Report {
    var visited: set<Id>
    var lines: seq<Line>

    constructor ()
      ensures visited == {} && lines == []
    {
      visited, lines := {}, [];
    }

    method Walk(children: Children, nodeId: Id, depth: nat, ghost u: set<Id>)
      requires Within(children, u) && nodeId in u
      modifies this
      ensures Seen(visited, lines) == WalkedOne(children, u, nodeId, depth, old(Seen(visited, lines)))
      decreases u - visited
    {
      if nodeId in visited {
        lines := lines + [Repeated(nodeId, depth)];
        return;
      }
      visited, lines := visited + {nodeId}, lines + [Shown(nodeId, depth)];
      ghost var start := Seen(visited, lines);
      var kids := KidsAt(children, nodeId);
      assert kids[0..] == kids;
      var i := 0;
      while i < |kids|
        invariant 0 <= i <= |kids| && start.visited <= visited && AllIn(kids[i..], u)
        invariant Walked(children, u, kids[i..], depth + 1, Seen(visited, lines)) ==
                  Walked(children, u, kids, depth + 1, start)
      {
        assert kids[i..][0] == kids[i] && kids[i..][1..] == kids[i + 1..];
        Walk(children, kids[i], depth + 1, u);
        i := i + 1;
      }
    }

    method RenderTree(g: Graph, names: map<Id, string>)
      requires visited == {} && lines == []
      modifies this
      ensures exists children :: Arranges(children, g.edges, names) && Drawn(g, children, lines)
    {
      hide Arranges, Walked, WalkedOne, AsLines, Unreached;
      var children := Invert(g.edges, names);
      var root := RootOf(g.nodes, g.edges);
      ghost var u := Universe(children, g);
      UniverseHolds(children, g);
      if root < |g.nodes| {
        Walk(children, g.nodes[root].id, 1, u);
      }
      var unreached := ListUnreached(g.nodes, visited);
      unreached := Sort(Before, unreached);
      lines := lines + AsLines(unreached);
      assert Drawn(g, children, lines);
    }
  }

  ghost function Universe(children: Children, g: Graph): set<Id> {
    (set x, y | x in children && y in children[x] :: y) + (set i | 0 <= i < |g.nodes| :: g.nodes[i].id)
  }

  lemma UniverseHolds(children: Children, g: Graph)
    ensures Within(children, Universe(children, g)) && forall i :: 0 <= i < |g.nodes| ==>
            g.nodes[i].id in Universe(children, g)
  {}

  function Unreached(nodes: seq<Node>, visited: set<Id>): seq<Id> {
    if nodes == [] then []
    else
      var n := |nodes| - 1;
      Unreached(nodes[..n], visited) + if nodes[n].id in visited then [] else [nodes[n].id]
  }

  function AsLines(ids: seq<Id>): seq<Line> { seq(|ids|, i requires 0 <= i < |ids| => Unreachable(ids[i])) }

  method ListUnreached(nodes: seq<Node>, visited: set<Id>) returns (unreached: seq<Id>)
    ensures unreached == Unreached(nodes, visited)
  {
    unreached := [];
    for i := 0 to |nodes|
      invariant unreached == Unreached(nodes[..i], visited)
    {
      assert nodes[..i + 1][..i] == nodes[..i];
      if nodes[i].id !in visited {
        unreached := unreached + [nodes[i].id];
      }
    }
    assert nodes[..|nodes|] == nodes;
  }

  /** The walk of the whole graph: from the root down, or nothing when there is none. */
  ghost function FromTheRoot(g: Graph, children: Children): Seen {
    var root := RootOf(g.nodes, g.edges);
    UniverseHolds(children, g);
    if root < |g.nodes| then WalkedOne(children, Universe(children, g), g.nodes[root].id, 1, Seen({}, []))
       else Seen({}, [])
  }

  /** The report's lines: the walk's, then the nodes it did not come to, sorted. */
  ghost predicate Drawn(g: Graph, children: Children, lines: seq<Line>) {
    var s := FromTheRoot(g, children);
    var rest := Sort(Before, Unreached(g.nodes, s.visited));
    lines == s.lines + AsLines(rest)
  }

  // ---- what the walk comes to ----

  /** Edges lead from the node up to the root. */
  ghost predicate LeadsTo(edges: seq<Edge>, x: Id, root: Id) {
    exists p :: p != [] && Walk(edges, p) && p[0] == x && p[|p| - 1] == root
  }

  lemma LeadsFurther(edges: seq<Edge>, x: Id, y: Id, root: Id)
    requires Linked(edges, y, x) && LeadsTo(edges, x, root)
    ensures LeadsTo(edges, y, root)
  {
    var p :| p != [] && Walk(edges, p) && p[0] == x && p[|p| - 1] == root;
    var q := [y] + p;
    forall i | 0 <= i < |q| - 1 ensures Linked(edges, q[i], q[i + 1]) {
      if i > 0 { assert Linked(edges, p[i - 1], p[i]); }
    }
    assert q[|q| - 1] == root;
  }

  lemma {:induction false} WalkedLeads(children: Children, edges: seq<Edge>, u: set<Id>, ids: seq<Id>, depth: nat,
      s: Seen, root: Id)
    requires Inverts(children, edges) && Within(children, u) && AllIn(ids, u)
    requires forall x :: x in ids || x in s.visited ==> LeadsTo(edges, x, root)
    ensures forall x :: x in Walked(children, u, ids, depth, s).visited ==> LeadsTo(edges, x, root)
    decreases u - s.visited, |ids|
  {
    hide LeadsTo, Inverts;
    if ids != [] {
      OneLeads(children, edges, u, ids[0], depth, s, root);
      WalkedLeads(children, edges, u, ids[1..], depth, WalkedOne(children, u, ids[0], depth, s), root);
    }
  }

  lemma {:induction false} OneLeads(children: Children, edges: seq<Edge>, u: set<Id>, id: Id, depth: nat, s: Seen,
      root: Id)
    requires Inverts(children, edges) && Within(children, u) && id in u
    requires LeadsTo(edges, id, root) && forall x :: x in s.visited ==> LeadsTo(edges, x, root)
    ensures forall x :: x in WalkedOne(children, u, id, depth, s).visited ==> LeadsTo(edges, x, root)
    decreases u - s.visited, 0
  {
    hide LeadsTo, Inverts;
    if id !in s.visited {
      forall y | y in KidsAt(children, id) ensures LeadsTo(edges, y, root) {
        KidIsLinkedUp(children, edges, id, y);
        LeadsFurther(edges, id, y, root);
      }
      WalkedLeads(children, edges, u, KidsAt(children, id), depth + 1,
        Seen(s.visited + {id}, s.lines + [Shown(id, depth)]), root);
    }
  }

  /** What was newly visited has all its children visited, and so were the siblings asked for. */
  ghost predicate Closed(children: Children, ids: seq<Id>, s: Seen, r: Seen) {
    && AllIn(ids, r.visited) && s.visited <= r.visited
    && forall x :: x in r.visited && x !in s.visited ==> AllIn(KidsAt(children, x), r.visited)
  }

  lemma {:induction false} WalkedCloses(children: Children, u: set<Id>, ids: seq<Id>, depth: nat, s: Seen)
    requires Within(children, u) && AllIn(ids, u)
    ensures Closed(children, ids, s, Walked(children, u, ids, depth, s))
    decreases u - s.visited, |ids|
  {
    if ids != [] {
      var one := WalkedOne(children, u, ids[0], depth, s);
      OneCloses(children, u, ids[0], depth, s);
      WalkedCloses(children, u, ids[1..], depth, one);
      ClosedJoins(children, ids, s, one, Walked(children, u, ids[1..], depth, one));
    }
  }

  lemma ClosedJoins(children: Children, ids: seq<Id>, s: Seen, one: Seen, r: Seen)
    requires ids != [] && Closed(children, [ids[0]], s, one) && Closed(children, ids[1..], one, r)
    ensures Closed(children, ids, s, r)
  {
    hide KidsAt;
    assert ids == [ids[0]] + ids[1..] && ids[0] in [ids[0]];
  }

  lemma {:induction false} OneCloses(children: Children, u: set<Id>, id: Id, depth: nat, s: Seen)
    requires Within(children, u) && id in u
    ensures Closed(children, [id], s, WalkedOne(children, u, id, depth, s))
    decreases u - s.visited, 0
  {
    if id !in s.visited {
      WalkedCloses(children, u, KidsAt(children, id), depth + 1, Seen(s.visited + {id}, s.lines + [Shown(id, depth)]));
    }
  }

  lemma {:induction false} LeadingIsVisited(children: Children, edges: seq<Edge>, visited: set<Id>, p: seq<Id>)
    requires Inverts(children, edges) && forall x :: x in visited ==> AllIn(KidsAt(children, x), visited)
    requires p != [] && Walk(edges, p) && p[|p| - 1] in visited
    ensures p[0] in visited
    decreases |p|
  {
    hide Inverts;
    if |p| > 1 {
      var q := p[1..];
      forall i | 0 <= i < |q| - 1 ensures Linked(edges, q[i], q[i + 1]) {
        assert Linked(edges, p[i + 1], p[i + 1 + 1]);
      }
      LeadingIsVisited(children, edges, visited, q);
      assert Linked(edges, p[0], p[0 + 1]);
      KidIsLinkedUp(children, edges, p[1], p[0]);
    }
  }

  /** The walk comes to exactly the nodes from which edges lead to the root, cycles and all. */
  lemma VisitsWhatLeadsToTheRoot(g: Graph, children: Children, x: Id)
    requires Inverts(children, g.edges)
    ensures var root := RootOf(g.nodes, g.edges);
            x in FromTheRoot(g, children).visited <==> root < |g.nodes| && LeadsTo(g.edges, x, g.nodes[root].id)
  {
    hide Inverts, Universe, Walked, WalkedOne;
    var root := RootOf(g.nodes, g.edges);
    if root < |g.nodes| {
      var id, u := g.nodes[root].id, Universe(children, g);
      UniverseHolds(children, g);
      assert Walk(g.edges, [id]) && [id][|[id]| - 1] == id;
      OneLeads(children, g.edges, u, id, 1, Seen({}, []), id);
      OneCloses(children, u, id, 1, Seen({}, []));
      if LeadsTo(g.edges, x, id) {
        var p :| p != [] && Walk(g.edges, p) && p[0] == x && p[|p| - 1] == id;
        assert id in [id];
        LeadingIsVisited(children, g.edges, FromTheRoot(g, children).visited, p);
      }
    }
  }

  // ---- every node once ----

  /** How often an id is shown, and how often it is reported unreachable. */
  function TimesShown(lines: seq<Line>, id: Id): nat {
    if lines == [] then 0
    else TimesShown(lines[..|lines| - 1], id) + if lines[|lines| - 1].Shown? &&
      lines[|lines| - 1].id == id then 1 else 0
  }

  function TimesUnreachable(lines: seq<Line>, id: Id): nat {
    if lines == [] then 0
    else TimesUnreachable(lines[..|lines| - 1], id) + if lines[|lines| - 1] == Unreachable(id) then 1 else 0
  }

  /** The visited are shown once, nobody else is shown, and nobody is called unreachable yet. */
  ghost predicate ShownOnce(s: Seen) {
    forall id :: TimesShown(s.lines, id) == (if id in s.visited then 1 else 0) && TimesUnreachable(s.lines, id) == 0
  }

  lemma OneMoreLine(lines: seq<Line>, line: Line)
    ensures forall id ::
            TimesShown(lines + [line], id) == TimesShown(lines, id) + if line.Shown? && line.id == id then 1 else 0
    ensures forall id ::
            TimesUnreachable(lines + [line], id) == TimesUnreachable(lines, id) + if line == Unreachable(id) then 1
            else 0
  {
    assert (lines + [line])[..|lines|] == lines;
  }

  lemma RepeatShowsOnce(s: Seen, id: Id, depth: nat)
    requires ShownOnce(s)
    ensures ShownOnce(s.(lines := s.lines + [Repeated(id, depth)]))
  {
    hide TimesShown, TimesUnreachable;
    OneMoreLine(s.lines, Repeated(id, depth));
  }

  lemma ShowingShowsOnce(s: Seen, id: Id, depth: nat)
    requires ShownOnce(s) && id !in s.visited
    ensures ShownOnce(Seen(s.visited + {id}, s.lines + [Shown(id, depth)]))
  {
    hide TimesShown, TimesUnreachable;
    OneMoreLine(s.lines, Shown(id, depth));
  }

  lemma {:induction false} WalkedShowsOnce(children: Children, u: set<Id>, ids: seq<Id>, depth: nat, s: Seen)
    requires Within(children, u) && AllIn(ids, u) && ShownOnce(s)
    ensures ShownOnce(Walked(children, u, ids, depth, s))
    decreases u - s.visited, |ids|
  {
    hide ShownOnce;
    if ids != [] {
      OneShowsOnce(children, u, ids[0], depth, s);
      WalkedShowsOnce(children, u, ids[1..], depth, WalkedOne(children, u, ids[0], depth, s));
    }
  }

  lemma {:induction false} OneShowsOnce(children: Children, u: set<Id>, id: Id, depth: nat, s: Seen)
    requires Within(children, u) && id in u && ShownOnce(s)
    ensures ShownOnce(WalkedOne(children, u, id, depth, s))
    decreases u - s.visited, 0
  {
    hide ShownOnce, Walked;
    if id in s.visited {
      RepeatShowsOnce(s, id, depth);
    } else {
      ShowingShowsOnce(s, id, depth);
      WalkedShowsOnce(children, u, KidsAt(children, id), depth + 1,
        Seen(s.visited + {id}, s.lines + [Shown(id, depth)]));
    }
  }

  lemma {:induction false} UnreachedLines(s: seq<Line>, rest: seq<Id>, id: Id)
    ensures var lines := s + AsLines(rest);
            && TimesShown(lines, id) == TimesShown(s, id)
            && TimesUnreachable(lines, id) == TimesUnreachable(s, id) + multiset(rest)[id]
  {
    hide TimesShown, TimesUnreachable;
    if rest == [] {
      assert s + AsLines(rest) == s;
    } else {
      var n := |rest| - 1;
      UnreachedLines(s, rest[..n], id);
      var before := s + AsLines(rest[..n]);
      assert s + AsLines(rest) == before + [Unreachable(rest[n])];
      OneMoreLine(before, Unreachable(rest[n]));
      assert rest == rest[..n] + [rest[n]];
    }
  }

  lemma {:induction false} UnreachedOnce(nodes: seq<Node>, visited: set<Id>, id: Id)
    requires DistinctNodeIds(nodes)
    ensures multiset(Unreached(nodes, visited))[id] == if id !in visited && HasNode(nodes, id) then 1 else 0
  {
    if nodes != [] {
      var n := |nodes| - 1;
      UnreachedOnce(nodes[..n], visited, id);
      if HasNode(nodes, id) && nodes[n].id != id {
        var i :| 0 <= i < |nodes| && nodes[i].id == id;
        assert nodes[..n][i].id == id;
      }
    }
  }

  lemma AllShownOnce(g: Graph, children: Children)
    ensures ShownOnce(FromTheRoot(g, children))
  {
    hide Walked, WalkedOne, Universe;
    UniverseHolds(children, g);
    var root := RootOf(g.nodes, g.edges);
    assert ShownOnce(Seen({}, []));
    if root < |g.nodes| { OneShowsOnce(children, Universe(children, g), g.nodes[root].id, 1, Seen({}, [])); }
  }

  /**
   * Every node of any graph is in the report once: as a line of the tree if edges lead from it to the
   * root, and among the unreachable ones otherwise.
   */
  lemma EveryNodeOnce(g: Graph, children: Children, lines: seq<Line>, id: Id)
    requires Inverts(children, g.edges) && Drawn(g, children, lines) && DistinctNodeIds(g.nodes) && HasNode(g.nodes, id)
    ensures var root := RootOf(g.nodes, g.edges);
            if root < |g.nodes| && LeadsTo(g.edges, id, g.nodes[root].id)
            then TimesShown(lines, id) == 1 && TimesUnreachable(lines, id) == 0
            else TimesShown(lines, id) == 0 && TimesUnreachable(lines, id) == 1
  {
    hide Inverts, FromTheRoot, LeadsTo, TimesShown, TimesUnreachable;
    VisitsWhatLeadsToTheRoot(g, children, id);
    var s := FromTheRoot(g, children);
    AllShownOnce(g, children);
    var rest := Sort(Before, Unreached(g.nodes, s.visited));
    UnreachedLines(s.lines, rest, id);
    UnreachedOnce(g.nodes, s.visited, id);
  }

  // ---- on a valid graph nothing is unreachable ----

  lemma WalkIsDistinct(edges: seq<Edge>, p: seq<Id>)
    requires Acyclic(edges) && Walk(edges, p)
    ensures NoRepeats(p)
  {
    forall i, j | 0 <= i < j < |p| ensures p[i] != p[j] {
      var q := p[i..j + 1];
      forall k | 0 <= k < |q| - 1 ensures Linked(edges, q[k], q[k + 1]) {
        assert Linked(edges, p[i + k], p[i + k + 1]);
      }
      assert q[0] == p[i] && q[|q| - 1] == p[j];
    }
  }

  lemma NoLongerThanTheGraph(g: Graph, p: seq<Id>)
    requires Acyclic(g.edges) && Walk(g.edges, p) && forall i :: 0 <= i < |p| ==> HasNode(g.nodes, p[i])
    ensures |p| <= |g.nodes|
  {
    hide Acyclic, Walk;
    var ids := seq(|g.nodes|, i requires 0 <= i < |g.nodes| => g.nodes[i].id);
    WalkIsDistinct(g.edges, p);
    forall i | 0 <= i < |p| ensures p[i] in ids {
      assert HasNode(g.nodes, p[i]);
      var k :| 0 <= k < |g.nodes| && g.nodes[k].id == p[i];
      assert ids[k] == p[i];
    }
    NotMoreThan(p, ids);
  }

  lemma OneStepUp(edges: seq<Edge>, p: seq<Id>, i: nat)
    requires p != [] && Walk(edges, p) && i < |edges| && edges[i].from == p[|p| - 1]
    ensures Walk(edges, p + [edges[i].to])
  {
    var q := p + [edges[i].to];
    assert Linked(edges, edges[i].from, edges[i].to);
    hide Linked;
    forall k | 0 <= k < |q| - 1 ensures Linked(edges, q[k], q[k + 1]) {
      if k < |p| - 1 { assert Linked(edges, p[k], p[k + 1]); }
    }
  }

  lemma {:induction false} ClimbToRoot(g: Graph, p: seq<Id>)
    requires Valid(g) && p != [] && Walk(g.edges, p) && forall i :: 0 <= i < |p| ==> HasNode(g.nodes, p[i])
    ensures var root := RootOf(g.nodes, g.edges); root < |g.nodes| && LeadsTo(g.edges, p[0], g.nodes[root].id)
    decreases |g.nodes| + 1 - |p|
  {
    hide WeightsBalance, DistinctNodeIds, DistinctEdgeIds, DistinctResources, Acyclic, SingleRoot, Walk;
    NoLongerThanTheGraph(g, p);
    var top := p[|p| - 1];
    if IsSink(g.edges, top) {
      var k :| 0 <= k < |g.nodes| && g.nodes[k].id == top;
      TheRoot(g, k);
    } else {
      var i :| 0 <= i < |g.edges| && g.edges[i].from == top;
      OneStepUp(g.edges, p, i);
      ClimbToRoot(g, p + [g.edges[i].to]);
    }
  }

  lemma TheRoot(g: Graph, k: nat)
    requires SingleRoot(g) && k < |g.nodes| && IsSink(g.edges, g.nodes[k].id)
    ensures RootOf(g.nodes, g.edges) == k
  {
    hide IsSink;
    FirstSink(g.nodes, g.edges, k);
  }

  lemma {:induction false} FirstSink(nodes: seq<Node>, edges: seq<Edge>, k: nat)
    requires k < |nodes| && IsSink(edges, nodes[k].id) && forall i :: 0 <= i < |nodes| && i != k ==>
             !IsSink(edges, nodes[i].id)
    ensures RootOf(nodes, edges) == k
  {
    if k > 0 { FirstSink(nodes[1..], edges, k - 1); }
  }

  /** On a graph the store accepts every node is a line of the tree, and none is unreachable. */
  lemma ValidGraphIsShownWhole(g: Graph, children: Children, lines: seq<Line>, id: Id)
    requires Valid(g) && Inverts(children, g.edges) && Drawn(g, children, lines) && HasNode(g.nodes, id)
    ensures TimesShown(lines, id) == 1 && TimesUnreachable(lines, id) == 0
  {
    hide Inverts, Drawn, LeadsTo;
    assert Walk(g.edges, [id]);
    ClimbToRoot(g, [id]);
    EveryNodeOnce(g, children, lines, id);
  }

  // ---- the figures ----

  /** A device of the change by its id; of two, the later one. */
  function DeviceWith(ds: seq<Device>, id: Id): Option<Device> {
    if ds == [] then None
    else if ds[|ds| - 1].id == id then Some(ds[|ds| - 1])
    else DeviceWith(ds[..|ds| - 1], id)
  }

  /** What a node is shown with: the reading its device was placed by, if there is one. */
  function FigureOfNode(n: Node, ds: seq<Device>, readings: Readings): Option<real> {
    if n.resourceType != DeviceResource || n.resourceId == "" then None
    else
      var d := DeviceWith(ds, n.resourceId);
      if d.None? then None
      else
        var p := PrimaryOf(d.value, readings);
        if p.None? then None else Some(p.value.1)
  }

  function NodeFigures(nodes: seq<Node>, ds: seq<Device>, readings: Readings): map<Id, real> {
    if nodes == [] then map[]
    else
      var n := |nodes| - 1;
      var before, figure := NodeFigures(nodes[..n], ds, readings), FigureOfNode(nodes[n], ds, readings);
      if figure.None? then before else before[nodes[n].id := figure.value]
  }

  function Accounted(figures: map<Id, real>, kids: seq<Id>): real {
    if kids == [] then 0.0
    else
      var n := |kids| - 1;
      Accounted(figures, kids[..n]) + if kids[n] in figures then figures[kids[n]] else 0.0
  }

  /** What the report prints as unexplained. */
  method Unexplained(own: real, figures: map<Id, real>, kids: seq<Id>) returns (left: real)
    ensures left == own - Accounted(figures, kids)
  {
    var explained := 0.0;
    for i := 0 to |kids|
      invariant explained == Accounted(figures, kids[..i])
    {
      assert kids[..i + 1][..i] == kids[..i];
      if kids[i] in figures {
        explained := explained + figures[kids[i]];
      }
    }
    assert kids[..|kids|] == kids;
    left := own - explained;
  }

  lemma {:induction false} AccountedIsSum(figures: map<Id, real>, kids: seq<Id>)
    requires NoRepeats(kids)
    ensures Accounted(figures, kids) == SumOver(Members(kids), x => if x in figures then figures[x] else 0.0)
  {
    if kids != [] {
      var n := |kids| - 1;
      MembersAppend(kids);
      AccountedIsSum(figures, kids[..n]);
      SumOverWith(Members(kids[..n]), kids[n], x => if x in figures then figures[x] else 0.0);
    }
  }

  lemma {:induction false} FigureFound(nodes: seq<Node>, ds: seq<Device>, readings: Readings, i: nat)
    requires DistinctNodeIds(nodes) && i < |nodes|
    ensures var f := FigureOfNode(nodes[i], ds, readings); var m := NodeFigures(nodes, ds, readings);
            if f.None? then nodes[i].id !in m else nodes[i].id in m && m[nodes[i].id] == f.value
    decreases |nodes|
  {
    hide FigureOfNode;
    var n := |nodes| - 1;
    if i < n {
      FigureFound(nodes[..n], ds, readings, i);
    } else {
      NoFigure(nodes[..n], ds, readings, nodes[n].id);
    }
  }

  lemma {:induction false} NoFigure(nodes: seq<Node>, ds: seq<Device>, readings: Readings, id: Id)
    requires forall i :: 0 <= i < |nodes| ==> nodes[i].id != id
    ensures id !in NodeFigures(nodes, ds, readings)
  {
    if nodes != [] { NoFigure(nodes[..|nodes| - 1], ds, readings, id); }
  }

  lemma {:induction false} DeviceFound(ds: seq<Device>, i: nat)
    requires i < |ds| && DistinctDeviceIds(ds)
    ensures DeviceWith(ds, ds[i].id) == Some(ds[i])
  {
    if i < |ds| - 1 { DeviceFound(ds[..|ds| - 1], i); }
  }

  /** A drawn meter's node is shown with the figure it was placed by. */
  lemma MeterFigure(g: Graph, ds: seq<Device>, c: Carrier, k: nat, readings: Readings, opts: Options)
    requires Proper(ds) && Draws(g, ds, readings, opts) && k < |Order(ds, c, readings)|
    ensures var m := Order(ds, c, readings)[k]; var figures := NodeFigures(g.nodes, ds, readings);
            m.id in figures && figures[m.id] == m.value
  {
    hide Order, PlaceAll, PrimaryOf, ParentFor, NodeFigures, DeviceWith;
    var d := MeterDevice(ds, c, k, readings, opts);
    var i :| 0 <= i < |ds| && ds[i] == d;
    assert IsDeviceId(ds, d.id);
    assert Belongs(ds, opts, d.id);
    var n :| 0 <= n < |g.nodes| && g.nodes[n].id == d.id;
    assert PlainNode(g.nodes[n], ds);
    DeviceFound(ds, i);
    FigureFound(g.nodes, ds, readings, n);
  }

  lemma SameKids(children: Children, edges: seq<Edge>, x: Id)
    requires Inverts(children, edges) && NoRepeats(ChildrenOf(edges, x))
    ensures NoRepeats(KidsAt(children, x)) && Members(KidsAt(children, x)) == Members(ChildrenOf(edges, x))
  {
    var a, b := KidsAt(children, x), ChildrenOf(edges, x);
    SameElements(a, b);
    forall y ensures y in Members(a) <==> y in Members(b) {
      assert y in Members(a) <==> y in a;
      assert y in Members(b) <==> y in b;
    }
    OncePerMember(b);
    hide KidsAt, ChildrenOf, Members;
    forall i, j | 0 <= i < j < |a| ensures a[i] != a[j] {
      TwiceCountsTwice(a, i, j);
    }
  }

  lemma TwiceCountsTwice(a: seq<Id>, i: nat, j: nat)
    requires i < j < |a| && multiset(a)[a[i]] <= 1
    ensures a[i] != a[j]
  {
    assert a == a[..j] + a[j..];
    assert a[i] in a[..j] && a[j] in a[j..];
  }

  lemma {:induction false} OncePerMember(b: seq<Id>)
    requires NoRepeats(b)
    ensures forall y :: multiset(b)[y] <= 1
  {
    if b != [] {
      MembersAppend(b);
      var n := |b| - 1;
      OncePerMember(b[..n]);
      assert b == b[..n] + [b[n]] && b[n] !in b[..n];
    }
  }

  /** The unexplained part printed for a meter is the capacity the placement had left of it in the end. */
  lemma UnexplainedIsTheRemainder(g: Graph, children: Children, ds: seq<Device>, c: Carrier, j: nat, readings: Readings,
      opts: Options)
    requires Proper(ds) && Draws(g, ds, readings, opts) && Inverts(children, g.edges) && j < |Order(ds, c, readings)|
    ensures var ms := Order(ds, c, readings); var figures := NodeFigures(g.nodes, ds, readings);
            && ms[j].id in figures
            && figures[ms[j].id] - Accounted(figures, KidsAt(children, ms[j].id)) ==
               Remaining(ms, PlaceAll(ms, opts.Tolerance()), j, |ms|)
  {
    hide Order, PlaceAll, ParentFor, ChildSum, Accounted, ChildrenOf, KidsAt, SumOver, Draws, Linked, NodeFigures,
      Inverts;
    var ms := Order(ds, c, readings);
    var ps := PlaceAll(ms, opts.Tolerance());
    var figures := NodeFigures(g.nodes, ds, readings);
    var f := x => if x in figures then figures[x] else 0.0;
    assert DistinctIds(ms) by { OrderWeighable(ds, c, readings); }
    assert SingleParents(g.edges) by { DrawnSingle(g, ds, readings, opts); }
    ChildrenAre(g.edges, ms[j].id);
    SameKids(children, g.edges, ms[j].id);
    forall k | 0 <= k < |ms|
      ensures ms[k].id in figures && f(ms[k].id) == ms[k].value { MeterFigure(g, ds, c, k, readings, opts); }
    KidsAreDrawn(g, ds, c, j, readings, opts);
    AccountedIsSum(figures, KidsAt(children, ms[j].id));
    ChildSumIsSum(ms, ps, j, |ms|, f);
  }
}
