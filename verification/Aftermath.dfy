/** What is different after a pass: names, shares, orphans, and what the pass leaves alone. */
module Aftermath {
  import opened Model
  import opened Tree
  import opened Attaching
  import opened Refinement
  import opened Detaching
  import opened Sharing
  import opened Updating
  import opened Pass
  import opened Convergence
  import opened Rest
  import opened Ledger
  import Built
  import Placement
  import Joined

  // ---- arrivals, one by one ----

  function Leaves(queue: seq<Device>): seq<Node> {
    seq(|queue|, i requires 0 <= i < |queue| => Node(queue[i].id, DeviceResource, queue[i].id, []))
  }

  /** The edge an arrival joins with, wherever it leads. */
  predicate Marked(e: Edge, d: Device) {
    e.from == d.id && e.weight == 100 && e.attributes == [Attribute("system_changed", "true", "graph-provider")]
  }

  /** Behind what is stored there is one node and one marked edge for each arrival, in their order. */
  lemma {:induction false} ArrivalsLineUp(g: Graph, queue: seq<Device>, readings: Readings, opts: Options, next: nat,
      platform: Platform)
    requires opts.FreshIds() && platform.Sound() && Valid(g) && NodesNamed(g.nodes)
    requires DistinctDevices(queue) && forall i :: 0 <= i < |queue| ==> Absent(g.nodes, queue[i].id)
    ensures var r := AttachAll(g, queue, readings, opts, next, platform.valid);
            && r.Some? && r.value.nodes == g.nodes + Leaves(queue) && |r.value.edges| == |g.edges| + |queue|
            && r.value == g.(nodes := r.value.nodes, edges := r.value.edges) && g.edges <= r.value.edges
            && forall i :: 0 <= i < |queue| ==> Marked(r.value.edges[|g.edges| + i], queue[i])
    decreases |queue|
  {
    hide Valid, AttachTo, Absent, NodesNamed, Marked, Leaves, Joined.JoinsBy, Joined.Newcomer;
    if queue == [] {
      NoLeaves();
    } else {
      var d := queue[0];
      assert Joined.Newcomer(g, d, opts, platform.valid) by { NobodyYet(g, d, opts, platform); }
      var e := Joined.JoinsAsLeaf(g, d, readings, opts, next, platform.valid);
      var first := AttachTo(g, d, readings, opts, next, platform.valid);
      NextArrival(g, d, readings, opts, next, platform, queue[1..]);
      ArrivalsLineUp(first.graph, queue[1..], readings, opts, first.next, platform);
      JoinsMarked(g, first.graph, d, e);
      LineUpGrows(g, first.graph, AttachAll(g, queue, readings, opts, next, platform.valid).value, queue, e);
    }
  }

  lemma NoLeaves()
    ensures Leaves([]) == []
  {}

  lemma LineUpGrows(g: Graph, h: Graph, all: Graph, queue: seq<Device>, e: Edge)
    requires queue != [] && Marked(e, queue[0])
    requires h.nodes == g.nodes + [Node(queue[0].id, DeviceResource, queue[0].id, [])] && h.edges == g.edges + [e]
    requires all.nodes == h.nodes + Leaves(queue[1..]) && h.edges <= all.edges && |all.edges| == |h.edges| + |queue| - 1
    requires forall i :: 0 <= i < |queue| - 1 ==> Marked(all.edges[|h.edges| + i], queue[1..][i])
    ensures all.nodes == g.nodes + Leaves(queue)
    ensures forall i :: 0 <= i < |queue| ==> Marked(all.edges[|g.edges| + i], queue[i])
  {
    hide Marked;
    assert Leaves(queue) == [Node(queue[0].id, DeviceResource, queue[0].id, [])] + Leaves(queue[1..]);
    forall i | 0 <= i < |queue| ensures Marked(all.edges[|g.edges| + i], queue[i]) {
      if i == 0 {
        assert all.edges[|g.edges|] == h.edges[|g.edges|];
      } else {
        assert Marked(all.edges[|h.edges| + (i - 1)], queue[1..][i - 1]);
      }
    }
  }

  lemma JoinsMarked(g: Graph, h: Graph, d: Device, e: Edge)
    requires Joined.JoinsBy(g, h, d, e)
    ensures Marked(e, d) && h.nodes == g.nodes + [Node(d.id, DeviceResource, d.id, [])] && h.edges == g.edges + [e]
    ensures h == g.(nodes := h.nodes, edges := h.edges)
  {}

  lemma NobodyYet(g: Graph, d: Device, opts: Options, platform: Platform)
    requires opts.FreshIds() && platform.Sound() && Valid(g) && d.id != "" && Absent(g.nodes, d.id)
    ensures Joined.Newcomer(g, d, opts, platform.valid)
  {
    hide Valid;
    forall n | n in g.nodes ensures n.id != d.id && n.resourceId != d.id {
      var i :| 0 <= i < |g.nodes| && g.nodes[i] == n;
    }
  }

  lemma NextArrival(g: Graph, d: Device, readings: Readings, opts: Options, next: nat, platform: Platform,
      rest: seq<Device>)
    requires opts.FreshIds() && platform.Sound() && Valid(g) && NodesNamed(g.nodes) && DistinctDevices([d] + rest)
    requires Absent(g.nodes, d.id) && forall i :: 0 <= i < |rest| ==> Absent(g.nodes, rest[i].id)
    ensures var first := AttachTo(g, d, readings, opts, next, platform.valid);
            && first.Attached? && Valid(first.graph) && NodesNamed(first.graph.nodes) && DistinctDevices(rest)
            && forall i :: 0 <= i < |rest| ==> Absent(first.graph.nodes, rest[i].id)
  {
    hide Valid, AttachTo, Absent;
    var queue := [d] + rest;
    assert queue[0] == d && forall i :: 0 <= i < |rest| ==> rest[i] == queue[i + 1];
    NewcomerAddsOneLeaf(g, d, readings, opts, next, platform.valid);
    NamedAfterLeaf(g, AttachTo(g, d, readings, opts, next, platform.valid).graph, d);
    forall i | 0 <= i < |rest|
      ensures Absent(AttachTo(g, d, readings, opts, next, platform.valid).graph.nodes, rest[i].id)
    {
      AbsentAfterLeaf(g.nodes, d.id, rest[i].id);
    }
  }

  // ---- names ----

  lemma {:induction false} RootIsTheSink(g: Graph)
    requires Valid(g)
    ensures RootOf(g.nodes, g.edges) < |g.nodes|
    ensures forall i :: 0 <= i < |g.nodes| ==> (IsSink(g.edges, g.nodes[i].id) <==> i == RootOf(g.nodes, g.edges))
  {
    hide Acyclic, WeightsBalance, EdgesConnectNodes, DistinctEdgeIds, IsSink;
    var r :| 0 <= r < |g.nodes| && IsSink(g.edges, g.nodes[r].id)
             && forall i :: 0 <= i < |g.nodes| && i != r ==> !IsSink(g.edges, g.nodes[i].id);
    FirstSink(g.nodes, g.edges, r);
  }

  lemma {:induction false} FirstSink(nodes: seq<Node>, edges: seq<Edge>, r: nat)
    requires r < |nodes| && IsSink(edges, nodes[r].id) && forall i :: 0 <= i < r ==> !IsSink(edges, nodes[i].id)
    ensures RootOf(nodes, edges) == r
  {
    hide IsSink;
    if r > 0 { FirstSink(nodes[1..], edges, r - 1); }
  }

  /** A node as it was, except that the root follows the group's name as long as it has the name it was given. */
  ghost predicate NamedAfter(m: Node, was: Node, root: bool, given: string, name: string) {
    if root && AttributeOf(was.attributes, NODE_ATTR_NAME) == given then
      && m == was.(attributes := m.attributes) && AttributeOf(m.attributes, NODE_ATTR_NAME) == name
      && forall key :: key != NODE_ATTR_NAME ==> AttributeOf(m.attributes, key) == AttributeOf(was.attributes, key)
    else m == was
  }

  lemma RenameNames(g: Graph, group: Group)
    requires Valid(g)
    ensures var h := Rename(g, group).0;
            && |h.nodes| == |g.nodes| && h.edges == g.edges && GeneratedNameOf(h) == group.name
            && (forall k :: 0 <= k < |g.nodes| ==>
                  NamedAfter(h.nodes[k], g.nodes[k], IsSink(g.edges, g.nodes[k].id), GeneratedNameOf(g), group.name))
            && (forall key :: key != ATTR_NAME ==> AttributeOf(h.attributes, key) == AttributeOf(g.attributes, key))
  {
    hide Valid, SetAttribute, AttributeOf, IsSink;
    RootIsTheSink(g);
    var r := RootOf(g.nodes, g.edges);
    forall key ensures AttributeOf(SetAttribute(g.nodes[r].attributes, NODE_ATTR_NAME, group.name), key) ==
        if key == NODE_ATTR_NAME then group.name else AttributeOf(g.nodes[r].attributes, key)
    {
      SetThenGet(g.nodes[r].attributes, NODE_ATTR_NAME, group.name, key);
    }
    forall key ensures AttributeOf(SetAttribute(g.attributes, ATTR_NAME, group.name), key) ==
        if key == ATTR_NAME then group.name else AttributeOf(g.attributes, key)
    {
      SetThenGet(g.attributes, ATTR_NAME, group.name, key);
    }
  }

  lemma ClaimedAttributes(g: Graph, group: Group)
    ensures forall key :: key !in [ATTR_GROUP_ID, ATTR_GROUP_PATH] ==>
              AttributeOf(Claimed(g, group).0.attributes, key) == AttributeOf(g.attributes, key)
  {
    hide SetAttribute, AttributeOf;
    var withId := if GroupIdOf(g) != group.id then g.(attributes := SetAttribute(g.attributes, ATTR_GROUP_ID, group.id))
      else g;
    forall key | key !in [ATTR_GROUP_ID, ATTR_GROUP_PATH]
      ensures AttributeOf(Claimed(g, group).0.attributes, key) == AttributeOf(g.attributes, key)
    {
      assert key != ATTR_GROUP_ID && key != ATTR_GROUP_PATH;
      SetThenGet(g.attributes, ATTR_GROUP_ID, group.id, key);
      SetThenGet(withId.attributes, ATTR_GROUP_PATH, group.path, key);
    }
  }

  // ---- a revision ----

  /** A graph whose group's pass is refused no removal; while the group is on the move it asks for none. */
  ghost predicate Undisturbed(g: Graph, group: Group, devices: seq<Device>, platform: Platform) {
    && Valid(g) && NodesNamed(g.nodes) && DistinctDevices(devices) && OwnNodes(g.nodes, devices)
    && (GroupPathOf(g) in ["", group.path] ==> NoneKept(g, Leaving(g, devices), platform))
  }

  lemma UndisturbedIsRevisable(g: Graph, group: Group, devices: seq<Device>, platform: Platform)
    requires Undisturbed(g, group, devices, platform)
    ensures Revisable(g, group, devices, platform) && Valid(g) && DistinctDevices(devices)
  {
    hide Valid, NodesNamed, DistinctDevices, OwnNodes, Leaving, GroupPathOf;
    LeavingAre(g, group, devices);
  }

  /** The node of somebody who was not in the graph. */
  ghost predicate IsArrival(n: Node, g: Graph, devices: seq<Device>) {
    exists d :: d in devices && d.id !in DeviceIds(g.nodes) && n == Node(d.id, DeviceResource, d.id, [])
  }

  /**
   * A revised graph's nodes are the graph's own and those of the arrivals, verbatim - except that the root
   * takes the group's name as long as it has the name that was generated for it; a name the user gave it
   * stands. The graph records the name, the id and the path, and its other attributes are as they were.
   */
  lemma ReviseNames(g: Graph, group: Group, devices: seq<Device>, readings: Readings, opts: Options, platform: Platform)
    returns (was: seq<Node>)
    requires opts.FreshIds() && platform.Sound() && Undisturbed(g, group, devices, platform)
    ensures var r := Revise(g, group, devices, readings, opts, platform);
            && r.Revision? && |was| == |r.graph.nodes|
            && (forall k :: 0 <= k < |was| ==>
                  NamedAfter(r.graph.nodes[k], was[k], IsSink(r.graph.edges, was[k].id), GeneratedNameOf(g),
                    group.name))
            && (forall k :: 0 <= k < |was| ==> was[k] in g.nodes || IsArrival(was[k], g, devices))
            && GeneratedNameOf(r.graph) == group.name && GroupIdOf(r.graph) == group.id
            && GroupPathOf(r.graph) == group.path
            && forall key :: key !in [ATTR_GROUP_ID, ATTR_GROUP_PATH, ATTR_NAME] ==>
                 AttributeOf(r.graph.attributes, key) == AttributeOf(g.attributes, key)
  {
    hide Valid, NodesNamed, DeviceIds, Missing, Departed, Rename, AttachAll, DetachAll, Absent, Claimed, Undisturbed,
      Revisable, DistinctDevices, NamedAfter, IsSink, GroupIdOf, GroupPathOf, Leaves, IsArrival;
    UndisturbedIsRevisable(g, group, devices, platform);
    Arrivals(g, group, devices, platform);
    KeptNodes(g, group, devices, platform);
    var rest, missing := DetachAll(g, Departed(g, group, devices), platform).0, Missing(g, devices);
    ArrivalsLineUp(rest, missing, readings, opts, 0, platform);
    ArrivalsAdd(rest, missing, readings, opts, 0, platform);
    var grown := AttachAll(rest, missing, readings, opts, 0, platform.valid).value;
    RenameNames(grown, group);
    ClaimedKeeps(Rename(grown, group).0, group);
    ClaimedAttributes(Rename(grown, group).0, group);
    was := grown.nodes;
    forall k | 0 <= k < |was| ensures was[k] in g.nodes || IsArrival(was[k], g, devices) {
      if k < |rest.nodes| {
        assert was[k] == rest.nodes[k] && rest.nodes[k] in rest.nodes;
      } else {
        LeafArrives(g, devices, k - |rest.nodes|);
        assert was[k] == Leaves(missing)[k - |rest.nodes|];
      }
    }
  }

  lemma KeptNodes(g: Graph, group: Group, devices: seq<Device>, platform: Platform)
    requires platform.Sound() && Revisable(g, group, devices, platform)
    ensures forall n :: n in DetachAll(g, Departed(g, group, devices), platform).0.nodes ==> n in g.nodes
  {
    hide Valid, NodesNamed, DeviceIds, Departed, NoneKept, Platform.Sound;
    DepartedAre(g, group, devices);
    DeparturesRemove(g, Departed(g, group, devices), platform);
  }

  lemma LeafArrives(g: Graph, devices: seq<Device>, i: nat)
    requires DistinctDevices(devices)
    ensures i < |Leaves(Missing(g, devices))| ==> IsArrival(Leaves(Missing(g, devices))[i], g, devices)
  {
    hide Missing, DeviceIds;
    MissingAre(g, devices);
    if i < |Missing(g, devices)| {
      assert Missing(g, devices)[i] in Missing(g, devices);
    }
  }

  // ---- what the report says of a revision ----

  /** A device of the group that the graph does not have yet. */
  ghost predicate Arrives(d: Device, g: Graph, devices: seq<Device>) { d in devices && d.id !in DeviceIds(g.nodes) }

  /**
   * The details that go with a revision: all the group's devices, and of the arrivals who has no reading and
   * who hangs where.
   */
  ghost predicate Describes(x: Details, g: Graph, after: Graph, devices: seq<Device>, readings: Readings) {
    && x.devices == devices
    && (forall id :: id in x.unplaced <==>
       exists d :: Arrives(d, g, devices) && d.id == id && Built.ReadsNothing(d, readings))
    && (forall d :: Arrives(d, g, devices) ==>
          exists t :: t in x.placements && t.deviceId == d.id && Linked(after.edges, d.id, t.parentId))
    && (forall t :: t in x.placements ==> exists d :: Arrives(d, g, devices) && d.id == t.deviceId)
    && x.readings == if exists d :: Arrives(d, g, devices) then readings else map[]
  }

  lemma ArrivesMissing(g: Graph, devices: seq<Device>)
    requires DistinctDevices(devices)
    ensures forall d :: d in Missing(g, devices) <==> Arrives(d, g, devices)
  {
    hide DeviceIds, Missing;
    MissingAre(g, devices);
  }

  lemma NobodyArrives(g: Graph, devices: seq<Device>)
    requires DistinctDevices(devices)
    ensures Missing(g, devices) == [] <==> !exists d :: Arrives(d, g, devices)
  {
    hide Missing, Arrives;
    ArrivesMissing(g, devices);
    if Missing(g, devices) != [] {
      assert Missing(g, devices)[0] in Missing(g, devices);
    }
  }

  /** The placements tell of each of the missing, and of nobody else, where the edges lead. */
  ghost predicate TellsAll(told: seq<Placement.Placed>, missing: seq<Device>, edges: seq<Edge>) {
    && (forall d :: d in missing ==> exists t :: t in told && t.deviceId == d.id && Linked(edges, d.id, t.parentId))
    && (forall t :: t in told ==> exists d :: d in missing && d.id == t.deviceId)
  }

  lemma ToldOneByOne(told: seq<Placement.Placed>, missing: seq<Device>, edges: seq<Edge>)
    requires |told| == |missing|
    requires forall i :: 0 <= i < |missing| ==>
               told[i].deviceId == missing[i].id && Linked(edges, missing[i].id, told[i].parentId)
    ensures TellsAll(told, missing, edges)
  {
    hide Linked;
    forall d | d in missing ensures exists t :: t in told && t.deviceId == d.id && Linked(edges, d.id, t.parentId) {
      var i :| 0 <= i < |missing| && missing[i] == d;
      assert told[i] in told;
    }
    forall t | t in told ensures exists d :: d in missing && d.id == t.deviceId {
      var i :| 0 <= i < |told| && told[i] == t;
      assert missing[i] in missing;
    }
  }

  lemma ArrivalsTold(g: Graph, group: Group, devices: seq<Device>, readings: Readings, opts: Options,
      platform: Platform)
    requires opts.FreshIds() && platform.Sound() && Undisturbed(g, group, devices, platform)
    ensures var r, rest := Revise(g, group, devices, readings, opts, platform),
            DetachAll(g, Departed(g, group, devices), platform).0;
            r.Revision? && TellsAll(Placements(rest, Missing(g, devices), readings, opts, 0, platform.valid),
                                    Missing(g, devices), r.graph.edges)
  {
    hide Valid, NodesNamed, DeviceIds, Missing, Departed, Rename, AttachAll, DetachAll, Absent, Claimed, Undisturbed,
      Revisable, Placements, TellsAll, Linked;
    UndisturbedIsRevisable(g, group, devices, platform);
    Arrivals(g, group, devices, platform);
    var rest, missing := DetachAll(g, Departed(g, group, devices), platform).0, Missing(g, devices);
    ArrivalsAdd(rest, missing, readings, opts, 0, platform);
    ArrivalsAreTold(rest, missing, readings, opts, 0, platform);
    var grown := AttachAll(rest, missing, readings, opts, 0, platform.valid).value;
    RenameKeeps(grown, group);
    ClaimedKeeps(Rename(grown, group).0, group);
    ToldOneByOne(Placements(rest, missing, readings, opts, 0, platform.valid), missing, grown.edges);
  }

  lemma NobodyToTell(g: Graph, devices: seq<Device>, readings: Readings, edges: seq<Edge>)
    ensures TellsAll([], [], edges)
    ensures Unplaced([], readings) == []
  {}

  /** Where nobody arrives nothing is asked of the meters, and only the devices are named. */
  lemma RevisionIsDescribed(g: Graph, group: Group, devices: seq<Device>, readings: Readings, opts: Options,
      platform: Platform)
    requires opts.FreshIds() && platform.Sound() && Undisturbed(g, group, devices, platform)
    ensures var r := Revise(g, group, devices, readings, opts, platform);
            && r.Revision?
            && Describes(DetailsOf(g, group, devices, readings, opts, platform), g, r.graph, devices, readings)
  {
    hide Missing, Departed, DetachAll, Undisturbed, Revise, Unplaced, Placements, Arrives, TellsAll, Built.ReadsNothing;
    ArrivalsTold(g, group, devices, readings, opts, platform);
    UndisturbedIsRevisable(g, group, devices, platform);
    ArrivesMissing(g, devices);
    NobodyArrives(g, devices);
    NobodyToTell(g, devices, readings, Revise(g, group, devices, readings, opts, platform).graph.edges);
    UnplacedDescribed(Missing(g, devices), readings);
    ToldIsDescribed(g, Revise(g, group, devices, readings, opts, platform).graph, devices, readings,
                    DetailsOf(g, group, devices, readings, opts, platform));
  }

  lemma ToldIsDescribed(g: Graph, after: Graph, devices: seq<Device>, readings: Readings, x: Details)
    requires forall d :: d in Missing(g, devices) <==> Arrives(d, g, devices)
    requires x.devices == devices && TellsAll(x.placements, Missing(g, devices), after.edges)
    requires forall id :: id in x.unplaced <==>
               exists d :: d in Missing(g, devices) && d.id == id && Built.ReadsNothing(d, readings)
    requires x.readings == if Missing(g, devices) != [] then readings else map[]
    ensures Describes(x, g, after, devices, readings)
  {
    hide Missing, Arrives, Built.ReadsNothing, Linked;
    assert Missing(g, devices) != [] <==> exists d :: d in Missing(g, devices) by {
      if Missing(g, devices) != [] { assert Missing(g, devices)[0] in Missing(g, devices); }
    }
  }

  // ---- over a whole pass ----

  /** The graph found for a group is what the revision makes of it, and the sharing follows the group. */
  lemma PassRevises(w: World, view: View, cfg: Config, i: nat, group: Group)
    requires Ready(w, view, cfg) && group in view.groups && i < |w| && IsOf(w, i, group)
    requires Undisturbed(w[i].graph, group, view.devicesOf(group.path), cfg.platform)
    ensures cfg.opts.FreshIds() && |Full(w, view, cfg).world| >= |w|
    ensures var after := Full(w, view, cfg).world[i];
            var r := Revise(w[i].graph, group, view.devicesOf(group.path), view.readings, cfg.opts, cfg.platform);
            r.Revision? && after.graph == r.graph
            && GroupIdOf(after.graph) == group.id && GroupPathOf(after.graph) == group.path
  {
    hide Full, Jobs, JobAt, DeviceIds, UpdateStep, Within, GroupIdOf, GroupPathOf, Revise, Find, Ready, IsOf,
      Undisturbed, Revisable, Valid, NodesNamed, UniqueClaims;
    ReadyConfig(w, view, cfg);
    GroupsNamed(view.groups, group);
    FindsItsOwn(w, i, group);
    JobsTell(w, view);
    JobAtIs(Jobs(w, view), UpdateJob(i, group));
    FullOnStored(w, view, cfg);
    assert Full(w, view, cfg).world[i] == After(w[i], i, JobAt(Jobs(w, view), i), view, cfg).entry;
    var devices := view.devicesOf(group.path);
    UndisturbedIsRevisable(w[i].graph, group, devices, cfg.platform);
    ReviseFollowsTheWorld(w[i].graph, group, devices, view.readings, cfg.opts, cfg.platform);
    SavedGraph(w[i], i, group, view, cfg);
  }

  /**
   * After the pass the group has its share, the path it came from has none, and every other group's rights
   * on the graph, and every user's but the service's own, are what they were.
   */
  lemma PassShares(w: World, view: View, cfg: Config, i: nat, group: Group)
    requires Ready(w, view, cfg) && group in view.groups && i < |w| && IsOf(w, i, group)
    requires Undisturbed(w[i].graph, group, view.devicesOf(group.path), cfg.platform)
    ensures cfg.opts.FreshIds() && |Full(w, view, cfg).world| >= |w|
    ensures var before, after := w[i], Full(w, view, cfg).world[i];
            && RightsOf(after.perms, group.path) == Some(Rights(true, true, true, false))
            && (GroupPathOf(before.graph) !in ["", group.path] ==>
               RightsOf(after.perms, GroupPathOf(before.graph)) == None)
            && forall p :: p !in [group.path, GroupPathOf(before.graph)] ==>
                 RightsOf(after.perms, p) == RightsOf(before.perms, p)
  {
    hide Full, Jobs, JobAt, DeviceIds, Within, GroupIdOf, GroupPathOf, Revise, Find, Ready, IsOf, Undisturbed,
      Revisable, Valid, NodesNamed, UniqueClaims, UpdateStep, Reshare;
    ReadyConfig(w, view, cfg);
    GroupsNamed(view.groups, group);
    FindsItsOwn(w, i, group);
    JobsTell(w, view);
    JobAtIs(Jobs(w, view), UpdateJob(i, group));
    FullOnStored(w, view, cfg);
    assert Full(w, view, cfg).world[i] == After(w[i], i, JobAt(Jobs(w, view), i), view, cfg).entry;
    var devices := view.devicesOf(group.path);
    UndisturbedIsRevisable(w[i].graph, group, devices, cfg.platform);
    ReviseFollowsTheWorld(w[i].graph, group, devices, view.readings, cfg.opts, cfg.platform);
    FoundHasPerms(w, i, group, view, cfg);
    SharedAfterUpdate(w[i], i, group, view, cfg);
  }

  lemma FoundHasPerms(w: World, i: nat, group: Group, view: View, cfg: Config)
    requires Ready(w, view, cfg) && group in view.groups && i < |w| && Find(w, group) == i
    ensures w[i].perms.Some?
  {
    hide Valid, NodesNamed, OwnNodes, ById, ByPath, UniqueClaims, Platform.Sound;
    GroupsNamed(view.groups, group);
    FindTells(w, group);
    assert Seen(w[i].graph);
  }

  lemma SharedAfterUpdate(e: Entry, at: nat, group: Group, view: View, cfg: Config)
    requires cfg.opts.FreshIds() && cfg.writable && e.perms.Some?
    requires var r := Revise(e.graph, group, view.devicesOf(group.path), view.readings, cfg.opts, cfg.platform);
             r.Revision? && cfg.platform.valid(r.graph)
    ensures var after, previous := UpdateStep(e, at, group, view, cfg).entry, GroupPathOf(e.graph);
            && RightsOf(after.perms, group.path) == Some(Rights(true, true, true, false))
            && (previous !in ["", group.path] ==> RightsOf(after.perms, previous) == None)
            && forall p :: p !in [group.path, previous] ==> RightsOf(after.perms, p) == RightsOf(e.perms, p)
  {
    hide Revise, Reshare, UpdateDetails, GroupPathOf;
    var r := Revise(e.graph, group, view.devicesOf(group.path), view.readings, cfg.opts, cfg.platform);
    ShareFollowsTheGroup(Save(e, at, r.graph, cfg).entry, at, group, GroupPathOf(e.graph), cfg);
    ShareFollowsTheGroup(e, at, group, GroupPathOf(e.graph), cfg);
  }

  /**
   * A writing pass that reports no failure has done what it had to for every group's graph: it is stored as
   * revised, and the sharing has followed the group. So has a pass that was refused a removal.
   */
  lemma SuccessMeansDone(w: World, view: View, cfg: Config, i: nat, group: Group)
    requires cfg.opts.FreshIds() && cfg.writable && DistinctGroups(view.groups) && UniqueClaims(w)
    requires group in view.groups && i < |w| && IsOf(w, i, group)
    ensures |Full(w, view, cfg).world| >= |w|
    ensures var before, after := w[i], Full(w, view, cfg).world[i];
            var r := Revise(before.graph, group, view.devicesOf(group.path), view.readings, cfg.opts, cfg.platform);
            !Full(w, view, cfg).failed ==>
              && r.Revision? && after.graph == (if r.changed then r.graph else before.graph)
              && RightsOf(after.perms, group.path) == Some(Rights(true, true, true, false))
              && (GroupPathOf(before.graph) !in ["", group.path] ==>
                    RightsOf(after.perms, GroupPathOf(before.graph)) == None)
  {
    hide Full, Jobs, JobAt, Within, GroupIdOf, GroupPathOf, Revise, Find, IsOf, UniqueClaims, UpdateStep;
    GroupsNamed(view.groups, group);
    FindsItsOwn(w, i, group);
    JobsTell(w, view);
    JobAtIs(Jobs(w, view), UpdateJob(i, group));
    FullOnStored(w, view, cfg);
    var d := After(w[i], i, JobAt(Jobs(w, view), i), view, cfg);
    assert d == UpdateStep(w[i], i, group, view, cfg) && Full(w, view, cfg).world[i] == d.entry;
    if !d.failed { UpdateWhole(w[i], i, group, view, cfg); }
  }

  lemma UpdateWhole(e: Entry, at: nat, group: Group, view: View, cfg: Config)
    requires cfg.opts.FreshIds() && cfg.writable && !UpdateStep(e, at, group, view, cfg).failed
    ensures var r := Revise(e.graph, group, view.devicesOf(group.path), view.readings, cfg.opts, cfg.platform);
            var after, previous := UpdateStep(e, at, group, view, cfg).entry, GroupPathOf(e.graph);
            && r.Revision? && after.graph == (if r.changed then r.graph else e.graph)
            && RightsOf(after.perms, group.path) == Some(Rights(true, true, true, false))
            && (previous !in ["", group.path] ==> RightsOf(after.perms, previous) == None)
  {
    hide Revise, Reshare, UpdateDetails, GroupPathOf;
    var r := Revise(e.graph, group, view.devicesOf(group.path), view.readings, cfg.opts, cfg.platform);
    var saved := if r.Revision? && r.changed then Save(e, at, r.graph, cfg).entry else e;
    ReshareAccounted(saved, at, group, GroupPathOf(e.graph), cfg);
    ResharesWhole(saved, at, group, GroupPathOf(e.graph), cfg);
  }

  lemma ResharesWhole(e: Entry, at: nat, group: Group, previous: string, cfg: Config)
    requires cfg.writable
    ensures var d := Reshare(e, at, group, previous, cfg);
            !d.failed ==>
              && RightsOf(d.entry.perms, group.path) == Some(Rights(true, true, true, false))
              && (previous !in ["", group.path] ==> RightsOf(d.entry.perms, previous) == None)
  {
    hide Reshare;
    if e.perms.Some? {
      ShareFollowsTheGroup(e, at, group, previous, cfg);
    } else {
      NoResourceFails(e, at, group, previous, cfg);
    }
  }

  lemma NoResourceFails(e: Entry, at: nat, group: Group, previous: string, cfg: Config)
    requires e.perms.None?
    ensures Reshare(e, at, group, previous, cfg).failed
  {}

  /** The graph's group is gone: no group has the id it records, or, if it records none, the path it records. */
  ghost predicate Abandoned(w: World, i: nat, groups: seq<Group>)
    requires i < |w|
  {
    var id, path := GroupIdOf(w[i].graph), GroupPathOf(w[i].graph);
    if id != "" then forall g :: g in groups ==> g.id != id
    else path != "" && forall g :: g in groups ==> g.path != path
  }

  lemma AbandonedIsOrphaned(w: World, i: nat, groups: seq<Group>)
    requires UniqueClaims(w) && i < |w| && Abandoned(w, i, groups)
    ensures Orphaned(w, i, groups)
  {
    hide ById, ByPath, UniqueClaims;
    if GroupIdOf(w[i].graph) != "" {
      ByIdIs(w, i);
    } else {
      assert ClaimsPath(w[i].graph, GroupPathOf(w[i].graph));
      ByPathIs(w, i, GroupPathOf(w[i].graph));
    }
    assert forall k :: 0 <= k < |groups| ==> groups[k] in groups;
  }

  /**
   * The graph of a group that is gone stays, with all its nodes, its edges and its other attributes; it
   * forgets the group, and the group's path loses its rights - nobody else does.
   */
  lemma AbandonedIsForgotten(w: World, view: View, cfg: Config, i: nat)
    requires Ready(w, view, cfg) && view.groups != [] && i < |w| && Abandoned(w, i, view.groups)
    ensures cfg.opts.FreshIds() && |Full(w, view, cfg).world| >= |w|
    ensures var before, after := w[i], Full(w, view, cfg).world[i];
            && GroupIdOf(after.graph) == "" && GroupPathOf(after.graph) == ""
            && after.graph == before.graph.(attributes := after.graph.attributes)
            && (forall key :: key !in [ATTR_GROUP_ID, ATTR_GROUP_PATH] ==>
                  AttributeOf(after.graph.attributes, key) == AttributeOf(before.graph.attributes, key))
            && RightsOf(after.perms, GroupPathOf(before.graph)) == None
            && forall p :: p != GroupPathOf(before.graph) ==> RightsOf(after.perms, p) == RightsOf(before.perms, p)
  {
    hide Full, Jobs, JobAt, Within, GroupIdOf, GroupPathOf, Ready, Abandoned, Orphaned, OrphanStep, AttributeOf, Good,
      UniqueClaims;
    ReadyConfig(w, view, cfg);
    AbandonedIsOrphaned(w, i, view.groups);
    OrphanIsGood(w, i, view, cfg);
    JobsTell(w, view);
    var path := GroupPathOf(w[i].graph);
    JobAtIs(Jobs(w, view), OrphanJob(i, path));
    FullOnStored(w, view, cfg);
    assert Full(w, view, cfg).world[i] == After(w[i], i, JobAt(Jobs(w, view), i), view, cfg).entry;
    OrphanLands(w[i], i, path, cfg);
    OrphanWithdraws(w[i], i, path, cfg);
    OrphanAddsNoShare(w[i], i, path, cfg);
  }

  lemma OrphanAddsNoShare(e: Entry, at: nat, path: string, cfg: Config)
    ensures var after := OrphanStep(e, at, path, cfg).entry;
            forall p :: p != path ==> RightsOf(after.perms, p) == RightsOf(e.perms, p)
  {
    hide Permit, Cleared;
    PermitAccounted(e, at, path, None, cfg);
  }

  /** A graph that records no group is none of the service's business. */
  lemma OthersAreLeftAlone(w: World, view: View, cfg: Config, i: nat)
    requires cfg.opts.FreshIds() && DistinctGroups(view.groups) && i < |w|
    requires GroupIdOf(w[i].graph) == "" && GroupPathOf(w[i].graph) == ""
    ensures |Full(w, view, cfg).world| >= |w| && Full(w, view, cfg).world[i] == w[i]
  {
    hide Full, Jobs, JobAt, Within, Find, ById, ByPath, Orphaned;
    JobsTell(w, view);
    JobAtIn(Jobs(w, view), i);
    FullOnStored(w, view, cfg);
    assert Full(w, view, cfg).world[i] == After(w[i], i, JobAt(Jobs(w, view), i), view, cfg).entry;
    NotOrphaned(w, i, view.groups);
    if JobAt(Jobs(w, view), i).Some? && JobAt(Jobs(w, view), i).value.UpdateJob? {
      GroupsNamed(view.groups, JobAt(Jobs(w, view), i).value.group);
      FindTells(w, JobAt(Jobs(w, view), i).value.group);
    }
  }

  lemma NotOrphaned(w: World, i: nat, groups: seq<Group>)
    requires i < |w| && GroupIdOf(w[i].graph) == "" && GroupPathOf(w[i].graph) == ""
    ensures !Orphaned(w, i, groups)
  {
    hide ById;
    assert ByPath(w, |w|, "") != i;
  }
}
