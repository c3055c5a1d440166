/** What a pass does, in terms of what is stored before and after, what it plans and what it writes. */
module Ledger {
  import opened Sorting
  import opened Model
  import opened Tree
  import opened Drawing
  import opened Attaching
  import opened Refinement
  import opened Detaching
  import opened Sharing
  import opened Updating
  import opened Pass
  import opened Convergence
  import opened Rest
  import Built

  // ---- one graph: who stays and who goes ----

  lemma {:induction false} AttachAllExtends(g: Graph, queue: seq<Device>, readings: Readings, opts: Options, next: nat,
      valid: Graph -> bool)
    requires opts.FreshIds()
    ensures var r := AttachAll(g, queue, readings, opts, next, valid);
            r.Some? ==> g.nodes <= r.value.nodes && g.edges <= r.value.edges && r.value.attributes == g.attributes
    decreases |queue|
  {
    hide PlacementIn, NextEdgeId, RootNodeId, FindDeviceNode;
    if queue != [] {
      var first := AttachTo(g, queue[0], readings, opts, next, valid);
      if first.AlreadyThere? { AttachAllExtends(g, queue[1..], readings, opts, next, valid); }
      if first.Attached? { AttachAllExtends(first.graph, queue[1..], readings, opts, first.next, valid); }
    }
  }

  lemma RenameKeepsDevices(g: Graph, group: Group)
    ensures var h := Rename(g, group).0;
            DeviceIds(h.nodes) == DeviceIds(g.nodes) && h.edges == g.edges
  {
    var r := RootOf(g.nodes, g.edges);
    if r < |g.nodes| {
      DeviceIdsKept(g.nodes, r, SetAttribute(g.nodes[r].attributes, NODE_ATTR_NAME, group.name));
    }
  }

  lemma DevicesOfMore(nodes: seq<Node>, more: seq<Node>)
    requires nodes <= more
    ensures forall id :: id in DeviceIds(nodes) ==> id in DeviceIds(more)
  {
    forall id | id in DeviceIds(nodes) ensures id in DeviceIds(more) {
      InDeviceIds(nodes, id);
      InDeviceIds(more, id);
      var i :| 0 <= i < |nodes| && nodes[i].resourceType == DeviceResource && nodes[i].resourceId == id && id != "";
      assert more[i] == nodes[i];
    }
  }

  /** A graph whose recorded path is another than the group's now: every device and every edge of it stays. */
  lemma RenamedGroupKeepsAll(g: Graph, group: Group, devices: seq<Device>, readings: Readings, opts: Options,
      platform: Platform)
    requires opts.FreshIds() && GroupPathOf(g) !in ["", group.path]
    ensures var r := Revise(g, group, devices, readings, opts, platform);
            r.Revision? ==>
              (forall id :: id in DeviceIds(g.nodes) ==> id in DeviceIds(r.graph.nodes)) && g.edges <= r.graph.edges
  {
    hide Rename, AttachAll, Missing, DeviceIds, GroupPathOf;
    var missing := Missing(g, devices);
    AttachAllExtends(g, missing, readings, opts, 0, platform.valid);
    var grown := AttachAll(g, missing, readings, opts, 0, platform.valid);
    if grown.Some? {
      DevicesOfMore(g.nodes, grown.value.nodes);
      RenameKeepsDevices(grown.value, group);
    }
  }

  /** The devices of the graph that are not the group's, by id. */
  function Leaving(g: Graph, devices: seq<Device>): seq<Id> { Sort(Before, Unwanted(DeviceIds(g.nodes), devices)) }

  /** In general: those of the graph that are nobody's in the group, in the order of their ids, each once. */
  lemma LeavingAre(g: Graph, group: Group, devices: seq<Device>)
    ensures StrictlySorted(Before, Leaving(g, devices))
    ensures forall id :: id in Leaving(g, devices) <==> id in DeviceIds(g.nodes) && !IsDeviceId(devices, id)
    ensures GroupPathOf(g) in ["", group.path] ==> Departed(g, group, devices) == Leaving(g, devices)
  {
    hide DeviceIds, IsDeviceId, GroupPathOf;
    UnwantedIs(DeviceIds(g.nodes), devices);
    SortsIds(Unwanted(DeviceIds(g.nodes), devices));
    SameElements(Leaving(g, devices), Unwanted(DeviceIds(g.nodes), devices));
  }

  /** A graph that records the group's path, or none: with no removal refused its devices become the group's. */
  lemma StayingGroupIsFollowed(g: Graph, group: Group, devices: seq<Device>, readings: Readings, opts: Options,
      platform: Platform)
    requires opts.FreshIds() && platform.Sound() && GroupPathOf(g) in ["", group.path]
    requires Valid(g) && NodesNamed(g.nodes) && DistinctDevices(devices) && OwnNodes(g.nodes, devices)
    requires NoneKept(g, Leaving(g, devices), platform)
    ensures var r := Revise(g, group, devices, readings, opts, platform);
            r.Revision? && forall id :: id in DeviceIds(r.graph.nodes) <==> exists d :: d in devices && d.id == id
  {
    hide Valid, NodesNamed, OwnNodes, NoneKept, DeviceIds, Revise, Departed, Leaving, Rename;
    LeavingAre(g, group, devices);
    ReviseFollowsTheWorld(g, group, devices, readings, opts, platform);
    forall id ensures IsDeviceId(devices, id) <==> exists d :: d in devices && d.id == id {
      if IsDeviceId(devices, id) {
        var i :| 0 <= i < |devices| && devices[i].id == id;
        assert devices[i] in devices;
      }
      if d :| d in devices && d.id == id {
        var i :| 0 <= i < |devices| && devices[i] == d;
        assert devices[i].id == id;
      }
    }
  }

  // ---- every stored graph is what its job made of it ----

  /** Everything one job planned and wrote is in the plan and the writes of the pass. */
  ghost predicate Within(d: Done, r: Result) {
    (forall c :: c in d.plan ==> c in r.plan) && (forall x :: x in d.writes ==> x in r.writes)
  }

  ghost predicate OnStored(w: World, jobs: seq<Job>, n: nat, r: Result, view: View, cfg: Config)
    requires cfg.opts.FreshIds() && n <= |w|
  {
    && |r.world| >= |w|
    && (forall i :: 0 <= i < n ==> r.world[i] == After(w[i], i, JobAt(jobs, i), view, cfg).entry)
    && (forall i :: n <= i < |w| ==> r.world[i] == w[i])
    && (forall i :: 0 <= i < n ==> Within(After(w[i], i, JobAt(jobs, i), view, cfg), r))
    && (forall i :: 0 <= i < n && After(w[i], i, JobAt(jobs, i), view, cfg).failed ==> r.failed)
  }

  lemma ApplyOnStored(w: World, job: Job, view: View, cfg: Config)
    requires cfg.opts.FreshIds() && (!job.CreateJob? ==> job.at < |w|)
    ensures var r := Apply(w, job, view, cfg);
            if job.CreateJob? then w <= r.world
            else
              var d := After(w[job.at], job.at, Some(job), view, cfg);
              r == Result(w[job.at := d.entry], d.plan, d.writes, d.failed)
  {
    hide UpdateStep, OrphanStep, CreateStep, Generated;
  }

  lemma {:induction false} RunOnStored(w: World, jobs: seq<Job>, n: nat, view: View, cfg: Config)
    requires cfg.opts.FreshIds() && n <= |w| && InRange(jobs, n) && InRange(jobs, |w|) && Apart(jobs)
    ensures OnStored(w, jobs, n, RunAll(w, jobs, view, cfg), view, cfg)
    decreases |jobs|
  {
    hide Apply, After, Apart, JobAt;
    AfterNone(view, cfg);
    if jobs == [] {
      NoJobsAnywhere();
    } else {
      var job, first := jobs[0], Apply(w, jobs[0], view, cfg);
      ApplyOnStored(w, job, view, cfg);
      JobAtHead(jobs);
      RunOnStored(first.world, jobs[1..], n, view, cfg);
      OnStoredJoins(w, jobs, n, view, cfg);
    }
  }

  lemma OnStoredJoins(w: World, jobs: seq<Job>, n: nat, view: View, cfg: Config)
    requires cfg.opts.FreshIds() && n <= |w| && InRange(jobs, n) && InRange(jobs, |w|) && Apart(jobs) && jobs != []
    requires var first := Apply(w, jobs[0], view, cfg);
             OnStored(first.world, jobs[1..], n, RunAll(first.world, jobs[1..], view, cfg), view, cfg)
    ensures OnStored(w, jobs, n, RunAll(w, jobs, view, cfg), view, cfg)
  {
    hide Apply, After, Apart, JobAt;
    AfterNone(view, cfg);
    var job, first := jobs[0], Apply(w, jobs[0], view, cfg);
    var rest, r := RunAll(first.world, jobs[1..], view, cfg), RunAll(w, jobs, view, cfg);
    ApplyOnStored(w, job, view, cfg);
    JobAtHead(jobs);
    assert r.plan == first.plan + rest.plan && r.writes == first.writes + rest.writes && r.world == rest.world;
    forall i | 0 <= i < n
      ensures r.world[i] == After(w[i], i, JobAt(jobs, i), view, cfg).entry &&
              Within(After(w[i], i, JobAt(jobs, i), view, cfg), r)
    {
      assert Within(After(first.world[i], i, JobAt(jobs[1..], i), view, cfg), rest);
      if job.CreateJob? || i != job.at {
        assert first.world[i] == w[i];
      }
    }
    forall i | n <= i < |w| ensures r.world[i] == w[i] {
      assert first.world[i] == w[i];
    }
  }

  lemma FullOnStored(w: World, view: View, cfg: Config)
    requires cfg.opts.FreshIds() && DistinctGroups(view.groups)
    ensures OnStored(w, Jobs(w, view), |w|, Full(w, view, cfg), view, cfg)
  {
    hide Jobs, OnStored, RunAll;
    JobsApart(w, view);
    JobsInRange(w, view);
    RunOnStored(w, Jobs(w, view), |w|, view, cfg);
  }

  // ---- nothing changes unplanned and unwritten ----

  function RightsOf(perms: Option<Perms>, path: string): Option<Rights> {
    if perms.Some? && path in perms.value.groups then Some(perms.value.groups[path]) else None
  }

  /** The plan names a sharing change of the graph for the path, and it is the one that leaves these rights. */
  ghost predicate Regranted(plan: seq<Change>, i: nat, path: string, rights: Option<Rights>) {
    if rights.Some? then ShareGraph(i, path) in plan && rights.value == Rights(true, true, true, false)
    else UnshareGraph(i, path) in plan
  }

  /** What happened to one stored graph is accounted for in a plan and in writes. */
  ghost predicate Accounted(e: Entry, after: Entry, i: nat, plan: seq<Change>, writes: seq<Write>) {
    && (after.graph != e.graph ==>
          SetGraph(i) in writes
          && exists c :: c in plan && (c.UpdateGraph? || c.DetachGroup?) && c.at == i && c.graph == after.graph)
    && (after.perms != e.perms ==>
          SetPermission(i) in writes && exists c :: c in plan && (c.ShareGraph? || c.UnshareGraph?) && c.at == i)
    && (forall path :: RightsOf(after.perms, path) != RightsOf(e.perms, path) ==>
          Regranted(plan, i, path, RightsOf(after.perms, path)))
  }

  lemma PermitAccounted(e: Entry, at: nat, path: string, want: Option<Rights>, cfg: Config)
    requires want in [None, Some(SHARED)]
    ensures var d := Permit(e, at, path, want, cfg);
            Accounted(e, d.entry, at, d.plan, d.writes) && d.entry.graph == e.graph
    ensures var d := Permit(e, at, path, want, cfg);
            forall p :: p != path ==> RightsOf(d.entry.perms, p) == RightsOf(e.perms, p)
  {
    PermissionWrite(e.perms, path, want, cfg.serviceUser);
    var change := if want.Some? then ShareGraph(at, path) else UnshareGraph(at, path);
    assert change in [change] && SetPermission(at) in [SetPermission(at)];
  }

  lemma ReshareAccounted(e: Entry, at: nat, group: Group, previous: string, cfg: Config)
    ensures var d := Reshare(e, at, group, previous, cfg);
            Accounted(e, d.entry, at, d.plan, d.writes) && d.entry.graph == e.graph
  {
    hide Permit, RightsOf;
    var shared := Permit(e, at, group.path, Some(SHARED), cfg);
    PermitAccounted(e, at, group.path, Some(SHARED), cfg);
    if !shared.failed && previous != "" && previous != group.path {
      var d := Permit(shared.entry, at, previous, None, cfg);
      PermitAccounted(shared.entry, at, previous, None, cfg);
      assert forall c :: c in shared.plan || c in d.plan ==> c in shared.plan + d.plan;
      assert forall x :: x in shared.writes || x in d.writes ==> x in shared.writes + d.writes;
    }
  }

  lemma UpdateAccounted(e: Entry, at: nat, group: Group, view: View, cfg: Config)
    requires cfg.opts.FreshIds()
    ensures var d := UpdateStep(e, at, group, view, cfg); Accounted(e, d.entry, at, d.plan, d.writes)
  {
    hide Revise, Reshare, UpdateDetails, RightsOf;
    var r := Revise(e.graph, group, view.devicesOf(group.path), view.readings, cfg.opts, cfg.platform);
    var previous := GroupPathOf(e.graph);
    if r.Revision? && r.changed {
      var saved := Save(e, at, r.graph, cfg);
      var shared := Reshare(saved.entry, at, group, previous, cfg);
      ReshareAccounted(saved.entry, at, group, previous, cfg);
      var update := UpdateGraph(at, group, r.graph, UpdateDetails(e, group, view, cfg));
      if !saved.failed {
        assert update in [update] + shared.plan;
        assert forall c :: c in shared.plan ==> c in [update] + shared.plan;
        assert forall x :: x in saved.writes || x in shared.writes ==> x in saved.writes + shared.writes;
      }
    } else if r.Revision? {
      ReshareAccounted(e, at, group, previous, cfg);
    }
  }

  lemma OrphanAccounted(e: Entry, at: nat, path: string, cfg: Config)
    ensures var d := OrphanStep(e, at, path, cfg); Accounted(e, d.entry, at, d.plan, d.writes)
  {
    hide Permit, Cleared, RightsOf;
    var unshared := Permit(e, at, path, None, cfg);
    PermitAccounted(e, at, path, None, cfg);
    if !unshared.failed && Cleared(e.graph) != e.graph {
      var detach := DetachGroup(at, path, Cleared(e.graph));
      var saved := Save(unshared.entry, at, Cleared(e.graph), cfg);
      assert detach in unshared.plan + [detach];
      assert forall c :: c in unshared.plan ==> c in unshared.plan + [detach];
      assert forall x :: x in unshared.writes || x in saved.writes ==> x in unshared.writes + saved.writes;
    }
  }

  lemma AfterAccounted(e: Entry, i: nat, job: Option<Job>, view: View, cfg: Config)
    requires cfg.opts.FreshIds()
    ensures var d := After(e, i, job, view, cfg); Accounted(e, d.entry, i, d.plan, d.writes)
  {
    hide UpdateStep, OrphanStep;
    match job {
      case Some(UpdateJob(_, group)) => UpdateAccounted(e, i, group, view, cfg);
      case Some(OrphanJob(_, path)) => OrphanAccounted(e, i, path, cfg);
      case _ =>
    }
  }

  lemma AccountedWithin(e: Entry, d: Done, i: nat, r: Result)
    requires Accounted(e, d.entry, i, d.plan, d.writes) && Within(d, r)
    ensures Accounted(e, d.entry, i, r.plan, r.writes)
  {
    if d.entry.graph != e.graph {
      var c :| c in d.plan && (c.UpdateGraph? || c.DetachGroup?) && c.at == i && c.graph == d.entry.graph;
      assert c in r.plan;
    }
    if d.entry.perms != e.perms {
      var c :| c in d.plan && (c.ShareGraph? || c.UnshareGraph?) && c.at == i;
      assert c in r.plan;
    }
  }

  /**
   * Nothing stored changes behind the report's back: a graph is another after the pass only with an
   * update or a detachment of it in the plan, with that very graph, and a graph write; its permissions
   * only with a sharing change of it in the plan and a permission write.
   */
  lemma ChangesAreAccounted(w: World, view: View, cfg: Config, i: nat)
    requires cfg.opts.FreshIds() && DistinctGroups(view.groups) && i < |w|
    ensures var r := Full(w, view, cfg);
            |r.world| >= |w| && Accounted(w[i], r.world[i], i, r.plan, r.writes)
  {
    hide Full, Jobs, After, JobAt, Accounted, Within;
    FullOnStored(w, view, cfg);
    var d := After(w[i], i, JobAt(Jobs(w, view), i), view, cfg);
    AfterAccounted(w[i], i, JobAt(Jobs(w, view), i), view, cfg);
    AccountedWithin(w[i], d, i, Full(w, view, cfg));
  }

  // ---- every new graph is planned, once ----

  predicate CreatesFor(c: Change, group: Group) { c.CreateGraph? && c.group == group }

  /** How many creations of a graph for the group a plan names. */
  function CountCreates(plan: seq<Change>, group: Group): nat {
    if plan == [] then 0
    else CountCreates(plan[..|plan| - 1], group) + if CreatesFor(plan[|plan| - 1], group) then 1 else 0
  }

  lemma {:induction false} CountAppends(a: seq<Change>, b: seq<Change>, group: Group)
    ensures CountCreates(a + b, group) == CountCreates(a, group) + CountCreates(b, group)
  {
    if b == [] {
      assert a + b == a;
    } else {
      assert (a + b)[..|a + b| - 1] == a + b[..|b| - 1];
      CountAppends(a, b[..|b| - 1], group);
    }
  }

  lemma {:induction false} NoneCounted(plan: seq<Change>, group: Group)
    requires forall c :: c in plan ==> !CreatesFor(c, group)
    ensures CountCreates(plan, group) == 0
  {
    if plan != [] { NoneCounted(plan[..|plan| - 1], group); }
  }

  ghost predicate CreatesNothing(plan: seq<Change>) { forall c :: c in plan ==> !c.CreateGraph? }

  lemma PermitCreatesNothing(e: Entry, at: nat, path: string, want: Option<Rights>, cfg: Config)
    ensures CreatesNothing(Permit(e, at, path, want, cfg).plan)
  {
    hide SetGroupPermission;
  }

  lemma ReshareCreatesNothing(e: Entry, at: nat, group: Group, previous: string, cfg: Config)
    ensures CreatesNothing(Reshare(e, at, group, previous, cfg).plan)
  {
    hide Permit;
    var shared := Permit(e, at, group.path, Some(SHARED), cfg);
    PermitCreatesNothing(e, at, group.path, Some(SHARED), cfg);
    PermitCreatesNothing(shared.entry, at, previous, None, cfg);
  }

  lemma UpdateCreatesNothing(e: Entry, at: nat, group: Group, view: View, cfg: Config)
    requires cfg.opts.FreshIds()
    ensures CreatesNothing(UpdateStep(e, at, group, view, cfg).plan)
  {
    hide Revise, Reshare, UpdateDetails;
    var r := Revise(e.graph, group, view.devicesOf(group.path), view.readings, cfg.opts, cfg.platform);
    if r.Revision? {
      ReshareCreatesNothing(Save(e, at, r.graph, cfg).entry, at, group, GroupPathOf(e.graph), cfg);
      ReshareCreatesNothing(e, at, group, GroupPathOf(e.graph), cfg);
    }
  }

  lemma StoredCreatesNothing(e: Entry, i: nat, job: Option<Job>, view: View, cfg: Config)
    requires cfg.opts.FreshIds()
    ensures CreatesNothing(After(e, i, job, view, cfg).plan)
  {
    hide UpdateStep, Permit, Save, Cleared;
    match job {
      case Some(UpdateJob(_, group)) => UpdateCreatesNothing(e, i, group, view, cfg);
      case Some(OrphanJob(_, path)) => PermitCreatesNothing(e, i, path, None, cfg);
      case _ =>
    }
  }

  lemma SharingCreatesNothing(at: nat, group: Group, view: View, cfg: Config)
    requires cfg.opts.FreshIds()
    ensures CreatesNothing(CreateStep(at, group, view, cfg).plan)
  {
    hide SetGroupPermission, Generated;
  }

  function CountJobs(jobs: seq<Job>, group: Group): nat {
    if jobs == [] then 0 else (if jobs[0] == CreateJob(group) then 1 else 0) + CountJobs(jobs[1..], group)
  }

  /** What the plan says of a creation. */
  ghost predicate Described(c: Change, view: View, cfg: Config)
    requires cfg.opts.FreshIds()
  {
    c.CreateGraph? ==>
      var devices := view.devicesOf(c.group.path);
      && c.graph == GraphOf(cfg.serviceUser, c.group, devices, view.readings, cfg.opts)
      && c.details.devices == devices && c.details.readings == view.readings
      && c.details.placements == ReportsOf(devices, view.readings, cfg.opts)
      && (forall id :: id in c.details.unplaced <==>
         exists d :: d in devices && d.id == id && Built.ReadsNothing(d, view.readings))
  }

  lemma UnplacedDescribed(devices: seq<Device>, readings: Readings)
    ensures forall id :: id in Unplaced(devices, readings) <==>
            exists d :: d in devices && d.id == id && Built.ReadsNothing(d, readings)
  {
    hide PrimaryOf, Built.ReadsNothing;
    UnreadMembers(devices, readings);
    SameElements(Unplaced(devices, readings), Unread(devices, readings));
    forall d: Device ensures PrimaryOf(d, readings).None? <==> Built.ReadsNothing(d, readings) {
      Built.NoPrimaryReadsNothing(d, readings);
    }
    forall id ensures id in Unread(devices, readings) <==>
      exists d :: d in devices && d.id == id && Built.ReadsNothing(d, readings) {
      if i :| 0 <= i < |devices| && devices[i].id == id && PrimaryOf(devices[i], readings).None? {
        assert devices[i] in devices;
      }
      if d :| d in devices && d.id == id && Built.ReadsNothing(d, readings) {
        var i :| 0 <= i < |devices| && devices[i] == d;
        assert devices[i].id == id && PrimaryOf(devices[i], readings).None?;
      }
    }
  }

  lemma CreateDescribed(group: Group, view: View, cfg: Config)
    requires cfg.opts.FreshIds()
    ensures Described(CreateGraph(group, Generated(group, view, cfg), CreateDetails(group, view, cfg)), view, cfg)
  {
    hide GraphOf, ReportsOf, Unplaced, Built.ReadsNothing;
    UnplacedDescribed(view.devicesOf(group.path), view.readings);
  }

  ghost predicate Buildable(jobs: seq<Job>, view: View, cfg: Config) {
    && cfg.opts.FreshIds() && cfg.platform.Sound() && cfg.serviceUser != ""
    && forall i :: 0 <= i < |jobs| && jobs[i].CreateJob? ==> Proper(view.devicesOf(jobs[i].group.path))
  }

  lemma ApplyCounts(w: World, job: Job, view: View, cfg: Config, group: Group)
    requires Buildable([job], view, cfg) && (!job.CreateJob? ==> job.at < |w|)
    ensures var r := Apply(w, job, view, cfg);
            && CountCreates(r.plan, group) == (if job == CreateJob(group) then 1 else 0)
            && forall c :: c in r.plan ==> Described(c, view, cfg)
  {
    hide UpdateStep, OrphanStep, CreateStep, Generated, CreateDetails, Platform.Sound, Described, Proper, Valid;
    assert forall c: Change :: !c.CreateGraph? ==> Described(c, view, cfg) by { OthersDescribed(view, cfg); }
    if job.CreateJob? {
      assert [job][0] == job;
      GeneratedIsValid(job.group, view, cfg);
      var planned := [CreateGraph(job.group, Generated(job.group, view, cfg), CreateDetails(job.group, view, cfg))];
      var d := CreateStep(|w|, job.group, view, cfg);
      CreateDescribed(job.group, view, cfg);
      SharingCreatesNothing(|w|, job.group, view, cfg);
      NoneCounted(d.plan, group);
      CountAppends(planned, d.plan, group);
      assert planned[..0] == [] && CountCreates(planned, group) == if job.group == group then 1 else 0;
    } else {
      ApplyOnStored(w, job, view, cfg);
      StoredCreatesNothing(w[job.at], job.at, Some(job), view, cfg);
      NoneCounted(Apply(w, job, view, cfg).plan, group);
    }
  }

  lemma OthersDescribed(view: View, cfg: Config)
    requires cfg.opts.FreshIds()
    ensures forall c: Change :: !c.CreateGraph? ==> Described(c, view, cfg)
  {}

  lemma GeneratedIsValid(group: Group, view: View, cfg: Config)
    requires cfg.opts.FreshIds() && cfg.platform.Sound() && cfg.serviceUser != "" && Proper(view.devicesOf(group.path))
    ensures cfg.platform.valid(Generated(group, view, cfg))
  {
    hide GraphOf, Valid;
    BuildDraws(cfg.serviceUser, group, view.devicesOf(group.path), view.readings, cfg.opts);
  }

  lemma {:induction false} RunCounts(w: World, jobs: seq<Job>, view: View, cfg: Config, group: Group)
    requires Buildable(jobs, view, cfg) && InRange(jobs, |w|)
    ensures var r := RunAll(w, jobs, view, cfg);
            && CountCreates(r.plan, group) == CountJobs(jobs, group)
            && forall c :: c in r.plan ==> Described(c, view, cfg)
    decreases |jobs|
  {
    hide Apply, Described, Platform.Sound, Proper;
    if jobs != [] {
      var first := Apply(w, jobs[0], view, cfg);
      assert Buildable([jobs[0]], view, cfg) && Buildable(jobs[1..], view, cfg);
      ApplyCounts(w, jobs[0], view, cfg, group);
      RunCounts(first.world, jobs[1..], view, cfg, group);
      CountAppends(first.plan, RunAll(first.world, jobs[1..], view, cfg).plan, group);
    }
  }

  /** No stored graph carries the group's id, and none without an id its path. */
  ghost predicate Unclaimed(w: World, group: Group) {
    forall i :: 0 <= i < |w| ==>
      && (GroupIdOf(w[i].graph) == group.id ==> group.id == "")
      && (GroupIdOf(w[i].graph) == "" && GroupPathOf(w[i].graph) == group.path ==> group.path == "")
  }

  lemma UnclaimedIsNotFound(w: World, group: Group)
    ensures Find(w, group) < 0 <==> Unclaimed(w, group)
  {
    hide KeepLower;
    var b, p := ById(w, |w|, group.id), ByPath(w, |w|, group.path);
    assert b >= 0 ==> GroupIdOf(w[b].graph) == group.id != "";
    assert p >= 0 ==> ClaimsPath(w[p].graph, group.path);
    if b < 0 && p < 0 {
      forall i | 0 <= i < |w| ensures !ClaimsPath(w[i].graph, group.path) {}
    }
  }

  lemma {:induction false} JobsAppendCount(a: seq<Job>, b: seq<Job>, group: Group)
    ensures CountJobs(a + b, group) == CountJobs(a, group) + CountJobs(b, group)
  {
    if a == [] {
      assert a + b == b;
    } else {
      assert (a + b)[1..] == a[1..] + b;
      JobsAppendCount(a[1..], b, group);
    }
  }

  lemma {:induction false} GroupJobsCount(w: World, groups: seq<Group>, view: View, group: Group)
    requires DistinctGroups(groups)
    ensures CountJobs(GroupJobs(w, groups, view), group) ==
            if group in groups && Find(w, group) < 0 && view.devicesOf(group.path) != [] then 1 else 0
  {
    hide Find;
    if groups != [] {
      var n := |groups| - 1;
      GroupJobsCount(w, groups[..n], view, group);
      JobsAppendCount(GroupJobs(w, groups[..n], view), GroupJob(w, groups[n], view), group);
      assert group in groups <==> group in groups[..n] || group == groups[n];
      assert groups[n] !in groups[..n];
      var job := GroupJob(w, groups[n], view);
      assert job != [] ==> job[1..] == [];
    }
  }

  lemma {:induction false} NoCreatesCounted(jobs: seq<Job>, group: Group)
    requires CreateJob(group) !in jobs
    ensures CountJobs(jobs, group) == 0
  {
    if jobs != [] { NoCreatesCounted(jobs[1..], group); }
  }

  /**
   * Writing or not, the plan names the creation of a graph once for every group that has devices and no
   * graph, and for no other - with the graph the generator makes of the group's devices, those devices,
   * the readings, the placements and the devices without a reading.
   */
  lemma CreationsArePlanned(w: World, view: View, cfg: Config, group: Group)
    requires cfg.opts.FreshIds() && cfg.platform.Sound() && cfg.serviceUser != "" && DistinctGroups(view.groups)
    requires forall g :: g in view.groups ==> Proper(view.devicesOf(g.path))
    ensures var plan := Full(w, view, cfg).plan;
            && CountCreates(plan, group) ==
                 (if group in view.groups && Unclaimed(w, group) && view.devicesOf(group.path) != [] then 1 else 0)
            && forall c :: c in plan ==> Described(c, view, cfg)
  {
    hide Find, Unclaimed, Described, Platform.Sound, Proper, RunAll, Orphaned;
    UnclaimedIsNotFound(w, group);
    JobsTell(w, view);
    JobsInRange(w, view);
    var jobs := Jobs(w, view);
    assert Buildable(jobs, view, cfg) by {
      forall i | 0 <= i < |jobs| && jobs[i].CreateJob? ensures Proper(view.devicesOf(jobs[i].group.path)) {
        assert jobs[i] in jobs;
      }
    }
    RunCounts(w, jobs, view, cfg, group);
    GroupJobsCount(w, view.groups, view, group);
    if view.groups != [] {
      OrphanJobsAre(w, |w|, view.groups);
      NoCreatesCounted(OrphanJobs(w, |w|, view.groups), group);
      JobsAppendCount(GroupJobs(w, view.groups, view), OrphanJobs(w, |w|, view.groups), group);
    } else {
      assert jobs == [];
    }
  }

  /** What a created graph is stored as, and who may do what with it. */
  ghost predicate StoredFor(e: Entry, i: nat, group: Group, view: View, cfg: Config)
    requires cfg.opts.FreshIds()
  {
    && e.graph == GraphOf(cfg.serviceUser, group, view.devicesOf(group.path), view.readings,
                          cfg.opts).(id := cfg.graphId(i))
    && e.perms == Some(Perms(map[cfg.serviceUser := Rights(true, true, true, true)],
                             map[group.path := Rights(true, true, true, false)], map[]))
  }

  lemma CreateStores(at: nat, group: Group, view: View, cfg: Config)
    requires cfg.opts.FreshIds() && cfg.writable
    ensures StoredFor(CreateStep(at, group, view, cfg).entry, at, group, view, cfg)
  {
    hide GraphOf;
    var perms := NewPerms(cfg);
    assert cfg.serviceUser in perms.users && perms.users[cfg.serviceUser].administrate;
    assert Administrated(Adjusted(perms, group.path, Some(SHARED), cfg.serviceUser));
  }

  lemma OneOwner(e: Entry, i: nat, g: Group, h: Group, view: View, cfg: Config)
    requires cfg.opts.FreshIds() && StoredFor(e, i, g, view, cfg) && StoredFor(e, i, h, view, cfg)
    requires DistinctGroups(view.groups) && g in view.groups && h in view.groups
    ensures g == h
  {
    hide GraphOf;
    BuiltAttributes(cfg.serviceUser, g, view.devicesOf(g.path), view.readings, cfg.opts);
    BuiltAttributes(cfg.serviceUser, h, view.devicesOf(h.path), view.readings, cfg.opts);
    SameGroup(view.groups, g, h);
  }

  /** The group is there, has devices, and no stored graph is its. */
  ghost predicate NeedsGraph(w: World, group: Group, view: View) {
    group in view.groups && Unclaimed(w, group) && view.devicesOf(group.path) != []
  }

  lemma CreatesAreNeeded(w: World, view: View, cfg: Config, created: seq<Group>)
    requires DistinctGroups(view.groups) && created == Creates(Jobs(w, view))
    ensures forall g :: g in created <==> NeedsGraph(w, g, view)
    ensures forall i, j :: 0 <= i < j < |created| ==> created[i] != created[j]
  {
    hide Find, Orphaned, Unclaimed, Jobs, Creates, Apart;
    JobsTell(w, view);
    CreatesAre(Jobs(w, view));
    forall g ensures g in created <==> NeedsGraph(w, g, view) {
      UnclaimedIsNotFound(w, g);
      if view.devicesOf(g.path) == [] { NotCreated(w, g, view); }
    }
  }

  lemma CreatesAreStored(w: World, view: View, cfg: Config)
    requires cfg.opts.FreshIds() && cfg.platform.Sound() && cfg.serviceUser != "" && cfg.writable
    requires DistinctGroups(view.groups) && forall g :: g in view.groups ==> Proper(view.devicesOf(g.path))
    ensures var after, created := Full(w, view, cfg).world, Creates(Jobs(w, view));
            && |after| == |w| + |created|
            && forall m :: 0 <= m < |created| ==> StoredFor(after[|w| + m], |w| + m, created[m], view, cfg)
  {
    hide Find, Orphaned, CreateStep, Jobs, Platform.Sound, Proper, RunAll, After, JobAt, Creates, Apart, StoredFor;
    var jobs := Jobs(w, view);
    JobsTell(w, view);
    JobsInRange(w, view);
    assert Creatable(jobs, view, cfg) by {
      forall i | 0 <= i < |jobs| && jobs[i].CreateJob? ensures Proper(view.devicesOf(jobs[i].group.path)) {
        assert jobs[i] in jobs;
      }
    }
    RunTouches(w, jobs, |w|, view, cfg);
    forall m | 0 <= m < |Creates(jobs)|
      ensures StoredFor(Full(w, view, cfg).world[|w| + m], |w| + m, Creates(jobs)[m], view, cfg)
    {
      CreateStores(|w| + m, Creates(jobs)[m], view, cfg);
    }
  }

  /** Behind what was stored there is one graph for each group that needs one, and nothing else. */
  ghost predicate OneForEach(w: World, after: World, view: View, cfg: Config)
    requires cfg.opts.FreshIds()
  {
    && |after| >= |w|
    && (forall i :: |w| <= i < |after| ==> HasOwner(w, after[i], i, view, cfg))
    && (forall g :: NeedsGraph(w, g, view) ==> exists i :: |w| <= i < |after| && StoredFor(after[i], i, g, view, cfg))
    && (forall i, j, g :: |w| <= i < j < |after| && g in view.groups && StoredFor(after[i], i, g, view, cfg) ==>
          !StoredFor(after[j], j, g, view, cfg))
  }

  ghost predicate HasOwner(w: World, e: Entry, i: nat, view: View, cfg: Config)
    requires cfg.opts.FreshIds()
  {
    exists g :: NeedsGraph(w, g, view) && StoredFor(e, i, g, view, cfg)
  }

  /**
   * A writing pass stores exactly one new graph for every group that has devices and no graph, and none
   * else: the generator's, shared with that group alone and administrated by the service user alone.
   */
  lemma CreationsAreStored(w: World, view: View, cfg: Config)
    requires cfg.opts.FreshIds() && cfg.platform.Sound() && cfg.serviceUser != "" && cfg.writable
    requires DistinctGroups(view.groups) && forall g :: g in view.groups ==> Proper(view.devicesOf(g.path))
    ensures OneForEach(w, Full(w, view, cfg).world, view, cfg)
  {
    hide Jobs, Platform.Sound, Proper, Full, Creates, StoredFor, NeedsGraph, DistinctGroups, HasOwner;
    CreatesAreNeeded(w, view, cfg, Creates(Jobs(w, view)));
    CreatesAreStored(w, view, cfg);
    OneEach(w, Full(w, view, cfg).world, Creates(Jobs(w, view)), view, cfg);
    OnlyOne(w, Full(w, view, cfg).world, Creates(Jobs(w, view)), view, cfg);
  }

  ghost predicate StoredBehind(w: World, after: World, created: seq<Group>, view: View, cfg: Config)
    requires cfg.opts.FreshIds()
  {
    && |after| == |w| + |created|
    && forall m :: 0 <= m < |created| ==> StoredFor(after[|w| + m], |w| + m, created[m], view, cfg)
  }

  lemma OneEach(w: World, after: World, created: seq<Group>, view: View, cfg: Config)
    requires cfg.opts.FreshIds() && StoredBehind(w, after, created, view, cfg)
    requires forall g :: g in created <==> NeedsGraph(w, g, view)
    ensures forall i :: |w| <= i < |after| ==> HasOwner(w, after[i], i, view, cfg)
    ensures forall g :: NeedsGraph(w, g, view) ==>
              exists i :: |w| <= i < |after| && StoredFor(after[i], i, g, view, cfg)
  {
    hide StoredFor, NeedsGraph;
    forall i | |w| <= i < |after| ensures HasOwner(w, after[i], i, view, cfg) {
      var m := i - |w|;
      assert created[m] in created && StoredFor(after[|w| + m], |w| + m, created[m], view, cfg);
      assert NeedsGraph(w, created[m], view) && StoredFor(after[i], i, created[m], view, cfg);
    }
    forall g | NeedsGraph(w, g, view) ensures exists i :: |w| <= i < |after| && StoredFor(after[i], i, g, view, cfg) {
      var m :| 0 <= m < |created| && created[m] == g;
      assert StoredFor(after[|w| + m], |w| + m, g, view, cfg);
    }
  }

  lemma OnlyOne(w: World, after: World, created: seq<Group>, view: View, cfg: Config)
    requires cfg.opts.FreshIds() && StoredBehind(w, after, created, view, cfg) && DistinctGroups(view.groups)
    requires forall g :: g in created ==> NeedsGraph(w, g, view)
    requires forall i, j :: 0 <= i < j < |created| ==> created[i] != created[j]
    ensures forall i, j, g :: |w| <= i < j < |after| && g in view.groups && StoredFor(after[i], i, g, view, cfg) ==>
              !StoredFor(after[j], j, g, view, cfg)
  {
    hide StoredFor, NeedsGraph, DistinctGroups;
    forall i, j, g | |w| <= i < j < |after| && g in view.groups && StoredFor(after[i], i, g, view, cfg)
      ensures !StoredFor(after[j], j, g, view, cfg)
    {
      CreatedFor(w, after, created, i, g, view, cfg);
      if StoredFor(after[j], j, g, view, cfg) { CreatedFor(w, after, created, j, g, view, cfg); }
    }
  }

  lemma CreatedFor(w: World, after: World, created: seq<Group>, i: nat, g: Group, view: View, cfg: Config)
    requires cfg.opts.FreshIds() && StoredBehind(w, after, created, view, cfg) && DistinctGroups(view.groups)
    requires forall g :: g in created ==> NeedsGraph(w, g, view)
    requires |w| <= i < |after| && g in view.groups && StoredFor(after[i], i, g, view, cfg)
    ensures created[i - |w|] == g
  {
    hide StoredFor, NeedsGraph, DistinctGroups;
    var m := i - |w|;
    assert created[m] in created && StoredFor(after[|w| + m], |w| + m, created[m], view, cfg);
    NeededIsThere(w, created[m], view);
    OneOwner(after[i], i, created[m], g, view, cfg);
  }

  lemma NeededIsThere(w: World, group: Group, view: View)
    ensures NeedsGraph(w, group, view) ==> group in view.groups
  {}

  // ---- renamed and staying groups, over a whole pass ----

  /** The stored graph is the group's: it carries the group's id, or the path alone while nobody carries the id. */
  ghost predicate IsOf(w: World, i: nat, group: Group)
    requires i < |w|
  {
    || GroupIdOf(w[i].graph) == group.id
    || (GroupIdOf(w[i].graph) == "" && GroupPathOf(w[i].graph) == group.path
        && forall k :: 0 <= k < |w| ==> GroupIdOf(w[k].graph) != group.id)
  }

  /** Where no two graphs claim the same group, a group finds the graph that is its. */
  lemma FindsItsOwn(w: World, i: nat, group: Group)
    requires UniqueClaims(w) && i < |w| && IsOf(w, i, group) && group.id != "" && group.path != ""
    ensures Find(w, group) == i
  {
    hide KeepLower, UniqueClaims;
    if GroupIdOf(w[i].graph) == group.id {
      ByIdIs(w, i);
    } else {
      assert ClaimsPath(w[i].graph, group.path);
      ByPathIs(w, i, group.path);
    }
  }

  lemma SavedGraph(e: Entry, at: nat, group: Group, view: View, cfg: Config)
    requires cfg.opts.FreshIds()
    ensures var r := Revise(e.graph, group, view.devicesOf(group.path), view.readings, cfg.opts, cfg.platform);
            var after := UpdateStep(e, at, group, view, cfg).entry.graph;
            && (after == e.graph || (r.Revision? && after == r.graph))
            && (r.Revision? && cfg.writable && cfg.platform.valid(r.graph) && (!r.changed ==> r.graph == e.graph) ==>
                  after == r.graph)
  {
    hide Revise, Reshare, UpdateDetails;
    var r := Revise(e.graph, group, view.devicesOf(group.path), view.readings, cfg.opts, cfg.platform);
    var previous := GroupPathOf(e.graph);
    if r.Revision? {
      var saved := Save(e, at, r.graph, cfg);
      ReshareAccounted(saved.entry, at, group, previous, cfg);
      ReshareAccounted(e, at, group, previous, cfg);
    }
  }

  /** The job of a graph that carries the id of a group is that group's update, if it has one at all. */
  lemma JobOfRenamed(w: World, view: View, i: nat, group: Group)
    requires DistinctGroups(view.groups) && group in view.groups && i < |w| && GroupIdOf(w[i].graph) == group.id
    ensures JobAt(Jobs(w, view), i) in [None, Some(UpdateJob(i, group))]
  {
    hide Find, Jobs, JobAt, ById, ByPath;
    JobsTell(w, view);
    JobAtIn(Jobs(w, view), i);
    GroupsNamed(view.groups, group);
    KnownGroup(view.groups, group);
    if JobAt(Jobs(w, view), i).Some? {
      var job := JobAt(Jobs(w, view), i).value;
      assert job.OrphanJob? ==> !Orphaned(w, i, view.groups);
      if job.UpdateJob? {
        GroupsNamed(view.groups, job.group);
        FindTells(w, job.group);
        SameGroup(view.groups, job.group, group);
      }
    }
  }

  /**
   * The pass that finds a group renamed or moved - its graph carries its id and records another path -
   * takes no device and no edge from that graph, whatever the group's device list says.
   */
  lemma RenameLosesNothing(w: World, view: View, cfg: Config, i: nat, group: Group)
    requires cfg.opts.FreshIds() && DistinctGroups(view.groups) && group in view.groups && i < |w|
    requires GroupIdOf(w[i].graph) == group.id && GroupPathOf(w[i].graph) !in ["", group.path]
    ensures var after := Full(w, view, cfg).world;
            && |after| >= |w|
            && (forall id :: id in DeviceIds(w[i].graph.nodes) ==> id in DeviceIds(after[i].graph.nodes))
            && w[i].graph.edges <= after[i].graph.edges
  {
    hide Full, Jobs, JobAt, DeviceIds, UpdateStep, Within, GroupIdOf, GroupPathOf, Revise;
    FullOnStored(w, view, cfg);
    JobOfRenamed(w, view, i, group);
    assert Full(w, view, cfg).world[i] == After(w[i], i, JobAt(Jobs(w, view), i), view, cfg).entry;
    SavedGraph(w[i], i, group, view, cfg);
    RenamedGroupKeepsAll(w[i].graph, group, view.devicesOf(group.path), view.readings, cfg.opts, cfg.platform);
  }

  /**
   * The pass that finds a group's graph recording the group's path, or none, and is refused no removal,
   * leaves exactly the group's devices in it.
   */
  lemma PassFollowsTheGroup(w: World, view: View, cfg: Config, i: nat, group: Group)
    requires Ready(w, view, cfg) && group in view.groups && i < |w| && IsOf(w, i, group)
    requires GroupPathOf(w[i].graph) in ["", group.path]
    requires NoneKept(w[i].graph, Leaving(w[i].graph, view.devicesOf(group.path)), cfg.platform)
    ensures cfg.opts.FreshIds() && |Full(w, view, cfg).world| >= |w|
    ensures forall id :: id in DeviceIds(Full(w, view, cfg).world[i].graph.nodes) <==>
                         exists d :: d in view.devicesOf(group.path) && d.id == id
  {
    hide Full, Jobs, JobAt, DeviceIds, UpdateStep, Within, GroupIdOf, GroupPathOf, Revise, Find, Ready, IsOf, Leaving,
      NoneKept, Valid, NodesNamed, OwnNodes, UniqueClaims;
    ReadyConfig(w, view, cfg);
    GroupsNamed(view.groups, group);
    FindsItsOwn(w, i, group);
    JobsTell(w, view);
    JobAtIs(Jobs(w, view), UpdateJob(i, group));
    FullOnStored(w, view, cfg);
    assert Full(w, view, cfg).world[i] == After(w[i], i, JobAt(Jobs(w, view), i), view, cfg).entry;
    FoundIsReady(w, i, group, view, cfg);
    var devices := view.devicesOf(group.path);
    StayingGroupIsFollowed(w[i].graph, group, devices, view.readings, cfg.opts, cfg.platform);
    StayingIsSaved(w[i].graph, group, devices, view.readings, cfg.opts, cfg.platform);
    SavedGraph(w[i], i, group, view, cfg);
  }

  lemma FoundIsReady(w: World, i: nat, group: Group, view: View, cfg: Config)
    requires Ready(w, view, cfg) && group in view.groups && i < |w| && Find(w, group) == i
    ensures Valid(w[i].graph) && NodesNamed(w[i].graph.nodes)
    ensures DistinctDevices(view.devicesOf(group.path)) && OwnNodes(w[i].graph.nodes, view.devicesOf(group.path))
  {
    hide Valid, NodesNamed, OwnNodes, ById, ByPath, UniqueClaims, Platform.Sound, DistinctDevices;
    var k :| 0 <= k < |view.groups| && view.groups[k] == group;
    GroupsNamed(view.groups, group);
    FindTells(w, group);
    assert Seen(w[i].graph);
    Rest.ProperIsDistinct(view.devicesOf(group.path));
  }

  lemma StayingIsSaved(g: Graph, group: Group, devices: seq<Device>, readings: Readings, opts: Options,
      platform: Platform)
    requires opts.FreshIds() && platform.Sound() && GroupPathOf(g) in ["", group.path]
    requires Valid(g) && NodesNamed(g.nodes) && DistinctDevices(devices) && OwnNodes(g.nodes, devices)
    requires NoneKept(g, Leaving(g, devices), platform)
    ensures var r := Revise(g, group, devices, readings, opts, platform);
            r.Revision? && platform.valid(r.graph) && (!r.changed ==> r.graph == g)
  {
    hide Valid, NodesNamed, OwnNodes, NoneKept, DeviceIds, Revise, Departed, Leaving, Rename;
    LeavingAre(g, group, devices);
    ReviseFollowsTheWorld(g, group, devices, readings, opts, platform);
  }
}
