/** One full reconciliation pass over all groups and all stored graphs. */
module Pass {
  import opened Sorting
  import opened Model
  import opened Tree
  import opened Drawing
  import opened Detaching
  import opened Sharing
  import opened Updating

  /** A stored graph with its permission resource. Positions stand for the repository's keys. */
  datatype Entry = Entry(graph: Graph, perms: Option<Perms>)

  type World = seq<Entry>

  datatype Config = Config(serviceUser: Id, opts: Options, platform: Platform, writable: bool, graphId: nat -> Id)

  /** What the directory, the device view and the meters say during one pass. */
  datatype View = View(groups: seq<Group>, devicesOf: string -> seq<Device>, readings: Readings)

  /** The planned changes a pass reports, whether or not it may write. */
  datatype Change =
    | CreateGraph(group: Group, graph: Graph, details: Details)
    | UpdateGraph(at: nat, group: Group, graph: Graph, details: Details)
    | ShareGraph(at: nat, path: string)
    | UnshareGraph(at: nat, path: string)
    | DetachGroup(at: nat, path: string, graph: Graph)

  datatype Write = SetGraph(at: nat) | SetPermission(at: nat)

  datatype Job = UpdateJob(at: nat, group: Group) | CreateJob(group: Group) | OrphanJob(at: nat, path: string)

  datatype Done = Done(entry: Entry, plan: seq<Change>, writes: seq<Write>, failed: bool)

  datatype Result = Result(world: World, plan: seq<Change>, writes: seq<Write>, failed: bool)

  // ---- one graph ----

  function Permit(e: Entry, at: nat, path: string, want: Option<Rights>, cfg: Config): Done {
    var change := if want.Some? then ShareGraph(at, path) else UnshareGraph(at, path);
    match SetGroupPermission(e.perms, path, want, cfg.serviceUser, cfg.writable)
    case Agrees => Done(e, [], [], false)
    case Skipped => Done(e, [change], [], false)
    case Written(p) => Done(e.(perms := Some(p)), [change], [SetPermission(at)], false)
    case NoResource => Done(e, [], [], true)
    case Unadministrated => Done(e, [], [], true)
  }

  function Save(e: Entry, at: nat, next: Graph, cfg: Config): Done {
    if !cfg.platform.valid(next) then Done(e, [], [], true)
    else if !cfg.writable then Done(e, [], [], false)
    else Done(e.(graph := next), [], [SetGraph(at)], false)
  }

  function Then(a: Done, b: Done): Done
    requires !a.failed
  {
    Done(b.entry, a.plan + b.plan, a.writes + b.writes, b.failed)
  }

  /** The sharing every pass checks, and the old path last. */
  function Reshare(e: Entry, at: nat, group: Group, previous: string, cfg: Config): Done {
    var shared := Permit(e, at, group.path, Some(SHARED), cfg);
    if shared.failed || previous == "" || previous == group.path then shared
    else Then(shared, Permit(shared.entry, at, previous, None, cfg))
  }

  function UpdateDetails(e: Entry, group: Group, view: View, cfg: Config): Details
    requires cfg.opts.FreshIds()
  {
    DetailsOf(e.graph, group, view.devicesOf(group.path), view.readings, cfg.opts, cfg.platform)
  }

  function UpdateStep(e: Entry, at: nat, group: Group, view: View, cfg: Config): Done
    requires cfg.opts.FreshIds()
  {
    match Revise(e.graph, group, view.devicesOf(group.path), view.readings, cfg.opts, cfg.platform)
    case AttachFailed => Done(e, [], [], true)
    case Revision(next, changed) =>
      var previous := GroupPathOf(e.graph);
      if !changed then Reshare(e, at, group, previous, cfg)
      else
        var saved := Save(e, at, next, cfg);
        var planned := saved.(plan := [UpdateGraph(at, group, next, UpdateDetails(e, group, view, cfg))]);
        if saved.failed then planned else Then(planned, Reshare(saved.entry, at, group, previous, cfg))
  }

  function Cleared(g: Graph): Graph {
    g.(attributes := WithoutKey(WithoutKey(g.attributes, ATTR_GROUP_PATH), ATTR_GROUP_ID))
  }

  /** A vanished group's share is withdrawn and the group forgotten; the graph stays. */
  function OrphanStep(e: Entry, at: nat, path: string, cfg: Config): Done {
    var unshared := Permit(e, at, path, None, cfg);
    if unshared.failed || Cleared(e.graph) == e.graph then unshared
    else
      var saved := Save(unshared.entry, at, Cleared(e.graph), cfg);
      Then(unshared, saved.(plan := [DetachGroup(at, path, Cleared(e.graph))]))
  }

  function NewPerms(cfg: Config): Perms { Perms(map[cfg.serviceUser := OWNER], map[], map[]) }

  function Generated(group: Group, view: View, cfg: Config): Graph
    requires cfg.opts.FreshIds()
  {
    GraphOf(cfg.serviceUser, group, view.devicesOf(group.path), view.readings, cfg.opts)
  }

  function CreateDetails(group: Group, view: View, cfg: Config): Details {
    var devices := view.devicesOf(group.path);
    Details(devices, Unplaced(devices, view.readings), view.readings, ReportsOf(devices, view.readings, cfg.opts))
  }

  /** The repository gives the graph its id and its permission resource; sharing comes after. */
  function CreateStep(at: nat, group: Group, view: View, cfg: Config): Done
    requires cfg.opts.FreshIds()
  {
    var e := Entry(Generated(group, view, cfg).(id := cfg.graphId(at)), Some(NewPerms(cfg)));
    var shared := Permit(e, at, group.path, Some(SHARED), cfg);
    Done(shared.entry, shared.plan, [SetGraph(at)] + shared.writes, shared.failed)
  }

  // ---- all graphs ----

  function Apply(w: World, job: Job, view: View, cfg: Config): (r: Result)
    requires cfg.opts.FreshIds() && (!job.CreateJob? ==> job.at < |w|)
    ensures |r.world| >= |w|
  {
    match job
    case UpdateJob(at, group) =>
      var d := UpdateStep(w[at], at, group, view, cfg);
      Result(w[at := d.entry], d.plan, d.writes, d.failed)
    case OrphanJob(at, path) =>
      var d := OrphanStep(w[at], at, path, cfg);
      Result(w[at := d.entry], d.plan, d.writes, d.failed)
    case CreateJob(group) =>
      var planned := [CreateGraph(group, Generated(group, view, cfg), CreateDetails(group, view, cfg))];
      if !cfg.platform.valid(Generated(group, view, cfg)) then Result(w, [], [], true)
      else if !cfg.writable then Result(w, planned, [], false)
      else
        var d := CreateStep(|w|, group, view, cfg);
        Result(w + [d.entry], planned + d.plan, d.writes, d.failed)
  }

  predicate InRange(jobs: seq<Job>, n: nat) {
    forall i :: 0 <= i < |jobs| && !jobs[i].CreateJob? ==> jobs[i].at < n
  }

  function RunAll(w: World, jobs: seq<Job>, view: View, cfg: Config): (r: Result)
    requires cfg.opts.FreshIds() && InRange(jobs, |w|)
    ensures |r.world| >= |w|
    decreases |jobs|
  {
    hide Apply;
    if jobs == [] then Result(w, [], [], false)
    else
      var first := Apply(w, jobs[0], view, cfg);
      var rest := RunAll(first.world, jobs[1..], view, cfg);
      Result(rest.world, first.plan + rest.plan, first.writes + rest.writes, first.failed || rest.failed)
  }

  // ---- whose graph is whose ----

  /** Of two graphs claiming the same key the lower id is kept. */
  function KeepLower(w: World, previous: int, n: nat): (r: int)
    requires -1 <= previous < n < |w|
    ensures r == previous || r == n
  {
    if previous >= 0 && Before(w[previous].graph.id, w[n].graph.id) then previous else n
  }

  function ById(w: World, n: nat, id: string): (r: int)
    requires n <= |w|
    ensures -1 <= r < n && (r >= 0 ==> GroupIdOf(w[r].graph) == id != "")
    ensures r < 0 ==> id == "" || forall i :: 0 <= i < n ==> GroupIdOf(w[i].graph) != id
  {
    if n == 0 then -1
    else
      var b := ById(w, n - 1, id);
      if id != "" && GroupIdOf(w[n - 1].graph) == id then KeepLower(w, b, n - 1) else b
  }

  predicate ClaimsPath(g: Graph, path: string) {
    path != "" && GroupIdOf(g) == "" && GroupPathOf(g) == path
  }

  function ByPath(w: World, n: nat, path: string): (r: int)
    requires n <= |w|
    ensures -1 <= r < n && (r >= 0 ==> ClaimsPath(w[r].graph, path))
    ensures r < 0 ==> forall i :: 0 <= i < n ==> !ClaimsPath(w[i].graph, path)
  {
    if n == 0 then -1
    else
      var b := ByPath(w, n - 1, path);
      if ClaimsPath(w[n - 1].graph, path) then KeepLower(w, b, n - 1) else b
  }

  /** By the stable id, failing that by path. */
  function Find(w: World, group: Group): (r: int)
    ensures -1 <= r < |w|
  {
    var b := ById(w, |w|, group.id);
    if b >= 0 then b else ByPath(w, |w|, group.path)
  }

  function GroupJob(w: World, group: Group, view: View): seq<Job> {
    var at := Find(w, group);
    if at >= 0 then [UpdateJob(at, group)]
    else if view.devicesOf(group.path) == [] then []
    else [CreateJob(group)]
  }

  function GroupJobs(w: World, groups: seq<Group>, view: View): seq<Job> {
    if groups == [] then []
    else GroupJobs(w, groups[..|groups| - 1], view) + GroupJob(w, groups[|groups| - 1], view)
  }

  predicate KnownId(groups: seq<Group>, id: string) { exists i :: 0 <= i < |groups| && groups[i].id == id }
  predicate KnownPath(groups: seq<Group>, path: string) { exists i :: 0 <= i < |groups| && groups[i].path == path }

  /** The graph is a default graph the service sees, and its group is gone. */
  predicate Orphaned(w: World, i: nat, groups: seq<Group>)
    requires i < |w|
  {
    var id, path := GroupIdOf(w[i].graph), GroupPathOf(w[i].graph);
    if id != "" then ById(w, |w|, id) == i && !KnownId(groups, id)
    else ByPath(w, |w|, path) == i && !KnownPath(groups, path)
  }

  function OrphanJobs(w: World, n: nat, groups: seq<Group>): seq<Job>
    requires n <= |w|
  {
    if n == 0 then []
    else
      OrphanJobs(w, n - 1, groups)
      + if Orphaned(w, n - 1, groups) then [OrphanJob(n - 1, GroupPathOf(w[n - 1].graph))] else []
  }

  /** No group at all means no orphaning: an empty directory is not every group having vanished. */
  function Jobs(w: World, view: View): seq<Job> {
    GroupJobs(w, view.groups, view) + if view.groups == [] then [] else OrphanJobs(w, |w|, view.groups)
  }

  lemma {:induction false} GroupJobsAre(w: World, groups: seq<Group>, view: View)
    ensures forall j :: j in GroupJobs(w, groups, view) ==>
                          exists i :: 0 <= i < |groups| && j in GroupJob(w, groups[i], view)
    ensures forall i :: 0 <= i < |groups| ==> forall j :: j in GroupJob(w, groups[i], view) ==>
            j in GroupJobs(w, groups, view)
  {
    hide GroupJob;
    if groups != [] {
      var n := |groups| - 1;
      GroupJobsAre(w, groups[..n], view);
      forall j | j in GroupJobs(w, groups, view)
        ensures exists i :: 0 <= i < |groups| && j in GroupJob(w, groups[i], view) {
        if j in GroupJobs(w, groups[..n], view) {
          var i :| 0 <= i < n && j in GroupJob(w, groups[..n][i], view);
          assert groups[..n][i] == groups[i];
        } else {
          assert j in GroupJob(w, groups[n], view);
        }
      }
      forall i | 0 <= i < n
        ensures forall j :: j in GroupJob(w, groups[i], view) ==> j in GroupJobs(w, groups[..n], view) {
        assert groups[..n][i] == groups[i];
      }
    }
  }

  lemma {:induction false} OrphanJobsAre(w: World, n: nat, groups: seq<Group>)
    requires n <= |w|
    ensures forall j :: j in OrphanJobs(w, n, groups) <==>
                          j.OrphanJob? && j.at < n && Orphaned(w, j.at, groups) && j.path == GroupPathOf(w[j.at].graph)
  {
    hide Orphaned;
    if n > 0 {
      OrphanJobsAre(w, n - 1, groups);
    }
  }

  lemma JobsInRange(w: World, view: View)
    ensures InRange(Jobs(w, view), |w|)
  {
    hide Find, Orphaned;
    GroupJobsAre(w, view.groups, view);
    OrphanJobsAre(w, |w|, view.groups);
    forall i | 0 <= i < |Jobs(w, view)| && !Jobs(w, view)[i].CreateJob? ensures Jobs(w, view)[i].at < |w| {
      assert Jobs(w, view)[i] in Jobs(w, view);
    }
  }

  function Full(w: World, view: View, cfg: Config): Result
    requires cfg.opts.FreshIds()
  {
    JobsInRange(w, view);
    RunAll(w, Jobs(w, view), view, cfg)
  }

  // ---- no two jobs meet on a graph ----

  ghost predicate DistinctGroups(groups: seq<Group>) {
    && (forall i, j :: 0 <= i < j < |groups| ==> groups[i].id != groups[j].id && groups[i].path != groups[j].path)
    && (forall i :: 0 <= i < |groups| ==> groups[i].id != "" && groups[i].path != "")
  }

  ghost predicate Apart(jobs: seq<Job>) {
    forall i, j :: 0 <= i < j < |jobs| ==>
      if jobs[i].CreateJob? || jobs[j].CreateJob? then jobs[i] != jobs[j] else jobs[i].at != jobs[j].at
  }

  lemma FindTells(w: World, group: Group)
    requires Find(w, group) >= 0 && group.id != "" && group.path != ""
    ensures var g := w[Find(w, group)].graph;
            GroupIdOf(g) == group.id || (GroupIdOf(g) == "" && GroupPathOf(g) == group.path)
  {}

  lemma {:induction false} GroupJobsApart(w: World, groups: seq<Group>, view: View)
    requires DistinctGroups(groups)
    ensures Apart(GroupJobs(w, groups, view))
    ensures forall j :: j in GroupJobs(w, groups, view) ==>
            !j.OrphanJob? && j.group in groups && (j.UpdateJob? ==> j.at == Find(w, j.group))
  {
    hide Find, ById, ByPath, KeepLower;
    if groups != [] {
      var n := |groups| - 1;
      GroupJobsApart(w, groups[..n], view);
      var before, last := GroupJobs(w, groups[..n], view), GroupJob(w, groups[n], view);
      forall i | 0 <= i < |before| && last != []
        ensures if before[i].CreateJob? || last[0].CreateJob? then before[i] != last[0] else before[i].at != last[0].at
      {
        assert before[i] in before;
        var k :| 0 <= k < n && groups[..n][k] == before[i].group;
        assert groups[k] == before[i].group;
        if before[i].UpdateJob? && last[0].UpdateJob? {
          FindTells(w, groups[k]);
          FindTells(w, groups[n]);
        }
      }
    }
  }

  lemma {:induction false} OrphanJobsApart(w: World, n: nat, groups: seq<Group>)
    requires n <= |w|
    ensures Apart(OrphanJobs(w, n, groups))
  {
    hide Orphaned;
    if n > 0 {
      OrphanJobsApart(w, n - 1, groups);
      OrphanJobsAre(w, n - 1, groups);
      var before := OrphanJobs(w, n - 1, groups);
      forall i | 0 <= i < |before| ensures before[i].OrphanJob? && before[i].at < n - 1 {
        assert before[i] in before;
      }
    }
  }

  lemma OrphansAreNobodys(w: World, i: nat, groups: seq<Group>, group: Group)
    requires i < |w| && Orphaned(w, i, groups) && group in groups && group.id != "" && group.path != ""
    ensures Find(w, group) != i
  {
    hide ById, ByPath;
    KnownGroup(groups, group);
    if Find(w, group) >= 0 {
      FindTells(w, group);
    }
  }

  lemma KnownGroup(groups: seq<Group>, group: Group)
    requires group in groups
    ensures KnownId(groups, group.id) && KnownPath(groups, group.path)
  {
    var k :| 0 <= k < |groups| && groups[k] == group;
  }

  /** Every job of a pass works on a graph of its own, so each sees it as the pass found it. */
  lemma JobsApart(w: World, view: View)
    requires DistinctGroups(view.groups)
    ensures Apart(Jobs(w, view))
  {
    hide Find, Orphaned, GroupJobs, OrphanJobs;
    GroupJobsApart(w, view.groups, view);
    if view.groups != [] {
      OrphanJobsApart(w, |w|, view.groups);
      OrphanJobsAre(w, |w|, view.groups);
      var a, b := GroupJobs(w, view.groups, view), OrphanJobs(w, |w|, view.groups);
      forall i, j | 0 <= i < |a| && 0 <= j < |b|
        ensures b[j].OrphanJob? && !a[i].OrphanJob? && (a[i].UpdateJob? ==> a[i].at != b[j].at)
      {
        assert a[i] in a && b[j] in b;
        if a[i].UpdateJob? {
          OrphansAreNobodys(w, b[j].at, view.groups, a[i].group);
        }
      }
    }
  }
}
