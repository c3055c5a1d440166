/** What a full pass leaves behind, and that the pass after it finds nothing to do. */
module Rest {
  import opened Model
  import opened Tree
  import opened Detaching
  import opened Updating
  import opened Pass
  import opened Convergence

  /** At most one graph claims a group id, and at most one id-less graph claims a path. */
  ghost predicate UniqueClaims(w: World) {
    forall i, j :: 0 <= i < j < |w| ==>
      && (GroupIdOf(w[i].graph) != "" ==> GroupIdOf(w[i].graph) != GroupIdOf(w[j].graph))
      && (forall path :: !(ClaimsPath(w[i].graph, path) && ClaimsPath(w[j].graph, path)))
  }

  predicate Seen(g: Graph) { GroupIdOf(g) != "" || GroupPathOf(g) != "" }

  ghost predicate Ready(w: World, view: View, cfg: Config) {
    && cfg.opts.FreshIds() && cfg.platform.Sound() && cfg.writable && cfg.serviceUser != ""
    && DistinctGroups(view.groups)
    && (forall k :: 0 <= k < |view.groups| ==> Proper(view.devicesOf(view.groups[k].path)))
    && UniqueClaims(w)
    && (forall i :: 0 <= i < |w| && Seen(w[i].graph) ==> Good(w[i]))
    && (forall k :: 0 <= k < |view.groups| ==>
          var at := Find(w, view.groups[k]);
          at >= 0 ==> OwnNodes(w[at].graph.nodes, view.devicesOf(view.groups[k].path)))
  }

  /** No removal is refused during the pass. */
  ghost predicate NoRefusal(w: World, view: View, cfg: Config) {
    forall k :: 0 <= k < |view.groups| ==>
      var group := view.groups[k]; var at := Find(w, group);
      at >= 0 ==> NoneKept(w[at].graph, Departed(w[at].graph, group, view.devicesOf(group.path)), cfg.platform)
  }

  /** No group's graph records another path than the group has now. */
  ghost predicate NoneMoved(w: World, view: View) {
    forall k :: 0 <= k < |view.groups| ==>
      var at := Find(w, view.groups[k]);
      at >= 0 ==> GroupPathOf(w[at].graph) in ["", view.groups[k].path]
  }

  // ---- which job meets which graph ----

  lemma {:induction false} JobAtIs(jobs: seq<Job>, j: Job)
    requires Apart(jobs) && j in jobs && !j.CreateJob?
    ensures JobAt(jobs, j.at) == Some(j)
  {
    if jobs[0] != j {
      var k :| 0 <= k < |jobs| && jobs[k] == j;
      assert jobs[1..][k - 1] == j;
      JobAtIs(jobs[1..], j);
    }
  }

  lemma {:induction false} JobAtIn(jobs: seq<Job>, i: nat)
    ensures JobAt(jobs, i).Some? ==>
            JobAt(jobs, i).value in jobs && !JobAt(jobs, i).value.CreateJob? && JobAt(jobs, i).value.at == i
  {
    if jobs != [] { JobAtIn(jobs[1..], i); }
  }

  lemma {:induction false} CreatesAre(jobs: seq<Job>)
    requires Apart(jobs)
    ensures forall g :: g in Creates(jobs) <==> CreateJob(g) in jobs
    ensures forall i, j :: 0 <= i < j < |Creates(jobs)| ==> Creates(jobs)[i] != Creates(jobs)[j]
  {
    if jobs != [] {
      CreatesAre(jobs[1..]);
      assert jobs == [jobs[0]] + jobs[1..];
      if jobs[0].CreateJob? {
        assert jobs[0] !in jobs[1..] by {
          assert forall k :: 0 <= k < |jobs| - 1 ==> jobs[1..][k] == jobs[k + 1];
        }
      }
    }
  }

  /** The jobs of a pass, read off the graphs and groups. */
  lemma JobsTell(w: World, view: View)
    requires DistinctGroups(view.groups)
    ensures var jobs := Jobs(w, view);
            && Apart(jobs) && InRange(jobs, |w|)
            && (forall j :: j in jobs && !j.OrphanJob? ==> j.group in view.groups)
            && (forall j :: j in jobs && j.UpdateJob? ==> Find(w, j.group) == j.at)
            && (forall j :: j in jobs && j.CreateJob? ==> Find(w, j.group) < 0)
            && (forall j :: j in jobs && j.OrphanJob? ==> j.at < |w| && Orphaned(w, j.at, view.groups))
            && (forall g :: g in view.groups && Find(w, g) >= 0 ==> UpdateJob(Find(w, g), g) in jobs)
            && (forall g :: g in view.groups && Find(w, g) < 0 && view.devicesOf(g.path) != [] ==> CreateJob(g) in jobs)
            && (forall i :: 0 <= i < |w| && view.groups != [] && Orphaned(w, i, view.groups) ==>
                  OrphanJob(i, GroupPathOf(w[i].graph)) in jobs)
  {
    hide Find, Orphaned;
    JobsApart(w, view);
    JobsInRange(w, view);
    GroupJobsAre(w, view.groups, view);
    GroupJobsApart(w, view.groups, view);
    OrphanJobsAre(w, |w|, view.groups);
    forall g | g in view.groups
      ensures forall j :: j in GroupJob(w, g, view) ==> j in GroupJobs(w, view.groups, view)
    {
      var k :| 0 <= k < |view.groups| && view.groups[k] == g;
    }
    CreatesHaveNone(w, view.groups, view);
  }

  lemma CreatesHaveNone(w: World, groups: seq<Group>, view: View)
    ensures forall j :: j in GroupJobs(w, groups, view) && j.CreateJob? ==> Find(w, j.group) < 0
  {
    hide Find;
    GroupJobsAre(w, groups, view);
    forall j | j in GroupJobs(w, groups, view) && j.CreateJob? ensures Find(w, j.group) < 0 {
      var i :| 0 <= i < |groups| && j in GroupJob(w, groups[i], view);
    }
  }

  lemma ByIdIs(w: World, i: nat)
    requires UniqueClaims(w) && i < |w| && GroupIdOf(w[i].graph) != ""
    ensures ById(w, |w|, GroupIdOf(w[i].graph)) == i
  {
    hide KeepLower;
    var b := ById(w, |w|, GroupIdOf(w[i].graph));
  }

  lemma ByPathIs(w: World, i: nat, path: string)
    requires UniqueClaims(w) && i < |w| && ClaimsPath(w[i].graph, path)
    ensures ByPath(w, |w|, path) == i
  {
    hide KeepLower;
    var b := ByPath(w, |w|, path);
    assert ClaimsPath(w[b].graph, path);
  }

  lemma SameGroup(groups: seq<Group>, a: Group, b: Group)
    requires DistinctGroups(groups) && a in groups && b in groups && (a.id == b.id || a.path == b.path)
    ensures a == b
  {}

  // ---- what the pass leaves at each position ----

  lemma Targets(w: World, view: View, cfg: Config)
    requires Ready(w, view, cfg) && NoRefusal(w, view, cfg)
    ensures var r, jobs := Full(w, view, cfg), Jobs(w, view);
            && !r.failed && |r.world| == |w| + |Creates(jobs)|
            && (forall i :: 0 <= i < |w| ==> r.world[i] == After(w[i], i, JobAt(jobs, i), view, cfg).entry)
            && (forall m :: 0 <= m < |Creates(jobs)| ==>
               r.world[|w| + m] == CreateStep(|w| + m, Creates(jobs)[m], view, cfg).entry)
  {
    hide Find, Orphaned, After, RunAll, CreateStep, Jobs, Good, OwnNodes, NoneKept, Apart, UniqueClaims;
    var jobs := Jobs(w, view);
    JobsTell(w, view);
    assert Creatable(jobs, view, cfg) by {
      forall i | 0 <= i < |jobs| && jobs[i].CreateJob? ensures Proper(view.devicesOf(jobs[i].group.path)) {
        assert jobs[i] in jobs;
        var k :| 0 <= k < |view.groups| && view.groups[k] == jobs[i].group;
      }
    }
    RunTouches(w, jobs, |w|, view, cfg);
    forall i | 0 <= i < |w| ensures !After(w[i], i, JobAt(jobs, i), view, cfg).failed {
      Landed(w, i, view, cfg);
    }
    RunSucceeds(w, jobs, |w|, view, cfg);
  }

  /** What became of a graph. */
  ghost predicate Landing(w: World, i: nat, job: Option<Job>, d: Done, view: View)
    requires i < |w|
  {
    && !d.failed
    && match job
       case Some(UpdateJob(at, group)) =>
         && at == i && group in view.groups && Find(w, group) == i
         && Good(d.entry) && OwnNodes(d.entry.graph.nodes, view.devicesOf(group.path))
         && GroupIdOf(d.entry.graph) == group.id && GroupPathOf(d.entry.graph) == group.path
         && (GroupPathOf(w[i].graph) in ["", group.path] ==> Settled(d.entry, group, view.devicesOf(group.path)))
       case Some(OrphanJob(_, _)) => GroupIdOf(d.entry.graph) == "" && GroupPathOf(d.entry.graph) == ""
       case _ => d.entry == w[i] && (view.groups != [] ==> GroupIdOf(w[i].graph) == "" && !Orphaned(w, i, view.groups))
  }

  lemma UpdateLanding(w: World, i: nat, group: Group, view: View, cfg: Config)
    requires Ready(w, view, cfg) && NoRefusal(w, view, cfg) && i < |w| && group in view.groups && Find(w, group) == i
    ensures Landing(w, i, Some(UpdateJob(i, group)), UpdateStep(w[i], i, group, view, cfg), view)
  {
    hide Find, UpdateStep, Settled, OwnNodes, Revisable, Orphaned, GroupIdOf, GroupPathOf, Valid, NodesNamed;
    var k :| 0 <= k < |view.groups| && view.groups[k] == group;
    FoundIsRevisable(w, k, view, cfg);
    ReadyConfig(w, view, cfg);
    hide Ready, NoRefusal;
    UpdateLands(w[i], i, group, view, cfg);
  }

  lemma OrphanLanding(w: World, i: nat, path: string, view: View, cfg: Config)
    requires Ready(w, view, cfg) && i < |w| && Orphaned(w, i, view.groups)
    ensures Landing(w, i, Some(OrphanJob(i, path)), OrphanStep(w[i], i, path, cfg), view)
  {
    hide OrphanStep, Find, Orphaned, GroupIdOf, GroupPathOf, Good, OwnNodes;
    OrphanIsGood(w, i, view, cfg);
    ReadyConfig(w, view, cfg);
    hide Ready;
    OrphanLands(w[i], i, path, cfg);
  }

  lemma ReadyConfig(w: World, view: View, cfg: Config)
    requires Ready(w, view, cfg)
    ensures cfg.opts.FreshIds() && cfg.platform.Sound() && cfg.writable && cfg.serviceUser != ""
    ensures DistinctGroups(view.groups) && UniqueClaims(w)
    ensures forall g :: g in view.groups ==> Proper(view.devicesOf(g.path))
  {
    hide Platform.Sound, UniqueClaims, Proper, Good, OwnNodes, Find;
  }

  lemma Landed(w: World, i: nat, view: View, cfg: Config)
    requires Ready(w, view, cfg) && NoRefusal(w, view, cfg) && i < |w|
    ensures var job := JobAt(Jobs(w, view), i); Landing(w, i, job, After(w[i], i, job, view, cfg), view)
  {
    hide Find, UpdateStep, OrphanStep, JobAt, Jobs, Platform.Sound, UniqueClaims, Ready, NoRefusal, Orphaned, Good,
      OwnNodes, Settled;
    ReadyConfig(w, view, cfg);
    var jobs := Jobs(w, view);
    JobsTell(w, view);
    JobAtIn(jobs, i);
    match JobAt(jobs, i) {
      case Some(UpdateJob(at, group)) =>
        UpdateLanding(w, i, group, view, cfg);
      case Some(OrphanJob(at, path)) =>
        OrphanLanding(w, i, path, view, cfg);
      case _ =>
        if view.groups != [] { Untouched(w, i, view); }
    }
  }

  lemma OrphanIsGood(w: World, i: nat, view: View, cfg: Config)
    requires Ready(w, view, cfg) && i < |w| && Orphaned(w, i, view.groups)
    ensures Good(w[i])
  {
    hide Good;
    assert Seen(w[i].graph);
  }

  lemma FoundIsRevisable(w: World, k: nat, view: View, cfg: Config)
    requires Ready(w, view, cfg) && NoRefusal(w, view, cfg) && k < |view.groups| && Find(w, view.groups[k]) >= 0
    ensures var at, group := Find(w, view.groups[k]), view.groups[k];
            Good(w[at]) && Revisable(w[at].graph, group, view.devicesOf(group.path), cfg.platform)
  {
    hide Valid, OwnNodes, NoneKept, UniqueClaims, ById, ByPath;
    FindTells(w, view.groups[k]);
    assert Seen(w[Find(w, view.groups[k])].graph);
  }

  lemma Untouched(w: World, i: nat, view: View)
    requires DistinctGroups(view.groups) && UniqueClaims(w) && i < |w| && JobAt(Jobs(w, view), i).None? &&
             view.groups != []
    ensures GroupIdOf(w[i].graph) == "" && !Orphaned(w, i, view.groups)
  {
    hide JobAt, Jobs, ById, ByPath;
    var jobs, id := Jobs(w, view), GroupIdOf(w[i].graph);
    JobsTell(w, view);
    if Orphaned(w, i, view.groups) {
      JobAtIs(jobs, OrphanJob(i, GroupPathOf(w[i].graph)));
    }
    if id != "" && KnownId(view.groups, id) {
      ByIdIs(w, i);
      var k :| 0 <= k < |view.groups| && view.groups[k].id == id;
      assert view.groups[k] in view.groups && Find(w, view.groups[k]) == i;
      JobAtIs(jobs, UpdateJob(i, view.groups[k]));
    }
    if id != "" && !KnownId(view.groups, id) {
      ByIdIs(w, i);
    }
  }

  // ---- the world after a pass ----

  lemma CreatedEntry(w: World, m: nat, view: View, cfg: Config) returns (g: Group, e: Entry)
    requires Ready(w, view, cfg) && NoRefusal(w, view, cfg) && m < |Creates(Jobs(w, view))|
    ensures |w| + m < |Full(w, view, cfg).world| && e == Full(w, view, cfg).world[|w| + m]
    ensures && g == Creates(Jobs(w, view))[m] && g in view.groups && Find(w, g) < 0
            && Good(e) && OwnNodes(e.graph.nodes, view.devicesOf(g.path)) && Settled(e, g, view.devicesOf(g.path))
            && GroupIdOf(e.graph) == g.id && GroupPathOf(e.graph) == g.path
  {
    hide Find, Orphaned, CreateStep, Jobs, Ready, NoRefusal, Good, OwnNodes, Settled, Full, After, InStep, Creates,
      Proper, Platform.Sound, Generated, UniqueClaims;
    ReadyConfig(w, view, cfg);
    Targets(w, view, cfg);
    JobsTell(w, view);
    CreatesAre(Jobs(w, view));
    g := Creates(Jobs(w, view))[m];
    assert CreateJob(g) in Jobs(w, view);
    CreateLands(|w| + m, g, view, cfg);
    e := Full(w, view, cfg).world[|w| + m];
    SettledClaims(e, g, view.devicesOf(g.path));
  }

  lemma SettledClaims(e: Entry, group: Group, devices: seq<Device>)
    requires Settled(e, group, devices)
    ensures GroupIdOf(e.graph) == group.id && GroupPathOf(e.graph) == group.path
  {}

  /** Every graph that carries a group id after the pass carries its own group's. */
  lemma Owner(w: World, i: nat, view: View, cfg: Config) returns (g: Group)
    requires Ready(w, view, cfg) && NoRefusal(w, view, cfg) && view.groups != []
    requires i < |Full(w, view, cfg).world| && GroupIdOf(Full(w, view, cfg).world[i].graph) != ""
    ensures var e := Full(w, view, cfg).world[i];
            && g in view.groups && GroupIdOf(e.graph) == g.id && GroupPathOf(e.graph) == g.path
            && Good(e) && OwnNodes(e.graph.nodes, view.devicesOf(g.path))
            && (if i < |w| then Find(w, g) == i &&
               (GroupPathOf(w[i].graph) in ["", g.path] ==> Settled(e, g, view.devicesOf(g.path)))
                else Find(w, g) < 0 && i - |w| < |Creates(Jobs(w, view))| && Creates(Jobs(w, view))[i - |w|] == g
                     && Settled(e, g, view.devicesOf(g.path)))
  {
    hide Find, Orphaned, CreateStep, Jobs, Ready, NoRefusal, Good, OwnNodes, Settled, Full, After, JobAt,
      GroupIdOf, GroupPathOf;
    ReadyConfig(w, view, cfg);
    Targets(w, view, cfg);
    if i < |w| {
      Landed(w, i, view, cfg);
      g := JobAt(Jobs(w, view), i).value.group;
    } else {
      var created;
      g, created := CreatedEntry(w, i - |w|, view, cfg);
    }
  }

  /** A graph that claims a path without an id was not touched. */
  lemma ClaimsWereThere(w: World, i: nat, path: string, view: View, cfg: Config)
    requires Ready(w, view, cfg) && NoRefusal(w, view, cfg) && view.groups != []
    requires i < |Full(w, view, cfg).world| && ClaimsPath(Full(w, view, cfg).world[i].graph, path)
    ensures i < |w| && Full(w, view, cfg).world[i] == w[i] && !Orphaned(w, i, view.groups)
  {
    hide Find, Orphaned, CreateStep, Jobs, Ready, NoRefusal, Good, OwnNodes, Settled, Full, After, JobAt,
      GroupIdOf, GroupPathOf;
    ReadyConfig(w, view, cfg);
    Targets(w, view, cfg);
    if i < |w| {
      Landed(w, i, view, cfg);
    } else {
      var g, _ := CreatedEntry(w, i - |w|, view, cfg);
      GroupsNamed(view.groups, g);
    }
    if i < |w| && JobAt(Jobs(w, view), i).Some? && JobAt(Jobs(w, view), i).value.UpdateJob? {
      GroupsNamed(view.groups, JobAt(Jobs(w, view), i).value.group);
    }
    JobAtIn(Jobs(w, view), i);
  }

  lemma GroupsNamed(groups: seq<Group>, g: Group)
    requires DistinctGroups(groups) && g in groups
    ensures g.id != "" && g.path != ""
  {}

  lemma ClaimsStayUnique(w: World, view: View, cfg: Config)
    requires Ready(w, view, cfg) && NoRefusal(w, view, cfg) && view.groups != []
    ensures UniqueClaims(Full(w, view, cfg).world)
  {
    hide Find, Orphaned, Jobs, Ready, NoRefusal, Good, OwnNodes, Settled, Full, GroupIdOf, GroupPathOf,
      ClaimsPath;
    ReadyConfig(w, view, cfg);
    var after := Full(w, view, cfg).world;
    JobsTell(w, view);
    CreatesAre(Jobs(w, view));
    forall i, j | 0 <= i < j < |after|
      ensures GroupIdOf(after[i].graph) != "" ==> GroupIdOf(after[i].graph) != GroupIdOf(after[j].graph)
      ensures forall path :: !(ClaimsPath(after[i].graph, path) && ClaimsPath(after[j].graph, path))
    {
      if GroupIdOf(after[i].graph) != "" && GroupIdOf(after[j].graph) != "" {
        var g := Owner(w, i, view, cfg);
        var h := Owner(w, j, view, cfg);
        if g.id == h.id { SameGroup(view.groups, g, h); }
      }
      forall path | ClaimsPath(after[i].graph, path) ensures !ClaimsPath(after[j].graph, path) {
        if ClaimsPath(after[j].graph, path) {
          ClaimsWereThere(w, i, path, view, cfg);
          ClaimsWereThere(w, j, path, view, cfg);
        }
      }
    }
  }

  /** Each group finds, after the pass, the graph the pass worked on for it. */
  lemma FoundAgain(w: World, g: Group, view: View, cfg: Config)
    requires Ready(w, view, cfg) && NoRefusal(w, view, cfg) && g in view.groups
    ensures var after := Full(w, view, cfg).world; var at, devices := Find(after, g), view.devicesOf(g.path);
            if at < 0 then devices == [] && Find(w, g) < 0
            else
              && GroupIdOf(after[at].graph) == g.id && GroupPathOf(after[at].graph) == g.path
              && Good(after[at]) && OwnNodes(after[at].graph.nodes, devices)
              && ((Find(w, g) >= 0 ==> GroupPathOf(w[Find(w, g)].graph) in ["", g.path]) ==>
                 Settled(after[at], g, devices))
  {
    hide Orphaned, Jobs, Ready, NoRefusal, Good, OwnNodes, Settled, Full, After, CreateStep, JobAt, ById, ByPath,
      ClaimsPath,
      GroupIdOf, GroupPathOf, Creates, UniqueClaims;
    ReadyConfig(w, view, cfg);
    var after, jobs := Full(w, view, cfg).world, Jobs(w, view);
    GroupsNamed(view.groups, g);
    JobsTell(w, view);
    Targets(w, view, cfg);
    ClaimsStayUnique(w, view, cfg);
    if Find(w, g) >= 0 {
      var i := Find(w, g);
      JobAtIs(jobs, UpdateJob(i, g));
      Landed(w, i, view, cfg);
      ByIdIs(after, i);
    } else if view.devicesOf(g.path) != [] {
      CreatesAre(jobs);
      var m :| 0 <= m < |Creates(jobs)| && Creates(jobs)[m] == g;
      var h, _ := CreatedEntry(w, m, view, cfg);
      ByIdIs(after, |w| + m);
    } else {
      StillNone(w, g, view, cfg);
    }
  }

  lemma StillNone(w: World, g: Group, view: View, cfg: Config)
    requires Ready(w, view, cfg) && NoRefusal(w, view, cfg) && g in view.groups
    requires Find(w, g) < 0 && view.devicesOf(g.path) == []
    ensures Find(Full(w, view, cfg).world, g) < 0
  {
    hide Orphaned, Jobs, Ready, NoRefusal, Good, OwnNodes, Settled, Full, GroupPathOf;
    ReadyConfig(w, view, cfg);
    var after, jobs := Full(w, view, cfg).world, Jobs(w, view);
    GroupsNamed(view.groups, g);
    JobsTell(w, view);
    CreatesAre(jobs);
    var b, p := ById(after, |after|, g.id), ByPath(after, |after|, g.path);
    if b >= 0 {
      var h := Owner(w, b, view, cfg);
      SameGroup(view.groups, g, h);
      NotCreated(w, g, view);
    }
    forall i | 0 <= i < |after| && ClaimsPath(after[i].graph, g.path)
      ensures i < |w| && ClaimsPath(w[i].graph, g.path) {
      ClaimsWereThere(w, i, g.path, view, cfg);
    }
  }

  lemma NotCreated(w: World, g: Group, view: View)
    requires DistinctGroups(view.groups) && view.devicesOf(g.path) == []
    ensures CreateJob(g) !in Jobs(w, view)
  {
    hide Find, Orphaned;
    GroupJobsAre(w, view.groups, view);
    OrphanJobsAre(w, |w|, view.groups);
    assert forall i :: 0 <= i < |view.groups| ==> CreateJob(g) !in GroupJob(w, view.groups[i], view);
  }

  lemma NoOrphansLeft(w: World, i: nat, view: View, cfg: Config)
    requires Ready(w, view, cfg) && NoRefusal(w, view, cfg) && view.groups != [] && i < |Full(w, view, cfg).world|
    ensures !Orphaned(Full(w, view, cfg).world, i, view.groups)
  {
    hide Jobs, Ready, NoRefusal, Good, OwnNodes, Settled, Full, Find, ById;
    ReadyConfig(w, view, cfg);
    var after := Full(w, view, cfg).world;
    if GroupIdOf(after[i].graph) != "" {
      var g := Owner(w, i, view, cfg);
      KnownGroup(view.groups, g);
    } else if GroupPathOf(after[i].graph) != "" {
      var path := GroupPathOf(after[i].graph);
      ClaimsWereThere(w, i, path, view, cfg);
      ByPathIs(w, i, path);
    }
  }

  /** Convergence, in general: a pass over a ready world leaves a ready world, with nobody moved. */
  lemma PassKeepsReady(w: World, view: View, cfg: Config)
    requires Ready(w, view, cfg) && NoRefusal(w, view, cfg)
    ensures var r := Full(w, view, cfg);
            && !r.failed
            && (view.groups == [] ==> r.world == w)
            && Ready(r.world, view, cfg) && NoneMoved(r.world, view)
            && (NoneMoved(w, view) && view.groups != [] ==> Aligned(r.world, view))
  {
    hide Jobs, Full, Find, Orphaned, Good, OwnNodes, Settled, UniqueClaims, Platform.Sound, After, CreateStep,
      Proper, GroupIdOf, GroupPathOf;
    var after := Full(w, view, cfg).world;
    Targets(w, view, cfg);
    if view.groups == [] {
      NoGroupsNoPass(w, view, cfg);
    } else {
      ClaimsStayUnique(w, view, cfg);
      forall k | 0 <= k < |view.groups|
        ensures var at, g := Find(after, view.groups[k]), view.groups[k];
                && (at >= 0 ==>
                   OwnNodes(after[at].graph.nodes, view.devicesOf(g.path)) &&
                   GroupPathOf(after[at].graph) in ["", g.path])
                && (NoneMoved(w, view) ==> AlignedGroup(after, g, view))
      {
        var g := view.groups[k];
        FoundAgain(w, g, view, cfg);
        ProperIsDistinct(view.devicesOf(g.path));
      }
      forall i | 0 <= i < |after| && Seen(after[i].graph) ensures Good(after[i]) { SeenIsGood(w, i, view, cfg); }
      forall i | 0 <= i < |after| ensures !Orphaned(after, i, view.groups) { NoOrphansLeft(w, i, view, cfg); }
    }
  }

  lemma ProperIsDistinct(ds: seq<Device>)
    requires Proper(ds)
    ensures DistinctDevices(ds)
  {}

  lemma NoGroupsNoPass(w: World, view: View, cfg: Config)
    requires cfg.opts.FreshIds() && view.groups == []
    ensures Full(w, view, cfg) == Result(w, [], [], false)
  {}

  lemma SeenIsGood(w: World, i: nat, view: View, cfg: Config)
    requires Ready(w, view, cfg) && NoRefusal(w, view, cfg) && view.groups != [] && i < |Full(w, view, cfg).world|
    ensures var e := Full(w, view, cfg).world[i]; Seen(e.graph) ==> Good(e)
  {
    hide Jobs, Full, Find, Orphaned, Good, OwnNodes, Settled, UniqueClaims, Platform.Sound, After, CreateStep,
      Proper, GroupIdOf, GroupPathOf;
    var e := Full(w, view, cfg).world[i];
    if GroupIdOf(e.graph) != "" {
      var g := Owner(w, i, view, cfg);
    } else if GroupPathOf(e.graph) != "" {
      ClaimsWereThere(w, i, GroupPathOf(e.graph), view, cfg);
    }
  }

  /**
   * From any ready world: a pass that finds no group moved is followed by a pass that makes no
   * write and plans no change.
   */
  lemma SecondPassSilent(w: World, view: View, cfg: Config)
    requires Ready(w, view, cfg) && NoRefusal(w, view, cfg) && NoneMoved(w, view)
    ensures var r := Full(w, view, cfg); Full(r.world, view, cfg) == Result(r.world, [], [], false)
  {
    hide Ready, NoRefusal, NoneMoved, Full, Aligned, Platform.Sound;
    ReadyConfig(w, view, cfg);
    PassKeepsReady(w, view, cfg);
    AlignedIsSilent(Full(w, view, cfg).world, view, cfg);
  }

  /** Renames included, the third pass writes nothing. */
  lemma ThirdPassSilent(w: World, view: View, cfg: Config)
    requires cfg.opts.FreshIds()
    requires Ready(w, view, cfg) && NoRefusal(w, view, cfg) && NoRefusal(Full(w, view, cfg).world, view, cfg)
    ensures var r := Full(Full(w, view, cfg).world, view, cfg);
            !r.failed && Full(r.world, view, cfg) == Result(r.world, [], [], false)
  {
    hide Ready, NoRefusal, NoneMoved, Full, Platform.Sound, Aligned;
    PassKeepsReady(w, view, cfg);
    PassKeepsReady(Full(w, view, cfg).world, view, cfg);
    SecondPassSilent(Full(w, view, cfg).world, view, cfg);
  }
}
