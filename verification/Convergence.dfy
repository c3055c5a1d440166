/** Passes over an unchanging world come to rest. */
module Convergence {
  import opened Model
  import opened Tree
  import opened Drawing
  import opened Attaching
  import opened Detaching
  import opened Sharing
  import opened Updating
  import opened Pass

  // ---- one entry ----

  ghost predicate Good(e: Entry) {
    e.perms.Some? && Valid(e.graph) && NodesNamed(e.graph.nodes)
  }

  /** The graph says what the world says and the group's share is in place. */
  ghost predicate Settled(e: Entry, group: Group, devices: seq<Device>) {
    && InStep(e.graph, group, devices)
    && e.perms.Some? && AlreadyAgrees(e.perms.value, group.path, Some(SHARED))
  }

  lemma SettledIsQuiet(e: Entry, at: nat, group: Group, view: View, cfg: Config)
    requires cfg.opts.FreshIds() && DistinctDevices(view.devicesOf(group.path))
    requires Settled(e, group, view.devicesOf(group.path))
    ensures UpdateStep(e, at, group, view, cfg) == Done(e, [], [], false)
  {
    hide Revise;
    InStepStays(e.graph, group, view.devicesOf(group.path), view.readings, cfg.opts, cfg.platform);
    InStepPath(e.graph, group, view.devicesOf(group.path));
  }

  lemma InStepPath(g: Graph, group: Group, devices: seq<Device>)
    requires InStep(g, group, devices)
    ensures GroupIdOf(g) == group.id && GroupPathOf(g) == group.path
  {}

  /** Sharing with the present path and withdrawing the old one leaves the present share in place. */
  lemma ReshareSettles(e: Entry, at: nat, group: Group, previous: string, cfg: Config)
    requires e.perms.Some? && cfg.writable
    ensures var d := Reshare(e, at, group, previous, cfg);
            && !d.failed && d.entry.graph == e.graph && d.entry.perms.Some?
            && AlreadyAgrees(d.entry.perms.value, group.path, Some(SHARED))
  {
    PermissionWrite(e.perms, group.path, Some(SHARED), cfg.serviceUser);
    var shared := Permit(e, at, group.path, Some(SHARED), cfg);
    PermissionWrite(shared.entry.perms, previous, None, cfg.serviceUser);
  }

  /** The share follows the group: its path has it, the path it came from no longer, and nobody else's changed. */
  lemma ShareFollowsTheGroup(e: Entry, at: nat, group: Group, previous: string, cfg: Config)
    requires e.perms.Some? && cfg.writable
    ensures var d := Reshare(e, at, group, previous, cfg);
            && d.entry.perms.Some?
            && var before, after := e.perms.value.groups, d.entry.perms.value.groups;
               && group.path in after && after[group.path] == SHARED
               && (previous != "" && previous != group.path ==> previous !in after)
               && forall p :: p != group.path && p != previous ==>
                    (p in after <==> p in before) && (p in after ==> after[p] == before[p])
  {
    PermissionWrite(e.perms, group.path, Some(SHARED), cfg.serviceUser);
    var shared := Permit(e, at, group.path, Some(SHARED), cfg);
    PermissionWrite(shared.entry.perms, previous, None, cfg.serviceUser);
  }

  /** Nothing, or the one thing. */
  predicate AtMost<T(==)>(s: seq<T>, x: T) { s == [] || s == [x] }

  /** What a writing update plans and writes, in this order: the graph, the share, the withdrawal. */
  ghost predicate InOrder(d: Done, at: nat, group: Group, next: Graph, details: Details, previous: string) {
    exists saves: seq<Change>, shares: seq<Change>, withdrawals: seq<Change> ::
      && AtMost(saves, UpdateGraph(at, group, next, details)) && AtMost(shares, ShareGraph(at, group.path))
      && AtMost(withdrawals, UnshareGraph(at, previous))
      && d.plan == saves + shares + withdrawals
      && d.writes == seq(|saves|, _ => SetGraph(at)) + seq(|shares| + |withdrawals|, _ => SetPermission(at))
  }

  lemma PermitPlans(e: Entry, at: nat, path: string, want: Option<Rights>, cfg: Config)
    requires cfg.writable
    ensures var d := Permit(e, at, path, want, cfg);
            AtMost(d.plan, if want.Some? then ShareGraph(at, path) else UnshareGraph(at, path))
            && d.writes == seq(|d.plan|, _ => SetPermission(at))
  {
    var none, one := seq(0, _ => SetPermission(at)), seq(1, _ => SetPermission(at));
    assert none == [] && one == [SetPermission(at)];
  }

  lemma ResharePlans(e: Entry, at: nat, group: Group, previous: string, cfg: Config)
    returns (shares: seq<Change>, withdrawals: seq<Change>)
    requires cfg.writable
    ensures var d := Reshare(e, at, group, previous, cfg);
            && AtMost(shares, ShareGraph(at, group.path)) && AtMost(withdrawals, UnshareGraph(at, previous))
            && d.plan == shares + withdrawals && d.writes == seq(|shares| + |withdrawals|, _ => SetPermission(at))
  {
    var shared := Permit(e, at, group.path, Some(SHARED), cfg);
    PermitPlans(e, at, group.path, Some(SHARED), cfg);
    PermitPlans(shared.entry, at, previous, None, cfg);
    hide Permit;
    shares, withdrawals := shared.plan, [];
    if !shared.failed && previous != "" && previous != group.path {
      withdrawals := Permit(shared.entry, at, previous, None, cfg).plan;
    }
    assert shared.plan + [] == shared.plan;
  }

  /** An update saves before it shares and shares before it withdraws. */
  lemma UpdateWritesInOrder(e: Entry, at: nat, group: Group, view: View, cfg: Config)
    requires cfg.opts.FreshIds() && cfg.writable
    ensures var r := Revise(e.graph, group, view.devicesOf(group.path), view.readings, cfg.opts, cfg.platform);
            var d := UpdateStep(e, at, group, view, cfg);
            r.Revision? && !d.failed ==>
              InOrder(d, at, group, r.graph, UpdateDetails(e, group, view, cfg), GroupPathOf(e.graph))
  {
    hide Revise, Reshare, Permit, AtMost, DetailsOf;
    var previous, details := GroupPathOf(e.graph), UpdateDetails(e, group, view, cfg);
    var r := Revise(e.graph, group, view.devicesOf(group.path), view.readings, cfg.opts, cfg.platform);
    var d := UpdateStep(e, at, group, view, cfg);
    if r.Revision? && !d.failed {
      var saved := if r.changed then Save(e, at, r.graph, cfg).entry else e;
      var shares, withdrawals := ResharePlans(saved, at, group, previous, cfg);
      var saves := if r.changed then [UpdateGraph(at, group, r.graph, details)] else [];
      AtMostOne(UpdateGraph(at, group, r.graph, details));
      assert saves + (shares + withdrawals) == saves + shares + withdrawals;
      assert seq(|saves|, _ => SetGraph(at)) == if r.changed then [SetGraph(at)] else [];
      assert [] + Reshare(saved, at, group, previous, cfg).writes == Reshare(saved, at, group, previous, cfg).writes;
    }
  }

  lemma AtMostOne<T>(x: T)
    ensures AtMost([], x) && AtMost([x], x)
  {}

  /** The share checks of an update are the last two events of a life, with the permissions in between. */
  lemma ReshareIsALife(e: Entry, at: nat, group: Group, previous: string, cfg: Config, l: Life)
    requires cfg.writable && Lives(e, l) && l.phase == Granting(group.path, previous)
    ensures var shared, done := Permit(e, at, group.path, Some(SHARED), cfg).entry,
            Reshare(e, at, group, previous, cfg).entry;
            var next := Step(l, ShareChecked, cfg.serviceUser);
            && Lives(shared, next) && Lives(done, Step(next, OldShareChecked, cfg.serviceUser))
            && Step(next, OldShareChecked, cfg.serviceUser).phase.Idle?
  {
    hide AlreadyAgrees, Adjusted, Administrated;
    PermissionWrite(e.perms, group.path, Some(SHARED), cfg.serviceUser);
    var shared := Permit(e, at, group.path, Some(SHARED), cfg).entry;
    PermissionWrite(shared.perms, previous, None, cfg.serviceUser);
  }

  /** What an update saves before it shares. */
  function Saved(e: Entry, at: nat, next: Graph, changed: bool, cfg: Config): Entry {
    if changed then Save(e, at, next, cfg).entry else e
  }

  /**
   * The life of a graph is what an update does to it, write by write: after each of its events it has
   * the permissions and the recorded path that the update has there.
   */
  lemma UpdateIsALife(e: Entry, at: nat, group: Group, view: View, cfg: Config, l: Life, next: Graph, changed: bool)
    requires cfg.opts.FreshIds() && cfg.platform.Sound() && cfg.writable
    requires Revisable(e.graph, group, view.devicesOf(group.path), cfg.platform)
    requires Revise(e.graph, group, view.devicesOf(group.path), view.readings, cfg.opts, cfg.platform) ==
             Revision(next, changed)
    requires Lives(e, l) && l.phase.Idle? && l.path == group.path
    ensures Lives(Saved(e, at, next, changed, cfg), Run(l, [PassStarts, GraphSaved], cfg.serviceUser))
    ensures Lives(Permit(Saved(e, at, next, changed, cfg), at, group.path, Some(SHARED), cfg).entry,
                  Run(l, [PassStarts, GraphSaved, ShareChecked], cfg.serviceUser))
    ensures Lives(UpdateStep(e, at, group, view, cfg).entry,
                  Run(l, [PassStarts, GraphSaved, ShareChecked, OldShareChecked], cfg.serviceUser))
    ensures Run(l, [PassStarts, GraphSaved, ShareChecked, OldShareChecked], cfg.serviceUser).phase.Idle?
  {
    hide Valid, Revise, Revisable, Run, Reshare, Permit, GroupPathOf;
    var user, previous := cfg.serviceUser, GroupPathOf(e.graph);
    ReviseFollowsTheWorld(e.graph, group, view.devicesOf(group.path), view.readings, cfg.opts, cfg.platform);
    assert cfg.platform.valid(next);
    RunTwo(l, PassStarts, GraphSaved, user);
    RunThree(l, PassStarts, GraphSaved, ShareChecked, user);
    RunFour(l, PassStarts, GraphSaved, ShareChecked, OldShareChecked, user);
    ReshareIsALife(Saved(e, at, next, changed, cfg), at, group, previous, cfg, Run(l, [PassStarts, GraphSaved], user));
  }

  ghost predicate Lives(e: Entry, l: Life) { e.perms == Some(l.perms) && GroupPathOf(e.graph) == l.recorded }

  /** A vanished group loses its share and its two attributes, and nothing else about the graph changes. */
  lemma OrphanWithdraws(e: Entry, at: nat, path: string, cfg: Config)
    requires cfg.platform.Sound() && cfg.writable && Good(e)
    ensures var d := OrphanStep(e, at, path, cfg);
            && d.entry.perms.Some? && path !in d.entry.perms.value.groups
            && (forall p :: p != path && p in e.perms.value.groups ==>
                  p in d.entry.perms.value.groups && d.entry.perms.value.groups[p] == e.perms.value.groups[p])
            && d.entry.graph == e.graph.(attributes := d.entry.graph.attributes)
            && forall key :: key !in [ATTR_GROUP_ID, ATTR_GROUP_PATH] ==>
                 AttributeOf(d.entry.graph.attributes, key) == AttributeOf(e.graph.attributes, key)
  {
    hide Valid, NodesNamed, WithoutKey, AttributeOf;
    PermissionWrite(e.perms, path, None, cfg.serviceUser);
    var without := WithoutKey(e.graph.attributes, ATTR_GROUP_PATH);
    forall key | key !in [ATTR_GROUP_ID, ATTR_GROUP_PATH]
      ensures AttributeOf(WithoutKey(without, ATTR_GROUP_ID), key) == AttributeOf(e.graph.attributes, key)
    {
      assert key != ATTR_GROUP_ID && key != ATTR_GROUP_PATH;
      AttributeOfWithout(e.graph.attributes, ATTR_GROUP_PATH, key);
      AttributeOfWithout(without, ATTR_GROUP_ID, key);
    }
  }

  /** One writing pass over one graph, refused no removal. */
  lemma UpdateLands(e: Entry, at: nat, group: Group, view: View, cfg: Config)
    requires cfg.opts.FreshIds() && cfg.platform.Sound() && cfg.writable && e.perms.Some?
    requires Revisable(e.graph, group, view.devicesOf(group.path), cfg.platform)
    ensures var d, devices := UpdateStep(e, at, group, view, cfg), view.devicesOf(group.path);
            && !d.failed && Good(d.entry) && OwnNodes(d.entry.graph.nodes, devices)
            && GroupIdOf(d.entry.graph) == group.id && GroupPathOf(d.entry.graph) == group.path
            && (GroupPathOf(e.graph) in ["", group.path] ==> Settled(d.entry, group, devices))
  {
    hide Valid, Revise, Reshare, DeviceIds, Rename, NodesNamed, Absent, Revisable, AlreadyAgrees;
    var devices := view.devicesOf(group.path);
    ReviseFollowsTheWorld(e.graph, group, devices, view.readings, cfg.opts, cfg.platform);
    var r := Revise(e.graph, group, devices, view.readings, cfg.opts, cfg.platform);
    assert cfg.platform.valid(r.graph);
    ReshareSettles(e.(graph := r.graph), at, group, GroupPathOf(e.graph), cfg);
    ReshareSettles(e, at, group, GroupPathOf(e.graph), cfg);
    forall i | 0 <= i < |devices| ensures devices[i].id in DeviceIds(r.graph.nodes) {
      assert IsDeviceId(devices, devices[i].id);
    }
  }

  lemma OrphanLands(e: Entry, at: nat, path: string, cfg: Config)
    requires cfg.platform.Sound() && cfg.writable && Good(e)
    ensures var d := OrphanStep(e, at, path, cfg);
            !d.failed && GroupIdOf(d.entry.graph) == "" && GroupPathOf(d.entry.graph) == ""
  {
    hide Valid, NodesNamed, WithoutKey, AttributeOf;
    PermissionWrite(e.perms, path, None, cfg.serviceUser);
    var without := WithoutKey(e.graph.attributes, ATTR_GROUP_PATH);
    AttributeOfWithout(e.graph.attributes, ATTR_GROUP_PATH, ATTR_GROUP_PATH);
    AttributeOfWithout(without, ATTR_GROUP_ID, ATTR_GROUP_ID);
    AttributeOfWithout(without, ATTR_GROUP_ID, ATTR_GROUP_PATH);
    ValidKept(e.graph, Cleared(e.graph));
  }

  lemma CreateLands(at: nat, group: Group, view: View, cfg: Config)
    requires cfg.opts.FreshIds() && cfg.platform.Sound() && cfg.writable && cfg.serviceUser != ""
    requires Proper(view.devicesOf(group.path))
    ensures cfg.platform.valid(Generated(group, view, cfg))
    ensures var d, devices := CreateStep(at, group, view, cfg), view.devicesOf(group.path);
            && !d.failed && Good(d.entry) && OwnNodes(d.entry.graph.nodes, devices) && Settled(d.entry, group, devices)
  {
    hide Valid, NodesNamed, GraphOf, InStep, OwnNodes;
    BuildDraws(cfg.serviceUser, group, view.devicesOf(group.path), view.readings, cfg.opts);
    BuiltInStep(cfg.serviceUser, group, view.devicesOf(group.path), view.readings, cfg.opts, cfg.graphId(at));
    PermissionWrite(Some(NewPerms(cfg)), group.path, Some(SHARED), cfg.serviceUser);
  }

  // ---- all entries ----

  function Creates(jobs: seq<Job>): seq<Group> {
    if jobs == [] then [] else (if jobs[0].CreateJob? then [jobs[0].group] else []) + Creates(jobs[1..])
  }

  function JobAt(jobs: seq<Job>, i: nat): Option<Job> {
    if jobs == [] then None
    else if !jobs[0].CreateJob? && jobs[0].at == i then Some(jobs[0])
    else JobAt(jobs[1..], i)
  }

  function After(e: Entry, i: nat, job: Option<Job>, view: View, cfg: Config): Done
    requires cfg.opts.FreshIds()
  {
    match job
    case Some(UpdateJob(_, group)) => UpdateStep(e, i, group, view, cfg)
    case Some(OrphanJob(_, path)) => OrphanStep(e, i, path, cfg)
    case _ => Done(e, [], [], false)
  }

  ghost predicate Creatable(jobs: seq<Job>, view: View, cfg: Config) {
    && cfg.opts.FreshIds() && cfg.platform.Sound() && cfg.writable && cfg.serviceUser != ""
    && forall i :: 0 <= i < |jobs| && jobs[i].CreateJob? ==> Proper(view.devicesOf(jobs[i].group.path))
  }

  lemma {:induction false} NoJobAt(jobs: seq<Job>, i: nat)
    requires forall k :: 0 <= k < |jobs| && !jobs[k].CreateJob? ==> jobs[k].at != i
    ensures JobAt(jobs, i) == None
  {
    if jobs != [] { NoJobAt(jobs[1..], i); }
  }

  lemma ApplyTouches(w: World, job: Job, view: View, cfg: Config)
    requires Creatable([job], view, cfg) && (!job.CreateJob? ==> job.at < |w|)
    ensures var r := Apply(w, job, view, cfg);
            if job.CreateJob? then r.world == w + [CreateStep(|w|, job.group, view, cfg).entry] && !r.failed
            else r.world == w[job.at := After(w[job.at], job.at, Some(job), view, cfg).entry]
                 && r.failed == After(w[job.at], job.at, Some(job), view, cfg).failed
  {
    hide UpdateStep, OrphanStep, CreateStep, Generated, Platform.Sound;
    if job.CreateJob? {
      assert [job][0] == job;
      CreateLands(|w|, job.group, view, cfg);
    }
  }

  lemma JobAtHead(jobs: seq<Job>)
    requires jobs != [] && Apart(jobs)
    ensures Apart(jobs[1..]) && forall n :: InRange(jobs, n) ==> InRange(jobs[1..], n)
    ensures !jobs[0].CreateJob? ==> JobAt(jobs, jobs[0].at) == Some(jobs[0]) && JobAt(jobs[1..], jobs[0].at) == None
    ensures forall i: nat :: jobs[0].CreateJob? || i != jobs[0].at ==> JobAt(jobs, i) == JobAt(jobs[1..], i)
  {
    if !jobs[0].CreateJob? { NoJobAt(jobs[1..], jobs[0].at); }
  }

  /** A run of jobs that stay apart is each job on its own graph, and the created graphs behind. */
  lemma {:induction false} RunTouches(w: World, jobs: seq<Job>, n: nat, view: View, cfg: Config)
    requires n <= |w| && InRange(jobs, n) && Apart(jobs) && Creatable(jobs, view, cfg)
    ensures InRange(jobs, |w|)
    ensures var r := RunAll(w, jobs, view, cfg);
            && |r.world| == |w| + |Creates(jobs)|
            && (forall i :: 0 <= i < n ==> r.world[i] == After(w[i], i, JobAt(jobs, i), view, cfg).entry)
            && (forall i :: n <= i < |w| ==> r.world[i] == w[i])
            && (forall m :: 0 <= m < |Creates(jobs)| ==>
                  r.world[|w| + m] == CreateStep(|w| + m, Creates(jobs)[m], view, cfg).entry)
    decreases |jobs|
  {
    hide Apply, After, CreateStep, Apart, JobAt, Platform.Sound;
    AfterNone(view, cfg);
    if jobs == [] {
      NoJobsAnywhere();
    } else {
      var job, first := jobs[0], Apply(w, jobs[0], view, cfg);
      ApplyTouches(w, job, view, cfg);
      JobAtHead(jobs);
      RunTouches(first.world, jobs[1..], n, view, cfg);
      var r := RunAll(w, jobs, view, cfg);
      forall m | 0 <= m < |Creates(jobs)|
        ensures r.world[|w| + m] == CreateStep(|w| + m, Creates(jobs)[m], view, cfg).entry {
        if job.CreateJob? && m > 0 {
          assert Creates(jobs)[m] == Creates(jobs[1..])[m - 1];
          assert |first.world| + (m - 1) == |w| + m;
        }
      }
    }
  }

  lemma AfterNone(view: View, cfg: Config)
    requires cfg.opts.FreshIds()
    ensures forall e, i :: After(e, i, None, view, cfg) == Done(e, [], [], false)
  {}

  lemma NoJobsAnywhere()
    ensures forall i :: JobAt([], i) == None
  {}

  lemma {:induction false} RunSucceeds(w: World, jobs: seq<Job>, n: nat, view: View, cfg: Config)
    requires n <= |w| && InRange(jobs, n) && InRange(jobs, |w|) && Apart(jobs) && Creatable(jobs, view, cfg)
    requires forall i :: 0 <= i < n ==> !After(w[i], i, JobAt(jobs, i), view, cfg).failed
    ensures !RunAll(w, jobs, view, cfg).failed
    decreases |jobs|
  {
    hide Apply, After, CreateStep, Apart, JobAt, Platform.Sound;
    AfterNone(view, cfg);
    if jobs != [] {
      var job, first := jobs[0], Apply(w, jobs[0], view, cfg);
      ApplyTouches(w, job, view, cfg);
      JobAtHead(jobs);
      assert !first.failed;
      forall i | 0 <= i < n ensures !After(first.world[i], i, JobAt(jobs[1..], i), view, cfg).failed {
        if job.CreateJob? || i != job.at {
          assert first.world[i] == w[i];
        }
      }
      RunSucceeds(first.world, jobs[1..], n, view, cfg);
    }
  }

  lemma {:induction false} QuietRun(w: World, jobs: seq<Job>, view: View, cfg: Config)
    requires cfg.opts.FreshIds() && InRange(jobs, |w|)
    requires forall i :: 0 <= i < |jobs| ==>
             jobs[i].UpdateJob? &&
             UpdateStep(w[jobs[i].at], jobs[i].at, jobs[i].group, view, cfg) == Done(w[jobs[i].at], [], [], false)
    ensures RunAll(w, jobs, view, cfg) == Result(w, [], [], false)
    decreases |jobs|
  {
    hide UpdateStep;
    if jobs != [] {
      assert w[jobs[0].at := w[jobs[0].at]] == w;
      QuietRun(w, jobs[1..], view, cfg);
    }
  }

  // ---- the world at rest ----

  ghost predicate Aligned(w: World, view: View) {
    && (forall k :: 0 <= k < |view.groups| ==> AlignedGroup(w, view.groups[k], view))
    && (forall i :: 0 <= i < |w| ==> !Orphaned(w, i, view.groups))
  }

  ghost predicate AlignedGroup(w: World, group: Group, view: View) {
    var at, devices := Find(w, group), view.devicesOf(group.path);
    DistinctDevices(devices) && if at < 0 then devices == [] else Settled(w[at], group, devices)
  }

  /** On a world at rest a full pass makes no write and plans no change. */
  lemma AlignedIsSilent(w: World, view: View, cfg: Config)
    requires cfg.opts.FreshIds() && (view.groups == [] || Aligned(w, view))
    ensures Full(w, view, cfg) == Result(w, [], [], false)
  {
    hide Find, Orphaned, Settled, DistinctDevices, UpdateStep, RunAll;
    var jobs := Jobs(w, view);
    JobsInRange(w, view);
    GroupJobsAre(w, view.groups, view);
    OrphanJobsAre(w, |w|, view.groups);
    forall i | 0 <= i < |jobs|
      ensures jobs[i].UpdateJob? &&
              UpdateStep(w[jobs[i].at], jobs[i].at, jobs[i].group, view, cfg) == Done(w[jobs[i].at], [], [], false)
    {
      assert jobs[i] in jobs;
      assert jobs[i] in GroupJobs(w, view.groups, view);
      var k :| 0 <= k < |view.groups| && jobs[i] in GroupJob(w, view.groups[k], view);
      assert AlignedGroup(w, view.groups[k], view);
      SettledIsQuiet(w[jobs[i].at], jobs[i].at, view.groups[k], view, cfg);
    }
    QuietRun(w, jobs, view, cfg);
  }
}
