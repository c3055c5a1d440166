/** The pass as the service runs it: over stored graphs and permissions that change under it. */
module Reconciler {
  import opened Model
  import opened Tree
  import opened Drawing
  import opened Attaching
  import opened Detaching
  import opened Sharing
  import opened Updating
  import opened Generator
  import opened Pass
  import opened Defaults

  lemma InRangeAppend(a: seq<Job>, b: seq<Job>, n: nat)
    requires InRange(a, n) && InRange(b, n)
    ensures InRange(a + b, n)
  {}

  lemma InRangeTail(a: seq<Job>, n: nat, m: nat)
    requires a != [] && InRange(a, n) && n <= m
    ensures InRange(a[1..], m) && (!a[0].CreateJob? ==> a[0].at < m)
  {}

  lemma InRangeWider(a: seq<Job>, n: nat, m: nat)
    requires InRange(a, n) && n <= m
    ensures InRange(a, m)
  {}

  lemma {:induction false} RunAppend(w: World, a: seq<Job>, b: seq<Job>, view: View, cfg: Config)
    requires cfg.opts.FreshIds() && InRange(a, |w|) && InRange(b, |w|) && InRange(a + b, |w|)
    ensures InRange(b, |RunAll(w, a, view, cfg).world|)
    ensures var first := RunAll(w, a, view, cfg); var rest := RunAll(first.world, b, view, cfg);
            RunAll(w, a + b, view, cfg)
            == Result(rest.world, first.plan + rest.plan, first.writes + rest.writes, first.failed || rest.failed)
    decreases |a|
  {
    hide Apply, InRange;
    if a == [] {
      assert a + b == b;
    } else {
      InRangeTail(a, |w|, |w|);
      var next := Apply(w, a[0], view, cfg);
      InRangeTail(a, |w|, |next.world|);
      assert (a + b)[1..] == a[1..] + b && (a + b)[0] == a[0];
      InRangeWider(b, |w|, |next.world|);
      InRangeAppend(a[1..], b, |next.world|);
      RunAppend(next.world, a[1..], b, view, cfg);
    }
  }

  lemma RunOne(w: World, job: Job, view: View, cfg: Config)
    requires cfg.opts.FreshIds() && InRange([job], |w|)
    ensures RunAll(w, [job], view, cfg) == Apply(w, job, view, cfg)
  {
    hide Apply;
    assert [job][1..] == [];
  }

  class Repository {
    var world: World
    var plan: seq<Change>
    var writes: seq<Write>
    ghost var failed: bool

    constructor (w: World)
      ensures world == w && plan == [] && writes == [] && !failed
    {
      world, plan, writes, failed := w, [], [], false;
    }

    ghost function Outcome(): Result
      reads this
    {
      Result(world, plan, writes, failed)
    }

    /** One sharing write, reported on the store's answer. */
    method Permission(at: nat, path: string, want: Option<Rights>, cfg: Config) returns (ok: bool)
      requires at < |world|
      modifies this
      ensures var d := Permit(old(world)[at], at, path, want, cfg);
              && world == old(world)[at := d.entry] && plan == old(plan) + d.plan && writes == old(writes) + d.writes
              && ok == !d.failed && failed == old(failed)
    {
      var outcome := SetGroupPermission(world[at].perms, path, want, cfg.serviceUser, cfg.writable);
      var change := if want.Some? then ShareGraph(at, path) else UnshareGraph(at, path);
      ok := true;
      match outcome {
        case Agrees =>
        case Skipped =>
          plan := plan + [change];
        case Written(p) =>
          world := world[at := world[at].(perms := Some(p))];
          plan, writes := plan + [change], writes + [SetPermission(at)];
        case NoResource => ok := false;
        case Unadministrated => ok := false;
      }
    }

    method SaveGraph(at: nat, next: Graph, cfg: Config) returns (ok: bool)
      requires at < |world|
      modifies this`world, this`writes
      ensures var d := Save(old(world)[at], at, next, cfg);
              world == old(world)[at := d.entry] && writes == old(writes) + d.writes && ok == !d.failed
    {
      if !cfg.platform.valid(next) { return false; }
      if !cfg.writable { return true; }
      world := world[at := world[at].(graph := next)];
      writes := writes + [SetGraph(at)];
      return true;
    }

    method ShareAndWithdraw(at: nat, group: Group, previous: string, cfg: Config) returns (ok: bool)
      requires at < |world|
      modifies this
      ensures var d := Reshare(old(world)[at], at, group, previous, cfg);
              && world == old(world)[at := d.entry] && plan == old(plan) + d.plan && writes == old(writes) + d.writes
              && ok == !d.failed && failed == old(failed)
    {
      hide Permit;
      ok := Permission(at, group.path, Some(SHARED), cfg);
      if ok && previous != "" && previous != group.path {
        ok := Permission(at, previous, None, cfg);
      }
    }

    /** Adds what is missing, removes what left, follows names, and checks the sharing every time. */
    method Update(at: nat, group: Group, view: View, cfg: Config) returns (ok: bool)
      requires at < |world| && cfg.opts.FreshIds()
      modifies this
      ensures var d := UpdateStep(old(world)[at], at, group, view, cfg);
              && world == old(world)[at := d.entry] && plan == old(plan) + d.plan && writes == old(writes) + d.writes
              && ok == !d.failed && failed == old(failed)
    {
      hide Revise, Reshare, Save, DetailsOf;
      var existing := world[at].graph;
      var cell := new GraphCell(existing);
      var revised, changed,
        details := ReviseInPlace(cell, group, view.devicesOf(group.path), view.readings, cfg.opts, cfg.platform);
      if !revised { return false; }
      if changed {
        plan := plan + [UpdateGraph(at, group, cell.graph, details)];
        var saved := SaveGraph(at, cell.graph, cfg);
        if !saved { return false; }
      }
      ok := ShareAndWithdraw(at, group, GroupPathOf(existing), cfg);
    }

    method Orphan(at: nat, path: string, cfg: Config) returns (ok: bool)
      requires at < |world|
      modifies this
      ensures var d := OrphanStep(old(world)[at], at, path, cfg);
              && world == old(world)[at := d.entry] && plan == old(plan) + d.plan && writes == old(writes) + d.writes
              && ok == !d.failed && failed == old(failed)
    {
      hide Permit, Save, Cleared;
      var graph := world[at].graph;
      ok := Permission(at, path, None, cfg);
      if !ok { return; }
      var next := Cleared(graph);
      if next == graph { return; }
      plan := plan + [DetachGroup(at, path, next)];
      ok := SaveGraph(at, next, cfg);
    }

    /** The only time the full heuristic runs. */
    method Create(group: Group, view: View, cfg: Config) returns (ok: bool)
      requires cfg.opts.FreshIds() && cfg.platform.Sound() && cfg.serviceUser != "" &&
               Proper(view.devicesOf(group.path))
      modifies this
      ensures var r := Apply(old(world), CreateJob(group), view, cfg);
              && world == r.world && plan == old(plan) + r.plan && writes == old(writes) + r.writes
              && ok == !r.failed && failed == old(failed)
    {
      hide Permit, Valid, GraphOf, ReportsOf, Proper, Unplaced;
      var graph, placements,
        built := Build(cfg.serviceUser, group, view.devicesOf(group.path), view.readings, cfg.opts, cfg.platform.valid);
      assert graph == Generated(group, view, cfg);
      if !built { return false; }
      var unplaced := WithoutReading(view.devicesOf(group.path), view.readings);
      var details := Details(view.devicesOf(group.path), unplaced, view.readings, placements);
      plan := plan + [CreateGraph(group, graph, details)];
      if !cfg.platform.valid(graph) { return false; }
      if !cfg.writable { return true; }
      var at := |world|;
      world := world + [Entry(graph.(id := cfg.graphId(at)), Some(NewPerms(cfg)))];
      writes := writes + [SetGraph(at)];
      ok := Permission(at, group.path, Some(SHARED), cfg);
    }

    /** Performs one more job of a run. */
    method Perform(job: Job, view: View, cfg: Config, ghost w: World, ghost before: seq<Job>)
      requires cfg.opts.FreshIds() && cfg.platform.Sound() && cfg.serviceUser != ""
      requires InRange(before + [job], |w|) && InRange(before, |w|) && Outcome() == RunAll(w, before, view, cfg)
      requires job.CreateJob? ==> Proper(view.devicesOf(job.group.path))
      modifies this
      ensures Outcome() == RunAll(w, before + [job], view, cfg)
    {
      hide Apply, UpdateStep, OrphanStep, Platform.Sound, Proper, RunAll;
      LastInRange(before, job, |w|);
      RunAppend(w, before, [job], view, cfg);
      RunOne(world, job, view, cfg);
      assert [job][0] == job;
      var ok;
      match job {
        case UpdateJob(at, group) =>
          UpdateApplies(world, at, group, view, cfg);
          ok := Update(at, group, view, cfg);
        case OrphanJob(at, path) =>
          OrphanApplies(world, at, path, view, cfg);
          ok := Orphan(at, path, cfg);
        case CreateJob(group) =>
          ok := Create(group, view, cfg);
      }
      failed := failed || !ok;
    }

    method Groups(ix: Index, view: View, cfg: Config, ghost w: World)
      requires cfg.opts.FreshIds() && cfg.platform.Sound() && cfg.serviceUser != ""
      requires Outcome() == Result(w, [], [], false)
      requires forall key :: Listed(ix.byId, key) == ById(w, |w|, key) && Listed(ix.byPath, key) == ByPath(w, |w|, key)
      requires forall k :: 0 <= k < |view.groups| ==> Proper(view.devicesOf(view.groups[k].path))
      modifies this
      ensures InRange(GroupJobs(w, view.groups, view), |w|)
      ensures Outcome() == RunAll(w, GroupJobs(w, view.groups, view), view, cfg)
    {
      hide Apply, Platform.Sound, Proper, ById, ByPath, Listed;
      for k := 0 to |view.groups|
        invariant InRange(GroupJobs(w, view.groups[..k], view), |w|)
        invariant Outcome() == RunAll(w, GroupJobs(w, view.groups[..k], view), view, cfg)
      {
        hide RunAll, GroupJobs;
        var group := view.groups[k];
        ghost var before := GroupJobs(w, view.groups[..k], view);
        NextGroupJob(w, view.groups, k, view);
        assert before + [] == before;
        var at := if Listed(ix.byId, group.id) >= 0 then Listed(ix.byId, group.id) else Listed(ix.byPath, group.path);
        assert at == Find(w, group);
        ghost var job := GroupJob(w, group, view);
        hide Find, InRange;
        if at >= 0 {
          assert job == [UpdateJob(at, group)];
          Perform(UpdateJob(at, group), view, cfg, w, before);
        } else if view.devicesOf(group.path) != [] {
          assert job == [CreateJob(group)];
          Perform(CreateJob(group), view, cfg, w, before);
        }
      }
      assert view.groups[..|view.groups|] == view.groups;
    }

    method Orphans(ix: Index, found: World, view: View, cfg: Config, ghost before: seq<Job>)
      requires cfg.opts.FreshIds() && cfg.platform.Sound() && cfg.serviceUser != ""
      requires InRange(before, |found|) && Outcome() == RunAll(found, before, view, cfg)
      requires forall key ::
               Listed(ix.byId, key) == ById(found, |found|, key) &&
               Listed(ix.byPath, key) == ByPath(found, |found|, key)
      modifies this
      ensures InRange(before + OrphanJobs(found, |found|, view.groups), |found|)
      ensures Outcome() == RunAll(found, before + OrphanJobs(found, |found|, view.groups), view, cfg)
    {
      hide Apply, Platform.Sound, ById, ByPath, Listed, KnownId, KnownPath, GroupIdOf, GroupPathOf, RunAll, OrphanJobs,
        Orphaned;
      NoOrphanJobsYet(found, view.groups, before);
      for i := 0 to |found|
        invariant InRange(before + OrphanJobs(found, i, view.groups), |found|)
        invariant Outcome() == RunAll(found, before + OrphanJobs(found, i, view.groups), view, cfg)
      {
        hide InRange;
        var gone := IsOrphan(ix, found, i, view.groups);
        ghost var behind := before + OrphanJobs(found, i, view.groups);
        NextOrphanJob(found, i, view.groups, before);
        if gone {
          Perform(OrphanJob(i, GroupPathOf(found[i].graph)), view, cfg, found, behind);
        }
      }
    }

    /** Re-reads everything and reconciles every group; the orphans come last. */
    method FullPass(view: View, cfg: Config)
      requires cfg.opts.FreshIds() && cfg.platform.Sound() && cfg.serviceUser != ""
      requires DistinctGraphs(world) && plan == [] && writes == [] && !failed
      requires forall k :: 0 <= k < |view.groups| ==> Proper(view.devicesOf(view.groups[k].path))
      modifies this
      ensures Outcome() == Full(old(world), view, cfg)
    {
      hide RunAll, Platform.Sound, Proper, ById, ByPath, DistinctGraphs, GroupJobs, OrphanJobs, IndexAll, Listed;
      var found := world;
      var ix := Defaults.Defaults(found);
      forall key
        ensures Listed(ix.byId, key) == ById(found, |found|, key) &&
        Listed(ix.byPath, key) == ByPath(found, |found|, key) {
        ListedIs(found, ix, key);
      }
      JobsInRange(found, view);
      Groups(ix, view, cfg, found);
      ghost var jobs := GroupJobs(found, view.groups, view);
      assert jobs + [] == jobs;
      if view.groups == [] {
        return;
      }
      Orphans(ix, found, view, cfg, jobs);
    }
  }

  lemma NextGroupJob(w: World, groups: seq<Group>, k: nat, view: View)
    requires k < |groups| && InRange(GroupJobs(w, groups[..k], view), |w|)
    ensures var next := GroupJobs(w, groups[..k], view) + GroupJob(w, groups[k], view);
            GroupJobs(w, groups[..k + 1], view) == next && InRange(next, |w|)
  {
    hide Find;
    assert groups[..k + 1][..k] == groups[..k];
  }

  /** Whether a stored graph is indexed under a group that is not known any more. */
  method IsOrphan(ix: Index, found: World, i: nat, groups: seq<Group>) returns (gone: bool)
    requires i < |found|
    requires forall key ::
             Listed(ix.byId, key) == ById(found, |found|, key) && Listed(ix.byPath, key) == ByPath(found, |found|, key)
    ensures gone == Orphaned(found, i, groups)
  {
    hide ById, ByPath, Listed, KnownId, KnownPath, GroupIdOf, GroupPathOf;
    var id, path := GroupIdOf(found[i].graph), GroupPathOf(found[i].graph);
    gone := if id != "" then Listed(ix.byId, id) == i && !KnownId(groups, id)
            else Listed(ix.byPath, path) == i && !KnownPath(groups, path);
  }

  lemma NoOrphanJobsYet(found: World, groups: seq<Group>, before: seq<Job>)
    ensures before + OrphanJobs(found, 0, groups) == before
  {}

  lemma NextOrphanJob(found: World, i: nat, groups: seq<Group>, before: seq<Job>)
    requires i < |found| && InRange(before + OrphanJobs(found, i, groups), |found|)
    ensures var behind, path := before + OrphanJobs(found, i, groups), GroupPathOf(found[i].graph);
            before + OrphanJobs(found, i + 1, groups) == if Orphaned(found, i, groups)
              then behind + [OrphanJob(i, path)] else behind
    ensures InRange(before + OrphanJobs(found, i + 1, groups), |found|)
  {
    hide Orphaned, GroupPathOf;
    var behind, path := before + OrphanJobs(found, i, groups), GroupPathOf(found[i].graph);
    assert behind + [OrphanJob(i, path)] == before + (OrphanJobs(found, i, groups) + [OrphanJob(i, path)]);
  }

  lemma ListedIs(w: World, ix: Index, key: string)
    requires DistinctGraphs(w)
    requires ix == IndexAll(IndexAll(Index(map[], map[]), w, Safe(w, ATTR_GROUP_ID)), w, Safe(w, ATTR_GROUP_PATH))
    ensures Listed(ix.byId, key) == ById(w, |w|, key) && Listed(ix.byPath, key) == ByPath(w, |w|, key)
  {
    hide IndexAll, ById, ByPath;
    DefaultsFindLowest(w, ix, key);
  }

  lemma LastInRange(before: seq<Job>, job: Job, n: nat)
    requires InRange(before + [job], n)
    ensures InRange([job], n)
  {
    assert (before + [job])[|before|] == job;
  }

  function Listed(m: map<string, nat>, key: string): int {
    if key in m then m[key] else -1
  }

  lemma UpdateApplies(w: World, at: nat, group: Group, view: View, cfg: Config)
    requires cfg.opts.FreshIds() && at < |w|
    ensures var d := UpdateStep(w[at], at, group, view, cfg);
            Apply(w, UpdateJob(at, group), view, cfg) == Result(w[at := d.entry], d.plan, d.writes, d.failed)
  {
    hide UpdateStep;
  }

  lemma OrphanApplies(w: World, at: nat, path: string, view: View, cfg: Config)
    requires cfg.opts.FreshIds() && at < |w|
    ensures var d := OrphanStep(w[at], at, path, cfg);
            Apply(w, OrphanJob(at, path), view, cfg) == Result(w[at := d.entry], d.plan, d.writes, d.failed)
  {
    hide OrphanStep;
  }
}
