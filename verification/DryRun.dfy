/** The report of a pass that may not write is the report of the pass that may. */
module DryRun {
  import opened Model
  import opened Sharing
  import opened Updating
  import opened Pass

  function Wet(cfg: Config): Config { cfg.(writable := true) }
  function Dry(cfg: Config): Config { cfg.(writable := false) }

  predicate NewShare(c: Change, n: nat) { c.ShareGraph? && c.at >= n }

  /** A plan without the share entries of graphs the pass itself created. */
  function WithoutNewShares(plan: seq<Change>, n: nat): seq<Change> {
    if plan == [] then []
    else (if NewShare(plan[0], n) then [] else [plan[0]]) + WithoutNewShares(plan[1..], n)
  }

  lemma {:induction false} WithoutAppend(a: seq<Change>, b: seq<Change>, n: nat)
    ensures WithoutNewShares(a + b, n) == WithoutNewShares(a, n) + WithoutNewShares(b, n)
  {
    if a == [] {
      assert a + b == b;
    } else {
      assert (a + b)[1..] == a[1..] + b;
      WithoutAppend(a[1..], b, n);
    }
  }

  lemma {:induction false} WithoutNothing(a: seq<Change>, n: nat)
    requires forall i :: 0 <= i < |a| ==> !NewShare(a[i], n)
    ensures WithoutNewShares(a, n) == a
  {
    if a != [] { WithoutNothing(a[1..], n); }
  }

  /** Every share the plan names is for one graph. */
  ghost predicate SharesOnly(plan: seq<Change>, at: nat) {
    forall c :: c in plan && c.ShareGraph? ==> c.at == at
  }

  lemma NoNewShares(plan: seq<Change>, at: nat, n: nat)
    requires SharesOnly(plan, at) && at < n
    ensures WithoutNewShares(plan, n) == plan
  {
    assert forall i :: 0 <= i < |plan| ==> plan[i] in plan;
    WithoutNothing(plan, n);
  }

  /** Which sharing changes are needed depends on the permissions only. */
  lemma PermitDry(e: Entry, f: Entry, at: nat, path: string, want: Option<Rights>, cfg: Config)
    requires want in [None, Some(SHARED)] && e.perms.Some? == f.perms.Some?
    requires e.perms.Some? ==> AlreadyAgrees(e.perms.value, path, want) == AlreadyAgrees(f.perms.value, path, want)
    ensures var wet, dry := Permit(e, at, path, want, Wet(cfg)), Permit(f, at, path, want, Dry(cfg));
            && dry.entry == f && dry.writes == [] && dry.plan == wet.plan && dry.failed == wet.failed
            && wet.entry.graph == e.graph && wet.entry.perms.Some? == e.perms.Some?
            && SharesOnly(wet.plan, at)
            && (e.perms.Some? ==>
                  && !wet.failed
                  && forall other :: other != path ==>
                     AlreadyAgrees(wet.entry.perms.value, other, None) == AlreadyAgrees(e.perms.value, other, None))
  {
    PermissionWrite(e.perms, path, want, cfg.serviceUser);
    PermissionWrite(f.perms, path, want, cfg.serviceUser);
    if f.perms.Some? {
      var next := Adjusted(f.perms.value, path, want, cfg.serviceUser);
      assert cfg.serviceUser in next.users && next.users[cfg.serviceUser].administrate;
    }
  }

  lemma ReshareDry(e: Entry, f: Entry, at: nat, group: Group, previous: string, cfg: Config)
    requires e.perms == f.perms
    ensures var wet, dry := Reshare(e, at, group, previous, Wet(cfg)), Reshare(f, at, group, previous, Dry(cfg));
            && dry.entry == f && dry.writes == [] && dry.plan == wet.plan && dry.failed == wet.failed
            && SharesOnly(wet.plan, at)
  {
    hide SetGroupPermission, Permit;
    PermitDry(e, f, at, group.path, Some(SHARED), cfg);
    var shared := Permit(e, at, group.path, Some(SHARED), Wet(cfg));
    if !shared.failed && previous != "" && previous != group.path {
      assert f.perms.Some? by { FailsWithoutResource(e, at, group.path, Some(SHARED), Wet(cfg)); }
      PermitDry(shared.entry, f, at, previous, None, cfg);
    }
  }

  lemma FailsWithoutResource(e: Entry, at: nat, path: string, want: Option<Rights>, cfg: Config)
    ensures e.perms.None? ==> Permit(e, at, path, want, cfg).failed
  {}

  lemma UpdateStepDry(e: Entry, at: nat, group: Group, view: View, cfg: Config)
    requires cfg.opts.FreshIds()
    ensures var wet, dry := UpdateStep(e, at, group, view, Wet(cfg)), UpdateStep(e, at, group, view, Dry(cfg));
            && dry.entry == e && dry.writes == [] && dry.plan == wet.plan && dry.failed == wet.failed
            && SharesOnly(wet.plan, at)
  {
    hide Reshare, Revise;
    var r := Revise(e.graph, group, view.devicesOf(group.path), view.readings, cfg.opts, cfg.platform);
    if r.Revision? {
      ReshareDry(Save(e, at, r.graph, Wet(cfg)).entry, e, at, group, GroupPathOf(e.graph), cfg);
      ReshareDry(e, e, at, group, GroupPathOf(e.graph), cfg);
    }
  }

  lemma OrphanStepDry(e: Entry, at: nat, path: string, cfg: Config)
    ensures var wet, dry := OrphanStep(e, at, path, Wet(cfg)), OrphanStep(e, at, path, Dry(cfg));
            && dry.entry == e && dry.writes == [] && dry.plan == wet.plan && dry.failed == wet.failed
            && SharesOnly(wet.plan, at)
  {
    hide Permit;
    PermitDry(e, e, at, path, None, cfg);
  }

  lemma CreateJobDry(w: World, wq: World, group: Group, view: View, cfg: Config)
    requires cfg.opts.FreshIds() && |w| <= |wq|
    ensures var wet, dry := Apply(wq, CreateJob(group), view, Wet(cfg)), Apply(w, CreateJob(group), view, Dry(cfg));
            && dry.world == w && dry.writes == [] && dry.plan == WithoutNewShares(wet.plan, |w|)
            && wq <= wet.world
  {
    hide Generated, CreateStep, WithoutNewShares, CreateDetails;
    var g := Generated(group, view, cfg);
    GeneratedSame(group, view, cfg);
    var planned := [CreateGraph(group, g, CreateDetails(group, view, cfg))];
    WithoutNothing(planned, |w|);
    WithoutNothing([], |w|);
    var d := CreateStep(|wq|, group, view, Wet(cfg));
    CreatePlan(|wq|, |w|, group, view, Wet(cfg));
    WithoutAppend(planned, d.plan, |w|);
  }

  lemma CreatePlan(at: nat, n: nat, group: Group, view: View, cfg: Config)
    requires cfg.opts.FreshIds() && n <= at
    ensures WithoutNewShares(CreateStep(at, group, view, cfg).plan, n) == []
  {
    hide SetGroupPermission, Generated;
    var share := [ShareGraph(at, group.path)];
    assert share[1..] == [];
    assert WithoutNewShares(share, n) == [];
  }

  lemma GeneratedSame(group: Group, view: View, cfg: Config)
    requires cfg.opts.FreshIds()
    ensures Generated(group, view, Wet(cfg)) == Generated(group, view, cfg) == Generated(group, view, Dry(cfg))
    ensures CreateDetails(group, view, Wet(cfg)) == CreateDetails(group, view, cfg) ==
            CreateDetails(group, view, Dry(cfg))
  {}

  lemma ApplyDry(w: World, wq: World, job: Job, view: View, cfg: Config)
    requires cfg.opts.FreshIds() && |w| <= |wq| && (!job.CreateJob? ==> job.at < |w| && wq[job.at] == w[job.at])
    ensures var wet, dry := Apply(wq, job, view, Wet(cfg)), Apply(w, job, view, Dry(cfg));
            && dry.world == w && dry.writes == [] && dry.plan == WithoutNewShares(wet.plan, |w|)
            && |wq| <= |wet.world|
            && (forall i :: 0 <= i < |wq| && (job.CreateJob? || job.at != i) ==> wet.world[i] == wq[i])
  {
    hide UpdateStep, OrphanStep, CreateStep, Generated, WithoutNewShares;
    match job
    case UpdateJob(at, group) =>
      UpdateStepDry(w[at], at, group, view, cfg);
      NoNewShares(UpdateStep(w[at], at, group, view, Wet(cfg)).plan, at, |w|);
      assert w[at := w[at]] == w;
    case OrphanJob(at, path) =>
      OrphanStepDry(w[at], at, path, cfg);
      NoNewShares(OrphanStep(w[at], at, path, Wet(cfg)).plan, at, |w|);
      assert w[at := w[at]] == w;
    case CreateJob(group) =>
      CreateJobDry(w, wq, group, view, cfg);
      assert forall i :: 0 <= i < |wq| ==> Apply(wq, job, view, Wet(cfg)).world[i] == wq[i];
  }

  lemma {:induction false} RunAllDry(w: World, wq: World, jobs: seq<Job>, view: View, cfg: Config)
    requires cfg.opts.FreshIds() && |w| <= |wq| && InRange(jobs, |w|) && Apart(jobs)
    requires forall i :: 0 <= i < |jobs| && !jobs[i].CreateJob? ==> wq[jobs[i].at] == w[jobs[i].at]
    ensures var wet, dry := RunAll(wq, jobs, view, Wet(cfg)), RunAll(w, jobs, view, Dry(cfg));
            dry.world == w && dry.writes == [] && dry.plan == WithoutNewShares(wet.plan, |w|)
    decreases |jobs|
  {
    hide Apply, WithoutNewShares;
    if jobs == [] {
      WithoutNothing([], |w|);
    } else {
      ApplyDry(w, wq, jobs[0], view, cfg);
      var first := Apply(wq, jobs[0], view, Wet(cfg));
      RunAllDry(w, first.world, jobs[1..], view, cfg);
      WithoutAppend(first.plan, RunAll(first.world, jobs[1..], view, Wet(cfg)).plan, |w|);
    }
  }

  /**
   * Dry-run fidelity. From the same stored graphs, groups, devices and readings, a pass with writing
   * disabled plans what the writing pass plans, minus the share entries of the graphs that pass
   * created, and leaves graphs and permissions untouched.
   */
  lemma DryRunFaithful(w: World, view: View, cfg: Config)
    requires cfg.opts.FreshIds() && DistinctGroups(view.groups)
    ensures var wet, dry := Full(w, view, Wet(cfg)), Full(w, view, Dry(cfg));
            dry.world == w && dry.writes == [] && dry.plan == WithoutNewShares(wet.plan, |w|)
  {
    hide RunAll, Jobs;
    JobsInRange(w, view);
    JobsApart(w, view);
    RunAllDry(w, w, Jobs(w, view), view, cfg);
  }
}
