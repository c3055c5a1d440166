/** The only writer of graph permissions, and what a group can rely on across renames and crashes. */
module Sharing {
  import opened Sorting
  import opened Model

  datatype Rights = Rights(read: bool, write: bool, execute: bool, administrate: bool)

  datatype Perms = Perms(users: map<Id, Rights>, groups: map<string, Rights>, roles: map<string, Rights>)

  const SHARED := Rights(true, true, true, false)
  const OWNER := Rights(true, true, true, true)

  /** A resource without an administrating user is invalid to the permission service. */
  predicate Administrated(p: Perms) {
    exists u :: u in p.users && p.users[u].administrate
  }

  datatype PermissionOutcome =
    | Agrees
    | Skipped              // writing is disabled and a write was needed
    | Written(perms: Perms)
    | NoResource
    | Unadministrated

  /** One group's entry is set, or removed when `want` is None; the service user keeps administrate. */
  function Adjusted(p: Perms, path: string, want: Option<Rights>, serviceUser: Id): Perms {
    var groups := if want.Some? then p.groups[path := want.value] else p.groups - {path};
    var users := if serviceUser in p.users &&
      p.users[serviceUser].administrate then p.users else p.users[serviceUser := OWNER];
    Perms(users, groups, p.roles)
  }

  predicate AlreadyAgrees(p: Perms, path: string, want: Option<Rights>) {
    if want.None? then path !in p.groups else path in p.groups && p.groups[path] == want.value
  }

  function SetGroupPermission(resource: Option<Perms>, path: string, want: Option<Rights>, serviceUser: Id,
      writable: bool): PermissionOutcome {
    if resource.None? then NoResource
    else if AlreadyAgrees(resource.value, path, want) then Agrees
    else
      var next := Adjusted(resource.value, path, want, serviceUser);
      if !Administrated(next) then Unadministrated
      else if !writable then Skipped
      else Written(next)
  }

  function Share(resource: Option<Perms>, path: string, serviceUser: Id, writable: bool): PermissionOutcome {
    SetGroupPermission(resource, path, Some(SHARED), serviceUser, writable)
  }

  function Unshare(resource: Option<Perms>, path: string, serviceUser: Id, writable: bool): PermissionOutcome {
    SetGroupPermission(resource, path, None, serviceUser, writable)
  }

  class PermissionStore {
    var resources: map<Id, Perms>
    var writes: nat

    constructor (r: map<Id, Perms>)
      ensures resources == r && writes == 0
    {
      resources, writes := r, 0;
    }

    function Resource(graphId: Id): Option<Perms>
      reads this
    {
      if graphId in resources then Some(resources[graphId]) else None
    }

    /** Reads, compares, and only then writes one resource. */
    method SetGroup(graphId: Id, path: string, want: Option<Rights>, serviceUser: Id, writable: bool)
      returns (outcome: PermissionOutcome)
      modifies this
      ensures outcome == SetGroupPermission(old(Resource(graphId)), path, want, serviceUser, writable)
      ensures resources == if outcome.Written? then old(resources)[graphId := outcome.perms] else old(resources)
      ensures writes == old(writes) + if outcome.Written? then 1 else 0
    {
      if graphId !in resources { return NoResource; }
      var users, groups, roles := resources[graphId].users, resources[graphId].groups, resources[graphId].roles;
      if want.None? && path !in groups { return Agrees; }
      if want.Some? && path in groups && groups[path] == want.value { return Agrees; }
      if want.None? {
        groups := groups - {path};
      } else {
        groups := groups[path := want.value];
      }
      if !(serviceUser in users && users[serviceUser].administrate) {
        users := users[serviceUser := OWNER];
      }
      var next := Perms(users, groups, roles);
      if !Administrated(next) { return Unadministrated; }
      if !writable { return Skipped; }
      resources := resources[graphId := next];
      writes := writes + 1;
      return Written(next);
    }
  }

  // ---- what every permission write keeps ----

  /**
   * A permission write touches one group's entry only, never lets a group administrate that did
   * not already, leaves the service user administrating, and asking again finds nothing to do.
   * "Left without an administrating user" is unreachable.
   */
  lemma PermissionWrite(resource: Option<Perms>, path: string, want: Option<Rights>, serviceUser: Id)
    requires want in [None, Some(SHARED)]
    ensures var r := SetGroupPermission(resource, path, want, serviceUser, true);
            && !r.Unadministrated? && !r.Skipped?
            && (r.Written? ==>
                  var before, after := resource.value, r.perms;
                  && (forall g :: g != path ==> (g in after.groups <==> g in before.groups))
                  && (forall g :: g in after.groups && g != path ==> after.groups[g] == before.groups[g])
                  && (forall g :: g in after.groups && after.groups[g].administrate ==>
                     g in before.groups && before.groups[g].administrate)
                  && (forall u :: u in before.users && u != serviceUser ==>
                     u in after.users && after.users[u] == before.users[u])
                  && serviceUser in after.users && after.users[serviceUser].administrate
                  && after.roles == before.roles
                  && SetGroupPermission(Some(after), path, want, serviceUser, true) == Agrees)
  {
    if resource.Some? {
      var next := Adjusted(resource.value, path, want, serviceUser);
      assert serviceUser in next.users && next.users[serviceUser].administrate;
    }
  }

  // ---- a rename never costs the group its access ----

  /**
   * The life of one default graph. `path` is the path the directory gives the group now, `held`
   * every path it has had; `recorded` is the path attribute on the graph, `shared` the group paths
   * that hold a share. A pass works on the path and attribute it read when it started.
   */
  datatype Phase =
    | Idle
    | Saving(now: string, before: string)       // about to write the graph
    | Granting(now: string, before: string)     // about to share with the new path
    | Withdrawing(now: string, before: string)  // the new share holds; about to withdraw the old one

  datatype Life = Life(path: string, held: set<string>, recorded: string, perms: Perms, phase: Phase)

  /** Nothing below depends on who else holds rights: a share is an entry with read access. */
  predicate HasShare(l: Life, path: string) { path in l.perms.groups && l.perms.groups[path] == SHARED }

  datatype Event =
    | Renamed(to: string)
    | PassStarts
    | GraphSaved
    | ShareChecked
    | OldShareChecked
    | Crashed

  function Outcome(p: Perms, r: PermissionOutcome): Perms { if r.Written? then r.perms else p }

  function Step(l: Life, e: Event, serviceUser: Id): Life {
    match e
    case Renamed(to) => l.(path := to, held := l.held + {to})
    case PassStarts => if l.phase.Idle? then l.(phase := Saving(l.path, l.recorded)) else l
    case GraphSaved =>
      if l.phase.Saving? then l.(recorded := l.phase.now, phase := Granting(l.phase.now, l.phase.before)) else l
    case ShareChecked =>
      if !l.phase.Granting? then l
      else
        var perms := Outcome(l.perms, Share(Some(l.perms), l.phase.now, serviceUser, true));
        if l.phase.before != "" && l.phase.before != l.phase.now
        then l.(perms := perms, phase := Withdrawing(l.phase.now, l.phase.before))
        else l.(perms := perms, phase := Idle)
    case OldShareChecked =>
      if !l.phase.Withdrawing? then l
      else l.(perms := Outcome(l.perms, Unshare(Some(l.perms), l.phase.before, serviceUser, true)), phase := Idle)
    case Crashed => l.(phase := Idle)
  }

  function Run(l: Life, events: seq<Event>, serviceUser: Id): Life
    decreases |events|
  {
    if events == [] then l else Run(Step(l, events[0], serviceUser), events[1..], serviceUser)
  }

  ghost predicate Sane(l: Life) {
    && l.path in l.held
    && (!l.phase.Idle? ==> l.phase.now in l.held)
    && (l.phase.Withdrawing? ==> HasShare(l, l.phase.now) && l.phase.now != l.phase.before)
  }

  ghost predicate Accessible(l: Life) {
    exists p :: p in l.held && HasShare(l, p)
  }

  lemma StepKeepsAccess(l: Life, e: Event, serviceUser: Id)
    requires Sane(l)
    ensures var l' := Step(l, e, serviceUser);
            Sane(l') && l.held <= l'.held && (Accessible(l) ==> Accessible(l'))
            && (l.phase.Granting? && e.ShareChecked? ==> Accessible(l'))
  {
    var l' := Step(l, e, serviceUser);
    if l.phase.Granting? && e.ShareChecked? {
      PermissionWrite(Some(l.perms), l.phase.now, Some(SHARED), serviceUser);
      assert HasShare(l', l.phase.now);
    } else if l.phase.Withdrawing? && e.OldShareChecked? {
      PermissionWrite(Some(l.perms), l.phase.before, None, serviceUser);
      assert HasShare(l', l.phase.now);
    } else if Accessible(l) {
      var p :| p in l.held && HasShare(l, p);
      assert HasShare(l', p);
    }
  }

  /**
   * Any run of passes, renames and crashes after any single write: once the graph has been shared,
   * some path its group has held keeps a share.
   */
  lemma {:induction false} RenameKeepsAccess(l: Life, events: seq<Event>, serviceUser: Id)
    requires Sane(l) && Accessible(l)
    ensures Sane(Run(l, events, serviceUser)) && Accessible(Run(l, events, serviceUser))
    decreases |events|
  {
    if events != [] {
      StepKeepsAccess(l, events[0], serviceUser);
      RenameKeepsAccess(Step(l, events[0], serviceUser), events[1..], serviceUser);
    }
  }

  /** The first share is what makes a graph accessible, and it holds from the check that wrote it on. */
  lemma SharedFromTheFirstCheck(l: Life, events: seq<Event>, serviceUser: Id)
    requires Sane(l) && l.phase.Granting?
    ensures Accessible(Run(Step(l, ShareChecked, serviceUser), events, serviceUser))
  {
    StepKeepsAccess(l, ShareChecked, serviceUser);
    RenameKeepsAccess(Step(l, ShareChecked, serviceUser), events, serviceUser);
  }

  // ---- when a rename takes the old share away ----

  /** Nothing the service still knows of leads back to the path: neither the directory, the graph nor a pass. */
  predicate Forgotten(l: Life, former: string) {
    l.path != former && l.recorded != former && (!l.phase.Idle? ==> l.phase.now != former && l.phase.before != former)
  }

  /** A path forgotten keeps whatever rights it had: no pass shares with it, and none withdraws. */
  lemma {:induction false} ForgottenIsLeftAlone(l: Life, events: seq<Event>, former: string, serviceUser: Id)
    requires Forgotten(l, former) && Renamed(former) !in events
    ensures HasShare(Run(l, events, serviceUser), former) <==> HasShare(l, former)
    decreases |events|
  {
    if events != [] {
      var next := Step(l, events[0], serviceUser);
      if l.phase.Granting? { PermissionWrite(Some(l.perms), l.phase.now, Some(SHARED), serviceUser); }
      if l.phase.Withdrawing? { PermissionWrite(Some(l.perms), l.phase.before, None, serviceUser); }
      assert Forgotten(next, former) by { assert events[0] != Renamed(former); }
      ForgottenIsLeftAlone(next, events[1..], former, serviceUser);
    }
  }

  /** Without a crash in between, the pass gets past its two share checks. */
  predicate Completes(phase: Phase, events: seq<Event>)
    requires phase.Granting? || phase.Withdrawing?
    decreases |events|
  {
    if events == [] || events[0].Crashed? then false
    else if phase.Granting? && events[0].ShareChecked? then Completes(Withdrawing(phase.now, phase.before), events[1..])
    else if phase.Withdrawing? && events[0].OldShareChecked? then true
    else Completes(phase, events[1..])
  }

  /** The pass saved the new path on the graph, and has not withdrawn the old one. */
  predicate HalfRenamed(l: Life, former: string) {
    && (l.phase.Granting? || l.phase.Withdrawing?) && l.phase.before == former && l.phase.now != former
    && former != "" && l.recorded != former && l.path != former
  }

  /**
   * The old share goes exactly when no crash falls between the graph write that records the new path
   * and the check that withdraws the old one - and then nothing that happens later makes up for it,
   * because the attribute that named the old path is overwritten.
   */
  lemma {:induction false} OldShareGoesUnlessCrashed(l: Life, events: seq<Event>, former: string, serviceUser: Id)
    requires HalfRenamed(l, former) && HasShare(l, former) && Renamed(former) !in events
    ensures HasShare(Run(l, events, serviceUser), former) <==> !Completes(l.phase, events)
    decreases |events|
  {
    if events != [] {
      var e, next := events[0], Step(l, events[0], serviceUser);
      assert e != Renamed(former) && Renamed(former) !in events[1..];
      if e.Crashed? {
        ForgottenIsLeftAlone(next, events[1..], former, serviceUser);
      } else if l.phase.Granting? && e.ShareChecked? {
        PermissionWrite(Some(l.perms), l.phase.now, Some(SHARED), serviceUser);
        OldShareGoesUnlessCrashed(next, events[1..], former, serviceUser);
      } else if l.phase.Withdrawing? && e.OldShareChecked? {
        PermissionWrite(Some(l.perms), former, None, serviceUser);
        ForgottenIsLeftAlone(next, events[1..], former, serviceUser);
      } else {
        OldShareGoesUnlessCrashed(next, events[1..], former, serviceUser);
      }
    }
  }

  /** The same from the pass that finds the rename: what comes after its graph write decides. */
  lemma RenameWithdrawsUnlessCrashed(l: Life, events: seq<Event>, serviceUser: Id)
    requires l.phase.Idle? && l.recorded != "" && l.recorded != l.path && HasShare(l, l.recorded)
    requires Renamed(l.recorded) !in events
    ensures HasShare(Run(l, [PassStarts, GraphSaved] + events, serviceUser), l.recorded) <==>
            !Completes(Granting(l.path, l.recorded), events)
  {
    var saved := Step(Step(l, PassStarts, serviceUser), GraphSaved, serviceUser);
    var all := [PassStarts, GraphSaved] + events;
    assert all[1..] == [GraphSaved] + events && all[1..][1..] == events;
    assert Run(l, all, serviceUser) == Run(Step(l, PassStarts, serviceUser), all[1..], serviceUser) ==
           Run(saved, events, serviceUser);
    OldShareGoesUnlessCrashed(saved, events, l.recorded, serviceUser);
  }

  /**
   * The condition is not idle: a crash between the graph write and the withdrawal leaves the old path
   * shared, and the passes after it have nothing left to do.
   */
  lemma CrashedRenameKeepsTheOldShare(serviceUser: Id)
    ensures var l :=
            Life("/new", {"/old", "/new"}, "/old", Perms(map[serviceUser := OWNER], map["/old" := SHARED], map[]),
            Idle);
            var crashed := Run(l, [PassStarts, GraphSaved, Crashed], serviceUser);
            var later := Run(crashed, [PassStarts, GraphSaved, ShareChecked, OldShareChecked], serviceUser);
            later.phase.Idle? && HasShare(later, "/new") && HasShare(later, "/old")
            && Run(later, [PassStarts, GraphSaved, ShareChecked, OldShareChecked], serviceUser) == later
  {
    var l := Life("/new", {"/old", "/new"}, "/old", Perms(map[serviceUser := OWNER], map["/old" := SHARED], map[]),
      Idle);
    var crashed := Step(Step(Step(l, PassStarts, serviceUser), GraphSaved, serviceUser), Crashed, serviceUser);
    assert Run(l, [PassStarts, GraphSaved, Crashed], serviceUser) == crashed by {
      RunThree(l, PassStarts, GraphSaved, Crashed, serviceUser);
    }
    var granted := Perms(map[serviceUser := OWNER], map["/old" := SHARED, "/new" := SHARED], map[]);
    assert Share(Some(l.perms), "/new", serviceUser, true) == Written(granted) by {
      assert Adjusted(l.perms, "/new", Some(SHARED), serviceUser) == granted;
      assert granted.users[serviceUser].administrate;
    }
    RunFour(crashed, PassStarts, GraphSaved, ShareChecked, OldShareChecked, serviceUser);
    var later := Run(crashed, [PassStarts, GraphSaved, ShareChecked, OldShareChecked], serviceUser);
    assert later == Life("/new", {"/old", "/new"}, "/new", granted, Idle);
    RunFour(later, PassStarts, GraphSaved, ShareChecked, OldShareChecked, serviceUser);
  }

  lemma RunTwo(l: Life, a: Event, b: Event, serviceUser: Id)
    ensures Run(l, [a, b], serviceUser) == Step(Step(l, a, serviceUser), b, serviceUser)
  {
    assert [a, b][1..] == [b] && [b][1..] == [];
    assert Run(Step(l, a, serviceUser), [b], serviceUser) ==
           Run(Step(Step(l, a, serviceUser), b, serviceUser), [], serviceUser);
  }

  lemma RunThree(l: Life, a: Event, b: Event, c: Event, serviceUser: Id)
    ensures Run(l, [a, b, c], serviceUser) == Step(Step(Step(l, a, serviceUser), b, serviceUser), c, serviceUser)
  {
    assert [a, b, c][1..] == [b, c] && [b, c][1..] == [c] && [c][1..] == [];
    assert Run(Step(Step(l, a, serviceUser), b, serviceUser), [c], serviceUser)
        == Run(Step(Step(Step(l, a, serviceUser), b, serviceUser), c, serviceUser), [], serviceUser);
  }

  lemma RunFour(l: Life, a: Event, b: Event, c: Event, d: Event, serviceUser: Id)
    ensures Run(l, [a, b, c, d], serviceUser) ==
            Step(Step(Step(Step(l, a, serviceUser), b, serviceUser), c, serviceUser), d, serviceUser)
  {
    assert [a, b, c, d][1..] == [b, c, d];
    RunThree(Step(l, a, serviceUser), b, c, d, serviceUser);
  }
}
