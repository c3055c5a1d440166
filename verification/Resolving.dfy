/** Turning a batch of triggers into group work: what they name is re-read, and its groups are asked for. */
module Resolving {
  import opened Sorting
  import opened Model
  import opened Cache
  import opened Requests
  import P = Pending

  /** What looking up a graph answers: it is gone, it could not be read, or the group path it carries. */
  datatype Lookup = Deleted | Unread | Found(path: string)

  /** The view, the wishes, and which devices were re-read on the way. */
  datatype Knowledge = Knowledge(view: map<Id, Device>, requested: set<string>, all: bool, reread: set<Id>)

  function Paths(groups: seq<string>): set<string> { set i | 0 <= i < |groups| :: groups[i] }

  /** Both the groups it was in and those it is in now are asked for. */
  ghost function AfterDevice(k: Knowledge, s: Sources, id: Id, up: Reach): Knowledge {
    if !CanRead(s, id, up) then k
    else
      var change := ChangeOf(k.view, s, id);
      Knowledge(Refreshed(k.view, s, id), k.requested + Paths(change.previousGroups) + Paths(change.Groups()), k.all,
        k.reread + {id})
  }

  ghost function AfterDevices(k: Knowledge, s: Sources, ids: seq<Id>, up: Reach): Knowledge {
    if ids == [] then k else AfterDevice(AfterDevices(k, s, ids[..|ids| - 1], up), s, ids[|ids| - 1], up)
  }

  ghost function AfterTrigger(k: Knowledge, s: Sources, t: P.Trigger, up: Reach, lookup: Id -> Lookup): Knowledge {
    match t.kind
    case DeviceKind => AfterDevice(k, s, t.id, up)
    case DeviceTypeKind => AfterDevices(k, s, OfType(k.view, t.id), up)
    case GraphKind =>
      match lookup(t.id)
      case Deleted => k.(all := true)
      case Unread => k
      case Found(path) => if path == "" then k else k.(requested := k.requested + {path})
  }

  ghost function AfterBatch(k: Knowledge, s: Sources, ts: seq<P.Trigger>, up: Reach, lookup: Id -> Lookup): Knowledge {
    if ts == [] then k else AfterTrigger(AfterBatch(k, s, ts[..|ts| - 1], up, lookup), s, ts[|ts| - 1], up, lookup)
  }

  /** The cache and the wishes are as the knowledge has them. */
  ghost predicate Knows(cache: Store, wishes: Wishes, k: Knowledge)
    reads cache, wishes
  {
    cache.deviceById == k.view && wishes.requested == k.requested && wishes.all == k.all
  }

  method ResolveDevice(cache: Store, wishes: Wishes, s: Sources, id: Id, up: Reach, ghost k: Knowledge)
    requires DistinctSources(s) && Knows(cache, wishes, k)
    modifies cache`deviceById, cache`readings, wishes
    ensures Knows(cache, wishes, AfterDevice(k, s, id, up))
  {
    hide Refreshed, ChangeOf, Paths;
    var ok, change := cache.RefreshDevice(s, id, up);
    if !ok {
      return;
    }
    var affected := AffectedGroups(change);
    AskFor(wishes, affected);
    SamePaths(affected, change.previousGroups, change.Groups());
  }

  method AskFor(wishes: Wishes, paths: seq<string>)
    modifies wishes
    ensures wishes.requested == old(wishes.requested) + Paths(paths) && wishes.all == old(wishes.all)
  {
    for i := 0 to |paths|
      invariant wishes.requested == old(wishes.requested) + Paths(paths[..i]) && wishes.all == old(wishes.all)
    {
      PathsGrow(paths, i);
      wishes.RequestGroup(paths[i]);
      wishes.Signal();
    }
    assert paths[..|paths|] == paths;
  }

  lemma SamePaths(affected: seq<string>, a: seq<string>, b: seq<string>)
    requires forall p :: p in affected <==> p in a || p in b
    ensures Paths(affected) == Paths(a) + Paths(b)
  {
    forall p ensures p in Paths(affected) <==> p in Paths(a) + Paths(b) {
      InPaths(affected, p);
      InPaths(a, p);
      InPaths(b, p);
    }
  }

  lemma PathsGrow(groups: seq<string>, i: nat)
    requires i < |groups|
    ensures Paths(groups[..i + 1]) == Paths(groups[..i]) + {groups[i]}
  {
    forall p ensures p in Paths(groups[..i + 1]) <==> p in Paths(groups[..i]) + {groups[i]} {
      InPaths(groups[..i + 1], p);
      InPaths(groups[..i], p);
      assert groups[..i + 1] == groups[..i] + [groups[i]];
    }
  }

  lemma InPaths(groups: seq<string>, p: string)
    ensures p in Paths(groups) <==> p in groups
  {}

  method ResolveDevices(cache: Store, wishes: Wishes, s: Sources, ids: seq<Id>, up: Reach, ghost k: Knowledge)
    requires DistinctSources(s) && Knows(cache, wishes, k)
    modifies cache`deviceById, cache`readings, wishes
    ensures Knows(cache, wishes, AfterDevices(k, s, ids, up))
  {
    for i := 0 to |ids|
      invariant Knows(cache, wishes, AfterDevices(k, s, ids[..i], up))
    {
      assert ids[..i + 1][..i] == ids[..i];
      ResolveDevice(cache, wishes, s, ids[i], up, AfterDevices(k, s, ids[..i], up));
    }
    assert ids[..|ids|] == ids;
  }

  method ResolveOne(cache: Store, wishes: Wishes, s: Sources, t: P.Trigger, up: Reach, lookup: Id -> Lookup,
      ghost k: Knowledge)
    requires DistinctSources(s) && Knows(cache, wishes, k)
    modifies cache`deviceById, cache`readings, wishes
    ensures Knows(cache, wishes, AfterTrigger(k, s, t, up, lookup))
  {
    match t.kind {
      case DeviceKind => ResolveDevice(cache, wishes, s, t.id, up, k);
      case DeviceTypeKind =>
        var ids := cache.DevicesOfDeviceType(t.id);
        ResolveDevices(cache, wishes, s, ids, up, k);
      case GraphKind =>
        var found := lookup(t.id);
        if found.Deleted? {
          wishes.RequestAll();
          wishes.Signal();
        } else if found.Found? && found.path != "" {
          wishes.RequestGroup(found.path);
          wishes.Signal();
        }
    }
  }

  method Resolve(cache: Store, wishes: Wishes, s: Sources, ts: seq<P.Trigger>, up: Reach, lookup: Id -> Lookup)
    requires DistinctSources(s)
    modifies cache`deviceById, cache`readings, wishes
    ensures Knows(cache, wishes,
                  AfterBatch(Knowledge(old(cache.deviceById), old(wishes.requested), old(wishes.all), {}), s, ts, up,
                    lookup))
  {
    ghost var k := Knowledge(cache.deviceById, wishes.requested, wishes.all, {});
    for i := 0 to |ts|
      invariant Knows(cache, wishes, AfterBatch(k, s, ts[..i], up, lookup))
    {
      assert ts[..i + 1][..i] == ts[..i];
      ResolveOne(cache, wishes, s, ts[i], up, lookup, AfterBatch(k, s, ts[..i], up, lookup));
    }
    assert ts[..|ts|] == ts;
  }

  // ---- the triggers cover the change ----

  function At(view: map<Id, Device>, id: Id): Option<Device> { if id in view then Some(view[id]) else None }

  function GroupsAt(view: map<Id, Device>, id: Id): set<string> { if id in view then Paths(view[id].groups) else {} }

  /**
   * Who was re-read is as the sources are now, with the groups before and after asked for; who was not is as
   * before.
   */
  ghost predicate HalfWay(before: Sources, after: Sources, k: Knowledge) {
    forall id ::
      && At(k.view, id) == At(FullView(if id in k.reread then after else before), id)
      && (id in k.reread ==>
         GroupsAt(FullView(before), id) <= k.requested && GroupsAt(FullView(after), id) <= k.requested)
  }

  lemma DeviceKeepsHalfWay(before: Sources, after: Sources, k: Knowledge, id: Id, up: Reach)
    requires DistinctSources(after) && HalfWay(before, after, k)
    ensures HalfWay(before, after, AfterDevice(k, after, id, up))
    ensures k.reread <= AfterDevice(k, after, id, up).reread
  {
    hide FullView, DeviceNow, Paths, CanRead;
    if CanRead(after, id, up) {
      var n := AfterDevice(k, after, id, up);
      FullViewIsEachDevice(after, id);
      assert At(k.view, id) == At(FullView(if id in k.reread then after else before), id);
      forall x
        ensures At(n.view, x) == At(FullView(if x in n.reread then after else before), x)
        ensures x in n.reread ==>
                GroupsAt(FullView(before), x) <= n.requested && GroupsAt(FullView(after), x) <= n.requested
      {
        assert At(k.view, x) == At(FullView(if x in k.reread then after else before), x);
      }
    }
  }

  lemma {:induction false} DevicesKeepHalfWay(before: Sources, after: Sources, k: Knowledge, ids: seq<Id>, up: Reach)
    requires DistinctSources(after) && HalfWay(before, after, k)
    ensures var n := AfterDevices(k, after, ids, up);
            HalfWay(before, after, n) && k.reread <= n.reread && forall id :: id in ids && CanRead(after, id, up) ==>
              id in n.reread
  {
    hide HalfWay;
    if ids != [] {
      var shorter := ids[..|ids| - 1];
      DevicesKeepHalfWay(before, after, k, shorter, up);
      DeviceKeepsHalfWay(before, after, AfterDevices(k, after, shorter, up), ids[|ids| - 1], up);
      assert forall id :: id in ids ==> id in shorter || id == ids[|ids| - 1];
    }
  }

  /** The device is named by a trigger, itself or by its type as last known, and can be read. */
  ghost predicate Named(view: map<Id, Device>, ts: seq<P.Trigger>, id: Id, s: Sources, up: Reach) {
    CanRead(s, id, up) &&
      (P.Trigger(P.DeviceKind, id) in ts || (id in view && P.Trigger(P.DeviceTypeKind, view[id].deviceTypeId) in ts))
  }

  lemma TriggerKeepsHalfWay(before: Sources, after: Sources, k: Knowledge, t: P.Trigger, up: Reach,
      lookup: Id -> Lookup, id: Id)
    requires DistinctSources(after) && HalfWay(before, after, k)
    ensures var n := AfterTrigger(k, after, t, up, lookup);
            && HalfWay(before, after, n) && k.reread <= n.reread
            && (Named(FullView(before), [t], id, after, up) ==> id in n.reread)
  {
    hide FullView, ChangeOf, Refreshed, Paths;
    assert At(k.view, id) == At(FullView(if id in k.reread then after else before), id);
    match t.kind {
      case DeviceKind => DeviceKeepsHalfWay(before, after, k, t.id, up);
      case DeviceTypeKind => DevicesKeepHalfWay(before, after, k, OfType(k.view, t.id), up);
      case GraphKind =>
    }
  }

  lemma {:induction false} BatchKeepsHalfWay(before: Sources, after: Sources, k: Knowledge, ts: seq<P.Trigger>,
      up: Reach, lookup: Id -> Lookup, id: Id)
    requires DistinctSources(after) && HalfWay(before, after, k)
    ensures var n := AfterBatch(k, after, ts, up, lookup);
            && HalfWay(before, after, n) && k.reread <= n.reread
            && (Named(FullView(before), ts, id, after, up) ==> id in n.reread)
  {
    hide HalfWay, FullView, AfterTrigger;
    if ts != [] {
      var shorter, t := ts[..|ts| - 1], ts[|ts| - 1];
      BatchKeepsHalfWay(before, after, k, shorter, up, lookup, id);
      TriggerKeepsHalfWay(before, after, AfterBatch(k, after, shorter, up, lookup), t, up, lookup, id);
      assert forall x :: x in ts ==> x in shorter || x in [t];
    }
  }

  /** Between the two states of the sources, only devices the triggers name and that can be read changed. */
  ghost predicate Triggered(before: Sources, after: Sources, ts: seq<P.Trigger>, up: Reach) {
    forall id :: At(FullView(before), id) != At(FullView(after), id) ==> Named(FullView(before), ts, id, after, up)
  }

  /**
   * From the view of an earlier sweep, resolving a batch that names every device changed since leaves
   * the view a full sweep would build now - and every group whose list of devices is not what it was
   * has been asked for.
   */
  lemma TriggersCoverTheChange(before: Sources, after: Sources, ts: seq<P.Trigger>, up: Reach, lookup: Id -> Lookup,
                               requested: set<string>, all: bool, path: string, was: seq<Device>, now: seq<Device>)
    requires DistinctSources(after) && Triggered(before, after, ts, up)
    requires Lists(FullView(before), path, was) && Lists(FullView(after), path, now)
    ensures var n := AfterBatch(Knowledge(FullView(before), requested, all, {}), after, ts, up, lookup);
            n.view == FullView(after) && (was != now ==> path in n.requested)
  {
    hide FullView, AfterBatch, Named, Lists;
    var k := Knowledge(FullView(before), requested, all, {});
    var n := AfterBatch(k, after, ts, up, lookup);
    assert HalfWay(before, after, k);
    forall id ensures At(n.view, id) == At(FullView(after), id) &&
      (id !in n.reread ==> At(FullView(before), id) == At(FullView(after), id)) {
      BatchKeepsHalfWay(before, after, k, ts, up, lookup, id);
    }
    SameView(n.view, FullView(after));
    if path !in n.requested {
      BatchKeepsHalfWay(before, after, k, ts, up, lookup, "");
      forall x | x in n.reread
        ensures path !in GroupsAt(FullView(before), x) && path !in GroupsAt(FullView(after), x) {}
      SameListByChanges(FullView(before), FullView(after), n.reread, path, was, now);
    }
  }

  lemma SameView(a: map<Id, Device>, b: map<Id, Device>)
    requires forall id :: At(a, id) == At(b, id)
    ensures a == b
  {
    assert forall id :: id in a <==> At(a, id).Some?;
    forall id ensures id in a <==> id in b {
      assert At(a, id) == At(b, id);
    }
    forall id | id in a ensures a[id] == b[id] {
      assert At(a, id) == At(b, id);
    }
  }

  lemma SameListByChanges(a: map<Id, Device>, b: map<Id, Device>, changed: set<Id>, path: string, was: seq<Device>,
      now: seq<Device>)
    requires forall id :: id !in changed ==> At(a, id) == At(b, id)
    requires forall id :: id in changed ==> path !in GroupsAt(a, id) && path !in GroupsAt(b, id)
    requires Lists(a, path, was) && Lists(b, path, now)
    ensures was == now
  {
    hide Lists;
    forall x | x in a && path in a[x].groups ensures x in b && b[x] == a[x] {
      InPaths(a[x].groups, path);
      assert x !in changed && At(a, x) == At(b, x);
    }
    forall x | x in b && path in b[x].groups ensures x in a && a[x] == b[x] {
      InPaths(b[x].groups, path);
      assert x !in changed && At(a, x) == At(b, x);
    }
    SameList(a, b, path, was, now);
  }

  // ---- what a batch asks for, and nothing else ----

  /** A trigger names a graph that carries the path. */
  ghost predicate GraphAsks(ts: seq<P.Trigger>, lookup: Id -> Lookup, path: string) {
    path != "" && exists t :: t in ts && t.kind == P.GraphKind && lookup(t.id) == Found(path)
  }

  ghost predicate GraphGone(ts: seq<P.Trigger>, lookup: Id -> Lookup) {
    exists t :: t in ts && t.kind == P.GraphKind && lookup(t.id) == Deleted
  }

  /** The device was re-read, and was in the group or is in it now. */
  ghost predicate Touched(was: map<Id, Device>, n: Knowledge, path: string) {
    exists id :: id in n.reread && (path in GroupsAt(was, id) || path in GroupsAt(n.view, id))
  }

  /**
   * Who was re-read is as the sources have it, with the groups before and after asked for; who was not is as
   * it was.
   */
  ghost predicate Reread(k: Knowledge, s: Sources, n: Knowledge) {
    forall id ::
      if id in n.reread then
        At(n.view, id) == DeviceNow(s, id) && GroupsAt(k.view, id) <= n.requested && GroupsAt(n.view, id) <= n.requested
      else At(n.view, id) == At(k.view, id)
  }

  /** The paths asked for are the ones asked for before, those of the graphs, and those of the devices re-read. */
  ghost predicate AsksOnly(k: Knowledge, ts: seq<P.Trigger>, lookup: Id -> Lookup, n: Knowledge) {
    && (n.all <==> k.all || GraphGone(ts, lookup))
    && k.requested <= n.requested
    && (forall path :: GraphAsks(ts, lookup, path) ==> path in n.requested)
    && (forall path :: path in n.requested ==>
          path in k.requested || GraphAsks(ts, lookup, path) || Touched(k.view, n, path))
  }

  lemma DeviceRereads(k: Knowledge, s: Sources, n: Knowledge, id: Id, up: Reach)
    requires Reread(k, s, n)
    ensures Reread(k, s, AfterDevice(n, s, id, up))
  {
    hide DeviceNow, Paths, CanRead;
    var m := AfterDevice(n, s, id, up);
    if CanRead(s, id, up) {
      assert At(m.view, id) == DeviceNow(s, id);
      forall x | x != id ensures At(m.view, x) == At(n.view, x) && GroupsAt(m.view, x) == GroupsAt(n.view, x) {}
    }
  }

  lemma DeviceAsksOnly(k: Knowledge, s: Sources, ts: seq<P.Trigger>, lookup: Id -> Lookup, n: Knowledge, id: Id,
      up: Reach)
    requires Reread(k, s, n) && AsksOnly(k, ts, lookup, n)
    ensures AsksOnly(k, ts, lookup, AfterDevice(n, s, id, up))
  {
    assert Paths([]) == {};
    hide DeviceNow, Paths, CanRead, GraphAsks, GraphGone;
    var m := AfterDevice(n, s, id, up);
    if CanRead(s, id, up) {
      assert At(m.view, id) == DeviceNow(s, id) && id in m.reread;
      forall x ensures x in n.reread ==> GroupsAt(m.view, x) == GroupsAt(n.view, x) {
        assert x in n.reread ==> At(n.view, x) == DeviceNow(s, x);
        SameGroupsAt(m.view, n.view, x);
      }
      forall path | path in m.requested
        ensures path in k.requested || GraphAsks(ts, lookup, path) || Touched(k.view, m, path)
      {
        if path in n.requested {
          if Touched(k.view, n, path) {
            var x :| x in n.reread && (path in GroupsAt(k.view, x) || path in GroupsAt(n.view, x));
            assert x in m.reread;
          }
        } else {
          SameGroupsAt(n.view, k.view, id);
          SameGroupsAt(n.view, m.view, id);
          assert path in GroupsAt(n.view, id) || path in GroupsAt(m.view, id);
        }
      }
    }
  }

  lemma SameGroupsAt(a: map<Id, Device>, b: map<Id, Device>, id: Id)
    ensures At(a, id) == At(b, id) ==> GroupsAt(a, id) == GroupsAt(b, id)
  {}

  lemma {:induction false} DevicesAskOnly(k: Knowledge, s: Sources, ts: seq<P.Trigger>, lookup: Id -> Lookup,
      n: Knowledge, ids: seq<Id>, up: Reach)
    requires Reread(k, s, n) && AsksOnly(k, ts, lookup, n)
    ensures var m := AfterDevices(n, s, ids, up); Reread(k, s, m) && AsksOnly(k, ts, lookup, m)
  {
    hide Reread, AsksOnly;
    if ids != [] {
      var shorter := ids[..|ids| - 1];
      DevicesAskOnly(k, s, ts, lookup, n, shorter, up);
      DeviceRereads(k, s, AfterDevices(n, s, shorter, up), ids[|ids| - 1], up);
      DeviceAsksOnly(k, s, ts, lookup, AfterDevices(n, s, shorter, up), ids[|ids| - 1], up);
    }
  }

  lemma MoreTriggers(ts: seq<P.Trigger>, t: P.Trigger, lookup: Id -> Lookup)
    ensures GraphGone(ts + [t], lookup) <==> GraphGone(ts, lookup) || (t.kind == P.GraphKind && lookup(t.id) == Deleted)
    ensures forall path :: GraphAsks(ts + [t], lookup, path) <==>
              GraphAsks(ts, lookup, path) || (path != "" && t.kind == P.GraphKind && lookup(t.id) == Found(path))
  {
    assert forall x :: x in ts + [t] <==> x in ts || x == t;
  }

  lemma TriggerAsksOnly(k: Knowledge, s: Sources, ts: seq<P.Trigger>, t: P.Trigger, lookup: Id -> Lookup, n: Knowledge,
      up: Reach)
    requires Reread(k, s, n) && AsksOnly(k, ts, lookup, n)
    ensures var m := AfterTrigger(n, s, t, up, lookup); Reread(k, s, m) && AsksOnly(k, ts + [t], lookup, m)
  {
    hide GraphAsks, GraphGone;
    MoreTriggers(ts, t, lookup);
    match t.kind {
      case DeviceKind =>
        DeviceRereads(k, s, n, t.id, up);
        DeviceAsksOnly(k, s, ts, lookup, n, t.id, up);
      case DeviceTypeKind => DevicesAskOnly(k, s, ts, lookup, n, OfType(n.view, t.id), up);
      case GraphKind =>
        var m := AfterTrigger(n, s, t, up, lookup);
        assert m.view == n.view && m.reread == n.reread;
        assert forall path :: Touched(k.view, n, path) ==> Touched(k.view, m, path);
    }
  }

  /**
   * A batch asks for everything exactly if a graph it names is gone. The paths it asks for are those of the
   * graphs it names and those of the devices it re-read, before and after; who was re-read is as the sources
   * have it, and nobody else is touched.
   */
  lemma {:induction false} BatchAsksOnly(k: Knowledge, s: Sources, ts: seq<P.Trigger>, up: Reach, lookup: Id -> Lookup)
    requires k.reread == {}
    ensures var n := AfterBatch(k, s, ts, up, lookup); Reread(k, s, n) && AsksOnly(k, ts, lookup, n)
  {
    hide AfterTrigger;
    if ts != [] {
      var shorter, t := ts[..|ts| - 1], ts[|ts| - 1];
      hide Reread, AsksOnly;
      BatchAsksOnly(k, s, shorter, up, lookup);
      assert shorter + [t] == ts;
      TriggerAsksOnly(k, s, shorter, t, lookup, AfterBatch(k, s, shorter, up, lookup), up);
    }
  }
}
