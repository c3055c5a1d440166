/** The view of devices and groups: swept whole, page by page, or refreshed one device at a time. */
module Cache {
  import opened Sorting
  import opened Model
  import opened Sharing

  const PAGE_SIZE := 500

  // ---- what the sources say ----

  /** A device as the repository ships it; without its device type the columns are unknown. */
  datatype Extended = Extended(id: Id, displayName: string, name: string, deviceTypeId: Id,
    columns: Option<seq<Column>>)

  datatype Resource = Resource(id: Id, groups: map<string, Rights>)

  datatype Sources = Sources(devices: seq<Extended>, resources: seq<Resource>)

  ghost predicate DistinctSources(s: Sources) {
    && (forall i, j :: 0 <= i < j < |s.devices| ==> s.devices[i].id != s.devices[j].id)
    && (forall i, j :: 0 <= i < j < |s.resources| ==> s.resources[i].id != s.resources[j].id)
  }

  /** The strings of a set in order: there is one such list. */
  ghost function InOrder(paths: set<string>): (r: seq<string>)
    ensures StrictlySorted(Before, r) && forall p :: p in r <==> p in paths
  {
    SomeOrder(paths);
    var r :| StrictlySorted(Before, r) && forall p :: p in r <==> p in paths;
    r
  }

  lemma {:induction false} SomeOrder(paths: set<string>)
    ensures exists r :: StrictlySorted(Before, r) && forall p :: p in r <==> p in paths
  {
    if paths == {} {
      assert StrictlySorted(Before, []);
    } else {
      var p :| p in paths;
      SomeOrder(paths - {p});
      var rest :| StrictlySorted(Before, rest) && forall q :: q in rest <==> q in paths - {p};
      BeforeIsStrictOrder();
      forall i | 0 <= i < |rest| ensures Before(p, rest[i]) || Before(rest[i], p) {
        assert rest[i] in rest;
        BeforeTotal(p, rest[i]);
      }
      InsertSorts(Before, p, rest);
      InsertMembers(Before, p, rest);
      assert forall q :: q in Insert(Before, p, rest) <==> q in paths;
    }
  }

  lemma OneOrder(paths: set<string>, r: seq<string>)
    requires StrictlySorted(Before, r) && forall p :: p in r <==> p in paths
    ensures r == InOrder(paths)
  {
    BeforeIsStrictOrder();
    SortedUnique(Before, r, InOrder(paths));
  }

  /** The group paths that hold at least read. */
  ghost function Readable(groups: map<string, Rights>): seq<string> {
    InOrder(set p | p in groups && groups[p].read)
  }

  ghost function GroupsIn(resources: seq<Resource>): map<Id, seq<string>> {
    if resources == [] then map[]
    else
      var r := resources[|resources| - 1];
      GroupsIn(resources[..|resources| - 1])[r.id := Readable(r.groups)]
  }

  function ToDevice(x: Extended, groups: seq<string>): Device {
    Device(x.id, if x.displayName == "" then x.name else x.displayName, x.deviceTypeId,
           if x.columns.Some? then x.columns.value else [], groups)
  }

  ghost function GroupsFor(s: Sources, id: Id): seq<string> {
    if id in GroupsIn(s.resources) then GroupsIn(s.resources)[id] else []
  }

  /** The view the sources amount to, device by device. */
  ghost function View(s: Sources, n: nat): map<Id, Device>
    requires n <= |s.devices|
  {
    if n == 0 then map[]
    else
      var x := s.devices[n - 1];
      View(s, n - 1)[x.id := ToDevice(x, GroupsFor(s, x.id))]
  }

  ghost function FullView(s: Sources): map<Id, Device> { View(s, |s.devices|) }

  // ---- the cache ----

  datatype Reading = Reading(value: real, window: int, fetchedAt: int)

  datatype DeviceChange = DeviceChange(id: Id, device: Option<Device>, previousGroups: seq<string>) {
    /** A device that is gone is in no group. */
    function Groups(): seq<string> { if device.Some? then device.value.groups else [] }

    /** The device is there, and is not known under another type. */
    predicate KeepsType(view: map<Id, Device>) {
      device.Some? && (id in view ==> view[id].deviceTypeId == device.value.deviceTypeId)
    }
  }

  method ReadableGroups(groups: map<string, Rights>) returns (r: seq<string>)
    ensures r == Readable(groups)
  {
    var paths := set p | p in groups && groups[p].read;
    var listed := ListOf(paths);
    SortDistinct(listed);
    r := Sort(Before, listed);
    OneOrder(paths, r);
  }

  lemma SortDistinct(listed: seq<string>)
    requires forall i, j :: 0 <= i < j < |listed| ==> listed[i] != listed[j]
    ensures StrictlySorted(Before, Sort(Before, listed)) && forall p :: p in Sort(Before, listed) <==> p in listed
  {
    BeforeIsStrictOrder();
    forall i, j | 0 <= i < j < |listed| ensures Before(listed[i], listed[j]) || Before(listed[j], listed[i]) {
      BeforeTotal(listed[i], listed[j]);
    }
    SortSorts(Before, listed);
  }

  /** Every path whose graph may need to change. */
  method AffectedGroups(change: DeviceChange) returns (r: seq<string>)
    ensures StrictlySorted(Before, r)
    ensures forall p :: p in r <==> p in change.previousGroups || p in change.Groups()
  {
    var all := change.previousGroups + change.Groups();
    var listed: seq<string> := [];
    var seen: set<string> := {};
    for i := 0 to |all|
      invariant forall p :: p in seen <==> p in all[..i]
      invariant forall p :: p in listed <==> p in seen
      invariant forall k, l :: 0 <= k < l < |listed| ==> listed[k] != listed[l]
    {
      if all[i] !in seen {
        seen, listed := seen + {all[i]}, listed + [all[i]];
      }
    }
    assert all[..|all|] == all;
    SortDistinct(listed);
    r := Sort(Before, listed);
  }

  predicate ById(a: Device, b: Device) { Before(a.id, b.id) }

  predicate ByPath(a: Group, b: Group) { Before(a.path, b.path) }

  /** The devices of a view that are in a group, in the order of their ids. */
  ghost predicate Lists(view: map<Id, Device>, path: string, listed: seq<Device>) {
    StrictlySorted(ById, listed) && forall d :: d in listed <==>
      exists id :: id in view && view[id] == d && path in d.groups
  }

  /** Every device is filed under its own id. */
  ghost predicate Filed(view: map<Id, Device>) { forall id :: id in view ==> view[id].id == id }

  /** Which single-device requests the two sources answer. */
  datatype Reach = Reach(repository: Id -> bool, permissions: Id -> bool)

  predicate CanRead(s: Sources, id: Id, up: Reach) {
    up.repository(id) && (FindDevice(s.devices, id).Some? ==> up.permissions(id))
  }

  /** The readings held were read from columns that may be gone, or from a device that is. */
  predicate Retyped(view: map<Id, Device>, change: DeviceChange) {
    change.device.None? || (change.id in view && view[change.id].deviceTypeId != change.device.value.deviceTypeId)
  }

  function Without(readings: map<ReadingKey, Reading>, id: Id): map<ReadingKey, Reading> {
    map key | key in readings && key.deviceId != id :: readings[key]
  }

  /** One page of resources goes into the table. */
  method TakeResources(resources: seq<Resource>, table: map<Id, seq<string>>, offset: nat, end: nat)
    returns (r: map<Id, seq<string>>)
    requires offset <= end <= |resources| && table == GroupsIn(resources[..offset])
    ensures r == GroupsIn(resources[..end])
  {
    r := table;
    var i := offset;
    while i < end
      invariant offset <= i <= end
      invariant r == GroupsIn(resources[..i])
    {
      var groups := ReadableGroups(resources[i].groups);
      r := r[resources[i].id := groups];
      assert resources[..i + 1][..i] == resources[..i];
      i := i + 1;
    }
  }

  /** One page of devices goes into the view. */
  method TakeDevices(s: Sources, groupsByDevice: map<Id, seq<string>>, view: map<Id, Device>, offset: nat, end: nat)
    returns (next: map<Id, Device>)
    requires groupsByDevice == GroupsIn(s.resources) && offset <= end <= |s.devices| && view == View(s, offset)
    ensures next == View(s, end)
  {
    hide GroupsIn, ToDevice;
    next := view;
    var i := offset;
    while i < end
      invariant offset <= i <= end
      invariant next == View(s, i)
    {
      var x := s.devices[i];
      next := next[x.id := ToDevice(x, if x.id in groupsByDevice then groupsByDevice[x.id] else [])];
      i := i + 1;
    }
  }

  method Members(view: map<Id, Device>, path: string) returns (listed: seq<Device>)
    requires Filed(view)
    ensures forall d :: d in listed <==> exists id :: id in view && view[id] == d && path in d.groups
    ensures forall k, l :: 0 <= k < l < |listed| ==> listed[k].id != listed[l].id
  {
    var ids := ListOf(view.Keys);
    listed := [];
    for i := 0 to |ids|
      invariant forall d :: d in listed <==> exists k :: 0 <= k < i && view[ids[k]] == d && path in d.groups
      invariant forall k, l :: 0 <= k < l < |listed| ==> listed[k].id != listed[l].id
    {
      if path in view[ids[i]].groups {
        listed := listed + [view[ids[i]]];
      }
    }
  }

  ghost function OfType(view: map<Id, Device>, deviceTypeId: Id): seq<Id> {
    InOrder(set id | id in view && view[id].deviceTypeId == deviceTypeId)
  }

  /** The page that is short is the last one needed. */
  lemma OnlyTheLastIsShort(n: nat, page: nat, end: nat)
    requires page * PAGE_SIZE <= n &&
             end == if page * PAGE_SIZE + PAGE_SIZE < n then page * PAGE_SIZE + PAGE_SIZE else n
    ensures page <= n / PAGE_SIZE
    ensures if end - page * PAGE_SIZE < PAGE_SIZE then n / PAGE_SIZE == page && end == n
            else end == (page + 1) * PAGE_SIZE && page + 1 <= n / PAGE_SIZE
  {}

  class Store {
    var deviceById: map<Id, Device>
    var groupByPath: map<string, Group>
    var readings: map<ReadingKey, Reading>

    constructor ()
      ensures deviceById == map[] && groupByPath == map[] && readings == map[]
    {
      deviceById, groupByPath, readings := map[], map[], map[];
    }

    /** The permission listing, whole, or nothing when a page could not be read. */
    method ListDeviceGroups(s: Sources, up: nat -> bool) returns (ok: bool, r: map<Id, seq<string>>)
      ensures ok ==> r == GroupsIn(s.resources)
      ensures ok <==> forall k :: 0 <= k <= |s.resources| / PAGE_SIZE ==> up(k)
    {
      r := map[];
      var page := 0;
      assert GroupsIn(s.resources[..0]) == map[];
      hide GroupsIn;
      while true
        invariant 0 <= page && page * PAGE_SIZE <= |s.resources|
        invariant r == GroupsIn(s.resources[..page * PAGE_SIZE])
        invariant forall k :: 0 <= k < page ==> up(k)
        decreases |s.resources| - page * PAGE_SIZE
      {
        if !up(page) {
          return false, r;
        }
        var offset := page * PAGE_SIZE;
        var end := if offset + PAGE_SIZE < |s.resources| then offset + PAGE_SIZE else |s.resources|;
        r := TakeResources(s.resources, r, offset, end);
        OnlyTheLastIsShort(|s.resources|, page, end);
        page := page + 1;
        if end - offset < PAGE_SIZE {
          break;
        }
      }
      assert s.resources[..|s.resources|] == s.resources;
      ok := true;
    }

    /** The device listing, whole, or nothing when a page could not be read. */
    method ListDevices(s: Sources, groupsByDevice: map<Id, seq<string>>, up: nat -> bool)
      returns (ok: bool, next: map<Id, Device>)
      requires groupsByDevice == GroupsIn(s.resources)
      ensures ok ==> next == FullView(s)
      ensures ok <==> forall k :: 0 <= k <= |s.devices| / PAGE_SIZE ==> up(k)
    {
      next := map[];
      var page := 0;
      assert View(s, 0) == map[];
      hide View, GroupsIn;
      while true
        invariant 0 <= page && page * PAGE_SIZE <= |s.devices|
        invariant next == View(s, page * PAGE_SIZE)
        invariant forall k :: 0 <= k < page ==> up(k)
        decreases |s.devices| - page * PAGE_SIZE
      {
        if !up(page) {
          return false, next;
        }
        var offset := page * PAGE_SIZE;
        var end := if offset + PAGE_SIZE < |s.devices| then offset + PAGE_SIZE else |s.devices|;
        next := TakeDevices(s, groupsByDevice, next, offset, end);
        OnlyTheLastIsShort(|s.devices|, page, end);
        page := page + 1;
        if end - offset < PAGE_SIZE {
          break;
        }
      }
      ok := true;
    }

    /** The full sweep: the view is replaced by what the sources say, or left alone when one fails. */
    method RefreshDevices(s: Sources, permissionsUp: nat -> bool, devicesUp: nat -> bool) returns (ok: bool)
      modifies this`deviceById, this`readings
      ensures ok <==> (forall k :: 0 <= k <= |s.resources| / PAGE_SIZE ==> permissionsUp(k)) &&
                      (forall k :: 0 <= k <= |s.devices| / PAGE_SIZE ==> devicesUp(k))
      ensures ok ==> deviceById == FullView(s) &&
                     readings == map key | key in old(readings) && key.deviceId in FullView(s) :: old(readings)[key]
      ensures !ok ==> deviceById == old(deviceById) && readings == old(readings)
    {
      var groupsByDevice;
      ok, groupsByDevice := ListDeviceGroups(s, permissionsUp);
      if !ok {
        return;
      }
      var next;
      ok, next := ListDevices(s, groupsByDevice, devicesUp);
      if !ok {
        return;
      }
      deviceById := next;
      readings := map key | key in readings && key.deviceId in next :: readings[key];
    }

    /**
     * One device re-read: its entry is replaced or removed, and nobody else's. The permissions are only
     * asked about a device that is still there; if a source that is asked fails, nothing changes.
     */
    method RefreshDevice(s: Sources, id: Id, up: Reach) returns (ok: bool, change: DeviceChange)
      requires DistinctSources(s)
      modifies this`deviceById, this`readings
      ensures ok == CanRead(s, id, up)
      ensures !ok ==> deviceById == old(deviceById) && readings == old(readings)
      ensures ok ==>
                && change == ChangeOf(old(deviceById), s, id)
                && deviceById == Refreshed(old(deviceById), s, id)
                && readings == if Retyped(old(deviceById), change) then Without(old(readings), id) else old(readings)
      ensures ok <==> up.repository(id) && ((exists x :: x in s.devices && x.id == id) ==> up.permissions(id))
      ensures ok ==> forall key ::
                && (key in readings <==>
                   key in old(readings) && (key.deviceId != id || change.KeepsType(old(deviceById))))
                && (key in readings ==> readings[key] == old(readings)[key])
    {
      var previousGroups := if id in deviceById then deviceById[id].groups else [];
      ok, change := up.repository(id), DeviceChange(id, None, previousGroups);
      if !ok {
        return;
      }
      var x := FindDevice(s.devices, id);
      if x.None? {
        deviceById := deviceById - {id};
        ForgetReadings(id);
        return;
      }
      ok := up.permissions(id);
      if !ok {
        return;
      }
      var resource := FindResource(s.resources, id);
      var groups := [];
      if resource.Some? {
        groups := ReadableGroups(resource.value.groups);
      }
      GroupsOfOne(s.resources, id);
      var device := ToDevice(x.value, groups);
      if id in deviceById && deviceById[id].deviceTypeId != device.deviceTypeId {
        ForgetReadings(id);
      }
      deviceById := deviceById[id := device];
      change := DeviceChange(id, Some(device), previousGroups);
    }

    method DevicesOfDeviceType(deviceTypeId: Id) returns (r: seq<Id>)
      ensures r == OfType(deviceById, deviceTypeId)
    {
      var ids := set id | id in deviceById && deviceById[id].deviceTypeId == deviceTypeId;
      var listed := ListOf(ids);
      SortDistinct(listed);
      r := Sort(Before, listed);
      OneOrder(ids, r);
    }

    method ForgetReadings(id: Id)
      modifies this`readings
      ensures readings == Without(old(readings), id)
    {
      for i := 0 to |CARRIERS|
        invariant readings == map key | key in old(readings) && !(key.deviceId == id && key.carrier in CARRIERS[..i]) ::
                  old(readings)[key]
      {
        assert CARRIERS[..i + 1] == CARRIERS[..i] + [CARRIERS[i]];
        readings := readings - {ReadingKey(id, CARRIERS[i])};
      }
      assert CARRIERS[..|CARRIERS|] == CARRIERS;
      EveryCarrier();
    }

    method DevicesOfGroup(path: string) returns (r: seq<Device>)
      requires Filed(deviceById)
      ensures Lists(deviceById, path, r)
    {
      var listed := Members(deviceById, path);
      BeforeIsStrictOrder();
      forall k, l | 0 <= k < l < |listed| ensures ById(listed[k], listed[l]) || ById(listed[l], listed[k]) {
        BeforeTotal(listed[k].id, listed[l].id);
      }
      SortSorts(ById, listed);
      r := Sort(ById, listed);
    }

    /** The tree is replaced, not merged: what is new or different, and what is gone, by path. */
    method RefreshGroups(found: seq<Group>, allow: string -> bool) returns (added: seq<Group>, removed: seq<Group>)
      requires forall p :: p in groupByPath ==> groupByPath[p].path == p
      modifies this`groupByPath
      ensures forall p :: p in groupByPath ==> groupByPath[p].path == p && groupByPath[p] in found && allow(p)
      ensures forall g :: g in found && allow(g.path) ==> g.path in groupByPath
      ensures StrictlySorted(ByPath, added) && forall g :: g in added <==>
                g.path in groupByPath && groupByPath[g.path] == g &&
                  !(g.path in old(groupByPath) && old(groupByPath)[g.path] == g)
      ensures StrictlySorted(ByPath, removed) && forall g :: g in removed <==>
                g.path in old(groupByPath) && old(groupByPath)[g.path] == g && g.path !in groupByPath
    {
      var next: map<string, Group> := map[];
      for i := 0 to |found|
        invariant forall p :: p in next ==> next[p].path == p && next[p] in found && allow(p)
        invariant forall k :: 0 <= k < i && allow(found[k].path) ==> found[k].path in next
      {
        if allow(found[i].path) {
          next := next[found[i].path := found[i]];
        }
      }
      added := GroupsOf(next, set p | p in next && !(p in groupByPath && groupByPath[p] == next[p]));
      removed := GroupsOf(groupByPath, groupByPath.Keys - next.Keys);
      groupByPath := next;
    }
  }

  method GroupsOf(groups: map<string, Group>, paths: set<string>) returns (r: seq<Group>)
    requires paths <= groups.Keys && forall p :: p in groups ==> groups[p].path == p
    ensures StrictlySorted(ByPath, r) && forall g :: g in r <==> g.path in paths && groups[g.path] == g
  {
    var ids := ListOf(paths);
    var listed := seq(|ids|, i requires 0 <= i < |ids| => groups[ids[i]]);
    BeforeIsStrictOrder();
    forall k, l | 0 <= k < l < |listed| ensures ByPath(listed[k], listed[l]) || ByPath(listed[l], listed[k]) {
      BeforeTotal(listed[k].path, listed[l].path);
    }
    forall g ensures g in listed <==> g.path in paths && groups[g.path] == g {
      if g.path in paths && groups[g.path] == g {
        var i :| 0 <= i < |ids| && ids[i] == g.path;
        assert listed[i] == g;
      }
    }
    SortSorts(ByPath, listed);
    r := Sort(ByPath, listed);
  }

  function FindDevice(devices: seq<Extended>, id: Id): (r: Option<Extended>)
    ensures r.Some? ==> r.value in devices && r.value.id == id
    ensures r.None? ==> forall x :: x in devices ==> x.id != id
  {
    if devices == [] then None
    else if devices[0].id == id then Some(devices[0])
    else FindDevice(devices[1..], id)
  }

  function FindResource(resources: seq<Resource>, id: Id): (r: Option<Resource>)
    ensures r.Some? ==> r.value in resources && r.value.id == id
    ensures r.None? ==> forall x :: x in resources ==> x.id != id
  {
    if resources == [] then None
    else if resources[0].id == id then Some(resources[0])
    else FindResource(resources[1..], id)
  }

  /** The one device as the sources have it now. */
  ghost function DeviceNow(s: Sources, id: Id): Option<Device> {
    var x := FindDevice(s.devices, id);
    if x.None? then None else Some(ToDevice(x.value, GroupsFor(s, id)))
  }

  ghost function Refreshed(view: map<Id, Device>, s: Sources, id: Id): map<Id, Device> {
    var now := DeviceNow(s, id);
    if now.None? then view - {id} else view[id := now.value]
  }

  ghost function ChangeOf(view: map<Id, Device>, s: Sources, id: Id): DeviceChange {
    DeviceChange(id, DeviceNow(s, id), if id in view then view[id].groups else [])
  }

  lemma {:induction false} GroupsOfOne(resources: seq<Resource>, id: Id)
    requires forall i, j :: 0 <= i < j < |resources| ==> resources[i].id != resources[j].id
    ensures var r := FindResource(resources, id);
            if r.Some? then id in GroupsIn(resources) && GroupsIn(resources)[id] == Readable(r.value.groups)
            else id !in GroupsIn(resources)
  {
    hide Readable;
    var r := FindResource(resources, id);
    if resources != [] {
      var before, last := resources[..|resources| - 1], resources[|resources| - 1];
      GroupsOfOne(before, id);
      assert resources == before + [last];
      if last.id == id {
        assert r.value == last;
      } else if r.Some? {
        assert r.value in before;
        var f := FindResource(before, id);
        assert f.value in before && f.value == r.value;
      }
    }
  }

  // ---- the one-device refresh against the full sweep ----

  /** The view of the sources is: who is there, as the sources have it now. */
  lemma {:induction false} ViewIsEachDevice(s: Sources, n: nat, id: Id)
    requires DistinctSources(s) && n <= |s.devices|
    ensures id in View(s, n) <==> exists i :: 0 <= i < n && s.devices[i].id == id
    ensures id in View(s, n) ==> Some(View(s, n)[id]) == DeviceNow(s, id)
  {
    hide GroupsFor;
    if n > 0 {
      ViewIsEachDevice(s, n - 1, id);
      if s.devices[n - 1].id == id {
        var x := FindDevice(s.devices, id);
        assert s.devices[n - 1] in s.devices && x.value in s.devices;
        assert x.value == s.devices[n - 1];
      }
    }
  }

  lemma FullViewIsEachDevice(s: Sources, id: Id)
    requires DistinctSources(s)
    ensures id in FullView(s) <==> DeviceNow(s, id).Some?
    ensures id in FullView(s) ==> FullView(s)[id] == DeviceNow(s, id).value
  {
    hide GroupsFor;
    ViewIsEachDevice(s, |s.devices|, id);
    if exists i :: 0 <= i < |s.devices| && s.devices[i].id == id {
      var i :| 0 <= i < |s.devices| && s.devices[i].id == id;
      assert s.devices[i] in s.devices;
    }
  }

  /** Nobody else changed between two states of the sources. */
  ghost predicate OnlyChanged(before: Sources, after: Sources, id: Id) {
    forall other :: other != id ==> FindDevice(before.devices, other) == FindDevice(after.devices, other) &&
                                    FindResource(before.resources, other) == FindResource(after.resources, other)
  }

  lemma UnchangedNow(before: Sources, after: Sources, id: Id, other: Id)
    requires DistinctSources(before) && DistinctSources(after) && OnlyChanged(before, after, id) && other != id
    ensures DeviceNow(before, other) == DeviceNow(after, other)
  {
    GroupsOfOne(before.resources, other);
    GroupsOfOne(after.resources, other);
  }

  /** If only one device changed at the sources, re-reading it leaves the view a full sweep would build. */
  lemma RefreshAgreesWithSweep(before: Sources, after: Sources, id: Id)
    requires DistinctSources(before) && DistinctSources(after) && OnlyChanged(before, after, id)
    ensures Refreshed(FullView(before), after, id) == FullView(after)
  {
    hide FullView, DeviceNow, OnlyChanged;
    var refreshed := Refreshed(FullView(before), after, id);
    forall x: Id
      ensures x in refreshed <==> x in FullView(after)
      ensures x in refreshed ==> refreshed[x] == FullView(after)[x]
    {
      FullViewIsEachDevice(before, x);
      FullViewIsEachDevice(after, x);
      if x != id { UnchangedNow(before, after, id, x); }
    }
  }

  /** A group whose list of devices is not the same after a refresh is among those affected. */
  lemma NoDirtyGroupMissed(view: map<Id, Device>, s: Sources, id: Id, path: string, was: seq<Device>, now: seq<Device>)
    requires Lists(view, path, was) && Lists(Refreshed(view, s, id), path, now)
    ensures was != now ==> var change := ChangeOf(view, s, id); path in change.previousGroups || path in change.Groups()
  {
    hide DeviceNow;
    var change := ChangeOf(view, s, id);
    if path !in change.previousGroups && path !in change.Groups() {
      SameList(view, Refreshed(view, s, id), path, was, now);
    }
  }

  lemma SameDevices(view: map<Id, Device>, other: map<Id, Device>, path: string)
    requires forall x :: x in view && path in view[x].groups ==> x in other && other[x] == view[x]
    requires forall x :: x in other && path in other[x].groups ==> x in view && view[x] == other[x]
    ensures forall d: Device :: (exists x :: x in view && view[x] == d && path in d.groups) <==>
                                (exists x :: x in other && other[x] == d && path in d.groups)
  {
    forall d: Device | exists x :: x in view && view[x] == d && path in d.groups
      ensures exists x :: x in other && other[x] == d && path in d.groups
    {
      var x :| x in view && view[x] == d && path in d.groups;
      assert x in other && other[x] == d;
    }
    forall d: Device | exists x :: x in other && other[x] == d && path in d.groups
      ensures exists x :: x in view && view[x] == d && path in d.groups
    {
      var x :| x in other && other[x] == d && path in d.groups;
      assert x in view && view[x] == d;
    }
  }

  /** Views that agree on everyone in a group give one list of it. */
  lemma SameList(view: map<Id, Device>, other: map<Id, Device>, path: string, a: seq<Device>, b: seq<Device>)
    requires Lists(view, path, a) && Lists(other, path, b)
    requires forall x :: x in view && path in view[x].groups ==> x in other && other[x] == view[x]
    requires forall x :: x in other && path in other[x].groups ==> x in view && view[x] == other[x]
    ensures a == b
  {
    SameDevices(view, other, path);
    BeforeIsStrictOrder();
    SortedUnique(ById, a, b);
  }

  // ---- the view, by the sources alone ----

  /** What the service holds of one device the repository ships. */
  ghost predicate Holds(d: Device, x: Extended, resources: seq<Resource>) {
    && d.id == x.id && d.deviceTypeId == x.deviceTypeId
    && d.name == (if x.displayName != "" then x.displayName else x.name)
    && (x.columns.Some? ==> d.columns == x.columns.value) && (x.columns.None? ==> d.columns == [])
    && StrictlySorted(Before, d.groups)
    && forall p :: p in d.groups <==> exists r :: r in resources && r.id == x.id && p in r.groups && r.groups[p].read
  }

  lemma ReadableHere(s: Sources, id: Id)
    requires DistinctSources(s)
    ensures StrictlySorted(Before, GroupsFor(s, id))
    ensures forall p :: p in GroupsFor(s, id) <==>
              exists r :: r in s.resources && r.id == id && p in r.groups && r.groups[p].read
  {
    GroupsOfOne(s.resources, id);
    var f := FindResource(s.resources, id);
    forall r | r in s.resources && r.id == id ensures f == Some(r) {
      var i :| 0 <= i < |s.resources| && s.resources[i] == r;
      assert f.Some? && f.value in s.resources;
      var j :| 0 <= j < |s.resources| && s.resources[j] == f.value;
    }
  }

  /**
   * A full sweep sees every device the repository ships and no other, named by its display name or else its
   * name, with no columns as long as its type is missing, and in the groups that may read it.
   */
  lemma SweepSeesWhatIsThere(s: Sources, id: Id)
    requires DistinctSources(s)
    ensures id in FullView(s) <==> exists x :: x in s.devices && x.id == id
    ensures forall x :: x in s.devices && x.id == id ==> id in FullView(s) && Holds(FullView(s)[id], x, s.resources)
  {
    hide FullView, GroupsFor;
    FullViewIsEachDevice(s, id);
    ReadableHere(s, id);
    var f := FindDevice(s.devices, id);
    forall x | x in s.devices && x.id == id ensures f == Some(x) {
      var i :| 0 <= i < |s.devices| && s.devices[i] == x;
      assert f.Some? && f.value in s.devices;
      var j :| 0 <= j < |s.devices| && s.devices[j] == f.value;
    }
  }

  /** Re-reading one device leaves in its place what a sweep would hold of it, and everybody else alone. */
  lemma RefreshReplacesOne(view: map<Id, Device>, s: Sources, id: Id)
    requires DistinctSources(s)
    ensures var now := Refreshed(view, s, id);
            && (id in now <==> exists x :: x in s.devices && x.id == id)
            && (forall x :: x in s.devices && x.id == id ==> id in now && Holds(now[id], x, s.resources))
            && forall other :: other != id ==>
                 (other in now <==> other in view) && (other in now ==> now[other] == view[other])
  {
    hide FullView, GroupsFor, Holds;
    FullViewIsEachDevice(s, id);
    SweepSeesWhatIsThere(s, id);
  }
}
