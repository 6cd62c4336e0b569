/** Workspace disk devices kept in line with the configured mounts, and mount rows read back from
    them in configuration order. */
module Mounts {
  import opened Prelude
  import opened Framing

  const WORKSPACE_DEVICE_PREFIX := "workspace-"

  /** A device of the instance: the properties a disk has, each possibly absent. */
  datatype Device = Device(kind: string, source: Option<string>, path: Option<string>, readonly: Option<string>)

  datatype Mount = Mount(source: string, target: string, readonly: bool)

  function MountDevice(mount: Mount): Device {
    Device("disk", Some(mount.source), Some(mount.target), if mount.readonly then Some("true") else None)
  }

  predicate SameDisk(current: Device, wanted: Device) {
    && current.source == wanted.source && current.path == wanted.path
    && (current.readonly == Some("true")) == (wanted.readonly == Some("true"))
  }

  function DeviceName(index: nat): string {
    WORKSPACE_DEVICE_PREFIX + Decimal(index)
  }

  predicate IsWorkspace(name: string) {
    WORKSPACE_DEVICE_PREFIX <= name
  }

  lemma DeviceNameInjective(i: nat, j: nat)
    ensures IsWorkspace(DeviceName(i))
    ensures DeviceName(i) == DeviceName(j) ==> i == j
  {
    assert DeviceName(i)[|WORKSPACE_DEVICE_PREFIX|..] == Decimal(i);
    assert DeviceName(j)[|WORKSPACE_DEVICE_PREFIX|..] == Decimal(j);
    DecimalRoundTrip(i);
    DecimalRoundTrip(j);
  }

  ghost predicate Wanted(mounts: seq<Mount>, name: string) {
    exists i: nat :: i < |mounts| && name == DeviceName(i)
  }

  /** The first `n` mounts have a device that is the wanted disk. */
  ghost predicate SyncedUpTo(devices: map<string, Device>, mounts: seq<Mount>, n: nat)
    requires n <= |mounts|
  {
    forall i: nat :: i < n ==>
      DeviceName(i) in devices && SameDisk(devices[DeviceName(i)], MountDevice(mounts[i]))
  }

  /** The workspace devices are the wanted ones and no others. */
  ghost predicate Synced(devices: map<string, Device>, mounts: seq<Mount>) {
    && SyncedUpTo(devices, mounts, |mounts|)
    && forall name :: name in devices && IsWorkspace(name) ==> Wanted(mounts, name)
  }

  ghost predicate OthersKept(before: map<string, Device>, after: map<string, Device>) {
    && (forall name :: !IsWorkspace(name) ==> (name in after <==> name in before))
    && (forall name :: !IsWorkspace(name) && name in before ==> after[name] == before[name])
  }

  /** The guest paths that a sync attaches: those of the mounts whose device is missing or differs. */
  function Changed(devices: map<string, Device>, mounts: seq<Mount>, n: nat): seq<string>
    requires n <= |mounts|
  {
    if n == 0 then []
    else
      var name, m := DeviceName(n - 1), mounts[n - 1];
      Changed(devices, mounts, n - 1)
      + if name in devices && SameDisk(devices[name], MountDevice(m)) then [] else [m.target]
  }

  function RemovedPath(name: string, device: Device): string {
    if device.path.Some? then device.path.value else name
  }

  /** A workspace device that no mount wants. */
  ghost predicate Unwanted(devices: map<string, Device>, mounts: seq<Mount>, name: string) {
    name in devices && IsWorkspace(name) && !Wanted(mounts, name)
  }

  /** The unwanted devices are those still to go and those gone, each once; the rest is as it was. */
  ghost predicate Removing(existing: map<string, Device>, devices: map<string, Device>, mounts: seq<Mount>,
                           todo: set<string>, names: seq<string>)
  {
    && (forall name :: Unwanted(existing, mounts, name) <==> name in todo || name in names)
    && (forall name :: name in names ==> name !in todo)
    && (forall i, j :: 0 <= i < j < |names| ==> names[i] != names[j])
    && (forall name :: name in devices <==> name in existing && name !in names)
    && (forall name :: name in devices ==> devices[name] == existing[name])
  }

  /** Each of these devices is reported by its guest path. */
  ghost predicate Reports(existing: map<string, Device>, names: seq<string>, removed: seq<string>) {
    && |removed| == |names|
    && forall i :: 0 <= i < |names| ==>
         names[i] in existing && var path := existing[names[i]].path;
           removed[i] == if path.Some? then path.value else names[i]
  }

  lemma RemovingStarts(existing: map<string, Device>, mounts: seq<Mount>, desired: set<string>, todo: set<string>)
    requires desired == set i | 0 <= i < |mounts| :: DeviceName(i)
    requires todo == set name | name in existing.Keys && IsWorkspace(name) && name !in desired
    ensures Removing(existing, existing, mounts, todo, []) && Reports(existing, [], [])
  {
    assert forall name :: name in desired <==> Wanted(mounts, name);
  }

  lemma RemovingNext(existing: map<string, Device>, devices: map<string, Device>, mounts: seq<Mount>,
                     todo: set<string>, names: seq<string>, removed: seq<string>, name: string)
    requires Removing(existing, devices, mounts, todo, names) && Reports(existing, names, removed) && name in todo
    ensures Unwanted(existing, mounts, name) && name in existing
    ensures Removing(existing, devices - {name}, mounts, todo - {name}, names + [name])
    ensures Reports(existing, names + [name], removed + [RemovedPath(name, existing[name])])
  {
    hide IsWorkspace, Wanted;
    assert Unwanted(existing, mounts, name);
  }

  lemma OthersStay(existing: map<string, Device>, before: map<string, Device>, devices: map<string, Device>,
                   mounts: seq<Mount>, todo: set<string>, names: seq<string>, name: string)
    requires Removing(existing, before, mounts, todo, names) && name in todo
    requires devices == before || devices == before - {name}
    ensures OthersKept(existing, devices)
  {
    forall n | n in existing && !IsWorkspace(n) ensures n in devices && devices[n] == existing[n] {
      assert !Unwanted(existing, mounts, n);
    }
  }

  lemma RemovingEnds(existing: map<string, Device>, devices: map<string, Device>, mounts: seq<Mount>,
                     names: seq<string>, removed: seq<string>)
    requires Removing(existing, devices, mounts, {}, names) && Reports(existing, names, removed)
    ensures OthersKept(existing, devices) && RemovalsReported(existing, mounts, names, removed)
    ensures forall name ::
              name in devices <==> name in existing && (IsWorkspace(name) ==> Wanted(mounts, name))
    ensures forall name :: name in devices ==> devices[name] == existing[name]
  {
    forall name ensures name in devices <==> name in existing && (IsWorkspace(name) ==> Wanted(mounts, name)) {
      assert Unwanted(existing, mounts, name) <==> name in names;
    }
  }

  /** An instance's device map. `issued` counts the device commands sent to Incus. `able`: Incus
      carries out every command that it does not have to refuse. */
  class Instance {
    var devices: map<string, Device>
    var issued: nat
    const able: bool

    constructor (devices: map<string, Device>, able: bool)
      ensures this.devices == devices && issued == 0 && this.able == able
    {
      this.devices := devices;
      this.able := able;
      issued := 0;
    }

    /** A failed command may or may not have had its effect. */
    method Remove(name: string) returns (ok: bool)
      modifies this
      ensures issued == old(issued) + 1
      ensures ok ==> devices == old(devices) - {name}
      ensures !ok ==> devices == old(devices) || devices == old(devices) - {name}
      ensures able ==> ok
    {
      var outcome :| outcome >= 0 && (able ==> outcome == 0);
      ok := outcome == 0;
      if outcome < 2 {
        devices := devices - {name};
      }
      issued := issued + 1;
    }

    method Add(name: string, device: Device) returns (ok: bool)
      modifies this
      ensures issued == old(issued) + 1
      ensures ok ==> name !in old(devices) && devices == old(devices)[name := device]
      ensures !ok ==> devices == old(devices) || (name !in old(devices) && devices == old(devices)[name := device])
      ensures able && name !in old(devices) ==> ok
    {
      var outcome :| outcome >= 0 && (able ==> outcome == 0);
      ok := outcome == 0 && name !in devices;
      if outcome < 2 && name !in devices {
        devices := devices[name := device];
      }
      issued := issued + 1;
    }

    /** Removes every workspace device that no mount wants, reporting the paths. */
    method RemoveUnwanted(mounts: seq<Mount>) returns (ok: bool, removed: seq<string>, ghost names: seq<string>)
      modifies this
      ensures OthersKept(old(devices), devices)
      ensures || (ok && issued == old(issued))
              || exists name :: Unwanted(old(devices), mounts, name)
      ensures ok ==> && (forall name ::
                           name in devices <==> name in old(devices) && (IsWorkspace(name) ==> Wanted(mounts, name)))
                     && (forall name :: name in devices ==> devices[name] == old(devices)[name])
                     && RemovalsReported(old(devices), mounts, names, removed) && issued == old(issued) + |names|
      ensures able ==> ok
    {
      hide *;
      removed, names := [], [];
      var desired := set i | 0 <= i < |mounts| :: DeviceName(i);
      var existing := devices;
      var todo := set name | name in existing.Keys && IsWorkspace(name) && name !in desired;
      RemovingStarts(existing, mounts, desired, todo);
      while todo != {}
        invariant Removing(existing, devices, mounts, todo, names) && Reports(existing, names, removed)
        invariant issued == old(issued) + |names|
        invariant issued == old(issued) || exists name :: Unwanted(existing, mounts, name)
        decreases todo
      {
        var name :| name in todo;
        RemovingNext(existing, devices, mounts, todo, names, removed, name);
        ghost var before := devices;
        ok := Remove(name);
        if !ok {
          OthersStay(existing, before, devices, mounts, todo, names, name);
          return;
        }
        removed := removed + [RemovedPath(name, existing[name])];
        names := names + [name];
        todo := todo - {name};
      }
      RemovingEnds(existing, devices, mounts, names, removed);
      ok := true;
    }

    /** Brings the device of mount `i` in line, replacing one that differs. */
    method SyncOne(existing: map<string, Device>, mounts: seq<Mount>, i: nat) returns (ok: bool, changed: bool)
      requires i < |mounts| && PartlySynced(existing, devices, mounts, i)
      modifies this
      ensures OthersKept(existing, devices)
      ensures ok ==> PartlySynced(existing, devices, mounts, i + 1)
      ensures changed <==> !UpToDate(existing, mounts, i)
      ensures !changed ==> ok && issued == old(issued) && devices == old(devices)
      ensures changed && ok ==>
        var name, m := DeviceName(i), mounts[i];
        name in devices
        && devices[name] == Device("disk", Some(m.source), Some(m.target), if m.readonly then Some("true") else None)
      ensures able ==> ok
    {
      hide DeviceName, IsWorkspace, Wanted;
      var name := DeviceName(i);
      var device := MountDevice(mounts[i]);
      ghost var before := devices;
      ok, changed := true, false;
      if !(name in existing && SameDisk(existing[name], device)) {
        changed := true;
        if name in existing {
          ok := Remove(name);
          OneDevice(existing, before, devices, mounts, i);
          if !ok {
            return;
          }
        }
        ok := Add(name, device);
      }
      OneDevice(existing, before, devices, mounts, i);
    }

    /** `sync_mounts`. When it completes, the workspace devices are the configured ones, every
        other device is untouched, and exactly the changed and the unwanted paths are reported;
        when there was nothing to change, no command is issued. */
    method SyncMounts(mounts: seq<Mount>)
      returns (ok: bool, attached: seq<string>, removed: seq<string>, ghost names: seq<string>)
      modifies this
      ensures OthersKept(old(devices), devices)
      ensures ok ==> Synced(devices, mounts) && attached == Changed(old(devices), mounts, |mounts|)
      ensures ok ==> RemovalsReported(old(devices), mounts, names, removed)
      ensures Synced(old(devices), mounts) ==> ok && issued == old(issued) && devices == old(devices)
      ensures able ==> ok
    {
      hide *;
      attached := [];
      var existing := devices;
      SyncedWantsAll(existing, mounts);
      ok, removed, names := RemoveUnwanted(mounts);
      if !ok {
        return;
      }
      NothingUnwanted(existing, devices, mounts, names, removed);
      ChangedNone(existing, mounts);
      for i := 0 to |mounts|
        invariant PartlySynced(existing, devices, mounts, i)
        invariant attached == Changed(existing, mounts, i)
        invariant Synced(existing, mounts) ==> issued == old(issued) && devices == existing
      {
        SyncedIsUpToDate(existing, mounts, i);
        ChangedNext(existing, mounts, i);
        var changed;
        ok, changed := SyncOne(existing, mounts, i);
        if !ok {
          return;
        }
        if changed {
          attached := attached + [mounts[i].target];
        }
      }
      AllSynced(existing, devices, mounts);
      ok := true;
    }
  }

  /** What a completed sync leaves, device by device. */
  lemma SyncedExactly(devices: map<string, Device>, mounts: seq<Mount>)
    ensures Synced(devices, mounts) <==>
              && (forall i: nat :: i < |mounts| ==>
                    && "workspace-" + Decimal(i) in devices
                    && var d := devices["workspace-" + Decimal(i)];
                       && d.source == Some(mounts[i].source) && d.path == Some(mounts[i].target)
                       && (d.readonly == Some("true") <==> mounts[i].readonly))
              && (forall name :: name in devices && "workspace-" <= name ==>
                    exists i: nat :: i < |mounts| && name == "workspace-" + Decimal(i))
  {
    forall i: nat ensures DeviceName(i) == "workspace-" + Decimal(i) {
    }
    forall name ensures Wanted(mounts, name) <==> exists i: nat :: i < |mounts| && name == "workspace-" + Decimal(i) {
      if Wanted(mounts, name) {
        var i: nat :| i < |mounts| && name == DeviceName(i);
        assert name == "workspace-" + Decimal(i);
      }
      if i: nat :| i < |mounts| && name == "workspace-" + Decimal(i) {
        assert name == DeviceName(i);
      }
    }
  }

  lemma SyncedWantsAll(devices: map<string, Device>, mounts: seq<Mount>)
    ensures Synced(devices, mounts) ==> forall name :: !Unwanted(devices, mounts, name)
  {
  }

  lemma SyncedIsUpToDate(devices: map<string, Device>, mounts: seq<Mount>, i: nat)
    requires i < |mounts|
    ensures Synced(devices, mounts) ==> UpToDate(devices, mounts, i)
  {
  }

  lemma ChangedNone(devices: map<string, Device>, mounts: seq<Mount>)
    ensures Changed(devices, mounts, 0) == []
  {
  }

  lemma ChangedNext(devices: map<string, Device>, mounts: seq<Mount>, i: nat)
    requires i < |mounts|
    ensures Changed(devices, mounts, i + 1) ==
              if UpToDate(devices, mounts, i) then Changed(devices, mounts, i)
              else Changed(devices, mounts, i) + [mounts[i].target]
  {
  }

  lemma AllSynced(existing: map<string, Device>, devices: map<string, Device>, mounts: seq<Mount>)
    requires PartlySynced(existing, devices, mounts, |mounts|)
    ensures OthersKept(existing, devices) && Synced(devices, mounts)
  {
  }

  predicate UpToDate(existing: map<string, Device>, mounts: seq<Mount>, i: nat)
    requires i < |mounts|
  {
    DeviceName(i) in existing && SameDisk(existing[DeviceName(i)], MountDevice(mounts[i]))
  }

  /** Exactly the unwanted workspace devices are reported, each once, by its guest path. */
  ghost predicate RemovalsReported(before: map<string, Device>, mounts: seq<Mount>, names: seq<string>,
        removed: seq<string>) {
    && Reports(before, names, removed)
    && (forall name :: name in names <==> Unwanted(before, mounts, name))
    && (forall i, j :: 0 <= i < j < |names| ==> names[i] != names[j])
  }

  /** The first `i` mounts are in line, the devices of the others are as they were, and nothing
      unwanted is left. */
  ghost predicate PartlySynced(existing: map<string, Device>, devices: map<string, Device>, mounts: seq<Mount>, i: nat)
    requires i <= |mounts|
  {
    && OthersKept(existing, devices) && SyncedUpTo(devices, mounts, i) && NotYet(existing, devices, i, |mounts|)
    && forall name :: name in devices && IsWorkspace(name) ==> Wanted(mounts, name)
  }

  lemma NothingUnwanted(before: map<string, Device>, after: map<string, Device>, mounts: seq<Mount>, names: seq<string>,
                        removed: seq<string>)
    requires forall name :: name in after <==> name in before && (IsWorkspace(name) ==> Wanted(mounts, name))
    requires forall name :: name in after ==> after[name] == before[name]
    requires RemovalsReported(before, mounts, names, removed)
    ensures PartlySynced(before, after, mounts, 0)
    ensures Synced(before, mounts) ==> after == before
  {
  }

  /** The devices of the mounts still to come are as they were. */
  ghost predicate NotYet(existing: map<string, Device>, devices: map<string, Device>, i: nat, n: nat) {
    forall k: nat :: i <= k < n ==>
      (DeviceName(k) in devices <==> DeviceName(k) in existing)
      && (DeviceName(k) in devices ==> devices[DeviceName(k)] == existing[DeviceName(k)])
  }

  /** Only the device of mount `i` changed. */
  lemma OneDevice(existing: map<string, Device>, before: map<string, Device>, after: map<string, Device>,
        mounts: seq<Mount>, i: nat)
    requires i < |mounts| && OthersKept(existing, before) && SyncedUpTo(before, mounts, i)
    requires forall name :: name in before && IsWorkspace(name) ==> Wanted(mounts, name)
    requires NotYet(existing, before, i, |mounts|)
    requires forall name :: name != DeviceName(i) ==> (name in after <==> name in before)
    requires forall name :: name != DeviceName(i) && name in before ==> after[name] == before[name]
    ensures OthersKept(existing, after) && SyncedUpTo(after, mounts, i) && NotYet(existing, after, i + 1, |mounts|)
    ensures forall name :: name in after && IsWorkspace(name) ==> Wanted(mounts, name)
  {
    forall k: nat | k < |mounts| && k != i ensures DeviceName(k) != DeviceName(i) {
      DeviceNameInjective(k, i);
    }
    DeviceNameInjective(i, i);
    assert Wanted(mounts, DeviceName(i));
  }

  // ---- rows read back ----------------------------------------------------------------------------------

  datatype Row = Row(source: string, path: string, readonly: bool)

  predicate AllDigits(text: string) {
    text != "" && forall i :: 0 <= i < |text| ==> '0' <= text[i] <= '9'
  }

  /** The device is a workspace disk with a numeric suffix. */
  predicate IsRow(name: string) {
    IsWorkspace(name) && AllDigits(name[|WORKSPACE_DEVICE_PREFIX|..])
  }

  function Suffix(name: string): int
    requires IsRow(name)
  {
    DigitsValue(name[|WORKSPACE_DEVICE_PREFIX|..])
  }

  function RowOf(device: Device): Row {
    Row(if device.source.Some? then device.source.value else "",
        if device.path.Some? then device.path.value else "",
        device.readonly == Some("true"))
  }

  ghost predicate Ascending(indexed: seq<(int, Device)>) {
    forall i, j :: 0 <= i < j < |indexed| ==> indexed[i].0 <= indexed[j].0
  }

  function ItemOf(devices: map<string, Device>, name: string): (int, Device)
    requires name in devices && IsRow(name)
  {
    (Suffix(name), devices[name])
  }

  function RowNames(devices: map<string, Device>): set<string> {
    set name | name in devices.Keys && IsRow(name)
  }

  /** The item stands for one of these devices. */
  ghost predicate ItemFrom(devices: map<string, Device>, names: set<string>, item: (int, Device))
    requires names <= RowNames(devices)
  {
    exists name :: name in names && item == ItemOf(devices, name)
  }

  /** The rows are read from the devices whose name ends in digits after the prefix, in the order of the
      number that the digits stand for. */
  lemma RowNamesExact(devices: map<string, Device>, name: string)
    ensures name in RowNames(devices) <==>
              && name in devices && exists digits :: name == "workspace-" + digits && AllDigits(digits)
    ensures forall digits :: name == "workspace-" + digits && AllDigits(digits) ==>
              IsRow(name) && Suffix(name) == DigitsValue(digits)
  {
    if IsRow(name) {
      assert name == "workspace-" + name[|WORKSPACE_DEVICE_PREFIX|..];
    }
    forall digits | name == "workspace-" + digits && AllDigits(digits)
      ensures IsRow(name) && Suffix(name) == DigitsValue(digits)
    {
      assert name[|WORKSPACE_DEVICE_PREFIX|..] == digits;
    }
  }

  /** Inserts before the first greater index. */
  method InsertSorted(indexed: seq<(int, Device)>, item: (int, Device)) returns (r: seq<(int, Device)>)
    requires Ascending(indexed)
    ensures Ascending(r) && |r| == |indexed| + 1
    ensures forall x :: x in r <==> x in indexed || x == item
  {
    var at := 0;
    while at < |indexed| && indexed[at].0 <= item.0
      invariant 0 <= at <= |indexed|
      invariant forall i :: 0 <= i < at ==> indexed[i].0 <= item.0
    {
      at := at + 1;
    }
    assert indexed == indexed[..at] + indexed[at..];
    r := indexed[..at] + [item] + indexed[at..];
  }

  /** `_legacy_fingerprint`'s rows: every numbered workspace device, by ascending number. */
  method ReadRows(devices: map<string, Device>) returns (indexed: seq<(int, Device)>, rows: seq<Row>)
    ensures Ascending(indexed) && |indexed| == |RowNames(devices)| == |rows|
    ensures forall i :: 0 <= i < |rows| ==> rows[i] == RowOf(indexed[i].1)
    ensures forall item :: item in indexed <==> ItemFrom(devices, RowNames(devices), item)
  {
    indexed := [];
    var names := RowNames(devices);
    var todo := names;
    while todo != {}
      invariant todo <= names && Ascending(indexed) && |indexed| == |names| - |todo|
      invariant forall item :: item in indexed <==> ItemFrom(devices, names - todo, item)
      decreases todo
    {
      var name :| name in todo;
      ghost var was := todo;
      indexed := InsertSorted(indexed, ItemOf(devices, name));
      todo := todo - {name};
      assert names - todo == (names - was) + {name};
    }
    assert names - todo == names;
    rows := seq(|indexed|, i requires 0 <= i < |indexed| => RowOf(indexed[i].1));
  }

  lemma NamesAreRows(i: nat)
    ensures IsRow(DeviceName(i)) && Suffix(DeviceName(i)) == i
  {
    DeviceNameInjective(i, i);
    assert DeviceName(i)[|WORKSPACE_DEVICE_PREFIX|..] == Decimal(i);
    DecimalRoundTrip(i);
    forall j | 0 <= j < |Digits(i)| ensures '0' <= Digits(i)[j] <= '9' {
      assert Digits(i)[j] in Digits(i);
    }
    DigitsRoundTrip(i);
  }

  lemma {:induction false} NameCount(n: nat) returns (names: set<string>)
    ensures |names| == n && forall name :: name in names <==> exists i: nat :: i < n && name == DeviceName(i)
  {
    names := {};
    if n > 0 {
      var rest := NameCount(n - 1);
      if DeviceName(n - 1) in rest {
        var i: nat :| i < n - 1 && DeviceName(n - 1) == DeviceName(i);
        DeviceNameInjective(i, n - 1);
      }
      names := rest + {DeviceName(n - 1)};
    }
  }

  ghost predicate Shows(indexed: seq<(int, Device)>, v: nat) {
    exists i :: 0 <= i < |indexed| && indexed[i].0 == v
  }

  /** `at[v]` is where the number `v` stands in the list. */
  ghost predicate PositionsOf(indexed: seq<(int, Device)>, at: seq<nat>) {
    forall v :: 0 <= v < |at| ==> at[v] < |indexed| && indexed[at[v]].0 == v
  }

  lemma {:induction false} Positions(indexed: seq<(int, Device)>, n: nat) returns (at: seq<nat>)
    requires forall v: nat :: v < n ==> Shows(indexed, v)
    ensures |at| == n && PositionsOf(indexed, at)
  {
    at := [];
    if n > 0 {
      var rest := Positions(indexed, n - 1);
      assert Shows(indexed, n - 1);
      var i :| 0 <= i < |indexed| && indexed[i].0 == n - 1;
      at := rest + [i];
    }
  }

  lemma SmallerFirst(indexed: seq<(int, Device)>, i: nat, j: nat)
    requires Ascending(indexed) && i < |indexed| && j < |indexed| && indexed[i].0 < indexed[j].0
    ensures i < j
  {
  }

  lemma {:induction false} PlaceAtLeast(indexed: seq<(int, Device)>, at: seq<nat>, v: nat)
    requires Ascending(indexed) && v < |at| && PositionsOf(indexed, at)
    ensures at[v] >= v
  {
    if v > 0 {
      PlaceAtLeast(indexed, at, v - 1);
      SmallerFirst(indexed, at[v - 1], at[v]);
    }
  }

  lemma {:induction false} PlaceAtMost(indexed: seq<(int, Device)>, at: seq<nat>, v: nat)
    requires Ascending(indexed) && v < |at| == |indexed| && PositionsOf(indexed, at)
    ensures at[v] <= v
    decreases |at| - v
  {
    if v < |at| - 1 {
      PlaceAtMost(indexed, at, v + 1);
      SmallerFirst(indexed, at[v], at[v + 1]);
    }
  }

  /** In an ascending list of `n` items that shows every number below `n`, each number stands at
      its own place. */
  lemma NumbersInPlace(indexed: seq<(int, Device)>, n: nat)
    requires Ascending(indexed) && |indexed| == n && forall v: nat :: v < n ==> Shows(indexed, v)
    ensures forall i :: 0 <= i < n ==> indexed[i].0 == i
  {
    var at := Positions(indexed, n);
    forall i | 0 <= i < n ensures indexed[i].0 == i {
      PlaceAtLeast(indexed, at, i);
      PlaceAtMost(indexed, at, i);
    }
  }

  lemma SyncedRowNames(devices: map<string, Device>, mounts: seq<Mount>)
    requires Synced(devices, mounts)
    ensures |RowNames(devices)| == |mounts|
    ensures forall name :: name in RowNames(devices) <==> Wanted(mounts, name)
  {
    var names := NameCount(|mounts|);
    forall name ensures name in RowNames(devices) <==> name in names {
      if name in names {
        var i: nat :| i < |mounts| && name == DeviceName(i);
        NamesAreRows(i);
      }
    }
    assert RowNames(devices) == names;
  }

  /** Reading rows back from synced devices returns the mounts in configuration order, for any
      number of them: the order is numeric, so `workspace-10` does not come before `workspace-2`. */
  lemma RowsInConfigurationOrder(devices: map<string, Device>, mounts: seq<Mount>, indexed: seq<(int, Device)>)
    requires Synced(devices, mounts) && Ascending(indexed) && |indexed| == |RowNames(devices)|
    requires forall item :: item in indexed <==> ItemFrom(devices, RowNames(devices), item)
    ensures |indexed| == |mounts|
    ensures forall i :: 0 <= i < |mounts| ==>
              RowOf(indexed[i].1) == Row(mounts[i].source, mounts[i].target, mounts[i].readonly)
  {
    SyncedRowNames(devices, mounts);
    forall v: nat | v < |mounts| ensures Shows(indexed, v) {
      NamesAreRows(v);
      assert Wanted(mounts, DeviceName(v));
      assert ItemFrom(devices, RowNames(devices), ItemOf(devices, DeviceName(v)));
      assert ItemOf(devices, DeviceName(v)) in indexed;
    }
    NumbersInPlace(indexed, |mounts|);
    forall i | 0 <= i < |mounts|
      ensures RowOf(indexed[i].1) == Row(mounts[i].source, mounts[i].target, mounts[i].readonly)
    {
      assert indexed[i] in indexed;
      var name :| name in RowNames(devices) && indexed[i] == ItemOf(devices, name);
      var k: nat :| k < |mounts| && name == DeviceName(k);
      NamesAreRows(k);
    }
  }
}
