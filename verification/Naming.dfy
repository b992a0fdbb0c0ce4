/** Object names and device paths (pkg/util/util.go, pkg/udev/device.go, getFullDevPath). */
module Naming {
  import opened Strings

  const LONGHORN_BUS_PATH := "longhorn"
  const UDEV_ID_PATH := "ID_PATH"
  const UDEV_TYPE := "ID_TYPE"
  const UDEV_DEVNAME := "DEVNAME"
  const LINK_NAME_INDEX := 2

  type UdevDevice = map<string, string>

  /** Reading a Go map: a missing key yields the empty string. */
  function Property(device: UdevDevice, key: string): string {
    if key in device then device[key] else ""
  }

  predicate IsDisk(device: UdevDevice) { Property(device, UDEV_TYPE) == "disk" }

  predicate IsPartition(device: UdevDevice) { Property(device, UDEV_TYPE) == "partition" }

  function GetShortName(device: UdevDevice): string {
    var parts := Split(Property(device, UDEV_DEVNAME), '/');
    if |parts| < LINK_NAME_INDEX + 1 then "" else parts[LINK_NAME_INDEX]
  }

  predicate IsLonghornBlockDevice(path: string) { Contains(path, LONGHORN_BUS_PATH) }

  lemma LonghornExactly(path: string)
    ensures IsLonghornBlockDevice(path) <==> Occurs(path, "longhorn")
  {
    ContainsExactly(path, "longhorn");
  }

  /** The path of a device that does not lie below a directory has no short name. */
  lemma NoShortName(device: UdevDevice, first: string, rest: string)
    requires '/' !in first && '/' !in rest && Property(device, UDEV_DEVNAME) in {first, first + ['/'] + rest}
    ensures GetShortName(device) == ""
  {
    SplitSingle(first, '/');
    SplitSingle(rest, '/');
    SplitWord(first, rest, '/');
  }

  function GetBlockDeviceName(deviceName: string, nodeName: string): string {
    deviceName + "-" + nodeName
  }

  function GetFullDevPath(shortPath: string): string {
    if shortPath == "" then "" else "/dev/" + shortPath
  }

  predicate DashFree(s: string) { '-' !in s }

  /** For one node, the object name determines the device. */
  lemma NameDeterminesDevice(d1: string, d2: string, node: string)
    requires GetBlockDeviceName(d1, node) == GetBlockDeviceName(d2, node)
    ensures d1 == d2
  {
    var name := GetBlockDeviceName(d1, node);
    assert |d1| == |d2|;
    assert d1 == name[..|d1|] && d2 == name[..|d2|];
  }

  /** Device `d2` is `d1` followed by a dash and the leading part of the first node's name. */
  predicate Shifted(d1: string, n1: string, d2: string, n2: string) {
    && |d1| < |d2|
    && d2[..|d1| + 1] == d1 + "-"
    && n1 == d2[|d1| + 1..] + "-" + n2
  }

  lemma ShiftedCollides(d1: string, n1: string, d2: string, n2: string)
    requires Shifted(d1, n1, d2, n2)
    ensures GetBlockDeviceName(d1, n1) == GetBlockDeviceName(d2, n2)
  {
    assert d2 == d2[..|d1| + 1] + d2[|d1| + 1..];
    assert GetBlockDeviceName(d1, n1) == d1 + "-" + d2[|d1| + 1..] + "-" + n2;
  }

  lemma CollisionShifts(d1: string, n1: string, d2: string, n2: string)
    requires GetBlockDeviceName(d1, n1) == GetBlockDeviceName(d2, n2)
    requires |d1| < |d2|
    ensures Shifted(d1, n1, d2, n2)
  {
    var name := GetBlockDeviceName(d1, n1);
    var k := |d1| + 1;
    assert name[..k] == d1 + "-" && name[k..] == n1;
    assert name == d2 + ("-" + n2);
    assert name[..k] == d2[..k];
    assert name[k..] == d2[k..] + ("-" + n2);
  }

  /** Exactly when two (device, node) pairs share an object name. */
  lemma NamesCollideExactly(d1: string, n1: string, d2: string, n2: string)
    ensures GetBlockDeviceName(d1, n1) == GetBlockDeviceName(d2, n2) <==>
            ((d1 == d2 && n1 == n2) || Shifted(d1, n1, d2, n2) || Shifted(d2, n2, d1, n1))
  {
    var name1, name2 := GetBlockDeviceName(d1, n1), GetBlockDeviceName(d2, n2);
    if Shifted(d1, n1, d2, n2) { ShiftedCollides(d1, n1, d2, n2); }
    if Shifted(d2, n2, d1, n1) { ShiftedCollides(d2, n2, d1, n1); }
    if name1 == name2 {
      if |d1| < |d2| {
        CollisionShifts(d1, n1, d2, n2);
      } else if |d2| < |d1| {
        CollisionShifts(d2, n2, d1, n1);
      } else {
        assert name1[..|d1|] == d1 && name2[..|d2|] == d2;
        assert name1[|d1| + 1..] == n1 && name2[|d2| + 1..] == n2;
      }
    }
  }

  lemma ShiftedHasDash(d1: string, n1: string, d2: string, n2: string)
    requires Shifted(d1, n1, d2, n2)
    ensures !DashFree(d2)
  {
    assert (d1 + "-")[|d1|] == '-';
    assert d2[..|d1| + 1][|d1|] == d2[|d1|];
  }

  /** Dash-free device names make the pair recoverable, whatever the node names are. */
  lemma DashFreeNamesIdentify(d1: string, n1: string, d2: string, n2: string)
    requires DashFree(d1) && DashFree(d2)
    requires GetBlockDeviceName(d1, n1) == GetBlockDeviceName(d2, n2)
    ensures d1 == d2 && n1 == n2
  {
    NamesCollideExactly(d1, n1, d2, n2);
    if Shifted(d1, n1, d2, n2) { ShiftedHasDash(d1, n1, d2, n2); }
    if Shifted(d2, n2, d1, n1) { ShiftedHasDash(d2, n2, d1, n1); }
  }

  /** A device-mapper name shows that the condition cannot be dropped. */
  lemma DeviceMapperNamesCollide()
    ensures GetBlockDeviceName("dm", "0-a") == GetBlockDeviceName("dm-0", "a")
  {
    assert GetBlockDeviceName("dm", "0-a") == "dm-0-a";
    assert GetBlockDeviceName("dm-0", "a") == "dm-0-a";
  }

  /** What the udev side makes of any device path below /dev: its first component. */
  lemma ShortNameIsFirstComponent(first: string, rest: string, device: UdevDevice)
    requires '/' !in first
    requires Property(device, UDEV_DEVNAME) in {"/dev/" + first, "/dev/" + first + "/" + rest}
    ensures GetShortName(device) == first
  {
    var name := Property(device, UDEV_DEVNAME);
    var tail := if name == "/dev/" + first then first else first + ['/'] + rest;
    assert name == "" + ['/'] + ("dev" + ['/'] + tail);
    SplitWord("", "dev" + ['/'] + tail, '/');
    SplitWord("dev", tail, '/');
    if tail == first { SplitSingle(first, '/'); } else { SplitWord(first, rest, '/'); }
    assert Split(name, '/')[2] == first;
  }

  /** The udev event, the startup scan and the mount reconciler agree on the name of a kernel device. */
  lemma UdevAndScanAgree(device: UdevDevice, kernelName: string, node: string)
    requires '/' !in kernelName && kernelName != ""
    requires Property(device, UDEV_DEVNAME) == GetFullDevPath(kernelName)
    ensures GetShortName(device) == kernelName
    ensures TrimPrefix(Property(device, UDEV_DEVNAME), "/dev/") == kernelName
    ensures GetBlockDeviceName(GetShortName(device), node) == GetBlockDeviceName(kernelName, node)
  {
    ShortNameIsFirstComponent(kernelName, "", device);
  }
}
