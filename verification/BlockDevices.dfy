/** The BlockDevice resource (pkg/apis/longhorn.io/v1beta1/types.go) and the disk readings it is made from. */
module BlockDevices {
  import opened Strings

  type Time = nat

  datatype FilesystemInfo = FilesystemInfo(mountPoint: string, forceFormatted: bool)

  datatype Spec = Spec(nodeName: string, devPath: string, fileSystem: FilesystemInfo)

  datatype FilesystemStatus =
    FilesystemStatus(isReadOnly: bool, fsType: string, mountPoint: string, lastFormattedAt: Option<Time>)

  datatype Capacity = Capacity(sizeBytes: nat, physicalBlockSizeBytes: nat)

  datatype DeviceType = TypeDisk | TypePart

  datatype Details = Details(
    deviceType: DeviceType, driveType: string, partUUID: string, uuid: string, ptUUID: string, isRemovable: bool,
    storageController: string, busPath: string, model: string, vendor: string, serialNumber: string,
    numaNodeID: int, wwn: string, deviceLabel: string)

  datatype DeviceStatus = DeviceStatus(
    parentDevice: string, partitioned: bool, capacity: Capacity, details: Details, fileSystem: FilesystemStatus)

  datatype State = Active | Inactive | Unknown

  datatype Condition = Condition(
    kind: string, status: string, lastUpdateTime: Option<Time>, lastTransitionTime: Option<Time>, reason: string,
        message: string)

  /** An object as the API server stores it. `version` is its resourceVersion: 0 in an object not yet stored. */
  datatype BlockDevice = BlockDevice(
    name: string, namespace: string, labels: map<string, string>, version: nat, terminating: bool,
    spec: Spec, state: State, conditions: seq<Condition>, deviceStatus: DeviceStatus)

  const LABEL_HOSTNAME := "kubernetes.io/hostname"
  const PARENT_DEVICE_LABEL := "block.longhorn.io/parent-device"

  predicate Labelled(bd: BlockDevice, key: string, value: string) {
    key in bd.labels && bd.labels[key] == value
  }

  datatype FileSystemReading = FileSystemReading(fsType: string, isReadOnly: bool, mountPoint: string)

  datatype Partition = Partition(name: string, partLabel: string, sizeBytes: nat, uuid: string,
      fileSystem: FileSystemReading)

  datatype Disk = Disk(
    name: string, sizeBytes: nat, physicalBlockSizeBytes: nat, driveType: string, isRemovable: bool,
    storageController: string, uuid: string, ptUUID: string, busPath: string, fileSystem: FileSystemReading,
    numaNodeID: int, vendor: string, model: string, serialNumber: string, wwn: string, partitions: seq<Partition>)

  /** The first object called `name` in a list, as the save loops look it up. */
  function Find(list: seq<BlockDevice>, name: string): (found: Option<BlockDevice>)
    ensures found.Some? ==> found.value.name == name && found.value in list
    ensures found.None? <==> forall i | 0 <= i < |list| :: list[i].name != name
  {
    if list == [] then None
    else if list[0].name == name then Some(list[0])
    else Find(list[1..], name)
  }

  predicate DistinctNames(list: seq<BlockDevice>) {
    forall i, j | 0 <= i < j < |list| :: list[i].name != list[j].name
  }

  /** The first object of the name is found. */
  lemma {:induction false} FindAt(list: seq<BlockDevice>, i: nat)
    requires i < |list| && forall j | 0 <= j < i :: list[j].name != list[i].name
    ensures Find(list, list[i].name) == Some(list[i])
  {
    if i > 0 {
      assert list[1..][i - 1] == list[i];
      FindAt(list[1..], i - 1);
    }
  }
}
