/** What one disk reading says should be stored: the values built by pkg/controller/blockdevice/blockdevice.go. */
module Generation {
  import opened Strings
  import opened BlockDevices
  import opened Naming

  function StatusOf(reading: FileSystemReading): FilesystemStatus {
    FilesystemStatus(reading.isReadOnly, reading.fsType, reading.mountPoint, None)
  }

  function WholeDisk(disk: Disk, node: string, ns: string): BlockDevice {
    BlockDevice(
      GetBlockDeviceName(disk.name, node), ns, map[LABEL_HOSTNAME := node], 0, false,
      Spec(node, GetFullDevPath(disk.name), FilesystemInfo(disk.fileSystem.mountPoint, false)),
      Active, [],
      DeviceStatus(
        "", |disk.partitions| > 0, Capacity(disk.sizeBytes, disk.physicalBlockSizeBytes),
        Details(TypeDisk, disk.driveType, "", disk.uuid, disk.ptUUID, disk.isRemovable, disk.storageController,
                disk.busPath, disk.model, disk.vendor, disk.serialNumber, disk.numaNodeID, disk.wwn, ""),
        StatusOf(disk.fileSystem)))
  }

  function PartitionOf(part: Partition, parent: BlockDevice, node: string): BlockDevice {
    parent.(
      name := GetBlockDeviceName(part.name, node),
      labels := parent.labels[PARENT_DEVICE_LABEL := parent.name],
      spec := parent.spec.(devPath := GetFullDevPath(part.name),
                           fileSystem := parent.spec.fileSystem.(mountPoint := part.fileSystem.mountPoint)),
      deviceStatus := parent.deviceStatus.(
        partitioned := false,
        parentDevice := parent.spec.devPath,
        capacity := parent.deviceStatus.capacity.(sizeBytes := part.sizeBytes),
        details := parent.deviceStatus.details.(deviceType := TypePart, deviceLabel := part.partLabel,
            partUUID := part.uuid),
        fileSystem := StatusOf(part.fileSystem)))
  }

  function PartitionsOf(parts: seq<Partition>, parent: BlockDevice, node: string): seq<BlockDevice> {
    seq(|parts|, i requires 0 <= i < |parts| => PartitionOf(parts[i], parent, node))
  }

  /** The parent followed by its partitions in order. */
  function Generate(disk: Disk, node: string, ns: string): seq<BlockDevice> {
    var parent := WholeDisk(disk, node, ns);
    [parent] + PartitionsOf(disk.partitions, parent, node)
  }

  lemma ParentThenPartitions(disk: Disk, node: string, ns: string)
    ensures var bds := Generate(disk, node, ns);
            && |bds| == |disk.partitions| + 1
            && bds[0] == WholeDisk(disk, node, ns) && bds[1..] == PartitionsOf(disk.partitions, bds[0], node)
  {
  }

  /** A kernel directory lists a disk and its partitions under different names. */
  predicate DistinctParts(disk: Disk) {
    && (forall i | 0 <= i < |disk.partitions| :: disk.partitions[i].name != disk.name)
    && (forall i, j | 0 <= i < j < |disk.partitions| :: disk.partitions[i].name != disk.partitions[j].name)
  }

  /** The i-th generated device: number 0 is the disk itself. */
  function DeviceName(disk: Disk, i: nat): string
    requires i <= |disk.partitions|
  {
    if i == 0 then disk.name else disk.partitions[i - 1].name
  }

  lemma GeneratedAt(disk: Disk, node: string, ns: string, i: nat)
    requires i < |Generate(disk, node, ns)|
    ensures |Generate(disk, node, ns)| == |disk.partitions| + 1
    ensures var bd, parent := Generate(disk, node, ns)[i], WholeDisk(disk, node, ns);
            && bd.name == GetBlockDeviceName(DeviceName(disk, i), node)
            && bd.version == 0 && !bd.terminating && bd.state == Active && bd.conditions == []
            && LABEL_HOSTNAME in bd.labels && bd.labels[LABEL_HOSTNAME] == node
            && (PARENT_DEVICE_LABEL in bd.labels <==> i > 0)
            && (i > 0 ==>
                  && bd.labels[PARENT_DEVICE_LABEL] == parent.name
                  && bd.deviceStatus.parentDevice == parent.spec.devPath)
            && bd.deviceStatus.details.busPath == disk.busPath
            && bd.deviceStatus.fileSystem.lastFormattedAt == None
  {
    assert LABEL_HOSTNAME[0] == 'k' && PARENT_DEVICE_LABEL[0] == 'b';
  }

  // ---------------------------------------------------------------- field by field

  function ReadingOf(disk: Disk, i: nat): FileSystemReading
    requires i <= |disk.partitions|
  {
    if i == 0 then disk.fileSystem else disk.partitions[i - 1].fileSystem
  }

  predicate IsPath(path: string, name: string) { if name == "" then path == "" else path == "/dev/" + name }

  /** The Spec that a reading asks for. */
  predicate SpecRead(spec: Spec, disk: Disk, i: nat, node: string)
    requires i <= |disk.partitions|
  {
    && spec.nodeName == node && IsPath(spec.devPath, DeviceName(disk, i))
    && spec.fileSystem.mountPoint == ReadingOf(disk, i).mountPoint && !spec.fileSystem.forceFormatted
  }

  /** The status that a reading shows: what belongs to the partition comes from the partition, the rest from its
      disk. */
  predicate StatusRead(status: DeviceStatus, disk: Disk, i: nat)
    requires i <= |disk.partitions|
  {
    var details, fs := status.details, status.fileSystem;
    && (if i == 0 then
          && status.parentDevice == "" && (status.partitioned <==> disk.partitions != [])
          && status.capacity.sizeBytes == disk.sizeBytes
          && details.deviceType == TypeDisk && details.partUUID == "" && details.deviceLabel == ""
        else
          && IsPath(status.parentDevice, disk.name) && !status.partitioned
          && status.capacity.sizeBytes == disk.partitions[i - 1].sizeBytes
          && details.deviceType == TypePart && details.partUUID == disk.partitions[i - 1].uuid
          && details.deviceLabel == disk.partitions[i - 1].partLabel)
    && status.capacity.physicalBlockSizeBytes == disk.physicalBlockSizeBytes
    && details.driveType == disk.driveType && details.isRemovable == disk.isRemovable
    && details.storageController == disk.storageController && details.busPath == disk.busPath
    && details.uuid == disk.uuid && details.ptUUID == disk.ptUUID && details.wwn == disk.wwn
    && details.model == disk.model && details.vendor == disk.vendor && details.serialNumber == disk.serialNumber
    && details.numaNodeID == disk.numaNodeID
    && fs.fsType == ReadingOf(disk, i).fsType && fs.mountPoint == ReadingOf(disk, i).mountPoint
    && fs.isReadOnly == ReadingOf(disk, i).isReadOnly && fs.lastFormattedAt == None
  }

  /** Every field of a generated device, from the reading. */
  lemma GeneratedReads(disk: Disk, node: string, ns: string, i: nat)
    requires i <= |disk.partitions|
    ensures |Generate(disk, node, ns)| == |disk.partitions| + 1
    ensures var bd := Generate(disk, node, ns)[i];
            && bd.name == DeviceName(disk, i) + "-" + node && bd.namespace == ns
            && bd.labels == (if i == 0 then map["kubernetes.io/hostname" := node]
                             else map["kubernetes.io/hostname" := node,
                                      "block.longhorn.io/parent-device" := disk.name + "-" + node])
            && SpecRead(bd.spec, disk, i, node) && StatusRead(bd.deviceStatus, disk, i)
            && bd.state == Active && bd.conditions == [] && bd.version == 0 && !bd.terminating
  {
    assert LABEL_HOSTNAME[0] == 'k' && PARENT_DEVICE_LABEL[0] == 'b';
  }

  /** Distinct device names give distinct object names. */
  lemma GeneratedDistinct(disk: Disk, node: string, ns: string)
    requires DistinctParts(disk)
    ensures DistinctNames(Generate(disk, node, ns))
  {
    var bds := Generate(disk, node, ns);
    forall i, j | 0 <= i < j < |bds| ensures bds[i].name != bds[j].name {
      GeneratedAt(disk, node, ns, i);
      GeneratedAt(disk, node, ns, j);
      if bds[i].name == bds[j].name {
        NameDeterminesDevice(DeviceName(disk, i), DeviceName(disk, j), node);
      }
    }
  }

  /** Each partition comes after its parent. */
  ghost predicate ParentsFirst(bds: seq<BlockDevice>) {
    forall i | 0 <= i < |bds| && PARENT_DEVICE_LABEL in bds[i].labels ::
      exists j | 0 <= j < i :: bds[j].name == bds[i].labels[PARENT_DEVICE_LABEL]
  }

  lemma GeneratedParentsFirst(disk: Disk, node: string, ns: string)
    ensures ParentsFirst(Generate(disk, node, ns))
  {
    var bds := Generate(disk, node, ns);
    forall i | 0 <= i < |bds| && PARENT_DEVICE_LABEL in bds[i].labels
      ensures exists j | 0 <= j < i :: bds[j].name == bds[i].labels[PARENT_DEVICE_LABEL]
    {
      GeneratedAt(disk, node, ns, i);
      assert bds[0].name == bds[i].labels[PARENT_DEVICE_LABEL];
    }
  }

  lemma ParentsFirstConcat(a: seq<BlockDevice>, b: seq<BlockDevice>)
    requires ParentsFirst(a) && ParentsFirst(b)
    ensures ParentsFirst(a + b)
  {
    var c := a + b;
    forall i | 0 <= i < |c| && PARENT_DEVICE_LABEL in c[i].labels
      ensures exists j | 0 <= j < i :: c[j].name == c[i].labels[PARENT_DEVICE_LABEL]
    {
      if i < |a| {
        assert c[i] == a[i];
        var j :| 0 <= j < i && a[j].name == a[i].labels[PARENT_DEVICE_LABEL];
        assert c[j] == a[j];
      } else {
        assert c[i] == b[i - |a|];
        var j :| 0 <= j < i - |a| && b[j].name == b[i - |a|].labels[PARENT_DEVICE_LABEL];
        assert c[|a| + j] == b[j];
      }
    }
  }
}
