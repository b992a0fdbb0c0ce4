/**
 Device objects on the heap: the generated deep copies (zz_generated_deepcopy.go) and the device tree built from them
 (blockdevice.go). A Go struct held by value is a datatype whose pointer fields are references, so that assigning it
 aliases what it points to; the resource itself, always handled by pointer, is a class.
 */
module DeepCopy {
  import opened Strings
  import opened BlockDevices
  import opened Naming
  import Generation

  class Timestamp {
    var at: Time
    constructor (at: Time) ensures this.at == at { this.at := at; }

    method DeepCopy() returns (out: Timestamp)
      ensures fresh(out) && out.at == at
    {
      out := new Timestamp(at);
    }
  }

  class LabelTable {
    var entries: map<string, string>
    constructor (entries: map<string, string>) ensures this.entries == entries { this.entries := entries; }
  }

  datatype FilesystemStatusStruct =
    FilesystemStatusStruct(isReadOnly: bool, fsType: string, mountPoint: string, lastFormattedAt: Timestamp?)
  {
    function Repr(): set<object> { if lastFormattedAt == null then {} else {lastFormattedAt} }

    function Value(): FilesystemStatus
      reads Repr()
    {
      FilesystemStatus(isReadOnly, fsType, mountPoint,
          if lastFormattedAt == null then None else Some(lastFormattedAt.at))
    }

    /** FilesystemStatus.DeepCopyInto */
    method DeepCopyInto() returns (out: FilesystemStatusStruct)
      ensures out.Value() == Value() && fresh(out.Repr())
    {
      out := this;
      if lastFormattedAt != null {
        var copied := lastFormattedAt.DeepCopy();
        out := out.(lastFormattedAt := copied);
      }
    }
  }

  datatype DeviceStatusStruct = DeviceStatusStruct(
    parentDevice: string, partitioned: bool, capacity: Capacity, details: Details, fileSystem: FilesystemStatusStruct)
  {
    function Value(): DeviceStatus
      reads fileSystem.Repr()
    {
      DeviceStatus(parentDevice, partitioned, capacity, details, fileSystem.Value())
    }

    /** DeviceStatus.DeepCopyInto */
    method DeepCopyInto() returns (out: DeviceStatusStruct)
      ensures out.Value() == Value() && fresh(out.fileSystem.Repr())
    {
      out := this;
      var copied := fileSystem.DeepCopyInto();
      out := out.(fileSystem := copied);
    }
  }

  datatype StatusStruct = StatusStruct(state: State, conditions: array?<Condition>, deviceStatus: DeviceStatusStruct)
  {
    function Repr(): set<object> {
      deviceStatus.fileSystem.Repr() + (if conditions == null then {} else {conditions})
    }

    function Conditions(): seq<Condition>
      reads Repr()
    {
      if conditions == null then [] else conditions[..]
    }

    /** BlockDeviceStatus.DeepCopyInto */
    method DeepCopyInto() returns (out: StatusStruct)
      ensures fresh(out.Repr())
      ensures out.state == state && out.Conditions() == Conditions() && (out.conditions == null <==> conditions == null)
      ensures out.deviceStatus.Value() == deviceStatus.Value()
    {
      out := this;
      if conditions != null {
        var source := conditions;
        var copied := new Condition[source.Length](i requires 0 <= i < source.Length reads source => source[i]);
        assert copied[..] == source[..];
        out := out.(conditions := copied);
      }
      var device := deviceStatus.DeepCopyInto();
      out := out.(deviceStatus := device);
    }
  }

  class DeviceObject {
    var name: string
    var namespace: string
    var version: nat
    var terminating: bool
    var labels: LabelTable?
    var spec: Spec
    var status: StatusStruct

    /** Everything that can be written through this object. */
    function Repr(): set<object>
      reads this
    {
      {this} + status.Repr() + (if labels == null then {} else {labels})
    }

    function Labels(): map<string, string>
      reads Repr()
    {
      if labels == null then map[] else labels.entries
    }

    function Value(): BlockDevice
      reads Repr()
    {
      BlockDevice(name, namespace, Labels(), version, terminating, spec, status.state, status.Conditions(),
          status.deviceStatus.Value())
    }

    constructor (name: string, namespace: string, labels: LabelTable?, spec: Spec, status: StatusStruct)
      ensures this.name == name && this.namespace == namespace && this.version == 0 && !this.terminating
      ensures this.labels == labels && this.spec == spec && this.status == status
    {
      this.name, this.namespace, this.version, this.terminating := name, namespace, 0, false;
      this.labels, this.spec, this.status := labels, spec, status;
    }

    /** The struct assignment `*out = *in`: afterwards both objects point to the same labels, conditions and
        timestamp. */
    method Assign(from: DeviceObject)
      modifies this
      ensures name == old(from.name) && namespace == old(from.namespace)
      ensures version == old(from.version) && terminating == old(from.terminating)
      ensures labels == old(from.labels) && spec == old(from.spec) && status == old(from.status)
    {
      name, namespace, version, terminating := from.name, from.namespace, from.version, from.terminating;
      labels, spec, status := from.labels, from.spec, from.status;
    }

    /** BlockDevice.DeepCopyInto; the receiver and `out` differ, as in every call. */
    method DeepCopyInto(out: DeviceObject)
      requires out !in Repr()
      modifies out
      ensures out.Value() == old(Value()) && Value() == old(Value())
      ensures fresh(out.Repr() - {out}) && (out.labels == null <==> labels == null)
    {
      out.Assign(this);
      if labels != null {
        out.labels := new LabelTable(labels.entries);
      }
      var copied := status.DeepCopyInto();
      out.status := copied;
    }

    /** BlockDevice.DeepCopy */
    method DeepCopy() returns (out: DeviceObject)
      ensures fresh(out.Repr()) && out.Value() == Value() && (out.labels == null <==> labels == null)
    {
      out := new DeviceObject("", "", null, spec, status);
      DeepCopyInto(out);
    }

    /** A map write through this object's label table. */
    method SetLabel(key: string, value: string)
      requires labels != null
      modifies labels
      ensures labels.entries == old(labels.entries)[key := value]
    {
      labels.entries := labels.entries[key := value];
    }
  }

  /** No two of the objects can be written through a common reference. */
  ghost predicate Separate(objects: seq<DeviceObject>)
    reads set i | 0 <= i < |objects| :: objects[i]
  {
    forall i, j | 0 <= i < j < |objects| :: objects[i].Repr() !! objects[j].Repr()
  }

  /** Everything reachable from the objects lies in `footprint`. */
  ghost predicate Within(objects: seq<DeviceObject>, footprint: set<object>)
    reads set i | 0 <= i < |objects| :: objects[i]
  {
    forall i | 0 <= i < |objects| :: objects[i].Repr() <= footprint
  }

  function StructOf(reading: FileSystemReading): FilesystemStatusStruct {
    FilesystemStatusStruct(reading.isReadOnly, reading.fsType, reading.mountPoint, null)
  }

  /** One iteration of the loop in GetPartitionBlockDevices. */
  method CopyForPartition(part: Partition, parent: DeviceObject, node: string) returns (child: DeviceObject)
    requires parent.labels != null
    ensures fresh(child.Repr())
    ensures child.Value() == Generation.PartitionOf(part, parent.Value(), node)
  {
    child := parent.DeepCopy();
    child.SetLabel(PARENT_DEVICE_LABEL, parent.name);
    child.spec := child.spec.(devPath := GetFullDevPath(part.name));
    child.name := GetBlockDeviceName(part.name, node);
    child.spec := child.spec.(fileSystem := child.spec.fileSystem.(mountPoint := part.fileSystem.mountPoint));
    var device := child.status.deviceStatus;
    device := device.(partitioned := false, parentDevice := parent.spec.devPath);
    device := device.(capacity := device.capacity.(sizeBytes := part.sizeBytes));
    device := device.(details := device.details.(deviceType := TypePart, deviceLabel := part.partLabel,
        partUUID := part.uuid));
    device := device.(fileSystem := StructOf(part.fileSystem));
    child.status := child.status.(deviceStatus := device);
  }

  lemma ChildAdded(children: seq<DeviceObject>, child: DeviceObject, footprint: set<object>, wanted: seq<BlockDevice>)
    requires |children| < |wanted|
    requires Separate(children) && Within(children, footprint) && child.Repr() !! footprint
    requires forall j | 0 <= j < |children| :: children[j].Value() == wanted[j]
    requires child.Value() == wanted[|children|]
    ensures Separate(children + [child]) && Within(children + [child], footprint + child.Repr())
    ensures forall j | 0 <= j <= |children| :: (children + [child])[j].Value() == wanted[j]
  {
  }

  /** `footprint` is the freshly allocated memory that the children live in. */
  method GetPartitionBlockDevices(parts: seq<Partition>, parent: DeviceObject, node: string)
    returns (children: seq<DeviceObject>, ghost footprint: set<object>)
    requires parent.labels != null
    ensures |children| == |parts|
    ensures fresh(footprint) && Within(children, footprint) && Separate(children)
    ensures forall i | 0 <= i < |children| ::
              children[i].Value() == Generation.PartitionsOf(parts, parent.Value(), node)[i]
  {
    ghost var wanted := Generation.PartitionsOf(parts, parent.Value(), node);
    children, footprint := [], {};
    var i := 0;
    while i < |parts|
      invariant 0 <= i <= |parts| && |children| == i
      invariant fresh(footprint) && Within(children, footprint) && Separate(children)
      invariant forall j | 0 <= j < i :: children[j].Value() == wanted[j]
    {
      var child := CopyForPartition(parts[i], parent, node);
      assert child.Value() == wanted[i];
      ChildAdded(children, child, footprint, wanted);
      footprint := footprint + child.Repr();
      children := children + [child];
      i := i + 1;
    }
  }

  /** The composite literal at the head of GetNewBlockDevices. */
  method NewWholeDisk(disk: Disk, node: string, ns: string) returns (parent: DeviceObject)
    ensures fresh(parent.Repr()) && parent.labels != null
    ensures parent.Value() == Generation.WholeDisk(disk, node, ns)
  {
    var labels := new LabelTable(map[LABEL_HOSTNAME := node]);
    parent := new DeviceObject(
      GetBlockDeviceName(disk.name, node), ns, labels,
      Spec(node, GetFullDevPath(disk.name), FilesystemInfo(disk.fileSystem.mountPoint, false)),
      StatusStruct(
        Active, null,
        DeviceStatusStruct(
          "", |disk.partitions| > 0, Capacity(disk.sizeBytes, disk.physicalBlockSizeBytes),
          Details(TypeDisk, disk.driveType, "", disk.uuid, disk.ptUUID, disk.isRemovable, disk.storageController,
                  disk.busPath, disk.model, disk.vendor, disk.serialNumber, disk.numaNodeID, disk.wwn, ""),
          StructOf(disk.fileSystem))));
  }

  lemma ParentFirst(parent: DeviceObject, children: seq<DeviceObject>, footprint: set<object>, wanted: seq<BlockDevice>)
    requires |wanted| == |children| + 1
    requires parent.Value() == wanted[0]
    requires forall i | 0 <= i < |children| :: children[i].Value() == wanted[1..][i]
    requires Separate(children) && Within(children, footprint) && parent.Repr() !! footprint
    ensures Separate([parent] + children) && Within([parent] + children, parent.Repr() + footprint)
    ensures forall i | 0 <= i < |wanted| :: ([parent] + children)[i].Value() == wanted[i]
  {
    var objects := [parent] + children;
    assert forall i | 0 < i < |objects| :: objects[i] == children[i - 1] && wanted[i] == wanted[1..][i - 1];
  }

  /** The parent first, then one object a partition, none sharing anything mutable with another. */
  method GetNewBlockDevices(disk: Disk, node: string, ns: string)
    returns (objects: seq<DeviceObject>, ghost footprint: set<object>)
    ensures |objects| == |Generation.Generate(disk, node, ns)|
    ensures fresh(footprint) && Within(objects, footprint) && Separate(objects)
    ensures forall i | 0 <= i < |objects| :: objects[i].Value() == Generation.Generate(disk, node, ns)[i]
  {
    hide Generation.Generate, Generation.WholeDisk, Generation.PartitionsOf, Within, Separate;
    ghost var wanted := Generation.Generate(disk, node, ns);
    var parent := NewWholeDisk(disk, node, ns);
    ghost var own := parent.Repr();
    var children;
    children, footprint := GetPartitionBlockDevices(disk.partitions, parent, node);
    Generation.ParentThenPartitions(disk, node, ns);
    ParentFirst(parent, children, footprint, wanted);
    objects, footprint := [parent] + children, own + footprint;
  }

  /** Whatever is written through one of the objects, the values of the others stay as they were. */
  twostate lemma WritesStayLocal(objects: seq<DeviceObject>, k: nat)
    requires k < |objects| && old(Separate(objects))
    requires forall i, o | 0 <= i < |objects| && i != k && o in old(objects[i].Repr()) &&
        o !in old(objects[k].Repr()) :: unchanged(o)
    ensures forall i | 0 <= i < |objects| && i != k :: objects[i].Value() == old(objects[i].Value())
  {
    forall i | 0 <= i < |objects| && i != k
      ensures objects[i].Value() == old(objects[i].Value())
    {
      assert old(objects[i].Repr() !! objects[k].Repr());
      assert forall o | o in old(objects[i].Repr()) :: unchanged(o);
      assert unchanged(objects[i]);
    }
  }

  /** The values a save loop sends to the API server, read off the freshly built objects. */
  method GeneratedValues(disk: Disk, node: string, ns: string) returns (bds: seq<BlockDevice>)
    ensures bds == Generation.Generate(disk, node, ns)
  {
    hide Generation.Generate, Within, Separate, Generation.PartitionOf;
    ghost var wanted := Generation.Generate(disk, node, ns);
    var objects, _ := GetNewBlockDevices(disk, node, ns);
    bds := [];
    var i := 0;
    while i < |objects|
      invariant 0 <= i <= |objects| == |wanted|
      invariant bds == wanted[..i]
    {
      var value := objects[i].Value();
      assert value == wanted[i];
      bds := bds + [value];
      i := i + 1;
    }
  }
}
