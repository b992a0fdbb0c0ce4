/** The mount reconciler `OnBlockDeviceChange` of pkg/controller/blockdevice/controller.go, as a function of what it
    reads. */
module Mounting {
  import opened Strings
  import opened BlockDevices

  // ---------------------------------------------------------------- conditions

  const MOUNTED := "Mounted"

  /** The position of the first condition of this kind, or the length of the list. */
  function IndexOf(cs: seq<Condition>, kind: string): (i: nat)
    ensures i <= |cs|
    ensures i < |cs| ==> cs[i].kind == kind
    ensures forall j | 0 <= j < i :: cs[j].kind != kind
  {
    if cs == [] || cs[0].kind == kind then 0 else 1 + IndexOf(cs[1..], kind)
  }

  /** The accessors' find-or-create. */
  function WithCondition(cs: seq<Condition>, kind: string): (r: seq<Condition>)
    ensures IndexOf(r, kind) < |r|
  {
    if IndexOf(cs, kind) < |cs| then cs
    else
      var r := cs + [Condition(kind, "Unknown", None, None, "", "")];
      assert r[|cs|].kind == kind;
      r
  }

  /** Whether the condition has status True; a missing condition has not. */
  predicate IsTrue(cs: seq<Condition>, kind: string) {
    IndexOf(cs, kind) < |cs| && cs[IndexOf(cs, kind)].status == "True"
  }

  /** Writing a changed status stamps the condition with the time. */
  function SetStatus(cs: seq<Condition>, kind: string, status: string, now: Time): seq<Condition> {
    var r := WithCondition(cs, kind);
    var i := IndexOf(r, kind);
    if r[i].status == status then r else r[i := r[i].(status := status, lastUpdateTime := Some(now))]
  }

  function SetStatusBool(cs: seq<Condition>, kind: string, value: bool, now: Time): seq<Condition> {
    SetStatus(cs, kind, if value then "True" else "False", now)
  }

  function SetMessage(cs: seq<Condition>, kind: string, message: string, now: Time): seq<Condition> {
    var r := WithCondition(cs, kind);
    var i := IndexOf(r, kind);
    if r[i].message == message then r else r[i := r[i].(message := message, lastUpdateTime := Some(now))]
  }

  function SetReason(cs: seq<Condition>, kind: string, reason: string): seq<Condition> {
    var r := WithCondition(cs, kind);
    var i := IndexOf(r, kind);
    r[i := r[i].(reason := reason)]
  }

  /** SetError with an empty reason, the only way it is called. */
  function SetError(cs: seq<Condition>, kind: string, error: Option<string>, now: Time): seq<Condition> {
    match error
    case None => SetReason(SetMessage(SetStatus(cs, kind, "True", now), kind, "", now), kind, "")
    case Some(text) => SetReason(SetMessage(SetStatus(cs, kind, "False", now), kind, text, now), kind, "Error")
  }

  /** What a setter leaves of the conditions: only this kind's may differ, and it is appended if it was missing. */
  predicate OthersKept(cs: seq<Condition>, r: seq<Condition>, kind: string) {
    var i := IndexOf(cs, kind);
    && |r| == (if i < |cs| then |cs| else |cs| + 1) && IndexOf(r, kind) == i
    && (forall j | 0 <= j < |cs| && j != i :: r[j] == cs[j])
    && r[i].lastTransitionTime == (if i < |cs| then cs[i].lastTransitionTime else None)
  }

  /** No setter touches another condition. */
  lemma SettersKeepOthers(cs: seq<Condition>, kind: string, text: string, error: Option<string>, now: Time)
    ensures OthersKept(cs, SetStatus(cs, kind, text, now), kind)
    ensures OthersKept(cs, SetMessage(cs, kind, text, now), kind)
    ensures OthersKept(cs, SetReason(cs, kind, text), kind) && OthersKept(cs, SetError(cs, kind, error, now), kind)
  {
    OneSetterKeepsOthers(cs, kind, text, now);
    var status := if error.None? then "True" else "False";
    var c1 := SetStatus(cs, kind, status, now);
    OneSetterKeepsOthers(cs, kind, status, now);
    var c2 := SetMessage(c1, kind, error.GetOr(""), now);
    OneSetterKeepsOthers(c1, kind, error.GetOr(""), now);
    OneSetterKeepsOthers(c2, kind, if error.None? then "" else "Error", now);
  }

  lemma OneSetterKeepsOthers(cs: seq<Condition>, kind: string, text: string, now: Time)
    ensures OthersKept(cs, SetStatus(cs, kind, text, now), kind)
    ensures OthersKept(cs, SetMessage(cs, kind, text, now), kind)
    ensures OthersKept(cs, SetReason(cs, kind, text), kind)
  {
    AppendedLast(cs, kind);
    SettersKeepPlace(WithCondition(cs, kind), kind, text, now);
  }

  lemma {:induction false} AppendedLast(cs: seq<Condition>, kind: string)
    ensures IndexOf(WithCondition(cs, kind), kind) == IndexOf(cs, kind)
  {
    var i, r := IndexOf(cs, kind), WithCondition(cs, kind);
    if i == |cs| {
      assert forall j | 0 <= j < |cs| :: r[j] == cs[j];
      assert r[|cs|].kind == kind;
    }
  }

  /** A setter stamps the condition with the time exactly when it changes what the condition says. */
  lemma StampsExactlyChanges(cs: seq<Condition>, kind: string, text: string, now: Time)
    requires IndexOf(cs, kind) < |cs|
    ensures var i := IndexOf(cs, kind);
            && SetStatus(cs, kind, text, now)[i].lastUpdateTime ==
                 (if cs[i].status != text then Some(now) else cs[i].lastUpdateTime)
            && SetMessage(cs, kind, text, now)[i].lastUpdateTime ==
                 (if cs[i].message != text then Some(now) else cs[i].lastUpdateTime)
            && SetReason(cs, kind, text)[i].lastUpdateTime == cs[i].lastUpdateTime
  {
  }

  /** The condition already says what SetError would write. */
  predicate Says(cs: seq<Condition>, kind: string, error: Option<string>) {
    var i := IndexOf(cs, kind);
    && i < |cs|
    && cs[i].status == (if error.None? then "True" else "False")
    && cs[i].reason == (if error.None? then "" else "Error")
    && cs[i].message == error.GetOr("")
  }

  lemma {:induction false} IndexOfUpdate(cs: seq<Condition>, i: nat, c: Condition, kind: string)
    requires i < |cs| && i == IndexOf(cs, kind) && c.kind == kind
    ensures IndexOf(cs[i := c], kind) == i
  {
    if i > 0 {
      IndexOfUpdate(cs[1..], i - 1, c, kind);
      assert cs[i := c][1..] == cs[1..][i - 1 := c];
    }
  }

  lemma SettersKeepPlace(cs: seq<Condition>, kind: string, text: string, now: Time)
    requires IndexOf(cs, kind) < |cs|
    ensures var i := IndexOf(cs, kind);
            && IndexOf(SetStatus(cs, kind, text, now), kind) == i
            && IndexOf(SetMessage(cs, kind, text, now), kind) == i
            && IndexOf(SetReason(cs, kind, text), kind) == i
  {
    var i := IndexOf(cs, kind);
    IndexOfUpdate(cs, i, cs[i].(status := text, lastUpdateTime := Some(now)), kind);
    IndexOfUpdate(cs, i, cs[i].(message := text, lastUpdateTime := Some(now)), kind);
    IndexOfUpdate(cs, i, cs[i].(reason := text), kind);
  }

  lemma SetStatusWrites(cs: seq<Condition>, kind: string, status: string, now: Time)
    ensures var r := SetStatus(cs, kind, status, now);
            IndexOf(r, kind) < |r| && r[IndexOf(r, kind)].status == status
  {
    SettersKeepPlace(WithCondition(cs, kind), kind, status, now);
  }

  lemma SetErrorSays(cs: seq<Condition>, kind: string, error: Option<string>, now: Time)
    ensures Says(SetError(cs, kind, error, now), kind, error)
  {
    var status := if error.None? then "True" else "False";
    SetStatusWrites(cs, kind, status, now);
    var c1 := SetStatus(cs, kind, status, now);
    SettersKeepPlace(c1, kind, error.GetOr(""), now);
    var c2 := SetMessage(c1, kind, error.GetOr(""), now);
    SettersKeepPlace(c2, kind, if error.None? then "" else "Error", now);
  }

  /** Writing what is already there changes nothing, not even the time stamp. */
  lemma RepeatedWriteIsNoOp(cs: seq<Condition>, kind: string, error: Option<string>, now: Time)
    requires Says(cs, kind, error)
    ensures SetStatusBool(cs, kind, error.None?, now) == cs
    ensures SetError(cs, kind, error, now) == cs
    ensures SetMessage(cs, kind, error.GetOr(""), now) == cs
  {
    var i := IndexOf(cs, kind);
    assert cs[i := cs[i].(reason := cs[i].reason)] == cs;
  }

  // ---------------------------------------------------------------- one reconcile

  predicate IsSupportedFileSystem(fsType: string) {
    fsType == "ext4" || fsType == "ext3" || fsType == "ext2" || fsType == "xfs"
  }

  /** At most one trailing slash is removed, and never the slash that is the root. */
  function Normalize(mountPoint: string): string {
    if |mountPoint| > 1 then TrimSuffix(mountPoint, "/") else mountPoint
  }

  /** `isValidFileSystem`: None when valid, otherwise the error. */
  function FileSystemError(fs: FilesystemInfo, status: FilesystemStatus): Option<string> {
    if Normalize(fs.mountPoint) != status.mountPoint then
      Some("current mountPoint " + status.mountPoint + " does not match the specified path: " +
          Normalize(fs.mountPoint))
    else if !IsSupportedFileSystem(status.fsType) then
      Some("unsupported filesystem type " + status.fsType)
    else
      None
  }

  predicate IsValidFileSystem(fs: FilesystemInfo, status: FilesystemStatus) { FileSystemError(fs, status).None? }

  /** The recorded mount point is the requested one, which may be written with one slash more at its end; the root
      is just itself. */
  predicate Reaches(recorded: string, requested: string) {
    if |requested| > 1 && requested[|requested| - 1] == '/' then requested == recorded + "/" else requested == recorded
  }

  /** The recorded file system is the requested one, of a type that Longhorn supports. */
  predicate Fulfils(status: FilesystemStatus, requested: string) {
    Reaches(status.mountPoint, requested) && status.fsType in {"ext2", "ext3", "ext4", "xfs"}
  }

  lemma NormalizeReaches(recorded: string, requested: string)
    ensures Normalize(requested) == recorded <==> Reaches(recorded, requested)
  {
    var n := |requested|;
    if n > 1 {
      assert requested == requested[..n - 1] + [requested[n - 1]];
      assert requested[n - 1..] == [requested[n - 1]];
    }
  }

  /** `isValidFileSystem` decides exactly this; its error names what is recorded. */
  lemma ValidExactly(fs: FilesystemInfo, status: FilesystemStatus)
    ensures IsValidFileSystem(fs, status) <==> Fulfils(status, fs.mountPoint)
    ensures var error := FileSystemError(fs, status);
            && (error.Some? && !Reaches(status.mountPoint, fs.mountPoint) ==> Occurs(error.value, status.mountPoint))
            && (error.Some? && Reaches(status.mountPoint, fs.mountPoint) ==> Occurs(error.value, status.fsType))
  {
    NormalizeReaches(status.mountPoint, fs.mountPoint);
    var error := FileSystemError(fs, status);
    if Normalize(fs.mountPoint) != status.mountPoint {
      assert OccursAt(error.value, status.mountPoint, |"current mountPoint "|);
    } else if error.Some? {
      assert OccursAt(error.value, status.fsType, |"unsupported filesystem type "|);
    }
  }

  /** In terms of a path without the slash. */
  lemma TrailingSlashIsOptional(path: string, status: FilesystemStatus)
    requires path != ""
    ensures IsValidFileSystem(FilesystemInfo(path + "/", false), status) <==>
            status.mountPoint == path && status.fsType in {"ext2", "ext3", "ext4", "xfs"}
  {
    ValidExactly(FilesystemInfo(path + "/", false), status);
    assert (path + "/")[|path|] == '/';
    if path + "/" == status.mountPoint + "/" {
      assert (path + "/")[..|path|] == (status.mountPoint + "/")[..|status.mountPoint|];
    }
  }

  /** What `mountDevice` does, and what the disk reports right after it succeeded. */
  datatype Attempt = MountFails(error: string) | MountSucceeds(reading: FileSystemReading)

  /** `device` is what would be written; `mounts` whether a mount was issued; `writes` whether an Update was. */
  datatype Reconciled = Reconciled(device: BlockDevice, mounts: bool, writes: bool)

  function Stamped(device: BlockDevice, now: Time): BlockDevice {
    var fs := device.deviceStatus.fileSystem;
    if device.spec.fileSystem.forceFormatted && fs.lastFormattedAt == None then
      device.(deviceStatus := device.deviceStatus.(fileSystem := fs.(lastFormattedAt := Some(now))))
    else device
  }

  function Reread(device: BlockDevice, reading: FileSystemReading): BlockDevice {
    device.(deviceStatus := device.deviceStatus.(fileSystem :=
      device.deviceStatus.fileSystem.(fsType := reading.fsType, mountPoint := reading.mountPoint)))
  }

  /** The tail of the handler: the two condition writes. */
  function Judged(device: BlockDevice, now: Time): BlockDevice {
    var error := FileSystemError(device.spec.fileSystem, device.deviceStatus.fileSystem);
    var mounted := error.None? && device.deviceStatus.fileSystem.mountPoint != "";
    var c1 := SetStatusBool(device.conditions, MOUNTED, mounted, now);
    var c2 := SetError(c1, MOUNTED, error, now);
    device.(conditions := if error.None? then c2 else SetMessage(c2, MOUNTED, error.value, now))
  }

  function MountFailure(device: BlockDevice, error: string, now: Time): BlockDevice {
    var c1 := SetStatusBool(device.conditions, MOUNTED, false, now);
    device.(conditions := SetError(c1, MOUNTED, Some(
      "failed to mount the device " + device.spec.devPath + " to path " + device.spec.fileSystem.mountPoint +
          ", error:" + error), now))
  }

  predicate Skips(device: BlockDevice) { device.terminating || device.spec.fileSystem.mountPoint == "" }

  function Reconcile(device: BlockDevice, attempt: Attempt, now: Time): Reconciled {
    if Skips(device) then
      Reconciled(device, false, false)
    else if IsValidFileSystem(device.spec.fileSystem, device.deviceStatus.fileSystem) then
      Reconciled(Judged(device, now), false, Judged(device, now) != device)
    else
      var stamped := Stamped(device, now);
      match attempt
      case MountFails(error) => Reconciled(MountFailure(stamped, error, now), true, true)
      case MountSucceeds(reading) =>
        var judged := Judged(Reread(stamped, reading), now);
        Reconciled(judged, true, judged != device)
  }

  /** Only the conditions and three file-system status fields are the reconciler's. */
  lemma ReconcileOwnsItsFields(device: BlockDevice, attempt: Attempt, now: Time)
    ensures var r := Reconcile(device, attempt, now).device;
            r == device.(
              conditions := r.conditions,
              deviceStatus := device.deviceStatus.(fileSystem := device.deviceStatus.fileSystem.(
                fsType := r.deviceStatus.fileSystem.fsType,
                mountPoint := r.deviceStatus.fileSystem.mountPoint,
                lastFormattedAt := r.deviceStatus.fileSystem.lastFormattedAt)))
  {
  }

  /** When a mount is issued, when an Update is, and what is recorded: what the disk reports after a mount that
      succeeded, and otherwise what was recorded before. */
  lemma ReconcileActsExactly(device: BlockDevice, attempt: Attempt, now: Time)
    ensures var r := Reconcile(device, attempt, now);
            var before, after := device.deviceStatus.fileSystem, r.device.deviceStatus.fileSystem;
            && (r.mounts <==>
                  && !device.terminating && device.spec.fileSystem.mountPoint != ""
                  && !Fulfils(before, device.spec.fileSystem.mountPoint))
            && (r.writes <==> r.device != device || (r.mounts && attempt.MountFails?))
            && (if r.mounts && attempt.MountSucceeds? then
                  after.fsType == attempt.reading.fsType && after.mountPoint == attempt.reading.mountPoint
                else
                  after.fsType == before.fsType && after.mountPoint == before.mountPoint)
  {
    hide SetStatus, SetMessage, SetError, FileSystemError, Fulfils;
    ValidExactly(device.spec.fileSystem, device.deviceStatus.fileSystem);
  }

  /** The two condition writes agree: Mounted says exactly whether the recorded file system is the requested, supported
      one. */
  lemma MountedIsExact(device: BlockDevice, attempt: Attempt, now: Time)
    requires !device.terminating && device.spec.fileSystem.mountPoint != ""
    requires Fulfils(device.deviceStatus.fileSystem, device.spec.fileSystem.mountPoint) || attempt.MountSucceeds?
    ensures var r := Reconcile(device, attempt, now).device;
            var fs := r.deviceStatus.fileSystem;
            && Says(r.conditions, MOUNTED, FileSystemError(r.spec.fileSystem, fs))
            && (IsTrue(r.conditions, MOUNTED) <==> Fulfils(fs, device.spec.fileSystem.mountPoint))
            && SetStatusBool(r.conditions, MOUNTED, IsTrue(r.conditions, MOUNTED), now) == r.conditions
  {
    ValidExactly(device.spec.fileSystem, device.deviceStatus.fileSystem);
    var base := if IsValidFileSystem(device.spec.fileSystem, device.deviceStatus.fileSystem) then device
                else Reread(Stamped(device, now), attempt.reading);
    JudgedSays(base, now);
    var r := Judged(base, now);
    ValidExactly(r.spec.fileSystem, r.deviceStatus.fileSystem);
    RepeatedWriteIsNoOp(r.conditions, MOUNTED, FileSystemError(r.spec.fileSystem, r.deviceStatus.fileSystem), now);
  }

  /** A reconcile touches no other condition. */
  lemma ReconcileKeepsOtherConditions(device: BlockDevice, attempt: Attempt, now: Time)
    ensures var r := Reconcile(device, attempt, now).device;
            r.conditions == device.conditions || OthersKept(device.conditions, r.conditions, MOUNTED)
  {
    hide SetStatus, SetMessage, SetError, FileSystemError, OthersKept;
    var r := Reconcile(device, attempt, now);
    if !Skips(device) && !r.mounts {
      JudgedKeepsOthers(device, now);
    } else if r.mounts && attempt.MountSucceeds? {
      JudgedKeepsOthers(Reread(Stamped(device, now), attempt.reading), now);
    } else if r.mounts {
      FailureKeepsOthers(Stamped(device, now), attempt.error, now);
    }
  }

  lemma OthersKeptTwice(a: seq<Condition>, b: seq<Condition>, c: seq<Condition>, kind: string)
    requires OthersKept(a, b, kind) && OthersKept(b, c, kind)
    ensures OthersKept(a, c, kind)
  {
  }

  lemma JudgedKeepsOthers(device: BlockDevice, now: Time)
    ensures OthersKept(device.conditions, Judged(device, now).conditions, MOUNTED)
  {
    hide SetStatus, SetMessage, SetError, FileSystemError, OthersKept;
    var error := FileSystemError(device.spec.fileSystem, device.deviceStatus.fileSystem);
    var mounted := error.None? && device.deviceStatus.fileSystem.mountPoint != "";
    var c1 := SetStatusBool(device.conditions, MOUNTED, mounted, now);
    var c2 := SetError(c1, MOUNTED, error, now);
    SettersKeepOthers(device.conditions, MOUNTED, if mounted then "True" else "False", None, now);
    SettersKeepOthers(c1, MOUNTED, "", error, now);
    SettersKeepOthers(c2, MOUNTED, error.GetOr(""), None, now);
    OthersKeptTwice(device.conditions, c1, c2, MOUNTED);
    OthersKeptTwice(device.conditions, c2, SetMessage(c2, MOUNTED, error.GetOr(""), now), MOUNTED);
  }

  lemma FailureKeepsOthers(device: BlockDevice, error: string, now: Time)
    ensures OthersKept(device.conditions, MountFailure(device, error, now).conditions, MOUNTED)
  {
    hide SetStatus, SetMessage, SetError, OthersKept;
    var c1 := SetStatusBool(device.conditions, MOUNTED, false, now);
    SettersKeepOthers(device.conditions, MOUNTED, "False", None, now);
    SettersKeepOthers(c1, MOUNTED, "", Some("failed to mount the device " + device.spec.devPath + " to path " +
                                           device.spec.fileSystem.mountPoint + ", error:" + error), now);
    OthersKeptTwice(device.conditions, c1, MountFailure(device, error, now).conditions, MOUNTED);
  }

  lemma JudgedSays(device: BlockDevice, now: Time)
    requires device.spec.fileSystem.mountPoint != ""
    ensures var error := FileSystemError(device.spec.fileSystem, device.deviceStatus.fileSystem);
            && Says(Judged(device, now).conditions, MOUNTED, error)
            && (error.None? ==> device.deviceStatus.fileSystem.mountPoint != "")
  {
    var error := FileSystemError(device.spec.fileSystem, device.deviceStatus.fileSystem);
    var mounted := error.None? && device.deviceStatus.fileSystem.mountPoint != "";
    var c1 := SetStatusBool(device.conditions, MOUNTED, mounted, now);
    SetErrorSays(c1, MOUNTED, error, now);
    if error.Some? { RepeatedWriteIsNoOp(SetError(c1, MOUNTED, error, now), MOUNTED, error, now); }
    assert Normalize(device.spec.fileSystem.mountPoint) != "";
  }

  /** A failed mount is written down with its error, and leaves the recorded file system as it was. */
  lemma MountFailureIsReported(device: BlockDevice, error: string, now: Time)
    requires !device.terminating && device.spec.fileSystem.mountPoint != ""
    requires !Fulfils(device.deviceStatus.fileSystem, device.spec.fileSystem.mountPoint)
    ensures var r := Reconcile(device, MountFails(error), now);
            && r.mounts && r.writes && !IsTrue(r.device.conditions, MOUNTED)
            && Says(r.device.conditions, "Mounted", Some(
                 "failed to mount the device " + device.spec.devPath + " to path " +
                 device.spec.fileSystem.mountPoint + ", error:" + error))
            && r.device.deviceStatus.fileSystem.mountPoint == device.deviceStatus.fileSystem.mountPoint
            && r.device.deviceStatus.fileSystem.fsType == device.deviceStatus.fileSystem.fsType
  {
    hide SetStatus, SetError, Says, MountFailure, IsTrue;
    ValidExactly(device.spec.fileSystem, device.deviceStatus.fileSystem);
    hide IsValidFileSystem;
    MountFailureSays(Stamped(device, now), error, now);
  }

  lemma MountFailureSays(device: BlockDevice, error: string, now: Time)
    ensures var r := MountFailure(device, error, now);
            && !IsTrue(r.conditions, MOUNTED) && r.deviceStatus == device.deviceStatus
            && Says(r.conditions, MOUNTED, Some(
                 "failed to mount the device " + device.spec.devPath + " to path " +
                 device.spec.fileSystem.mountPoint + ", error:" + error))
  {
    hide SetError;
    var text := "failed to mount the device " + device.spec.devPath + " to path " + device.spec.fileSystem.mountPoint;
    SetErrorSays(SetStatusBool(device.conditions, MOUNTED, false, now), MOUNTED, Some(text + ", error:" + error), now);
  }

  /** The format stamp is set exactly when a mount is attempted with forced formatting and no stamp yet. */
  lemma StampSetExactly(device: BlockDevice, attempt: Attempt, now: Time)
    ensures var r := Reconcile(device, attempt, now);
            var pre, post := device.deviceStatus.fileSystem.lastFormattedAt,
                r.device.deviceStatus.fileSystem.lastFormattedAt;
            && (post != pre <==> r.mounts && device.spec.fileSystem.forceFormatted && pre == None)
            && (post != pre ==> post == Some(now))
  {
  }

  /** A target that still ends in a slash, other than the root, never matches a path that does not. */
  lemma DoubleSlashNeverMatches(fs: FilesystemInfo, status: FilesystemStatus)
    requires |fs.mountPoint| > 2 && fs.mountPoint[|fs.mountPoint| - 2..] == "//"
    requires status.mountPoint == "" || status.mountPoint[|status.mountPoint| - 1] != '/'
    ensures !IsValidFileSystem(fs, status)
  {
    var m := fs.mountPoint;
    ValidExactly(fs, status);
    assert m[|m| - 1] == m[|m| - 2..][1] == '/' && m[|m| - 2] == m[|m| - 2..][0] == '/';
    if Reaches(status.mountPoint, m) {
      assert (status.mountPoint + "/")[|m| - 2] == '/';
    }
  }

  /** Once the file system is valid and the condition says so, a reconcile issues neither a mount nor an Update. */
  predicate Settled(device: BlockDevice) {
    && Fulfils(device.deviceStatus.fileSystem, device.spec.fileSystem.mountPoint)
    && Says(device.conditions, MOUNTED, None)
  }

  lemma SettledStays(device: BlockDevice, attempt: Attempt, now: Time)
    requires Settled(device)
    ensures Reconcile(device, attempt, now) == Reconciled(device, false, false)
  {
    ValidExactly(device.spec.fileSystem, device.deviceStatus.fileSystem);
    RepeatedWriteIsNoOp(device.conditions, MOUNTED, None, now);
  }

  // ---------------------------------------------------------------- runs

  /** One node's device and what its disk currently reports: None until a mount has succeeded. */
  datatype World = World(device: BlockDevice, mountedAs: Option<FileSystemReading>)

  /** A reconcile, whose Update may be lost, or a startup scan that replaces the whole device status by the current
      reading. */
  datatype Act = DoReconcile(attempt: Attempt, now: Time, lost: bool) | DoRescan(status: DeviceStatus)

  /** A successful mount reports the normalized target with a supported type; from then on every reading repeats it. */
  predicate Possible(w: World, act: Act) {
    match act
    case DoReconcile(attempt, _, _) =>
      attempt.MountSucceeds? ==>
        && Reaches(attempt.reading.mountPoint, w.device.spec.fileSystem.mountPoint)
        && attempt.reading.fsType in {"ext2", "ext3", "ext4", "xfs"}
    case DoRescan(status) =>
      w.mountedAs.Some? ==>
        status.fileSystem.mountPoint == w.mountedAs.value.mountPoint &&
            status.fileSystem.fsType == w.mountedAs.value.fsType
  }

  predicate MountsNow(w: World, act: Act) {
    act.DoReconcile? && Reconcile(w.device, act.attempt, act.now).mounts
  }

  /** The device becomes what was written, unless the Update is lost; a mount stays either way. */
  function Act1(w: World, act: Act): World {
    match act
    case DoRescan(status) => w.(device := w.device.(deviceStatus := status))
    case DoReconcile(attempt, now, lost) =>
      var r := Reconcile(w.device, attempt, now);
      World(if r.writes && !lost then r.device else w.device,
            if r.mounts && attempt.MountSucceeds? then Some(attempt.reading) else w.mountedAs)
  }

  ghost predicate Run(w: World, acts: seq<Act>)
    decreases |acts|
  {
    acts == [] || (Possible(w, acts[0]) && Run(Act1(w, acts[0]), acts[1..]))
  }

  function After(w: World, acts: seq<Act>): World
    decreases |acts|
  {
    if acts == [] then w else After(Act1(w, acts[0]), acts[1..])
  }

  /** How many mounts a run issues, and how many of them succeed. */
  function Mounts(w: World, acts: seq<Act>, onlySuccessful: bool): nat
    decreases |acts|
  {
    if acts == [] then 0
    else
      (if MountsNow(w, acts[0]) && (onlySuccessful ==> acts[0].attempt.MountSucceeds?) then 1 else 0)
      + Mounts(Act1(w, acts[0]), acts[1..], onlySuccessful)
  }

  /** How many successful mounts go unrecorded because the Update after them is lost. */
  function Unrecorded(w: World, acts: seq<Act>): nat
    decreases |acts|
  {
    if acts == [] then 0
    else
      (if MountsNow(w, acts[0]) && acts[0].attempt.MountSucceeds? && acts[0].lost then 1 else 0)
      + Unrecorded(Act1(w, acts[0]), acts[1..])
  }

  /** What was mounted is what is requested. */
  predicate Fits(w: World) {
    w.mountedAs.Some? ==>
      && Reaches(w.mountedAs.value.mountPoint, w.device.spec.fileSystem.mountPoint)
      && w.mountedAs.value.fsType in {"ext2", "ext3", "ext4", "xfs"}
  }

  /** It is mounted, and the object says so. */
  predicate Recorded(w: World) {
    w.mountedAs.Some? && Fulfils(w.device.deviceStatus.fileSystem, w.device.spec.fileSystem.mountPoint)
  }

  lemma ActKeeps(w: World, act: Act)
    requires Fits(w) && Possible(w, act)
    ensures Fits(Act1(w, act)) && Act1(w, act).device.spec == w.device.spec
    ensures Recorded(w) ==> !MountsNow(w, act) && Recorded(Act1(w, act))
    ensures MountsNow(w, act) && act.attempt.MountSucceeds? && !act.lost ==> Recorded(Act1(w, act))
  {
    if act.DoReconcile? {
      ReconcileOwnsItsFields(w.device, act.attempt, act.now);
      ReconcileActsExactly(w.device, act.attempt, act.now);
    }
  }

  /** Any run of reconciles and rescans, whatever was reported before, mounts successfully at most once more than
      Updates are lost right after a mount; once a mount is recorded none is issued any more. */
  lemma {:induction false} AtMostOneMount(w: World, acts: seq<Act>)
    requires Fits(w) && Run(w, acts)
    ensures Mounts(w, acts, true) <= (if Recorded(w) then 0 else 1) + Unrecorded(w, acts)
    ensures Recorded(w) ==> Mounts(w, acts, false) == 0 == Unrecorded(w, acts)
    decreases |acts|
  {
    hide Reconcile, Fulfils;
    if acts != [] {
      ActKeeps(w, acts[0]);
      AtMostOneMount(Act1(w, acts[0]), acts[1..]);
    }
  }

  /** When no mount fails, no more are issued either. */
  lemma {:induction false} AtMostOneMountIssued(w: World, acts: seq<Act>)
    requires Fits(w) && Run(w, acts)
    requires forall i | 0 <= i < |acts| :: acts[i].DoReconcile? ==> acts[i].attempt.MountSucceeds?
    ensures Mounts(w, acts, false) <= 1 + Unrecorded(w, acts)
  {
    AllSucceed(w, acts);
    AtMostOneMount(w, acts);
  }

  lemma {:induction false} AllSucceed(w: World, acts: seq<Act>)
    requires forall i | 0 <= i < |acts| :: acts[i].DoReconcile? ==> acts[i].attempt.MountSucceeds?
    ensures Mounts(w, acts, false) == Mounts(w, acts, true)
    decreases |acts|
  {
    if acts != [] { AllSucceed(Act1(w, acts[0]), acts[1..]); }
  }

  /** The bound is met: if the Update after a successful mount is lost, the next reconcile mounts again. */
  lemma LostUpdateMountsAgain(w: World, attempt: Attempt, now: Time, again: Attempt, later: Time)
    requires attempt.MountSucceeds? && again.MountSucceeds?
    requires !w.device.terminating && w.device.spec.fileSystem.mountPoint != ""
    requires !Fulfils(w.device.deviceStatus.fileSystem, w.device.spec.fileSystem.mountPoint)
    ensures Mounts(w, [DoReconcile(attempt, now, true), DoReconcile(again, later, false)], true) == 2
  {
    var first, second := DoReconcile(attempt, now, true), DoReconcile(again, later, false);
    ReconcileActsExactly(w.device, attempt, now);
    ReconcileActsExactly(w.device, again, later);
    assert Act1(w, first).device == w.device;
    assert [first, second][1..] == [second] && [second][1..] == [];
    assert Mounts(Act1(w, first), [second], true) == 1;
  }

  /** Once a mount is recorded and the condition says so, in any further run of reconciles and rescans no reconcile
      mounts or writes, and Mounted stays True. */
  lemma {:induction false} SettledRun(w: World, acts: seq<Act>)
    requires Fits(w) && Run(w, acts) && Recorded(w) && Says(w.device.conditions, MOUNTED, None)
    ensures Mounts(w, acts, false) == 0
    ensures After(w, acts).device.conditions == w.device.conditions
    ensures forall i | 0 <= i < |acts| && acts[i].DoReconcile? ::
              !Reconcile(After(w, acts[..i]).device, acts[i].attempt, acts[i].now).writes
    decreases |acts|
  {
    if acts != [] {
      ActKeeps(w, acts[0]);
      if acts[0].DoReconcile? { SettledStays(w.device, acts[0].attempt, acts[0].now); }
      SettledRun(Act1(w, acts[0]), acts[1..]);
      forall i | 0 <= i < |acts| && acts[i].DoReconcile?
        ensures !Reconcile(After(w, acts[..i]).device, acts[i].attempt, acts[i].now).writes
      {
        if i > 0 {
          assert acts[..i][1..] == acts[1..][..i - 1] && acts[1..][i - 1] == acts[i];
        }
      }
    }
  }

  /** The reconcile that mounts leaves the device settled if its Update arrives, and so does any reconcile of a
      device whose mount is recorded. */
  lemma ReconcileSettles(w: World, act: Act)
    requires Fits(w) && Possible(w, act) && act.DoReconcile? && !act.lost
    requires !w.device.terminating && w.device.spec.fileSystem.mountPoint != ""
    requires Recorded(w) || act.attempt.MountSucceeds?
    ensures Settled(Act1(w, act).device)
  {
    MountedIsExact(w.device, act.attempt, act.now);
    ReconcileActsExactly(w.device, act.attempt, act.now);
    var r := Reconcile(w.device, act.attempt, act.now).device;
    ValidExactly(r.spec.fileSystem, r.deviceStatus.fileSystem);
    ReconcileOwnsItsFields(w.device, act.attempt, act.now);
  }

  // ---------------------------------------------------------------- the format stamp

  /** The successive stamps of a device under reconciles, some of whose Updates may be lost. */
  function Stamps(device: BlockDevice, acts: seq<(Attempt, Time, bool)>): (stamps: seq<Option<Time>>)
    ensures |stamps| == |acts| + 1
    decreases |acts|
  {
    [device.deviceStatus.fileSystem.lastFormattedAt] +
    (if acts == [] then [] else
       var r := Reconcile(device, acts[0].0, acts[0].1);
       Stamps(if r.writes && !acts[0].2 then r.device else device, acts[1..]))
  }

  /** Over reconciles alone the stamp changes at most once: once set it is never set again or cleared. */
  lemma {:induction false} StampedAtMostOnce(device: BlockDevice, acts: seq<(Attempt, Time, bool)>, i: nat, j: nat)
    requires i <= j <= |acts|
    ensures Stamps(device, acts)[i].Some? ==> Stamps(device, acts)[j] == Stamps(device, acts)[i]
    decreases |acts|
  {
    hide Reconcile;
    if acts != [] {
      var r := Reconcile(device, acts[0].0, acts[0].1);
      StampSetExactly(device, acts[0].0, acts[0].1);
      var next := if r.writes && !acts[0].2 then r.device else device;
      if i > 0 {
        StampedAtMostOnce(next, acts[1..], i - 1, j - 1);
      } else if j > 0 {
        StampedAtMostOnce(next, acts[1..], 0, j - 1);
      }
    }
  }
}
