/** The udev event handlers of pkg/udev/uevent.go, with their re-entrant retries. */
module Udev {
  import opened Strings
  import opened BlockDevices
  import opened Naming
  import opened Generation
  import opened Machine
  import opened Server
  import opened Order
  import opened Convergence
  import opened Confinement
  import opened Controller
  import opened Backoff
  import DeepCopy
  import Mounting

  datatype Action = Add | Remove | Online | Offline | OtherAction

  /** The calls that a frame of AddBlockDevice and the retries below it may make, with this many troubles to come. */
  function CallBound(devices: nat, troubles: nat): nat { Pow(devices + 2, troubles) }

  /** The frame's own call, a retry after the list call, and a retry after each of the first `saves` saves. */
  function Budget(saves: nat, perRetry: nat): nat {
    if saves == 0 then 1 + perRetry else Budget(saves - 1, perRetry) + perRetry
  }

  lemma {:induction false} BudgetTotal(saves: nat, perRetry: nat)
    ensures Budget(saves, perRetry) == 1 + (saves + 1) * perRetry
  {
    if saves > 0 { BudgetTotal(saves - 1, perRetry); }
  }

  /** A frame of AddBlockDevice after its first `i` saves; `made` counts the calls of AddBlockDevice so far. */
  ghost predicate AddLoop(m0: Moment, m: Moment, bds: seq<BlockDevice>, list: seq<BlockDevice>, i: nat, made: int) {
    SaveLoop(m0, m, bds, i, false) && AddCount(m0, m, bds, list, i, made)
  }

  /** While the frame has met no trouble its list is up to date; from then on its retries have a smaller budget. */
  ghost predicate AddCount(m0: Moment, m: Moment, bds: seq<BlockDevice>, list: seq<BlockDevice>, i: nat, made: int) {
    && i <= |bds|
    && Troubles(m.fates) <= Troubles(m0.fates)
    && if Troubles(m.fates) == Troubles(m0.fates) then
         made == 1 && UpToDate(list, m.world.store.objs, bds, i)
       else
         made <= Budget(i, CallBound(|bds|, Troubles(m0.fates) - 1))
  }

  lemma CallBoundGrows(devices: nat, t1: nat, t2: nat)
    requires t1 <= t2
    ensures 1 <= CallBound(devices, t1) <= CallBound(devices, t2)
  {
    PowMonotone(devices + 2, t1, t2);
  }

  /** The list call; `retried` is the moment after the retry that follows a failed one. */
  lemma AddLoopStarts(m0: Moment, m: Moment, bds: seq<BlockDevice>, list: seq<BlockDevice>, ok: bool)
    requires m0.world == Replay(m0.log) && Waited(m0, m) && ok == Answers(First(m0.fates))
    requires ok ==> Lists(list, m.world.store.objs)
    ensures SaveLoop(m0, m, bds, 0, false)
    ensures ok ==> AddLoop(m0, m, bds, list, 0, 1)
    ensures !ok ==> Troubles(m.fates) < Troubles(m0.fates)
  {
    SaveLoopStarts(m0, bds, false);
    SaveLoopWaits(m0, m0, m, bds, 0, false);
    RestOfFates(m0.fates);
    if ok {
      ListingCovers(m.world, list);
      if Troubles(m.fates) < Troubles(m0.fates) { CallBoundGrows(|bds|, 0, Troubles(m0.fates) - 1); }
    }
  }

  /** After the retry that follows a failed list. */
  lemma AddLoopRelists(m0: Moment, m: Moment, m': Moment, bds: seq<BlockDevice>, list: seq<BlockDevice>, more: int)
    requires SaveLoop(m0, m, bds, 0, false) && Converged(m, m', bds, more) && Troubles(m.fates) < Troubles(m0.fates)
    ensures AddLoop(m0, m', bds, list, 0, 1 + more)
  {
    SaveLoopNests(m0, m, m', bds, 0, 0, false);
    CallBoundGrows(|bds|, Troubles(m.fates), Troubles(m0.fates) - 1);
  }

  /** After the retry that follows the failed i-th save. */
  lemma AddLoopRestarts(m0: Moment, m: Moment, m': Moment, bds: seq<BlockDevice>, list: seq<BlockDevice>, i: nat,
      made: int, more: int)
    requires i < |bds| && Failing(m0, m, bds, i, made) && Converged(m, m', bds, more)
    ensures AddLoop(m0, m', bds, list, i + 1, made + more)
  {
    SaveLoopNests(m0, m, m', bds, i, i + 1, false);
    CallBoundGrows(|bds|, Troubles(m.fates), Troubles(m0.fates) - 1);
  }

  /** What a complete AddBlockDevice achieves between two moments, with `made` calls of it in all: if the other writers
      keep to the fields they own, the store is the one that a single undisturbed pass over the devices would leave. */
  ghost predicate Converged(m: Moment, m': Moment, bds: seq<BlockDevice>, made: int) {
    && SaveLoop(m, m', bds, |bds|, false)
    && (forall view | Spared(view, bds, m.fates) ::
          Agree(view, m'.world.store.objs, Overlay(m.world.store.objs, bds, false)))
    && Troubles(m'.fates) <= Troubles(m.fates)
    && made <= CallBound(|bds|, Troubles(m.fates))
    && m.world.past <= m'.world.past
  }

  /** Two adds of the same devices to the same objects end alike, whatever their calls met; so one that met failures
      ends like one that met none. */
  lemma SameOutcome(view: View, m: Moment, m': Moment, k: Moment, k': Moment, bds: seq<BlockDevice>, made: int,
      made': int)
    requires Converged(m, m', bds, made) && Converged(k, k', bds, made') && m.world.store.objs == k.world.store.objs
    requires Spared(view, bds, m.fates) && Spared(view, bds, k.fates)
    ensures Agree(view, m'.world.store.objs, k'.world.store.objs)
  {
    hide SaveLoop, Overlay, Spared;
    var one := Overlay(m.world.store.objs, bds, false);
    assert Agree(view, m'.world.store.objs, one) && Agree(view, k'.world.store.objs, one);
    forall n | n in view.names ensures SameAt(view.strict, m'.world.store.objs, k'.world.store.objs, n) {
      assert SameAt(view.strict, m'.world.store.objs, one, n) && SameAt(view.strict, k'.world.store.objs, one, n);
    }
  }

  /** A device that an add has saved: Spec and status are its reading's; an object that was stored before keeps its
      labels and its deletion mark. */
  predicate AddStored(pre: Objects, post: Objects, disk: Disk, i: nat, node: string)
    requires i <= |disk.partitions|
  {
    var n := DeviceName(disk, i) + "-" + node;
    && n in post && SpecRead(post[n].spec, disk, i, node) && StatusRead(post[n].deviceStatus, disk, i)
    && (n in pre ==> post[n].labels == pre[n].labels && post[n].terminating == pre[n].terminating)
    && (n !in pre ==> !post[n].terminating)
  }

  /** Whatever failures an add meets, every device of the disk ends up so, if the other clients leave these devices
      alone; if they leave all else alone, all else is as it was. */
  lemma AddRecords(view: View, m: Moment, m': Moment, disk: Disk, node: string, ns: string, made: int)
    requires DistinctParts(disk) && Converged(m, m', Generate(disk, node, ns), made)
    requires Spared(view, Generate(disk, node, ns), m.fates)
    ensures forall i | 0 <= i <= |disk.partitions| ::
              AddStored(m.world.store.objs, m'.world.store.objs, disk, i, node)
    ensures forall n | n in view.names
                       && (forall i | 0 <= i <= |disk.partitions| :: n != DeviceName(disk, i) + "-" + node) ::
              SameAt(view.strict, m'.world.store.objs, m.world.store.objs, n)
  {
    hide SaveLoop, Overlay, AllCalm, Generate, SpecRead, StatusRead;
    var bds := Generate(disk, node, ns);
    var pre, post, one := m.world.store.objs, m'.world.store.objs, Overlay(m.world.store.objs, bds, false);
    GeneratedDistinct(disk, node, ns);
    forall i | 0 <= i <= |disk.partitions| ensures AddStored(pre, post, disk, i, node) {
      GeneratedReads(disk, node, ns, i);
      OverlayFields(pre, bds, false, i);
      assert SameAt(view.strict, post, one, bds[i].name);
    }
    forall n | n in view.names && (forall i | 0 <= i <= |disk.partitions| :: n != DeviceName(disk, i) + "-" + node)
      ensures SameAt(view.strict, post, pre, n)
    {
      NotGenerated(disk, node, ns, n);
      OverlayAt(pre, bds, false, n);
      assert SameAt(view.strict, post, one, n);
    }
  }

  lemma NotGenerated(disk: Disk, node: string, ns: string, n: string)
    requires forall i | 0 <= i <= |disk.partitions| :: n != DeviceName(disk, i) + "-" + node
    ensures Find(Generate(disk, node, ns), n).None?
  {
    hide Generate;
    GeneratedReads(disk, node, ns, 0);
    forall i | 0 <= i < |Generate(disk, node, ns)| ensures Generate(disk, node, ns)[i].name != n {
      GeneratedReads(disk, node, ns, i);
    }
  }

  lemma UndisturbedSave(m: Moment, m': Moment, bds: seq<BlockDevice>, list: seq<BlockDevice>, i: nat, origin: Origin,
      reply: Reply)
    requires i < |bds| && Exists(origin) && Want(origin) == bds[i] && DistinctNames(bds)
    requires UpToDate(list, m.world.store.objs, bds, i) && First(m.fates).Smooth?
    requires Made(m, m', AddSave(origin, Find(list, bds[i].name)), reply)
    ensures reply.Done? && UpToDate(list, m'.world.store.objs, bds, i + 1)
  {
    var step := AddSave(origin, Find(list, bds[i].name));
    SmoothCall(m, m', step, reply);
    SmoothSave(m.world, step, list, bds, i);
  }

  /** If a save fails, trouble has been met: in this frame, or by the retry that outran its list. */
  lemma AddCountSaves(m0: Moment, m: Moment, m': Moment, bds: seq<BlockDevice>, list: seq<BlockDevice>, i: nat,
      made: int, origin: Origin, reply: Reply)
    requires AddCount(m0, m, bds, list, i, made) && i < |bds| && Exists(origin) && Want(origin) == bds[i]
    requires DistinctNames(bds) && Made(m, m', AddSave(origin, Find(list, bds[i].name)), reply)
    ensures reply.Done? ==> AddCount(m0, m', bds, list, i + 1, made)
    ensures !reply.Done? ==> Troubles(m'.fates) < Troubles(m0.fates)
    ensures !reply.Done? ==> made <= Budget(i, CallBound(|bds|, Troubles(m0.fates) - 1))
  {
    TroublesAfterCall(m, m', AddSave(origin, Find(list, bds[i].name)), reply);
    if Troubles(m'.fates) == Troubles(m0.fates) {
      UndisturbedSave(m, m', bds, list, i, origin, reply);
    } else {
      TroubledCount(m0, m, m', bds, list, i, made);
    }
  }

  lemma TroubledCount(m0: Moment, m: Moment, m': Moment, bds: seq<BlockDevice>, list: seq<BlockDevice>, i: nat,
      made: int)
    requires AddCount(m0, m, bds, list, i, made) && i < |bds| && Troubles(m'.fates) < Troubles(m0.fates)
    ensures made <= Budget(i, CallBound(|bds|, Troubles(m0.fates) - 1))
    ensures AddCount(m0, m', bds, list, i + 1, made)
  {
    BudgetCovers(i, CallBound(|bds|, Troubles(m0.fates) - 1));
  }

  lemma AddLoopSaves(m0: Moment, m: Moment, m': Moment, bds: seq<BlockDevice>, list: seq<BlockDevice>, i: nat,
      made: int, origin: Origin, reply: Reply)
    requires AddLoop(m0, m, bds, list, i, made) && i < |bds| && Exists(origin) && Want(origin) == bds[i]
    requires DistinctNames(bds) && ParentsFirst(bds)
    requires Made(m, m', AddSave(origin, Find(list, bds[i].name)), reply)
    ensures reply.Done? ==> AddLoop(m0, m', bds, list, i + 1, made)
    ensures !reply.Done? ==> Failing(m0, m', bds, i, made)
    ensures m.world.past <= m'.world.past
  {
    SaveLoopCalls(m0, m, m', bds, i, AddSave(origin, Find(list, bds[i].name)), reply);
    AddCountSaves(m0, m, m', bds, list, i, made, origin, reply);
  }

  /** A frame right after its i-th save has failed. */
  ghost predicate Failing(m0: Moment, m: Moment, bds: seq<BlockDevice>, i: nat, made: int) {
    && SaveLoop(m0, m, bds, i, false)
    && Troubles(m.fates) < Troubles(m0.fates)
    && made <= Budget(i, CallBound(|bds|, Troubles(m0.fates) - 1))
  }

  lemma {:induction false} BudgetCovers(saves: nat, perRetry: nat)
    ensures 1 <= Budget(saves, perRetry) <= Budget(saves + 1, perRetry)
  {
    if saves > 0 { BudgetCovers(saves - 1, perRetry); }
  }

  lemma AddLoopEnds(m0: Moment, m: Moment, bds: seq<BlockDevice>, list: seq<BlockDevice>, made: int)
    requires AddLoop(m0, m, bds, list, |bds|, made) && m0.world.past <= m.world.past
    ensures Converged(m0, m, bds, made)
  {
    hide SaveLoop, Overlay, Spared, CallBound, Troubles, Budget;
    SaveLoopFinished(m0, m, bds, false);
    if Troubles(m.fates) < Troubles(m0.fates) {
      BudgetFits(|bds|, Troubles(m0.fates));
    } else {
      CallBoundGrows(|bds|, 0, Troubles(m0.fates));
    }
  }

  lemma BudgetFits(devices: nat, troubles: nat)
    requires 0 < troubles
    ensures Budget(devices, CallBound(devices, troubles - 1)) <= CallBound(devices, troubles)
  {
    var p := CallBound(devices, troubles - 1);
    CallBoundGrows(devices, 0, troubles - 1);
    BudgetTotal(devices, p);
    assert CallBound(devices, troubles) == (devices + 2) * p;
    assert (devices + 2) * p == (devices + 1) * p + p;
  }

  class UdevMonitor {
    const server: ApiServer
    const controller: BlockDeviceController
    const nodeName: string
    const namespace: string
    const readDisk: string -> Disk // what sysfs shows for a kernel device name
    var slept: seq<int>
    ghost var calls: nat

    constructor (server: ApiServer, nodeName: string, namespace: string, readDisk: string -> Disk)
      ensures this.server == server && this.controller.server == server && fresh(this.controller)
      ensures this.nodeName == nodeName && this.namespace == namespace && this.readDisk == readDisk
      ensures this.slept == [] && this.calls == 0
    {
      this.server, this.nodeName, this.namespace, this.readDisk := server, nodeName, namespace, readDisk;
      this.controller := new BlockDeviceController(server, nodeName, namespace);
      this.slept, this.calls := [], 0;
    }

    function GetDiskByName(name: string): Disk {
      readDisk(TrimPrefix(name, "/dev/")).(name := TrimPrefix(name, "/dev/"))
    }

    /** An event names the kernel device whose data are read, and so does the device path of a stored object. */
    lemma ReadsNamedDisk(device: UdevDevice, name: string)
      requires '/' !in name && name != "" && Property(device, "DEVNAME") == "/dev/" + name
      ensures DiskOf(device) == readDisk(name).(name := name) == GetDiskByName("/dev/" + name)
    {
      UdevAndScanAgree(device, name, "");
      assert name[0] in name && "/dev/"[0] == '/';
    }

    function DiskOf(device: UdevDevice): Disk { GetDiskByName(GetShortName(device)) }

    function Devices(device: UdevDevice): seq<BlockDevice> { Generate(DiskOf(device), nodeName, namespace) }

    /** The readings that an add event for this device saves are among those the run may save. */
    ghost predicate MaySave(device: UdevDevice)
      reads controller
    {
      && controller.server == server
      && DistinctParts(DiskOf(device))
      && forall i | 0 <= i <= |DiskOf(device).partitions| ::
          Origin(DiskOf(device), nodeName, namespace, i) in server.origins
    }

    method Pause(duration: int)
      modifies this`slept
      ensures slept == old(slept) + if duration > DEFAULT_DURATION then [duration] else []
    {
      if duration > DEFAULT_DURATION {
        slept := slept + [duration];
      }
    }

    /** AddBlockDevice. Whatever the fates, it terminates within the call bound, having been orderly. On every set of
        names that takes in the saved devices and whose objects the other clients leave alone, the store ends where
        one undisturbed call would have led it, although the outer frames go on saving from lists that their own
        retries have outdated. */
    method AddBlockDevice(device: UdevDevice, duration: int)
      requires server.Valid() && MaySave(device)
      modifies this, server
      decreases Troubles(server.fates), 1
      ensures server.Valid()
      ensures Converged(old(server.Now()), server.Now(), Devices(device), calls - old(calls))
      ensures old(slept) + Waits(duration, 0) <= slept
    {
      hide AddLoop, Converged;
      WaitsUnfold(duration, 0);
      Pause(duration);
      ghost var m0 := server.Now();
      ghost var c0: int, waited := calls, slept;
      calls := calls + 1;
      var devName := GetShortName(device);
      var disk := GetDiskByName(devName);
      var bds := DeepCopy.GeneratedValues(disk, nodeName, namespace);
      var bdList := ListOrRetry(device, duration, bds);
      var i := 0;
      while i < |bds|
        invariant 0 <= i <= |bds| && server.Valid() && FromPast(bdList, server.world.past)
        invariant m0.world.past <= server.world.past
        invariant AddLoop(m0, server.Now(), bds, bdList, i, calls - c0) && waited <= slept
      {
        SaveOrRetry(device, bds[i], bdList, m0, bds, i, calls - c0);
        i := i + 1;
      }
      AddLoopEnds(m0, server.Now(), bds, bdList, calls - c0);
    }

    /** The list call at the head of AddBlockDevice; after a failure it carries on with an empty list. */
    method ListOrRetry(device: UdevDevice, duration: int, ghost bds: seq<BlockDevice>)
      returns (bdList: seq<BlockDevice>)
      requires server.Valid() && MaySave(device) && bds == Devices(device)
      modifies this, server
      decreases Troubles(server.fates), 0
      ensures server.Valid() && FromPast(bdList, server.world.past) && old(server.world.past) <= server.world.past
      ensures AddLoop(old(server.Now()), server.Now(), bds, bdList, 0, 1 + calls - old(calls))
      ensures old(slept) + (if Answers(First(old(server.fates))) then [] else Waits(Double(duration), 0)) <= slept
    {
      ghost var m0 := server.Now();
      var ok;
      ok, bdList := server.List();
      ghost var m := server.Now();
      AddLoopStarts(m0, m, bds, bdList, ok);
      if !ok {
        AddBlockDevice(device, Double(duration));
        AddLoopRelists(m0, m, server.Now(), bds, bdList, calls - old(calls));
      }
    }

    /** The body of the loop in AddBlockDevice. The ghosts say which frame it belongs to. */
    method SaveOrRetry(device: UdevDevice, bd: BlockDevice, bdList: seq<BlockDevice>,
                       ghost m0: Moment, ghost bds: seq<BlockDevice>, ghost i: nat, ghost made: int)
      requires server.Valid() && MaySave(device) && FromPast(bdList, server.world.past)
      requires bds == Devices(device) && i < |bds| && bd == bds[i]
      requires AddLoop(m0, server.Now(), bds, bdList, i, made)
      modifies this, server
      decreases Troubles(m0.fates), 0
      ensures server.Valid() && old(server.world.past) <= server.world.past
      ensures AddLoop(m0, server.Now(), bds, bdList, i + 1, made + calls - old(calls))
      ensures slept == old(slept) || old(slept) + Waits(Double(DEFAULT_DURATION), 0) <= slept
    {
      ghost var origin := Origin(DiskOf(device), nodeName, namespace, i);
      DevicesAreGood(DiskOf(device), nodeName, namespace, i);
      ghost var step := AddSave(origin, Find(bdList, bd.name));
      ghost var m := server.Now();
      var ok := controller.SaveBlockDevice(bd, bdList, origin);
      ghost var m1 := server.Now();
      ghost var reply :| Made(m, m1, step, reply) && ok == reply.Done?;
      AddLoopSaves(m0, m, m1, bds, bdList, i, made, origin, reply);
      if !ok {
        AddBlockDevice(device, Double(DEFAULT_DURATION));
        AddLoopRestarts(m0, m1, server.Now(), bds, bdList, i, made, calls - old(calls));
      }
    }

    /** UpdateBlockDevice for an online or offline event. It needs the object to exist: without it the handler crashes.
        `retries` counts how often it had to start over. */
    method UpdateBlockDevice(device: UdevDevice, duration: int, action: Action, now: Time)
      returns (crashed: bool, ghost retries: nat)
      requires server.Valid()
      modifies this`slept, server
      decreases Troubles(server.fates)
      ensures server.Valid()
      ensures Orderly(old(server.Now()), server.Now())
      ensures retries <= Troubles(old(server.fates)) && slept == old(slept) + Waits(duration, retries)
      ensures !(action.Online? || action.Offline?) ==> !crashed && server.Now() == old(server.Now())
      ensures action.Online? || action.Offline? ==>
                var name := GetBlockDeviceName(GetShortName(device), nodeName);
                if crashed then name !in server.world.store.objs
                else StateShown(server.world.store.objs, name, action.Online?,
                    DiskOf(device).fileSystem.mountPoint != "")
      ensures (action.Online? || action.Offline?) && Troubles(old(server.fates)) == 0 ==>
                server.world == WithEvent(old(server.world), GetBlockDeviceName(GetShortName(device), nodeName),
                                          action.Online?, DiskOf(device).fileSystem.mountPoint != "", now)
    {
      hide WithState, Made, Orderly, StateShown, Waits, Double, Troubles, ApiServer.Valid, Inv;
      hide GetDiskByName, GetShortName, GetBlockDeviceName;
      WaitsUnfold(duration, 0);
      Pause(duration);
      crashed, retries := false, 0;
      ghost var m := server.Now();
      server.Known("");
      OrderlySelf(m);
      var devName := GetShortName(device);
      var bdName := GetBlockDeviceName(devName, nodeName);
      var disk := GetDiskByName(devName);
      if !(action.Online? || action.Offline?) {
        return;
      }
      if bdName !in server.world.store.objs {
        return true, 0;
      }
      server.Known(bdName);
      var bd := server.world.store.objs[bdName];
      var mounted := disk.fileSystem.mountPoint != "";
      var ok := WriteState(bd, action.Online?, mounted, now);
      if !ok {
        ghost var m1 := server.Now();
        crashed, retries := UpdateBlockDevice(device, Double(duration), action, now);
        OrderlyChain(m, m1, server.Now());
        WaitsUnfold(duration, retries);
        retries := retries + 1;
      }
    }

    /** The rest of UpdateBlockDevice up to the retry: change a copy and, if it now differs, write it. */
    method WriteState(bd: BlockDevice, online: bool, mounted: bool, now: Time) returns (ok: bool)
      requires server.Valid() && bd.name in server.world.store.objs && server.world.store.objs[bd.name] == bd
      modifies server
      ensures server.Valid()
      ensures Orderly(old(server.Now()), server.Now())
      ensures Troubles(server.fates) <= Troubles(old(server.fates))
      ensures !ok ==> Troubles(server.fates) < Troubles(old(server.fates))
      ensures ok ==> StateShown(server.world.store.objs, bd.name, online, mounted)
      ensures Troubles(old(server.fates)) == 0 ==>
                ok && server.world == WithEvent(old(server.world), bd.name, online, mounted, now)
    {
      hide Made, Orderly, StateShown, Troubles;
      ghost var m := server.Now();
      server.Known(bd.name);
      OrderlySelf(m);
      var bdCopy := bd;
      bdCopy := bdCopy.(state := if online then Active else Inactive);
      bdCopy := bdCopy.(conditions := Mounting.SetStatusBool(bdCopy.conditions, Mounting.MOUNTED, mounted, now));
      ghost var step := SetState(bd, online, mounted, now);
      assert bdCopy == WithState(bd, online, mounted, now);
      WithStateShows(server.world.store.objs, step);
      ok := true;
      if bd != bdCopy {
        var reply := server.Call(Update(bdCopy), step);
        StateWritten(m, server.Now(), step, reply);
        ok := reply.Done?;
      }
    }

    /** RemoveBlockDevice: it retries until the object is being deleted or was not found. */
    method RemoveBlockDevice(device: UdevDevice, duration: int) returns (ghost retries: nat)
      requires server.Valid()
      modifies this`slept, server
      decreases Troubles(server.fates)
      ensures server.Valid()
      ensures Orderly(old(server.Now()), server.Now())
      ensures retries <= Troubles(old(server.fates)) && slept == old(slept) + Waits(duration, retries)
      ensures var name, objs := GetBlockDeviceName(GetShortName(device), nodeName), server.world.store.objs;
              name in objs ==> objs[name].terminating
      ensures Troubles(old(server.fates)) == 0 ==>
                server.world == Next(old(server.world), DeleteCall(GetBlockDeviceName(GetShortName(device), nodeName)))
    {
      hide Made, Orderly, Waits, Double, Troubles;
      WaitsUnfold(duration, 0);
      Pause(duration);
      retries := 0;
      var devName := GetShortName(device);
      var bdName := GetBlockDeviceName(devName, nodeName);
      ghost var m := server.Now();
      var reply := server.Call(Delete(bdName), DeleteCall(bdName));
      DeleteAnswered(m, server.Now(), bdName, reply);
      if reply.Failed? {
        ghost var m1 := server.Now();
        retries := RemoveBlockDevice(device, Double(duration));
        OrderlyChain(m, m1, server.Now());
        WaitsUnfold(duration, retries);
        retries := retries + 1;
      }
    }

    /** ActionHandler. Events of disks that Longhorn created, and of anything that is neither a disk nor a partition,
        change nothing. */
    method ActionHandler(device: UdevDevice, action: Action, now: Time) returns (crashed: bool)
      requires server.Valid()
      requires action.Add? && Handles(device) ==> MaySave(device)
      modifies this, server
      ensures server.Valid()
      ensures !Handles(device) || action.OtherAction? ==> server.Now() == old(server.Now())
      ensures Handles(device) && action.Add? ==>
                Converged(old(server.Now()), server.Now(), Devices(device), calls - old(calls))
      ensures Handles(device) && action.Remove? ==>
                var name, objs := GetBlockDeviceName(GetShortName(device), nodeName), server.world.store.objs;
                name in objs ==> objs[name].terminating
      ensures Handles(device) && (action.Online? || action.Offline?) ==>
                var name := GetBlockDeviceName(GetShortName(device), nodeName);
                if crashed then name !in server.world.store.objs
                else StateShown(server.world.store.objs, name, action.Online?,
                    DiskOf(device).fileSystem.mountPoint != "")
      ensures Orderly(old(server.Now()), server.Now())
    {
      crashed := false;
      server.Known("");
      OrderlySelf(server.Now());
      LonghornExactly(Property(device, UDEV_ID_PATH));
      if IsLonghornBlockDevice(Property(device, UDEV_ID_PATH)) {
        return;
      }
      if IsDisk(device) || IsPartition(device) {
        ghost var retries;
        match action
        case Add => AddBlockDevice(device, DEFAULT_DURATION);
        case Remove => retries := RemoveBlockDevice(device, DEFAULT_DURATION);
        case Online => crashed, retries := UpdateBlockDevice(device, DEFAULT_DURATION, action, now);
        case Offline => crashed, retries := UpdateBlockDevice(device, DEFAULT_DURATION, action, now);
        case OtherAction =>
      }
    }
  }

  /** A disk or a partition, and no part of its bus path reads "longhorn". */
  ghost predicate Handles(device: UdevDevice) {
    && !("ID_PATH" in device && Occurs(device["ID_PATH"], "longhorn"))
    && "ID_TYPE" in device && device["ID_TYPE"] in {"disk", "partition"}
  }

  /** The undisturbed effect of an online or offline event: nothing if the object is absent or already as wanted. */
  function WithEvent(w: World, name: string, online: bool, mounted: bool, now: Time): World {
    if name in w.store.objs && WithState(w.store.objs[name], online, mounted, now) != w.store.objs[name] then
      Next(w, SetState(w.store.objs[name], online, mounted, now))
    else w
  }

  /** The object has the state of the event, and its Mounted condition says whether the disk is mounted. */
  predicate StateShown(objs: Objects, name: string, online: bool, mounted: bool) {
    && name in objs && objs[name].state == (if online then Active else Inactive)
    && Mounting.IsTrue(objs[name].conditions, Mounting.MOUNTED) == mounted
  }

  lemma WithStateShows(objs: Objects, step: Step)
    requires step.SetState?
    ensures var want := WithState(step.seen, step.online, step.mounted, step.now);
            step.seen.name in objs && objs[step.seen.name].state == want.state &&
                objs[step.seen.name].conditions == want.conditions ==>
              StateShown(objs, step.seen.name, step.online, step.mounted)
  {
    Mounting.SetStatusWrites(step.seen.conditions, Mounting.MOUNTED,
        if step.mounted then "True" else "False", step.now);
  }

  /** The status update of an online or offline event: it fails only in trouble, and when it succeeds it is the last
      word. */
  lemma StateWritten(m: Moment, m': Moment, step: Step, reply: Reply)
    requires step.SetState? && Made(m, m', step, reply) && m.world == Replay(m.log)
    requires step.seen.name in m.world.store.objs && m.world.store.objs[step.seen.name] == step.seen
    ensures Orderly(m, m')
    ensures Troubles(m'.fates) <= Troubles(m.fates) && (!reply.Done? ==> Troubles(m'.fates) < Troubles(m.fates))
    ensures reply.Done? ==> StateShown(m'.world.store.objs, step.seen.name, step.online, step.mounted)
    ensures Troubles(m.fates) == 0 ==> reply.Done? && m'.world == Next(m.world, step)
  {
    TroublesAfterCall(m, m', step, reply);
    WithStateShows(m'.world.store.objs, step);
    OrderlyAlone(m, m', step, reply);
    if First(m.fates).Smooth? { SmoothCall(m, m', step, reply); }
  }

  lemma DeleteAnswered(m: Moment, m': Moment, name: string, reply: Reply)
    requires Made(m, m', DeleteCall(name), reply) && m.world == Replay(m.log)
    ensures Orderly(m, m')
    ensures Troubles(m'.fates) <= Troubles(m.fates) && (reply.Failed? ==> Troubles(m'.fates) < Troubles(m.fates))
    ensures !reply.Failed? && name in m'.world.store.objs ==> m'.world.store.objs[name].terminating
    ensures Troubles(m.fates) == 0 ==> m'.world == Next(m.world, DeleteCall(name))
  {
    hide Made, Next, Commit, Inv, Replay;
    TroublesAfterCall(m, m', DeleteCall(name), reply);
    DeleteAnswer(m, m', name, reply);
    OrderlyAlone(m, m', DeleteCall(name), reply);
    if First(m.fates).Smooth? {
      SmoothCall(m, m', DeleteCall(name), reply);
      DeleteFindsOrNot(m.world.store, name);
    }
  }

  lemma DeleteFindsOrNot(s: Store, name: string)
    ensures !Answer(s, Delete(name), Smooth).Failed?
  {
  }

  lemma DevicesAreGood(disk: Disk, node: string, ns: string, i: nat)
    requires DistinctParts(disk) && i < |Generate(disk, node, ns)|
    ensures i <= |disk.partitions|
    ensures var origin := Origin(disk, node, ns, i); Exists(origin) && Want(origin) == Generate(disk, node, ns)[i]
    ensures DistinctNames(Generate(disk, node, ns)) && ParentsFirst(Generate(disk, node, ns))
  {
    GeneratedDistinct(disk, node, ns);
    GeneratedParentsFirst(disk, node, ns);
  }
}
