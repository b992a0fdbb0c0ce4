/** The block device controller: the methods of pkg/controller/blockdevice/controller.go. */
module Controller {
  import opened Strings
  import opened BlockDevices
  import opened Naming
  import opened Generation
  import opened Machine
  import opened Interleaving
  import opened Server
  import opened Order
  import opened Convergence
  import opened Confinement
  import opened Saving
  import opened Deletion
  import DeepCopy
  import Mounting

  class BlockDeviceController {
    const server: ApiServer
    const nodeName: string
    const namespace: string

    constructor (server: ApiServer, nodeName: string, namespace: string)
      ensures this.server == server && this.nodeName == nodeName && this.namespace == namespace
    {
      this.server, this.nodeName, this.namespace := server, nodeName, namespace;
    }

    /** SaveBlockDevice: update the listed object of that name, Spec included, or create it. */
    method SaveBlockDevice(blockDevice: BlockDevice, bds: seq<BlockDevice>, ghost origin: Origin) returns (ok: bool)
      requires server.Valid() && FromPast(bds, server.world.past)
      requires Exists(origin) && Want(origin) == blockDevice && origin in server.origins
      modifies server
      ensures server.Valid()
      ensures exists reply ::
                Made(old(server.Now()), server.Now(), AddSave(origin, Find(bds, blockDevice.name)), reply) &&
                    ok == reply.Done?
    {
      ListedDiffers(server.log, bds, origin);
      var reply;
      var i := 0;
      while i < |bds|
        invariant 0 <= i <= |bds| && Find(bds, blockDevice.name) == Find(bds[i..], blockDevice.name)
      {
        var existing := bds[i];
        if existing.name == blockDevice.name {
          if existing != blockDevice {
            var toUpdate := existing;
            toUpdate := toUpdate.(spec := blockDevice.spec);
            toUpdate := toUpdate.(deviceStatus := blockDevice.deviceStatus);
            reply := server.Call(Update(toUpdate), AddSave(origin, Some(existing)));
            return reply.Done?;
          }
          return true;
        }
        i := i + 1;
      }
      reply := server.Call(Create(blockDevice), AddSave(origin, None));
      ok := reply.Done?;
    }

    /** SaveBlockDeviceByList: the same, keeping the Spec. */
    method SaveBlockDeviceByList(blockDevice: BlockDevice, bdList: seq<BlockDevice>, ghost origin: Origin)
      returns (ok: bool)
      requires server.Valid() && FromPast(bdList, server.world.past)
      requires Exists(origin) && Want(origin) == blockDevice && origin in server.origins
      modifies server
      ensures server.Valid()
      ensures exists reply ::
                Made(old(server.Now()), server.Now(), ScanSave(origin, Find(bdList, blockDevice.name)), reply) &&
                    ok == reply.Done?
    {
      var reply;
      var i := 0;
      while i < |bdList|
        invariant 0 <= i <= |bdList| && Find(bdList, blockDevice.name) == Find(bdList[i..], blockDevice.name)
      {
        var existing := bdList[i];
        if existing.name == blockDevice.name {
          // a value is compared with a pointer here, so the two always differ
          var toUpdate := existing.(deviceStatus := blockDevice.deviceStatus);
          reply := server.Call(Update(toUpdate), ScanSave(origin, Some(existing)));
          return reply.Done?;
        }
        i := i + 1;
      }
      reply := server.Call(Create(blockDevice), ScanSave(origin, None));
      ok := reply.Done?;
    }

    /** RegisterNodeBlockDevices, the startup scan. `saved` counts the saves that succeeded. */
    method RegisterNodeBlockDevices(disks: seq<Disk>) returns (ok: bool, ghost saved: nat)
      requires server.Valid()
      requires forall i | 0 <= i < |Sources(disks, nodeName, namespace)| ::
          Sources(disks, nodeName, namespace)[i] in server.origins
      modifies server
      ensures server.Valid()
      ensures var bds := Wanted(disks, nodeName, namespace);
              && saved <= |bds| && (ok ==> saved == |bds|) && SaveOrder(old(server.Now()), server.Now(), bds, saved)
              && (DistinctNames(bds) ==> SaveLoop(old(server.Now()), server.Now(), bds, saved, true))
      ensures Troubles(old(server.fates)) == 0 ==>
                (server.world.store, ok)
                  == ScanOnce(old(server.world.store), Wanted(disks, nodeName, namespace), old(server.world.store.objs))
      ensures Troubles(old(server.fates)) == 0 && DistinctScan(disks) ==>
                ok && ScanLeaves(old(server.world.store.objs), server.world.store.objs, disks, nodeName)
    {
      hide SaveLoop, SaveOrder, ScanLoop, Made, Waited, Wanted, Generate, Troubles, DistinctNames, Inv, ScanOnce;
      hide DistinctScan, ScanLeaves;
      var bds := CollectDevices(disks);
      ghost var sources := Sources(disks, nodeName, namespace);
      SourcesMatch(disks, nodeName, namespace);
      ghost var m0 := server.Now();
      server.Known("");
      ScanStoresAll(server.world, disks, nodeName, namespace);
      saved := 0;
      var bdList;
      ok, bdList := server.List();
      ScanLoopStarts(m0, server.Now(), bds, bdList, ok);
      if !ok {
        return;
      }
      var i := 0;
      while i < |bds|
        invariant 0 <= i <= |bds| && saved == i
        invariant server.Valid() && FromPast(bdList, server.world.past) && ScanLoop(m0, server.Now(), bds, bdList, i)
      {
        ghost var m := server.Now();
        ok := SaveBlockDeviceByList(bds[i], bdList, sources[i]);
        ghost var reply :| Made(m, server.Now(), ScanSave(sources[i], Find(bdList, bds[i].name)), reply) &&
            ok == reply.Done?;
        ScanLoopSaves(m0, m, server.Now(), bds, bdList, i, sources[i], reply);
        TroublesAfterCall(m, server.Now(), ScanSave(sources[i], Find(bdList, bds[i].name)), reply);
        if !ok {
          return;
        }
        i, saved := i + 1, saved + 1;
      }
      ScanLoopEnds(m0, server.Now(), bds, bdList);
      ok := true;
    }

    /** The first loop of the scan. */
    method CollectDevices(disks: seq<Disk>) returns (bds: seq<BlockDevice>)
      ensures bds == Wanted(disks, nodeName, namespace)
    {
      bds := [];
      var i := 0;
      while i < |disks|
        invariant 0 <= i <= |disks| && bds == Wanted(disks[..i], nodeName, namespace)
      {
        assert disks[..i + 1][..i] == disks[..i];
        if !IsLonghornBlockDevice(disks[i].busPath) {
          var blockDevices := DeepCopy.GeneratedValues(disks[i], nodeName, namespace);
          bds := bds + blockDevices;
        }
        i := i + 1;
      }
      assert disks[..i] == disks;
    }

    /** OnBlockDeviceChange on an object as some cache shows it; `attempt` is what mounting it would do. */
    method OnBlockDeviceChange(device: Option<BlockDevice>, attempt: Mounting.Attempt, now: Time)
      returns (ok: bool, mounts: bool)
      requires server.Valid() && (device.Some? ==> device.value in server.world.past)
      modifies server
      ensures server.Valid()
      ensures var r := if device.Some? then Some(Mounting.Reconcile(device.value, attempt, now)) else None;
              && mounts == (r.Some? && r.value.mounts)
              && if r.Some? && r.value.writes then
                   exists reply ::
                     Made(old(server.Now()), server.Now(), Reconcile(device.value, attempt, now), reply) &&
                         ok == reply.Done?
                 else ok && server.Now() == old(server.Now())
    {
      hide Made, Mounting.SetStatus, Mounting.SetMessage, Mounting.SetError, Mounting.IsValidFileSystem;
      if device.None? || device.value.terminating {
        return true, false;
      }
      var original := device.value;
      if original.spec.fileSystem.mountPoint == "" {
        return true, false;
      }
      var copied := original;
      var fs := copied.spec.fileSystem;
      var fsStatus := copied.deviceStatus.fileSystem;
      ghost var cause := Reconcile(original, attempt, now);
      var reply;
      mounts := false;
      if !Mounting.IsValidFileSystem(fs, fsStatus) {
        if fs.forceFormatted && fsStatus.lastFormattedAt == None {
          var stamped := fsStatus.(lastFormattedAt := Some(now));
          copied := copied.(deviceStatus := copied.deviceStatus.(fileSystem := stamped));
        }
        mounts := true;
        if attempt.MountFails? {
          copied := copied.(conditions := Mounting.SetStatusBool(copied.conditions, Mounting.MOUNTED, false, now));
          var text := "failed to mount the device " + original.spec.devPath + " to path " +
              original.spec.fileSystem.mountPoint
                      + ", error:" + attempt.error;
          copied := copied.(conditions := Mounting.SetError(copied.conditions, Mounting.MOUNTED, Some(text), now));
          assert copied == Mounting.Reconcile(original, attempt, now).device;
          reply := server.Call(Update(copied), cause);
          return reply.Done?, true;
        }
        copied := Mounting.Reread(copied, attempt.reading);
      }
      var error := Mounting.FileSystemError(copied.spec.fileSystem, copied.deviceStatus.fileSystem);
      var mounted := error.None? && copied.deviceStatus.fileSystem.mountPoint != "";
      copied := copied.(conditions := Mounting.SetStatusBool(copied.conditions, Mounting.MOUNTED, mounted, now));
      copied := copied.(conditions := Mounting.SetError(copied.conditions, Mounting.MOUNTED, error, now));
      if error.Some? {
        copied := copied.(conditions := Mounting.SetMessage(copied.conditions, Mounting.MOUNTED, error.value, now));
      }
      assert copied == Mounting.Reconcile(original, attempt, now).device;
      if original != copied {
        reply := server.Call(Update(copied), cause);
        return reply.Done?, mounts;
      }
      ok := true;
    }

    /** OnBlockDeviceDelete: mark every partition of the device for deletion; the first error ends it. */
    method OnBlockDeviceDelete(device: Option<BlockDevice>) returns (ok: bool)
      requires server.Valid()
      modifies server
      ensures server.Valid()
      ensures device.None? ==> ok && server.Now() == old(server.Now())
      ensures device.Some? ==> Deleted(old(server.Now()), server.Now(), PARENT_DEVICE_LABEL, device.value.name, ok)
    {
      if device.None? {
        return true;
      }
      ok := DeleteLabelled(server, PARENT_DEVICE_LABEL, device.value.name);
    }

    /** What the remove handler's framework does with an object as some cache shows it: if the object is being
        deleted, run the handler on it and, unless that fails, take the finalizer off this version, upon which the
        object disappears. */
    method Finalize(seen: BlockDevice) returns (removed: bool)
      requires server.Valid() && seen in server.world.past
      modifies server
      ensures server.Valid() && Finalized(old(server.Now()), server.Now(), seen, removed)
    {
      hide Deleted, Made, Finalized, Troubles, FatesKeepTo;
      removed := false;
      ghost var m0 := server.Now();
      NothingFinalized(m0, seen);
      if seen.terminating {
        var ok := OnBlockDeviceDelete(Some(seen));
        ghost var m := server.Now();
        HandlerFailed(m0, m, seen, ok);
        if ok {
          StillPast(m0, m, seen);
          var reply := server.Call(Purge(seen), Disappear(seen));
          removed := reply.Done?;
          AfterHandler(m0, m, server.Now(), seen, reply);
        }
      }
    }
  }

  /** The client has been tidy; if the other writers keep to names that cover the partitions, so does everything
      that happened; a current version of an object that is being deleted is gone unless there was trouble, and then
      exactly its partitions are marked. */
  ghost predicate Finalized(m0: Moment, m: Moment, seen: BlockDevice, removed: bool) {
    var pre, post, name := m0.world.store.objs, m.world.store.objs, seen.name;
    && Tidy(m0, m)
    && (forall names | Covered(m0, names, PARENT_DEVICE_LABEL, name) ::
          FatesKeepTo(m.fates, names) && Confined(pre, post, names))
    && Troubles(m.fates) <= Troubles(m0.fates)
    && (removed ==> name !in post)
    && if seen.terminating then
         name in pre && pre[name] == seen && Troubles(m.fates) == Troubles(m0.fates) ==>
             removed && RemovedOnly(pre, post, name)
       else
         m == m0 && !removed
  }

  lemma NothingFinalized(m: Moment, seen: BlockDevice)
    requires forall i | i in m.mine :: i < |m.log|
    ensures seen.terminating || Finalized(m, m, seen, false)
  {
    hide OrderlyAt, FromFates;
  }

  lemma HandlerFailed(m0: Moment, m: Moment, seen: BlockDevice, ok: bool)
    requires seen.terminating && Deleted(m0, m, PARENT_DEVICE_LABEL, seen.name, ok)
    ensures m0.log <= m.log && (!ok ==> Finalized(m0, m, seen, false))
  {
    hide OrderlyAt, FromFates;
  }

  lemma AfterHandler(m0: Moment, m: Moment, m': Moment, seen: BlockDevice, reply: Reply)
    requires seen.terminating && Deleted(m0, m, PARENT_DEVICE_LABEL, seen.name, true)
    requires Made(m, m', Disappear(seen), reply)
    ensures Finalized(m0, m', seen, reply.Done?)
  {
    hide Made, Confined, FatesKeepTo, Replay, Inv, Troubles, Tidy, HandledSince, Commit;
    var name := seen.name;
    TroublesAfterCall(m, m', Disappear(seen), reply);
    TidyCall(m0, m, m', Disappear(seen), reply);
    forall names | Covered(m0, names, PARENT_DEVICE_LABEL, name)
      ensures FatesKeepTo(m'.fates, names) && Confined(m0.world.store.objs, m'.world.store.objs, names)
    {
      ConfinedCall(m, m', Disappear(seen), reply, names);
      ConfinedTransitive(m0.world.store.objs, m.world.store.objs, m'.world.store.objs, names);
    }
    if name in m0.world.store.objs && m0.world.store.objs[name] == seen && Troubles(m'.fates) == Troubles(m0.fates) {
      SmoothCall(m, m', Disappear(seen), reply);
      PurgeRemoves(m0.world.store.objs, m.world.store, seen);
    }
    PurgeAnswer(m, m', seen, reply);
  }

  lemma PurgeAnswer(m: Moment, m': Moment, seen: BlockDevice, reply: Reply)
    requires Made(m, m', Disappear(seen), reply)
    ensures reply.Done? ==> seen.name !in m'.world.store.objs
  {
    hide Inv, Waited;
    var met: Moment :| Waited(m, met) && Arrived(met, m', First(m.fates), Disappear(seen), reply);
    PurgedIsGone(met.world, seen);
  }

  lemma PurgedIsGone(w: World, seen: BlockDevice)
    requires Enabled(w, Disappear(seen))
    ensures Commit(w.store, Purge(seen)).Some? ==> seen.name !in Next(w, Disappear(seen)).store.objs
  {
  }

  lemma PurgeRemoves(pre: Objects, s: Store, seen: BlockDevice)
    requires MarkedOnly(pre, s.objs, PARENT_DEVICE_LABEL, seen.name)
    requires seen.name in pre && pre[seen.name] == seen && seen.terminating
    requires AllTerminating(s.objs, PARENT_DEVICE_LABEL, seen.name)
    ensures Commit(s, Purge(seen)).Some? && RemovedOnly(pre, Commit(s, Purge(seen)).value.objs, seen.name)
  {
  }

  lemma ScanStoresAll(w: World, disks: seq<Disk>, node: string, ns: string)
    requires Inv(w)
    ensures DistinctScan(disks) ==>
              var scan := ScanOnce(w.store, Wanted(disks, node, ns), w.store.objs);
              scan.1 && ScanLeaves(w.store.objs, scan.0.objs, disks, node)
  {
    hide DistinctScan, ScanLeaves;
    if DistinctScan(disks) { ScanStores(w.store, disks, node, ns); }
  }

  lemma ScanLoopStarts(m0: Moment, m: Moment, bds: seq<BlockDevice>, list: seq<BlockDevice>, ok: bool)
    requires m0.world == Replay(m0.log) && Waited(m0, m) && ok == Answers(First(m0.fates))
    requires ok ==> Lists(list, m.world.store.objs)
    ensures ok ==> ScanLoop(m0, m, bds, list, 0)
    ensures !ok ==> SaveLoop(m0, m, bds, 0, true) && SaveOrder(m0, m, bds, 0) && Troubles(m0.fates) > 0
  {
    hide SaveOrder, LoopCalm, Inv, FromFates;
    SaveLoopStarts(m0, bds, true);
    SaveLoopWaits(m0, m0, m, bds, 0, true);
    RestOfFates(m0.fates);
    if ok { ListingCovers(m.world, list); }
  }

  lemma ScanLoopEnds(m0: Moment, m: Moment, bds: seq<BlockDevice>, list: seq<BlockDevice>)
    requires ScanLoop(m0, m, bds, list, |bds|)
    ensures SaveOrder(m0, m, bds, |bds|) && (DistinctNames(bds) ==> SaveLoop(m0, m, bds, |bds|, true))
    ensures Troubles(m0.fates) == 0 ==> (m.world.store, true) == ScanOnce(m0.world.store, bds, m0.world.store.objs)
  {
    hide SaveLoop, SaveOrder, DistinctNames;
  }

  lemma StillPast(m: Moment, m': Moment, seen: BlockDevice)
    requires seen in m.world.past && m.world == Replay(m.log) && m'.world == Replay(m'.log) && m.log <= m'.log
    ensures seen in m'.world.past
  {
    assert m'.log[..|m.log|] == m.log;
    PastGrows(m'.log, |m.log|);
  }

  lemma {:induction false} PastGrows(log: seq<Step>, n: nat)
    requires n <= |log|
    ensures Replay(log[..n]).past <= Replay(log).past
  {
    if n == |log| {
      assert log[..n] == log;
    } else {
      var before := log[..|log| - 1];
      assert before[..n] == log[..n];
      PastGrows(before, n);
      ReachableInv(before);
      NextKeepsInv(Replay(before), log[|log| - 1]);
    }
  }

  /** One save of the scan. */
  lemma ScanLoopSaves(
    m0: Moment, m: Moment, m': Moment, bds: seq<BlockDevice>, list: seq<BlockDevice>, i: nat, origin: Origin,
        reply: Reply)
    requires i < |bds| && Exists(origin) && Want(origin) == bds[i] && ParentsFirst(bds)
    requires Made(m, m', ScanSave(origin, Find(list, bds[i].name)), reply)
    requires ScanLoop(m0, m, bds, list, i) && m'.world == Replay(m'.log)
    ensures DistinctNames(bds) ==> SaveLoop(m0, m', bds, if reply.Done? then i + 1 else i, true)
    ensures SaveOrder(m0, m', bds, if reply.Done? then i + 1 else i)
    ensures reply.Done? ==> ScanLoop(m0, m', bds, list, i + 1)
    ensures Troubles(m0.fates) == 0 && !reply.Done? ==>
              ScanOnce(m0.world.store, bds, m0.world.store.objs) == (m'.world.store, false)
  {
    hide SaveLoop, SaveOrder, Made, DistinctNames, ParentsFirst, Inv, Replay;
    var step := ScanSave(origin, Find(list, bds[i].name));
    SaveOrderCalls(m0, m, m', bds, i, step, reply);
    if DistinctNames(bds) { SaveLoopCalls(m0, m, m', bds, i, step, reply); }
    TroublesAfterCall(m, m', step, reply);
    if Troubles(m0.fates) == 0 {
      SmoothCall(m, m', step, reply);
      assert Request(step) ==
        if bds[i].name in m0.world.store.objs then Update(Merge(m0.world.store.objs[bds[i].name], bds[i], true))
            else Create(bds[i]);
      assert bds[i..][0] == bds[i] && bds[i..][1..] == bds[i + 1..];
    }
  }

  /** The scan after its first `i` saves. */
  ghost predicate ScanLoop(m0: Moment, m: Moment, bds: seq<BlockDevice>, list: seq<BlockDevice>, i: nat) {
    && i <= |bds|
    && SaveOrder(m0, m, bds, i) && m.world == Replay(m.log) && (DistinctNames(bds) ==> SaveLoop(m0, m, bds, i, true))
    && (Troubles(m0.fates) == 0 ==>
          && Troubles(m.fates) == 0
          && (forall n :: Find(list, n) == if n in m0.world.store.objs then Some(m0.world.store.objs[n]) else None)
          && ScanOnce(m0.world.store, bds, m0.world.store.objs)
               == ScanOnce(m.world.store, bds[i..], m0.world.store.objs))
  }

  /** A stored object always differs from a freshly generated one: its version is not 0. */
  lemma ListedDiffers(log: seq<Step>, list: seq<BlockDevice>, origin: Origin)
    requires FromPast(list, Replay(log).past) && Exists(origin)
    ensures forall i | 0 <= i < |list| :: list[i] != Want(origin)
  {
    ReachableInv(log);
    GeneratedAt(origin.disk, origin.node, origin.ns, origin.index);
  }

  lemma ListingCovers(w: World, list: seq<BlockDevice>)
    requires Inv(w) && Lists(list, w.store.objs)
    ensures forall n :: Find(list, n) == if n in w.store.objs then Some(w.store.objs[n]) else None
  {
    forall n ensures Find(list, n) == if n in w.store.objs then Some(w.store.objs[n]) else None {
      FindListed(list, w.store.objs, n);
    }
  }
}
