/** Whole runs of the disk manager: any sequence of the things that can happen to it, each handled by its own code. */
module Runs {
  import opened Strings
  import opened BlockDevices
  import opened Naming
  import opened Generation
  import opened Machine
  import opened Interleaving
  import opened Server
  import opened Order
  import opened Convergence
  import opened Saving
  import opened Controller
  import opened NodeLabels
  import opened Nodes
  import opened Udev
  import Mounting

  /** A change or a removal may be handled on any version of the object that a cache may still show. */
  datatype Happening =
    | Scan(disks: seq<Disk>)
    | Uevent(device: UdevDevice, action: Action, now: Time)
    | Change(name: string, attempt: Mounting.Attempt, now: Time)
    | Removal(name: string)
    | NodeRemoval(node: string)

  /** What holds in every store that a run can reach. */
  ghost predicate Sound(server: ApiServer)
    reads server
  {
    var objs := server.world.store.objs;
    && (forall n | n in objs :: objs[n].state == LastState(History(server.log), n) && objs[n].state != Unknown)
    && (server.origins <= NotLonghorn() ==> forall n | n in objs :: !FromLonghorn(objs[n]))
    && (Distinguishable(server.origins) ==> FamiliesStayOnNode(objs))
  }

  lemma ReachableIsSound(server: ApiServer)
    requires server.Valid()
    ensures Sound(server)
  {
    StateIsHistory(server.log);
    if server.origins <= NotLonghorn() { NoLonghornDeviceRecorded(server.log); }
    if Distinguishable(server.origins) { DistinguishableKeepsFamilies(server.log, server.origins); }
  }

  class DiskManager {
    const server: ApiServer
    const devices: BlockDeviceController
    const nodes: NodeController
    const monitor: UdevMonitor

    constructor (server: ApiServer, nodeName: string, namespace: string, readDisk: string -> Disk)
      ensures this.server == server && Wired() && fresh(this.monitor)
    {
      var blockDevices := new BlockDeviceController(server, nodeName, namespace);
      this.server, this.devices := server, blockDevices;
      this.monitor := new UdevMonitor(server, nodeName, namespace, readDisk);
      this.nodes := new NodeController(server, blockDevices);
    }

    predicate Wired() {
      devices.server == server && nodes.server == server && nodes.devices == devices
      && monitor.server == server && monitor.controller.server == server
    }

    /** What is saved is among the readings that the run may save. */
    ghost predicate MayHappen(event: Happening)
      reads monitor.controller
    {
      match event
      case Scan(disks) =>
        forall i | 0 <= i < |Sources(disks, devices.nodeName, devices.namespace)| ::
             Sources(disks, devices.nodeName, devices.namespace)[i] in server.origins
      case Uevent(device, action, _) => action.Add? && Handles(device) ==> monitor.MaySave(device)
      case Change(_, _, _) => true
      case Removal(_) => true
      case NodeRemoval(_) => true
    }

    method Handle(event: Happening)
      requires Wired() && server.Valid() && MayHappen(event)
      modifies server, monitor
      ensures server.Valid() && Orderly(old(server.Now()), server.Now())
    {
      hide SaveLoop, SavedSoFar, Made, Orderly, Mounting.Reconcile, Wanted, ScanOnce, Cascaded;
      match event
      case Scan(disks) =>
        var ok;
        ghost var saved;
        ok, saved := devices.RegisterNodeBlockDevices(disks);
      case Uevent(device, action, now) =>
        var crashed := monitor.ActionHandler(device, action, now);
      case Change(name, attempt, now) =>
        HandleChange(name, attempt, now);
      case Removal(name) =>
        HandleRemoval(name);
      case NodeRemoval(node) =>
        nodes.RemoveNode(node);
    }

    method HandleChange(name: string, attempt: Mounting.Attempt, now: Time)
      requires Wired() && server.Valid()
      modifies server
      ensures server.Valid() && Orderly(old(server.Now()), server.Now())
    {
      hide Made, Orderly, Mounting.Reconcile;
      ghost var m := server.Now();
      server.Known(name);
      OrderlySelf(m);
      var seen := AnyVersion(name);
      var ok, mounts := devices.OnBlockDeviceChange(seen, attempt, now);
      if seen.Some? && Mounting.Reconcile(seen.value, attempt, now).writes {
        ghost var reply :| Made(m, server.Now(), Reconcile(seen.value, attempt, now), reply) && ok == reply.Done?;
        OrderlyAlone(m, server.Now(), Reconcile(seen.value, attempt, now), reply);
      }
    }

    method HandleRemoval(name: string)
      requires Wired() && server.Valid()
      modifies server
      ensures server.Valid() && Orderly(old(server.Now()), server.Now())
    {
      hide Orderly;
      server.Known(name);
      OrderlySelf(server.Now());
      var seen := AnyVersion(name);
      if seen.Some? {
        var removed := devices.Finalize(seen.value);
      }
    }

    /** Some version of the object that was ever stored. */
    method AnyVersion(name: string) returns (seen: Option<BlockDevice>)
      ensures seen.Some? ==> seen.value in server.world.past && seen.value.name == name
      ensures seen.None? ==> forall bd | bd in server.world.past :: bd.name != name
    {
      seen := None;
      if exists bd :: bd in server.world.past && bd.name == name {
        var bd :| bd in server.world.past && bd.name == name;
        seen := Some(bd);
      }
    }

    /** A whole run, whatever its calls meet and whoever else is at work. The client is orderly all along, so the
        tree, if it was there, holds at every point of the run exactly if the other clients cross none of its windows
        and orphan nothing themselves; each state is the one that history prescribes; and nothing is recorded that the
        saved readings do not allow. */
    method Run(events: seq<Happening>)
      requires Wired() && server.Valid() && forall i | 0 <= i < |events| :: MayHappen(events[i])
      modifies server, monitor
      ensures server.Valid() && Orderly(old(server.Now()), server.Now()) && Sound(server)
      ensures KeepsTree(old(server.Now()), server.Now())
    {
      hide Orderly, KeepsTree;
      ghost var m0 := server.Now();
      server.Known("");
      OrderlySelf(m0);
      var i := 0;
      while i < |events|
        invariant 0 <= i <= |events| && server.Valid() && Orderly(m0, server.Now())
      {
        ghost var m := server.Now();
        Handle(events[i]);
        OrderlyChain(m0, m, server.Now());
        i := i + 1;
      }
      ReachableIsSound(server);
      OrderlyKeepsTree(m0, server.Now());
    }
  }

  /** One client's view of a common log, as its run from `start` on leaves it. */
  ghost predicate IsView(log: seq<Step>, start: Moment, end: Moment) {
    start.log == [] && end.log == log && Orderly(start, end)
  }

  ghost predicate SomebodyCalls(ends: seq<Moment>, i: nat) { exists c | 0 <= c < |ends| :: i in ends[c].mine }

  ghost function Clients(ends: seq<Moment>): seq<set<nat>> {
    if ends == [] then [] else Clients(ends[..|ends| - 1]) + [ends[|ends| - 1].mine]
  }

  lemma {:induction false} ClientAt(ends: seq<Moment>, c: nat)
    requires c < |ends|
    ensures |Clients(ends)| == |ends| && Clients(ends)[c] == ends[c].mine
  {
    var n := |ends| - 1;
    if c < n { ClientAt(ends[..n], c); } else if n > 0 { ClientAt(ends[..n], 0); }
  }

  lemma CallIsOrderly(log: seq<Step>, start: Moment, end: Moment, i: nat)
    requires IsView(log, start, end) && i in end.mine && i < |log|
    ensures Issues(log, end.mine, i)
  {
    hide OrderlyAt, FromFates;
  }

  /** Any number of such runs at the same time: the tree holds at every point if and only if no client's call
      crosses the window of another one's. */
  lemma ConcurrentRunsKeepTreeExactly(log: seq<Step>, starts: seq<Moment>, ends: seq<Moment>)
    requires |starts| == |ends| && forall c | 0 <= c < |ends| :: IsView(log, starts[c], ends[c])
    requires forall i | 0 <= i < |log| :: SomebodyCalls(ends, i)
    ensures AlwaysTree(log) <==> NoneCrossed(log, Clients(ends))
  {
    hide IsView, AlwaysTree, NoneCrossed, Clients, Issues;
    forall i | 0 <= i < |log| ensures HasClient(log, Clients(ends), i) {
      assert SomebodyCalls(ends, i);
      var c :| 0 <= c < |ends| && i in ends[c].mine;
      CallIsOrderly(log, starts[c], ends[c], i);
      ClientAt(ends, c);
      assert Issues(log, Clients(ends)[c], i);
    }
    TreeExactlyInWindows(log, Clients(ends));
  }

  /** The only demand on an event for the run to record no device of Longhorn's: an add event's ID_PATH names Longhorn
      whenever the disk's bus path does. */
  lemma AgreeingEventsMayHappen(manager: DiskManager, event: Happening)
    requires manager.Wired() && NotLonghorn() <= manager.server.origins
    requires event.Uevent? && event.action.Add? && Handles(event.device) ==>
               && DistinctParts(manager.monitor.DiskOf(event.device))
               && (Occurs(manager.monitor.DiskOf(event.device).busPath, "longhorn") ==>
                     Occurs(Property(event.device, "ID_PATH"), "longhorn"))
    ensures manager.MayHappen(event)
  {
    if event.Scan? { SourcesNotLonghorn(event.disks, manager.devices.nodeName, manager.devices.namespace); }
  }
}
