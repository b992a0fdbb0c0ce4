/** When the partitions of a node's devices are labelled with that node: a question of the scanned names. */
module NodeLabels {
  import opened Strings
  import opened BlockDevices
  import opened Naming
  import opened Generation
  import opened Machine
  import opened Interleaving

  /** The labels of every stored object are those that some disk reading gave to its name. */
  ghost predicate Born(bd: BlockDevice, origins: iset<Origin>) {
    exists o :: o in origins && Exists(o) && Want(o).name == bd.name && Want(o).labels == bd.labels
  }

  lemma {:induction false} AllBorn(log: seq<Step>, origins: iset<Origin>)
    requires SavesFrom(log, origins)
    ensures forall n | n in Replay(log).store.objs :: Born(Replay(log).store.objs[n], origins)
  {
    if log != [] {
      var before, step := log[..|log| - 1], log[|log| - 1];
      AllBorn(before, origins);
      ReachableInv(before);
      BornStep(Replay(before), step, origins);
    }
  }

  lemma BornStep(w: World, step: Step, origins: iset<Origin>)
    requires Inv(w) && (step.IsSave() ==> step.origin in origins)
    requires forall n | n in w.store.objs :: Born(w.store.objs[n], origins)
    ensures forall n | n in Next(w, step).store.objs :: Born(Next(w, step).store.objs[n], origins)
  {
    var post := Next(w, step).store.objs;
    if Commits(w, step) {
      NextKeepsInv(w, step);
      StepIsConfined(w, step);
      if !step.Creates() && !step.Disappear? { LabelsKept(w, step); }
    }
    forall n | n in post ensures Born(post[n], origins) {
      if n in w.store.objs {
        assert Born(w.store.objs[n], origins);
        assert post[n].name == w.store.objs[n].name && post[n].labels == w.store.objs[n].labels;
      } else {
        assert post[n].name == Want(step.origin).name && post[n].labels == Want(step.origin).labels;
      }
    }
  }

  // ---------------------------------------------------------------- scanned names

  function ScannedName(o: Origin): string
    requires Exists(o)
  {
    DeviceName(o.disk, o.index)
  }

  /** A partition whose disk goes by another name, as a kernel directory lists them. */
  predicate IsPartitionOrigin(o: Origin) { Exists(o) && o.index > 0 && ScannedName(o) != o.disk.name }

  /** One node's disk and another node's device would share an object name: one device name continues the other by a
      dash and the beginning of the other's node name. */
  predicate DiskCollides(o: Origin, other: Origin)
    requires Exists(other)
  {
    && o.node != other.node
    && (Shifted(o.disk.name, o.node, ScannedName(other), other.node)
        || Shifted(ScannedName(other), other.node, o.disk.name, o.node))
  }

  /** No partitioned disk collides with a device of another node. */
  ghost predicate Distinguishable(origins: iset<Origin>) {
    forall o, other | o in origins && IsPartitionOrigin(o) && other in origins && Exists(other) ::
        !DiskCollides(o, other)
  }

  predicate SameHost(a: BlockDevice, b: BlockDevice) {
    LABEL_HOSTNAME in a.labels && Labelled(b, LABEL_HOSTNAME, a.labels[LABEL_HOSTNAME])
  }

  /** Every stored partition is labelled with the node of its stored parent. */
  predicate FamiliesStayOnNode(objs: Objects) {
    forall n | n in objs && PARENT_DEVICE_LABEL in objs[n].labels && objs[n].labels[PARENT_DEVICE_LABEL] in objs ::
      objs[n].labels[PARENT_DEVICE_LABEL] != n ==> SameHost(objs[objs[n].labels[PARENT_DEVICE_LABEL]], objs[n])
  }

  lemma OriginFacts(o: Origin)
    requires Exists(o)
    ensures Want(o).name == GetBlockDeviceName(ScannedName(o), o.node) && Labelled(Want(o), LABEL_HOSTNAME, o.node)
    ensures Want(o).version == 0 && !Want(o).terminating
    ensures PARENT_DEVICE_LABEL in Want(o).labels <==> o.index > 0
    ensures o.index > 0 ==> Want(o).labels[PARENT_DEVICE_LABEL] == ParentName(o)
  {
    GeneratedAt(o.disk, o.node, o.ns, o.index);
  }

  /** Names collide exactly as DiskCollides says. */
  lemma CollidesExactly(o: Origin, other: Origin)
    requires Exists(o) && Exists(other) && o.node != other.node
    ensures DiskCollides(o, other) <==> ParentName(o) == Want(other).name
  {
    OriginFacts(other);
    NamesCollideExactly(o.disk.name, o.node, ScannedName(other), other.node);
  }

  lemma DistinguishableKeepsFamilies(log: seq<Step>, origins: iset<Origin>)
    requires Distinguishable(origins) && SavesFrom(log, origins)
    ensures FamiliesStayOnNode(Replay(log).store.objs)
  {
    hide Born, SameHost, Replay;
    AllBorn(log, origins);
    ReachableInv(log);
    var objs := Replay(log).store.objs;
    forall n | n in objs && PARENT_DEVICE_LABEL in objs[n].labels && objs[n].labels[PARENT_DEVICE_LABEL] in objs
               && objs[n].labels[PARENT_DEVICE_LABEL] != n
      ensures SameHost(objs[objs[n].labels[PARENT_DEVICE_LABEL]], objs[n])
    {
      BornOnOneNode(objs[n], objs[objs[n].labels[PARENT_DEVICE_LABEL]], origins);
    }
  }

  lemma BornOnOneNode(child: BlockDevice, parent: BlockDevice, origins: iset<Origin>)
    requires Distinguishable(origins) && Born(child, origins) && Born(parent, origins)
    requires Labelled(child, PARENT_DEVICE_LABEL, parent.name) && child.name != parent.name
    ensures SameHost(parent, child)
  {
    hide Distinguishable, Want, Exists;
    var o :| o in origins && Exists(o) && Want(o).name == child.name && Want(o).labels == child.labels;
    var other :| other in origins && Exists(other) && Want(other).name == parent.name &&
        Want(other).labels == parent.labels;
    OriginFacts(o);
    BornTogether(o, other, origins);
  }

  lemma BornTogether(o: Origin, other: Origin, origins: iset<Origin>)
    requires Distinguishable(origins) && o in origins && other in origins && Exists(o) && Exists(other) && o.index > 0
    requires ParentName(o) == Want(other).name && Want(o).name != Want(other).name
    ensures SameHost(Want(other), Want(o))
  {
    OriginFacts(o);
    OriginFacts(other);
    if o.node != other.node { CollidesExactly(o, other); }
  }

  /** Two colliding devices, saved one after the other, make a family that spans two nodes. */
  lemma CollisionSplitsFamily(o: Origin, other: Origin)
    requires IsPartitionOrigin(o) && Exists(other) && DiskCollides(o, other)
    ensures !FamiliesStayOnNode(Replay([ScanSave(other, None), ScanSave(o, None)]).store.objs)
  {
    OriginFacts(o);
    OriginFacts(other);
    CollidesExactly(o, other);
    if Want(o).name == Want(other).name { NameDeterminesDevice(ScannedName(o), o.disk.name, o.node); }
    var s1, s2 := ScanSave(other, None), ScanSave(o, None);
    ReplayOneMore([], s1);
    ReplayOneMore([s1], s2);
    assert [] + [s1] == [s1] && [s1] + [s2] == [s1, s2];
    CreateAdds(EMPTY, s1);
    CreateAdds(Next(EMPTY, s1), s2);
    var objs := Replay([s1, s2]).store.objs;
    assert objs[Want(o).name].labels == Want(o).labels && objs[Want(other).name].labels == Want(other).labels;
  }

  lemma CreateAdds(w: World, step: Step)
    requires step.Creates() && Exists(step.origin) && Want(step.origin).name !in w.store.objs
    ensures var want := Want(step.origin);
            Next(w, step).store.objs == w.store.objs[want.name := want.(version := w.store.rev + 1)]
  {
  }

  /** Whatever runs save these readings, partitions stay on the node of their disk if and only if no names collide. */
  lemma FamiliesStayExactly(origins: iset<Origin>)
    ensures Distinguishable(origins) <==>
            forall log | SavesFrom(log, origins) :: FamiliesStayOnNode(Replay(log).store.objs)
  {
    if Distinguishable(origins) {
      forall log | SavesFrom(log, origins) ensures FamiliesStayOnNode(Replay(log).store.objs) {
        DistinguishableKeepsFamilies(log, origins);
      }
    } else {
      var o, other :| o in origins && IsPartitionOrigin(o) && other in origins && Exists(other) &&
          DiskCollides(o, other);
      CollisionSplitsFamily(o, other);
      assert SavesFrom([ScanSave(other, None), ScanSave(o, None)], origins);
    }
  }

  predicate AllDashFree(disk: Disk) {
    DashFree(disk.name) && forall i | 0 <= i < |disk.partitions| :: DashFree(disk.partitions[i].name)
  }

  /** Readings of disks without a dash in any device name. */
  ghost function DashFreeOrigins(): iset<Origin> { iset o: Origin | AllDashFree(o.disk) }

  /** They never collide, whatever the nodes are called. */
  lemma DashFreeIsDistinguishable()
    ensures Distinguishable(DashFreeOrigins())
  {
    forall o, other | o in DashFreeOrigins() && IsPartitionOrigin(o) && other in DashFreeOrigins() && Exists(other)
      ensures !DiskCollides(o, other)
    {
      assert DashFree(ScannedName(other)) && DashFree(o.disk.name);
      if Shifted(o.disk.name, o.node, ScannedName(other), other.node) {
        ShiftedHasDash(o.disk.name, o.node, ScannedName(other), other.node);
      }
      if Shifted(ScannedName(other), other.node, o.disk.name, o.node) {
        ShiftedHasDash(ScannedName(other), other.node, o.disk.name, o.node);
      }
    }
  }
}
