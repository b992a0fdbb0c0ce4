/** Deleting a node: `OnNodeDelete` of pkg/controller/node/node.go and the remove handlers that it sets off. */
module Nodes {
  import opened Strings
  import opened BlockDevices
  import opened Machine
  import opened Lifecycle
  import opened Interleaving
  import opened Server
  import opened Order
  import opened Convergence
  import opened Confinement
  import opened Deletion
  import opened Controller
  import opened NodeLabels

  // ---------------------------------------------------------------- what the deletion of a node dooms

  /** The names hold everything that is being deleted, and with a device its partitions. */
  ghost predicate Closed(objs: Objects, names: iset<string>) {
    forall n | n in objs ::
      && (objs[n].terminating ==> n in names)
      && (PARENT_DEVICE_LABEL in objs[n].labels && objs[n].labels[PARENT_DEVICE_LABEL] in names ==> n in names)
  }

  /** They also hold everything that is labelled with the node. */
  ghost predicate Dooming(objs: Objects, node: string, names: iset<string>) {
    Closed(objs, names) && forall n | n in objs && Labelled(objs[n], LABEL_HOSTNAME, node) :: n in names
  }

  /** In the least such set: labelled with the node, or being deleted, or a partition of such an object, and so on. */
  ghost predicate Doomed(objs: Objects, node: string, n: string) {
    n in objs && forall names: iset<string> | Dooming(objs, node, names) :: n in names
  }

  ghost function DoomedBy(objs: Objects, node: string): iset<string> { iset n: string | Doomed(objs, node, n) }

  lemma DoomedIsDooming(objs: Objects, node: string)
    ensures Dooming(objs, node, DoomedBy(objs, node))
  {
    var least := DoomedBy(objs, node);
    forall n | n in objs && PARENT_DEVICE_LABEL in objs[n].labels && objs[n].labels[PARENT_DEVICE_LABEL] in least
      ensures n in least
    {
      assert Doomed(objs, node, objs[n].labels[PARENT_DEVICE_LABEL]);
    }
  }

  lemma ClosedStays(pre: Objects, post: Objects, names: iset<string>)
    requires Closed(pre, names) && Confined(pre, post, names)
    ensures Closed(post, names)
  {
  }

  predicate NoneTerminating(objs: Objects) { forall n | n in objs :: !objs[n].terminating }

  /** Nothing is being deleted but objects of the node. */
  predicate OnlyNodeTerminating(objs: Objects, node: string) {
    forall n | n in objs && objs[n].terminating :: Labelled(objs[n], LABEL_HOSTNAME, node)
  }

  /** A partition of an object labelled with the node is labelled with it. */
  predicate LabelsReachPartitions(objs: Objects, node: string) {
    forall n | n in objs && PARENT_DEVICE_LABEL in objs[n].labels && objs[n].labels[PARENT_DEVICE_LABEL] in objs ::
      Labelled(objs[objs[n].labels[PARENT_DEVICE_LABEL]], LABEL_HOSTNAME, node) ==>
          Labelled(objs[n], LABEL_HOSTNAME, node)
  }

  /** Exactly the objects labelled with the node are doomed if and only if no unlabelled object has a labelled
      parent. */
  lemma OnlyLabelledDoomedExactly(objs: Objects, node: string)
    requires OnlyNodeTerminating(objs, node)
    ensures (forall n | n in objs :: Doomed(objs, node, n) <==> Labelled(objs[n], LABEL_HOSTNAME, node)) <==>
            LabelsReachPartitions(objs, node)
  {
    DoomedIsDooming(objs, node);
    if LabelsReachPartitions(objs, node) {
      var labelled := iset n | n in objs && Labelled(objs[n], LABEL_HOSTNAME, node);
      assert Dooming(objs, node, labelled);
      forall n | n in objs ensures Doomed(objs, node, n) <==> Labelled(objs[n], LABEL_HOSTNAME, node) {
        assert n in DoomedBy(objs, node) <==> Doomed(objs, node, n);
      }
    }
    if forall n | n in objs :: Doomed(objs, node, n) <==> Labelled(objs[n], LABEL_HOSTNAME, node) {
      forall n | n in objs && PARENT_DEVICE_LABEL in objs[n].labels && objs[n].labels[PARENT_DEVICE_LABEL] in objs
                 && Labelled(objs[objs[n].labels[PARENT_DEVICE_LABEL]], LABEL_HOSTNAME, node)
        ensures Labelled(objs[n], LABEL_HOSTNAME, node)
      {
        assert objs[n].labels[PARENT_DEVICE_LABEL] in DoomedBy(objs, node);
        assert n in DoomedBy(objs, node);
      }
    }
  }

  /** It is so after any run whose saved readings do not collide. */
  lemma DistinguishableNodesPart(log: seq<Step>, origins: iset<Origin>, node: string)
    requires Distinguishable(origins) && SavesFrom(log, origins) && OnlyNodeTerminating(Replay(log).store.objs, node)
    ensures var objs := Replay(log).store.objs;
            forall n | n in objs :: Doomed(objs, node, n) <==> Labelled(objs[n], LABEL_HOSTNAME, node)
  {
    var objs := Replay(log).store.objs;
    DistinguishableKeepsFamilies(log, origins);
    assert LabelsReachPartitions(objs, node);
    OnlyLabelledDoomedExactly(objs, node);
  }

  // ---------------------------------------------------------------- the cascade

  /** What has happened once remove handlers have run, in any order and whatever their calls met. */
  ghost predicate Cascaded(m0: Moment, m: Moment) {
    && m.world == Replay(m.log) && Troubles(m.fates) <= Troubles(m0.fates)
    && Tidy(m0, m)
    && forall names | FatesKeepTo(m0.fates, names) && Closed(m0.world.store.objs, names) ::
         FatesKeepTo(m.fates, names) && Confined(m0.world.store.objs, m.world.store.objs, names)
  }

  lemma CascadeStarts(m: Moment)
    requires m.world == Replay(m.log) && forall i | i in m.mine :: i < |m.log|
    ensures Cascaded(m, m)
  {
    hide Tidy;
    TidySelf(m);
  }

  /** One more remove handler: it has met trouble, or one object fewer is left. */
  lemma CascadeGoesOn(m0: Moment, m: Moment, m': Moment, seen: BlockDevice, removed: bool)
    requires Cascaded(m0, m) && Finalized(m, m', seen, removed) && m'.world == Replay(m'.log)
    requires seen.name in m.world.store.objs && m.world.store.objs[seen.name] == seen && seen.terminating
    ensures Cascaded(m0, m')
    ensures || Troubles(m'.fates) < Troubles(m.fates)
            || (Troubles(m'.fates) == Troubles(m.fates) && |m'.world.store.objs| < |m.world.store.objs|)
  {
    hide Confined, FatesKeepTo, Replay, Tidy;
    var pre, mid, post := m0.world.store.objs, m.world.store.objs, m'.world.store.objs;
    if Troubles(m'.fates) == Troubles(m.fates) {
      assert post.Keys == mid.Keys - {seen.name};
      assert |post| == |post.Keys| && |mid| == |mid.Keys|;
    }
    TidyChain(m0, m, m');
    forall names | FatesKeepTo(m0.fates, names) && Closed(pre, names)
      ensures FatesKeepTo(m'.fates, names) && Confined(pre, post, names)
    {
      ClosedStays(pre, mid, names);
      assert seen.name in names;
      assert Covered(m, names, PARENT_DEVICE_LABEL, seen.name);
      ConfinedTransitive(pre, mid, post, names);
    }
  }

  class NodeController {
    const server: ApiServer
    const devices: BlockDeviceController

    constructor (server: ApiServer, devices: BlockDeviceController)
      requires devices.server == server
      ensures this.server == server && this.devices == devices
    {
      this.server, this.devices := server, devices;
    }

    /** OnNodeDelete: mark every object labelled with the node for deletion; the first error ends it. */
    method OnNodeDelete(node: Option<string>) returns (ok: bool)
      requires server.Valid()
      modifies server
      ensures server.Valid()
      ensures node.None? ==> ok && server.Now() == old(server.Now())
      ensures node.Some? ==> Deleted(old(server.Now()), server.Now(), LABEL_HOSTNAME, node.value, ok)
    {
      if node.None? {
        return true;
      }
      ok := DeleteLabelled(server, LABEL_HOSTNAME, node.value);
    }

    /** The remove handlers of all objects that are being deleted, in any order, each repeated until it succeeds.
        However the objects are linked, and whatever fates the calls meet, this comes to an end. */
    method FinalizeAll()
      requires server.Valid() && devices.server == server
      modifies server
      ensures server.Valid() && NoneTerminating(server.world.store.objs)
      ensures Cascaded(old(server.Now()), server.Now())
    {
      hide Cascaded, Finalized, Troubles;
      ghost var m0 := server.Now();
      CascadeStarts(m0);
      while exists n :: n in server.world.store.objs && server.world.store.objs[n].terminating
        invariant server.Valid() && Cascaded(m0, server.Now())
        decreases Troubles(server.fates), |server.world.store.objs|
      {
        var name :| name in server.world.store.objs && server.world.store.objs[name].terminating;
        ghost var m := server.Now();
        server.Known(name);
        var seen := server.world.store.objs[name];
        var removed := devices.Finalize(seen);
        CascadeGoesOn(m0, m, server.Now(), seen, removed);
      }
    }

    /** The node's own remove handler, repeated until it succeeds, and then those of the block devices. */
    method RemoveNode(node: string)
      requires server.Valid() && devices.server == server
      modifies server
      ensures server.Valid()
      ensures NodeRemoved(old(server.Now()), server.Now(), node)
    {
      hide NodeRemoved, Deleted, Troubles, Cascaded;
      ghost var m0 := server.Now();
      MarkingStarts(m0, node);
      var ok := false;
      while !ok
        invariant server.Valid() && Marking(m0, server.Now(), node, ok)
        decreases !ok, Troubles(server.fates)
      {
        ghost var m := server.Now();
        ok := OnNodeDelete(Some(node));
        MarkingGoesOn(m0, m, server.Now(), node, ok);
      }
      ghost var m := server.Now();
      FinalizeAll();
      NodeIsGone(m0, m, server.Now(), node);
    }
  }

  /** The other writers keep to what the deletion of the node dooms: its own remove handlers, for instance. */
  ghost predicate OthersKeepToNode(m: Moment, node: string) { FatesKeepTo(m.fates, DoomedBy(m.world.store.objs, node)) }

  /** Exactly what is doomed is gone, unless a handler elsewhere has removed a disk without deleting its partitions;
      all else is as it was. */
  ghost predicate NodeRemoved(m0: Moment, m: Moment, node: string) {
    var pre, post := m0.world.store.objs, m.world.store.objs;
    && NoneTerminating(post) && Tidy(m0, m)
    && (OthersKeepToNode(m0, node) && OthersClean(m0, m) ==>
        post == map n | n in pre && !Doomed(pre, node, n) :: pre[n])
  }

  /** Without other clients, whatever failures the calls meet, it is exactly that. */
  lemma UndisturbedRemoval(m0: Moment, m: Moment, node: string)
    requires NodeRemoved(m0, m, node) && Alone(m0.fates)
    ensures var pre := m0.world.store.objs; m.world.store.objs == map n | n in pre && !Doomed(pre, node, n) :: pre[n]
  {
    hide OrderlyAt, Doomed, OrphansAt;
  }

  /** The first phase: the node's handler has run some number of times, the last time with the result `ok`. */
  ghost predicate Marking(m0: Moment, m: Moment, node: string, ok: bool) {
    var pre, objs, doomed := m0.world.store.objs, m.world.store.objs, DoomedBy(m0.world.store.objs, node);
    && m0.world == Replay(m0.log) && m.world == Replay(m.log) && Troubles(m.fates) <= Troubles(m0.fates)
    && Tidy(m0, m)
    && (OthersKeepToNode(m0, node) ==>
          && FatesKeepTo(m.fates, doomed) && Confined(pre, objs, doomed)
          && (ok ==> AllTerminating(objs, LABEL_HOSTNAME, node)))
  }

  lemma MarkingStarts(m: Moment, node: string)
    requires m.world == Replay(m.log) && forall i | i in m.mine :: i < |m.log|
    ensures Marking(m, m, node, false)
  {
    hide Tidy, Doomed;
    TidySelf(m);
  }

  lemma MarkingGoesOn(m0: Moment, m: Moment, m': Moment, node: string, ok: bool)
    requires Marking(m0, m, node, false) && Deleted(m, m', LABEL_HOSTNAME, node, ok) && m'.world == Replay(m'.log)
    ensures Marking(m0, m', node, ok)
    ensures !ok ==> Troubles(m'.fates) < Troubles(m.fates)
  {
    hide FatesKeepTo, Replay, Troubles, Tidy, HandledSince, Doomed, DoomedBy;
    TidyChain(m0, m, m');
    if OthersKeepToNode(m0, node) {
      var names := DoomedBy(m0.world.store.objs, node);
      DoomedIsDooming(m0.world.store.objs, node);
      assert Covered(m, names, LABEL_HOSTNAME, node);
      ConfinedTransitive(m0.world.store.objs, m.world.store.objs, m'.world.store.objs, names);
    }
  }

  lemma NodeIsGone(m0: Moment, m: Moment, m': Moment, node: string)
    requires Marking(m0, m, node, true) && Cascaded(m, m') && NoneTerminating(m'.world.store.objs)
    ensures NodeRemoved(m0, m', node)
  {
    hide FatesKeepTo, Replay, Troubles, Tidy, Doomed, DoomedBy, OthersClean;
    TidyChain(m0, m, m');
    if OthersKeepToNode(m0, node) && OthersClean(m0, m') {
      var names := DoomedBy(m0.world.store.objs, node);
      var pre, mid, post := m0.world.store.objs, m.world.store.objs, m'.world.store.objs;
      DoomedIsDooming(pre, node);
      ClosedStays(pre, mid, names);
      ConfinedTransitive(pre, mid, post, names);
      NothingOrphaned(m0, m', node);
      DoomedAreGone(pre, mid, post, node);
      OthersStay(pre, post, node);
    }
  }

  /** What is left keeps its parent. */
  predicate NotOrphaned(pre: Objects, objs: Objects) {
    forall n | n in objs && !objs[n].terminating && PARENT_DEVICE_LABEL in objs[n].labels ::
      objs[n].labels[PARENT_DEVICE_LABEL] in pre ==> objs[n].labels[PARENT_DEVICE_LABEL] in objs
  }

  lemma NothingOrphaned(m0: Moment, m: Moment, node: string)
    requires Tidy(m0, m) && OthersKeepToNode(m0, node) && OthersClean(m0, m)
    requires m0.world == Replay(m0.log) && m.world == Replay(m.log)
    ensures NotOrphaned(m0.world.store.objs, m.world.store.objs)
  {
    hide OrderlyAt, OrphansAt, Replay, NotOrphaned;
    NothingCreated(m0, m, node);
    TidyIsUncrossed(m0, m);
    OrderlyIsClean(m0, m);
    assert m.log[..|m0.log|] == m0.log && m.log[..|m.log|] == m.log;
    CleanKeepsParents(m.log, |m0.log|, |m.log|);
  }

  /** Neither by this client nor by others. */
  ghost predicate NoneCreatedSince(m0: Moment, m: Moment) { forall i | |m0.log| <= i < |m.log| :: !m.log[i].Creates() }

  lemma NothingCreated(m0: Moment, m: Moment, node: string)
    requires Tidy(m0, m) && OthersKeepToNode(m0, node)
    ensures NoneCreatedSince(m0, m)
  {
    hide OrderlyAt, DoomedBy;
    forall i | |m0.log| <= i < |m.log| && i !in m.mine ensures !m.log[i].Creates() {
      assert FromFates(m0.fates, m.log[i]);
      var f :| 0 <= f < |m0.fates| && m0.fates[f].Interleaved? && m.log[i] in m0.fates[f].others;
      assert StepsKeepTo(m0.fates[f].others, DoomedBy(m0.world.store.objs, node));
    }
  }

  lemma TidyIsUncrossed(m0: Moment, m: Moment)
    requires Tidy(m0, m) && NoneCreatedSince(m0, m)
    ensures Uncrossed(m0, m)
  {
    hide OrderlyAt, Replay, Commits;
  }

  lemma {:induction false} CleanKeepsParents(log: seq<Step>, base: nat, b: nat)
    requires base <= b <= |log| && (forall i | base <= i < b :: !log[i].Creates()) && CleanFrom(log, base)
    ensures NotOrphaned(Replay(log[..base]).store.objs, Replay(log[..b]).store.objs)
  {
    hide Replay, OrphansAt;
    if b > base {
      CleanKeepsParents(log, base, b - 1);
      var pre, mid, post := Replay(log[..base]).store.objs, Replay(log[..b - 1]).store.objs,
          Replay(log[..b]).store.objs;
      forall n | n in post && !post[n].terminating && PARENT_DEVICE_LABEL in post[n].labels
                 && post[n].labels[PARENT_DEVICE_LABEL] in pre
        ensures post[n].labels[PARENT_DEVICE_LABEL] in post
      {
        CleanStepKeepsParent(log, b - 1, n);
      }
    }
  }

  lemma CleanStepKeepsParent(log: seq<Step>, i: nat, n: string)
    requires i < |log| && !log[i].Creates() && !OrphansAt(log, i)
    requires var post := Replay(log[..i + 1]).store.objs;
             n in post && !post[n].terminating && PARENT_DEVICE_LABEL in post[n].labels
    ensures var pre, post := Replay(log[..i]).store.objs, Replay(log[..i + 1]).store.objs;
            && n in pre && !pre[n].terminating && pre[n].labels == post[n].labels
            && (post[n].labels[PARENT_DEVICE_LABEL] in pre ==> post[n].labels[PARENT_DEVICE_LABEL] in post)
  {
    hide Replay;
    OneStep(log, i, n);
    OneStep(log, i, Replay(log[..i + 1]).store.objs[n].labels[PARENT_DEVICE_LABEL]);
  }

  /** What is gone contains what is labelled and, where nothing is orphaned, with a device its partitions. */
  lemma DoomedAreGone(pre: Objects, mid: Objects, post: Objects, node: string)
    requires Shrunk(pre, post) && Shrunk(mid, post) && NotOrphaned(pre, post)
    requires AllTerminating(mid, LABEL_HOSTNAME, node) && NoneTerminating(post)
    ensures forall n | n in post :: !Doomed(pre, node, n)
  {
    var gone := iset n | n in pre && n !in post;
    forall n | n in pre
      ensures pre[n].terminating || Labelled(pre[n], LABEL_HOSTNAME, node) ==> n in gone
      ensures PARENT_DEVICE_LABEL in pre[n].labels && pre[n].labels[PARENT_DEVICE_LABEL] in gone ==> n in gone
    {
      if n in post {
        assert post[n].labels == pre[n].labels == mid[n].labels;
      }
    }
    assert Dooming(pre, node, gone);
  }

  lemma OthersStay(pre: Objects, post: Objects, node: string)
    requires Confined(pre, post, DoomedBy(pre, node)) && Closed(pre, DoomedBy(pre, node))
    requires forall n | n in post :: !Doomed(pre, node, n)
    ensures post == map n | n in pre && !Doomed(pre, node, n) :: pre[n]
  {
    forall n | n in pre && !Doomed(pre, node, n) ensures n in post && post[n] == pre[n] {
      assert n !in DoomedBy(pre, node);
    }
  }

  // ---------------------------------------------------------------- a node that takes along another one's partition

  /** A device of node "a" whose name looks like a device of node "b-a". */
  const MAPPED := SAMPLE.(name := "sda-b", partitions := [])

  /** The scans of both nodes save these: the second one finds its disk's name taken. */
  ghost predicate MixedSaves(log: seq<Step>) {
    exists seen :: log == [ScanSave(Origin(MAPPED, "a", "ns", 0), None),
                           ScanSave(Origin(SAMPLE, "b-a", "ns", 0), Some(seen)),
                           ScanSave(Origin(SAMPLE, "b-a", "ns", 1), None)]
  }

  /** With a dash in a device name, the deletion of one node deletes a partition of another: the node's handler
      marks its only device, that device's handler marks the partition of the other node, and both disappear. */
  lemma DashesLetACascadeLeaveItsNode()
    ensures exists saves, disk, part :: MixedSaves(saves) &&
              var objs := Replay(saves).store.objs;
              var marks := [DeleteCall("sda-b-a"), DeleteCall("sda1-b-a")];
              && objs.Keys == {"sda-b-a", "sda1-b-a"} && NoneTerminating(objs)
              && Labelled(objs["sda-b-a"], LABEL_HOSTNAME, "a") && Labelled(objs["sda1-b-a"], LABEL_HOSTNAME, "b-a")
              && Doomed(objs, "a", "sda1-b-a")
              && Replay(saves + marks + [Disappear(disk), Disappear(part)]).store.objs == map[]
  {
    var saves := MixedRun();
    var objs := Replay(saves).store.objs;
    DoomedIsDooming(objs, "a");
    assert "sda-b-a" in DoomedBy(objs, "a") && "sda1-b-a" in DoomedBy(objs, "a");
    var disk, part := RemovedInTurn(saves, "sda-b-a", "sda1-b-a");
  }

  lemma MixedRun() returns (saves: seq<Step>)
    ensures MixedSaves(saves)
    ensures var objs := Replay(saves).store.objs;
            && objs.Keys == {"sda-b-a", "sda1-b-a"} && NoneTerminating(objs)
            && Labelled(objs["sda-b-a"], LABEL_HOSTNAME, "a") && Labelled(objs["sda1-b-a"], LABEL_HOSTNAME, "b-a")
            && Labelled(objs["sda1-b-a"], PARENT_DEVICE_LABEL, "sda-b-a")
  {
    var parent := Origin(MAPPED, "a", "ns", 0);
    var other, child := Origin(SAMPLE, "b-a", "ns", 0), Origin(SAMPLE, "b-a", "ns", 1);
    OriginFacts(parent);
    OriginFacts(other);
    OriginFacts(child);
    assert Want(parent).name == "sda-b-a" && Want(other).name == "sda-b-a" && Want(child).name == "sda1-b-a";
    var s1, s3 := ScanSave(parent, None), ScanSave(child, None);
    var w1 := Next(EMPTY, s1);
    CreateAdds(EMPTY, s1);
    var s2 := ScanSave(other, Some(w1.store.objs["sda-b-a"]));
    saves := [s1, s2, s3];
    ReplayThree(s1, s2, s3);
    ReachableInv([s1]);
    SavedByBoth(w1, s2, s3);
  }

  lemma SavedByBoth(w: World, s2: Step, s3: Step)
    requires w.store.objs.Keys == {"sda-b-a"} && Inv(w) && !w.store.objs["sda-b-a"].terminating
    requires s2.ScanSave? && Enabled(w, s2) && s2.known == Some(w.store.objs["sda-b-a"])
    requires s3.ScanSave? && s3.known.None? && Exists(s3.origin) && Want(s3.origin).name == "sda1-b-a"
    requires !Want(s3.origin).terminating
    ensures var objs := Next(Next(w, s2), s3).store.objs;
            && objs.Keys == {"sda-b-a", "sda1-b-a"} && NoneTerminating(objs)
            && objs["sda-b-a"].labels == w.store.objs["sda-b-a"].labels
            && objs["sda1-b-a"].labels == Want(s3.origin).labels
  {
    assert "sda-b-a"[3] != "sda1-b-a"[3];
    LabelsKept(w, s2);
    CreateAdds(Next(w, s2), s3);
  }

  /** A disk and its only partition, marked one after the other, disappear one after the other. */
  lemma RemovedInTurn(log: seq<Step>, disk: string, part: string) returns (first: BlockDevice, second: BlockDevice)
    requires Replay(log).store.objs.Keys == {disk, part} && disk != part && NoneTerminating(Replay(log).store.objs)
    ensures var marks := [DeleteCall(disk), DeleteCall(part)];
            Replay(log + marks + [Disappear(first), Disappear(second)]).store.objs == map[]
  {
    var marks := [DeleteCall(disk), DeleteCall(part)];
    ReachableInv(log);
    BothMarked(Replay(log), disk, part);
    ReplayTwo(log, marks[0], marks[1]);
    var w := Replay(log + marks);
    ReachableInv(log + marks);
    first, second := w.store.objs[disk], w.store.objs[part];
    ReplayTwo(log + marks, Disappear(first), Disappear(second));
    BothPurged(w, disk, part);
  }

  lemma BothMarked(w: World, disk: string, part: string)
    requires Inv(w) && w.store.objs.Keys == {disk, part} && disk != part
    ensures var objs := Next(Next(w, DeleteCall(disk)), DeleteCall(part)).store.objs;
            objs.Keys == {disk, part} && objs[disk].terminating && objs[part].terminating
  {
  }

  lemma BothPurged(w: World, disk: string, part: string)
    requires Inv(w) && w.store.objs.Keys == {disk, part} && disk != part
    requires w.store.objs[disk].terminating && w.store.objs[part].terminating
    ensures Next(Next(w, Disappear(w.store.objs[disk])), Disappear(w.store.objs[part])).store.objs == map[]
  {
    var w1 := Next(w, Disappear(w.store.objs[disk]));
    assert w1.store.objs == w.store.objs - {disk} && w1.past >= w.past;
  }

  lemma ReplayTwo(log: seq<Step>, s1: Step, s2: Step)
    ensures Replay(log + [s1, s2]) == Next(Next(Replay(log), s1), s2)
  {
    ReplayOneMore(log, s1);
    ReplayOneMore(log + [s1], s2);
    assert log + [s1] + [s2] == log + [s1, s2];
  }

  lemma ReplayThree(s1: Step, s2: Step, s3: Step)
    ensures Replay([s1, s2, s3]) == Next(Next(Next(EMPTY, s1), s2), s3)
    ensures Replay([s1]) == Next(EMPTY, s1)
  {
    ReplayOneMore([], s1);
    ReplayTwo([s1], s2, s3);
    assert [] + [s1] == [s1] && [s1] + [s2, s3] == [s1, s2, s3];
  }
}
