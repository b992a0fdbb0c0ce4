/**
 The shared object store and everything that writes to it, one API call at a time, in any interleaving.

 Every client works from objects it read at some earlier moment: a step may use any version that was ever stored,
 however stale. A step whose call the API server refuses changes nothing.
 */
module Machine {
  import opened Strings
  import opened BlockDevices
  import opened Naming
  import opened Generation
  import Mounting

  // ---------------------------------------------------------------- the API server

  type Objects = map<string, BlockDevice>

  /** `rev` numbers the committed writes; an object's version is the number of its last write. */
  datatype Store = Store(objs: Objects, rev: nat)

  /** Create, Update and Delete are API calls; Purge is the update that takes the last finalizer off an object that is
      being deleted, upon which the object disappears. */
  datatype Op = Create(bd: BlockDevice) | Update(bd: BlockDevice) | Delete(name: string) | Purge(bd: BlockDevice)

  function Put(s: Store, bd: BlockDevice): Store {
    Store(s.objs[bd.name := bd.(version := s.rev + 1)], s.rev + 1)
  }

  function Commit(s: Store, op: Op): Option<Store> {
    match op
    case Create(bd) =>
      if bd.name in s.objs then None else Some(Put(s, bd))
    case Update(bd) =>
      if bd.name in s.objs && s.objs[bd.name].version == bd.version then Some(Put(s, bd)) else None
    case Delete(name) =>
      if name !in s.objs then None
      else if s.objs[name].terminating then Some(s)
      else Some(Put(s, s.objs[name].(terminating := true)))
    case Purge(bd) =>
      if bd.name in s.objs && s.objs[bd.name].version == bd.version && s.objs[bd.name].terminating then
        Some(Store(s.objs - {bd.name}, s.rev + 1))
      else None
  }

  function OpName(op: Op): string { if op.Delete? then op.name else op.bd.name }

  // ---------------------------------------------------------------- the clients

  /** The `index`-th device generated from one disk reading. */
  datatype Origin = Origin(disk: Disk, node: string, ns: string, index: nat)

  predicate Exists(o: Origin) { o.index < |Generate(o.disk, o.node, o.ns)| }

  function Want(o: Origin): BlockDevice
    requires Exists(o)
  {
    Generate(o.disk, o.node, o.ns)[o.index]
  }

  /** `seen` is what the client had read; a save that had not seen the object creates it. */
  datatype Step =
    | ScanSave(origin: Origin, known: Option<BlockDevice>)
    | AddSave(origin: Origin, known: Option<BlockDevice>)
    | Reconcile(seen: BlockDevice, attempt: Mounting.Attempt, now: Time)
    | SetState(seen: BlockDevice, online: bool, mounted: bool, now: Time)
    | EditSpec(seen: BlockDevice, spec: Spec)
    | AddFinalizer(seen: BlockDevice)
    | DeleteCall(name: string)
    | Disappear(seen: BlockDevice)
  {
    predicate IsSave() { ScanSave? || AddSave? }
    predicate Creates() { IsSave() && known.None? }
  }

  /** An update from a save: the scan keeps the Spec, the add event overwrites it. */
  function Merge(existing: BlockDevice, want: BlockDevice, keepSpec: bool): BlockDevice {
    existing.(spec := if keepSpec then existing.spec else want.spec, deviceStatus := want.deviceStatus)
  }

  function WithState(seen: BlockDevice, online: bool, mounted: bool, now: Time): BlockDevice {
    seen.(state := if online then Active else Inactive,
          conditions := Mounting.SetStatusBool(seen.conditions, Mounting.MOUNTED, mounted, now))
  }

  function Request(step: Step): Op
    requires step.IsSave() ==> Exists(step.origin)
  {
    match step
    case ScanSave(o, known) => if known.None? then Create(Want(o)) else Update(Merge(known.value, Want(o), true))
    case AddSave(o, known) => if known.None? then Create(Want(o)) else Update(Merge(known.value, Want(o), false))
    case Reconcile(seen, attempt, now) => Update(Mounting.Reconcile(seen, attempt, now).device)
    case SetState(seen, online, mounted, now) => Update(WithState(seen, online, mounted, now))
    case EditSpec(seen, spec) => Update(seen.(spec := spec))
    case AddFinalizer(seen) => Update(seen)
    case DeleteCall(name) => Delete(name)
    case Disappear(seen) => Purge(seen)
  }

  // ---------------------------------------------------------------- runs

  /** `past` holds every object version ever stored: what a list or a cache may still show. */
  datatype World = World(store: Store, past: set<BlockDevice>)

  const EMPTY := World(Store(map[], 0), {})

  predicate Enabled(w: World, step: Step) {
    match step
    case ScanSave(o, known) => Exists(o) && (known.Some? ==> known.value in w.past && known.value.name == Want(o).name)
    case AddSave(o, known) => Exists(o) && (known.Some? ==> known.value in w.past && known.value.name == Want(o).name)
    case Reconcile(seen, attempt, now) => seen in w.past && Mounting.Reconcile(seen, attempt, now).writes
    case SetState(seen, _, _, _) => seen in w.past
    case EditSpec(seen, _) => seen in w.past
    case AddFinalizer(seen) => seen in w.past
    case DeleteCall(_) => true
    case Disappear(seen) => seen in w.past
  }

  lemma StillEnabled(w: World, later: World, step: Step)
    requires Enabled(w, step) && w.past <= later.past
    ensures Enabled(later, step)
  {
  }

  predicate Commits(w: World, step: Step) { Enabled(w, step) && Commit(w.store, Request(step)).Some? }

  /** The effect of one call: none if the server rejects it. */
  function Applied(w: World, op: Op): World {
    match Commit(w.store, op)
    case Some(store) => World(store, w.past + store.objs.Values)
    case None => w
  }

  function Next(w: World, step: Step): World {
    if Enabled(w, step) then Applied(w, Request(step)) else w
  }

  function Replay(log: seq<Step>): World {
    if log == [] then EMPTY else Next(Replay(log[..|log| - 1]), log[|log| - 1])
  }

  lemma ReplayOneMore(log: seq<Step>, step: Step)
    ensures Replay(log + [step]) == Next(Replay(log), step)
  {
    assert (log + [step])[..|log|] == log;
  }

  // ---------------------------------------------------------------- versions identify contents

  ghost predicate Inv(w: World) {
    && (forall n | n in w.store.objs :: w.store.objs[n].name == n && w.store.objs[n] in w.past)
    && (forall h | h in w.past :: 0 < h.version <= w.store.rev)
    && (forall h, n | h in w.past && n in w.store.objs && h.name == n && h.version == w.store.objs[n].version ::
          h == w.store.objs[n])
  }

  lemma NextKeepsInv(w: World, step: Step)
    requires Inv(w)
    ensures Inv(Next(w, step))
    ensures w.past <= Next(w, step).past
  {
    if Commits(w, step) {
      match Request(step)
      case Create(bd) => PutKeepsInv(w, bd);
      case Update(bd) => PutKeepsInv(w, bd);
      case Delete(name) =>
        if w.store.objs[name].terminating { SubmapKeepsInv(w, w.store); }
        else { PutKeepsInv(w, w.store.objs[name].(terminating := true)); }
      case Purge(bd) => SubmapKeepsInv(w, Store(w.store.objs - {bd.name}, w.store.rev + 1));
    }
  }

  lemma PutKeepsInv(w: World, bd: BlockDevice)
    requires Inv(w)
    ensures var s := Put(w.store, bd); Inv(World(s, w.past + s.objs.Values))
  {
    var s := Put(w.store, bd);
    forall v | v in s.objs.Values ensures v in w.past || v == s.objs[bd.name] {
      var n :| n in s.objs && s.objs[n] == v;
    }
  }

  lemma SubmapKeepsInv(w: World, s: Store)
    requires Inv(w) && w.store.rev <= s.rev
    requires forall n | n in s.objs :: n in w.store.objs && s.objs[n] == w.store.objs[n]
    ensures Inv(World(s, w.past + s.objs.Values))
  {
    forall v | v in s.objs.Values ensures v in w.past {
      var n :| n in s.objs && s.objs[n] == v;
    }
  }

  lemma {:induction false} ReachableInv(log: seq<Step>)
    ensures Inv(Replay(log))
  {
    if log != [] {
      ReachableInv(log[..|log| - 1]);
      NextKeepsInv(Replay(log[..|log| - 1]), log[|log| - 1]);
    }
  }

  // ---------------------------------------------------------------- field ownership

  /** `post` differs from `pre` only in the version and the fields that the step's writer owns. */
  predicate OnlyOwnFields(step: Step, pre: BlockDevice, post: BlockDevice) {
    match step
    case ScanSave(_, _) => post == pre.(version := post.version, deviceStatus := post.deviceStatus)
    case AddSave(_, _) => post == pre.(version := post.version, deviceStatus := post.deviceStatus, spec := post.spec)
    case Reconcile(_, _, _) =>
      post == pre.(version := post.version, conditions := post.conditions,
                   deviceStatus := pre.deviceStatus.(fileSystem := pre.deviceStatus.fileSystem.(
                     fsType := post.deviceStatus.fileSystem.fsType,
                     mountPoint := post.deviceStatus.fileSystem.mountPoint,
                     lastFormattedAt := post.deviceStatus.fileSystem.lastFormattedAt)))
    case SetState(_, _, _, _) =>
      post == pre.(version := post.version, state := post.state, conditions := post.conditions)
    case EditSpec(_, _) => post == pre.(version := post.version, spec := post.spec)
    case AddFinalizer(_) => post == pre.(version := post.version)
    case DeleteCall(_) => post == pre.(version := post.version, terminating := true)
    case Disappear(_) => post == pre
  }

  /** The one object a step writes, creates or removes. */
  function Target(step: Step): string
    requires step.IsSave() ==> Exists(step.origin)
  {
    match step
    case ScanSave(o, _) => Want(o).name
    case AddSave(o, _) => Want(o).name
    case Reconcile(seen, _, _) => seen.name
    case SetState(seen, _, _, _) => seen.name
    case EditSpec(seen, _) => seen.name
    case AddFinalizer(seen) => seen.name
    case DeleteCall(name) => name
    case Disappear(seen) => seen.name
  }

  /** No lost updates: however stale the client's read, what a committed write does to the object as it was just
      before is confined to the writer's own fields, and no other object changes. */
  lemma NoLostUpdate(log: seq<Step>, step: Step)
    requires Commits(Replay(log), step)
    ensures var pre, post := Replay(log).store.objs, Replay(log + [step]).store.objs;
            && (forall n | n != Target(step) :: (n in pre <==> n in post) && (n in pre ==> post[n] == pre[n]))
            && (Target(step) in pre && Target(step) in post ==>
                  OnlyOwnFields(step, pre[Target(step)], post[Target(step)]))
            && (step.Creates() <==> Target(step) !in pre && Target(step) in post)
            && (step.Disappear? <==> Target(step) in pre && Target(step) !in post)
  {
    ReplayOneMore(log, step);
    ReachableInv(log);
    StepIsConfined(Replay(log), step);
  }

  lemma StepIsConfined(w: World, step: Step)
    requires Inv(w) && Commits(w, step)
    ensures var pre, post := w.store.objs, Next(w, step).store.objs;
            && (forall n | n != Target(step) :: (n in pre <==> n in post) && (n in pre ==> post[n] == pre[n]))
            && (Target(step) in pre && Target(step) in post ==>
                  OnlyOwnFields(step, pre[Target(step)], post[Target(step)]))
            && (step.Creates() <==> Target(step) !in pre && Target(step) in post)
            && (step.Disappear? <==> Target(step) in pre && Target(step) !in post)
  {
    hide OnlyOwnFields;
    OnlyTargetChanges(w, step);
    var pre, post := w.store.objs, Next(w, step).store.objs;
    if Target(step) in pre && Target(step) in post { TargetChange(w, step); }
  }

  lemma OnlyTargetChanges(w: World, step: Step)
    requires Inv(w) && Commits(w, step)
    ensures var pre, post := w.store.objs, Next(w, step).store.objs;
            forall n | n != Target(step) :: (n in pre <==> n in post) && (n in pre ==> post[n] == pre[n])
  {
    TargetIsNamed(w, step);
    CommitTouchesOne(w.store, Request(step));
  }

  lemma TargetIsNamed(w: World, step: Step)
    requires Inv(w) && Commits(w, step)
    ensures OpName(Request(step)) == Target(step)
  {
  }

  lemma CommitTouchesOne(s: Store, op: Op)
    requires Commit(s, op).Some? && (op.Delete? && op.name in s.objs ==> s.objs[op.name].name == op.name)
    ensures var post := Commit(s, op).value.objs;
            forall n | n != OpName(op) :: (n in s.objs <==> n in post) && (n in s.objs ==> post[n] == s.objs[n])
  {
  }

  lemma TargetChange(w: World, step: Step)
    requires Inv(w) && Commits(w, step) && Target(step) in w.store.objs && Target(step) in Next(w, step).store.objs
    ensures OnlyOwnFields(step, w.store.objs[Target(step)], Next(w, step).store.objs[Target(step)])
  {
    if Request(step).Update? {
      hide OnlyOwnFields;
      ReadIsCurrent(w, step);
      UpdateIsConfined(step, w.store.objs[Target(step)]);
    }
  }

  /** What an updating client had read. */
  function SeenBy(step: Step): BlockDevice
    requires !step.Creates() && !step.DeleteCall? && !step.Disappear?
  {
    if step.IsSave() then step.known.value else step.seen
  }

  /** Compare-and-swap: if the update commits, the client had read the object as it still is. */
  lemma ReadIsCurrent(w: World, step: Step)
    requires Inv(w) && Commits(w, step) && Request(step).Update?
    ensures Target(step) in w.store.objs && w.store.objs[Target(step)] == SeenBy(step)
  {
    if step.Reconcile? { Mounting.ReconcileOwnsItsFields(step.seen, step.attempt, step.now); }
  }

  lemma UpdateIsConfined(step: Step, pre: BlockDevice)
    requires step.IsSave() ==> Exists(step.origin)
    requires Request(step).Update? && pre == SeenBy(step)
    ensures forall v :: OnlyOwnFields(step, pre, Request(step).bd.(version := v))
  {
    if step.Reconcile? { Mounting.ReconcileOwnsItsFields(step.seen, step.attempt, step.now); }
  }

  // ---------------------------------------------------------------- state is a function of history

  datatype Event = Created(name: string) | Turned(name: string, online: bool) | Gone(name: string)

  function EventsOf(w: World, step: Step): seq<Event> {
    if !Commits(w, step) then []
    else if step.Creates() then [Created(Target(step))]
    else if step.SetState? then [Turned(step.seen.name, step.online)]
    else if step.Disappear? then [Gone(step.seen.name)]
    else []
  }

  /** The creations, committed online/offline events and disappearances of a run. */
  function History(log: seq<Step>): seq<Event> {
    if log == [] then []
    else History(log[..|log| - 1]) + EventsOf(Replay(log[..|log| - 1]), log[|log| - 1])
  }

  /** The last online/offline event since the object was created decides; without one it is Active. */
  function LastState(events: seq<Event>, name: string): State {
    if events == [] then Active
    else
      var last := events[|events| - 1];
      if last.name != name then LastState(events[..|events| - 1], name)
      else if last.Turned? && !last.online then Inactive
      else Active
  }

  /** In every reachable store, whatever else happened in between. */
  lemma {:induction false} StateIsHistory(log: seq<Step>)
    ensures var objs := Replay(log).store.objs;
            forall n | n in objs :: objs[n].state == LastState(History(log), n) && objs[n].state != Unknown
  {
    if log != [] {
      var before, step := log[..|log| - 1], log[|log| - 1];
      StateIsHistory(before);
      ReachableInv(before);
      HistoryOneMore(log);
      if Commits(Replay(before), step) { StateAfterStep(Replay(before), step); }
    }
  }

  lemma HistoryOneMore(log: seq<Step>)
    requires log != []
    ensures var before, step := log[..|log| - 1], log[|log| - 1];
            forall n :: LastState(History(log), n) ==
              if Commits(Replay(before), step) && n == Target(step) &&
                  (step.Creates() || step.SetState? || step.Disappear?) then
                (if step.SetState? && !step.online then Inactive else Active)
              else LastState(History(before), n)
  {
    hide Enabled, Commit, Request;
    var before, step := log[..|log| - 1], log[|log| - 1];
    var events := EventsOf(Replay(before), step);
    if events == [] {
      assert History(log) == History(before);
    } else {
      assert History(log)[..|History(before)|] == History(before);
    }
  }

  lemma StateAfterStep(w: World, step: Step)
    requires Inv(w) && Commits(w, step)
    ensures var pre, post := w.store.objs, Next(w, step).store.objs;
            forall n | n in post ::
              && (n == Target(step) && step.Creates() ==> post[n].state == Active)
              && (n == Target(step) && step.SetState? ==> post[n].state == if step.online then Active else Inactive)
              && (n != Target(step) || !(step.Creates() || step.SetState?) ==>
                  n in pre && post[n].state == pre[n].state)
  {
    hide OnlyOwnFields, Inv;
    StepIsConfined(w, step);
    var pre, post, name := w.store.objs, Next(w, step).store.objs, Target(step);
    if step.Creates() {
      GeneratedAt(step.origin.disk, step.origin.node, step.origin.ns, step.origin.index);
    } else if !step.SetState? && name in pre && name in post {
      OwnFieldsKeepState(step, pre[name], post[name]);
    }
  }

  lemma OwnFieldsKeepState(step: Step, pre: BlockDevice, post: BlockDevice)
    requires OnlyOwnFields(step, pre, post) && !step.SetState?
    ensures post.state == pre.state
  {
  }

  // ---------------------------------------------------------------- the device tree

  /** Every object that is not being deleted and has a parent label has its parent in the store. */
  predicate Tree(objs: Objects) {
    forall n | n in objs && !objs[n].terminating && PARENT_DEVICE_LABEL in objs[n].labels ::
      objs[n].labels[PARENT_DEVICE_LABEL] in objs
  }

  /** What breaks the tree: creating a partition whose parent is not stored, or removing a parent with a live
      partition. */
  predicate Orphans(w: World, step: Step) {
    && Commits(w, step)
    && (step.Creates() ==>
          var want := Want(step.origin);
          PARENT_DEVICE_LABEL in want.labels && want.labels[PARENT_DEVICE_LABEL] !in w.store.objs
          && want.labels[PARENT_DEVICE_LABEL] != want.name)
    && (!step.Creates() ==> step.Disappear? && HasLiveChild(w.store.objs, step.seen.name))
  }

  predicate HasLiveChild(objs: Objects, parent: string) {
    exists n | n in objs :: Labelled(objs[n], PARENT_DEVICE_LABEL, parent) && !objs[n].terminating
  }

  lemma TreeWithNew(objs: Objects, bd: BlockDevice)
    requires Tree(objs) && bd.name !in objs && !bd.terminating
    ensures Tree(objs[bd.name := bd]) <==>
            (PARENT_DEVICE_LABEL in bd.labels ==>
               bd.labels[PARENT_DEVICE_LABEL] in objs || bd.labels[PARENT_DEVICE_LABEL] == bd.name)
  {
    var post := objs[bd.name := bd];
    assert post[bd.name] == bd;
    assert forall n | n in objs :: post[n] == objs[n];
  }

  lemma TreeWithout(objs: Objects, name: string)
    requires Tree(objs) && name in objs && objs[name].terminating
    ensures Tree(objs - {name}) <==> !HasLiveChild(objs, name)
  {
    var post := objs - {name};
    assert forall n | n in post :: post[n] == objs[n];
    if HasLiveChild(objs, name) {
      var n :| n in objs && Labelled(objs[n], PARENT_DEVICE_LABEL, name) && !objs[n].terminating;
      assert n in post;
    }
  }

  /** The same objects with the same labels; none that is being deleted is revived. */
  predicate SameFamily(pre: Objects, post: Objects) {
    && pre.Keys == post.Keys
    && forall n | n in pre :: post[n].labels == pre[n].labels && (pre[n].terminating ==> post[n].terminating)
  }

  lemma TreeRelabelled(pre: Objects, post: Objects)
    requires Tree(pre) && SameFamily(pre, post)
    ensures Tree(post)
  {
  }

  /** A step keeps the tree exactly when it is not one of the two. */
  lemma TreeKeptExactly(w: World, step: Step)
    requires Inv(w) && Tree(w.store.objs)
    ensures Tree(Next(w, step).store.objs) <==> !Orphans(w, step)
  {
    if Commits(w, step) {
      var pre, post := w.store.objs, Next(w, step).store.objs;
      if step.Creates() {
        GeneratedAt(step.origin.disk, step.origin.node, step.origin.ns, step.origin.index);
        TreeWithNew(pre, Want(step.origin).(version := w.store.rev + 1));
      } else if step.Disappear? {
        TreeWithout(pre, step.seen.name);
      } else {
        LabelsKept(w, step);
        TreeRelabelled(pre, post);
      }
    }
  }

  lemma LabelsKept(w: World, step: Step)
    requires Inv(w) && !(Commits(w, step) && (step.Creates() || step.Disappear?))
    ensures SameFamily(w.store.objs, Next(w, step).store.objs)
  {
    hide OnlyOwnFields, Request, Commit, Inv;
    if Commits(w, step) {
      StepIsConfined(w, step);
      var pre, post := w.store.objs, Next(w, step).store.objs;
      var name := Target(step);
      if name in pre { OwnFieldsKeepLabels(step, pre[name], post[name]); }
      forall n | n in pre
        ensures n in post && post[n].labels == pre[n].labels && (pre[n].terminating ==> post[n].terminating)
      {
        assert n != name ==> post[n] == pre[n];
      }
    }
  }

  /** No writer owns the labels, and nothing revives a terminating object. */
  lemma OwnFieldsKeepLabels(step: Step, pre: BlockDevice, post: BlockDevice)
    requires OnlyOwnFields(step, pre, post)
    ensures post.labels == pre.labels && (pre.terminating ==> post.terminating)
  {
  }

  /** The tree holds after every step of the run. */
  ghost predicate AlwaysTree(log: seq<Step>) {
    Tree(Replay(log).store.objs) && (log != [] ==> AlwaysTree(log[..|log| - 1]))
  }

  ghost predicate NeverOrphans(log: seq<Step>) {
    log != [] ==> !Orphans(Replay(log[..|log| - 1]), log[|log| - 1]) && NeverOrphans(log[..|log| - 1])
  }

  lemma {:induction false} TreeOverRuns(log: seq<Step>)
    ensures AlwaysTree(log) <==> NeverOrphans(log)
  {
    if log != [] {
      var before := log[..|log| - 1];
      TreeOverRuns(before);
      ReachableInv(before);
      if AlwaysTree(before) { TreeKeptExactly(Replay(before), log[|log| - 1]); }
    }
  }

  /** A disk with one partition. */
  const SAMPLE := Disk("sda", 0, 0, "HDD", false, "SCSI", "", "", "", FileSystemReading("", true, ""), 0,
                       "", "", "", "",
                       [Partition("sda1", "", 0, "", FileSystemReading("", true, ""))])

  /** If the parent vanishes between its own save and the save of its partition, the partition is orphaned. */
  lemma RemovalDuringSaveLoopOrphans()
    ensures var parent := Origin(SAMPLE, "n", "ns", 0);
            var child := Origin(SAMPLE, "n", "ns", 1);
            exists seen ::
              !Tree(Replay([ScanSave(parent, None), DeleteCall("sda-n"), Disappear(seen),
                            ScanSave(child, None)]).store.objs)
  {
    var parent := SampleParent();
    var child := SampleChild();
    var s1, s2 := ScanSave(parent, None), DeleteCall("sda-n");
    var w2 := Next(Next(EMPTY, s1), s2);
    CreatedThenMarked(s1, "sda-n");
    var s3, s4 := Disappear(w2.store.objs["sda-n"]), ScanSave(child, None);
    ReplayFour(s1, s2, s3, s4);
    assert Next(w2, s3).store.objs == map[];
    ChildWithoutParent(Next(w2, s3), s4);
  }

  /** If the partition is created after its parent's remove handler has listed the partitions, nothing deletes it
      before the parent vanishes. */
  lemma CreationDuringRemovalOrphans()
    ensures var parent := Origin(SAMPLE, "n", "ns", 0);
            var child := Origin(SAMPLE, "n", "ns", 1);
            exists seen ::
              !Tree(Replay([ScanSave(parent, None), DeleteCall("sda-n"), ScanSave(child, None),
                            Disappear(seen)]).store.objs)
  {
    var parent := SampleParent();
    var child := SampleChild();
    var s1, s2, s3 := ScanSave(parent, None), DeleteCall("sda-n"), ScanSave(child, None);
    var w2 := Next(Next(EMPTY, s1), s2);
    CreatedThenMarked(s1, "sda-n");
    var s4 := Disappear(w2.store.objs["sda-n"]);
    ReplayFour(s1, s2, s3, s4);
    ChildAfterMark(w2, s3, "sda-n");
  }

  lemma SampleParent() returns (o: Origin)
    ensures o == Origin(SAMPLE, "n", "ns", 0) && Exists(o) && Want(o).name == "sda-n"
  {
    o := Origin(SAMPLE, "n", "ns", 0);
    GeneratedAt(SAMPLE, "n", "ns", 0);
  }

  lemma SampleChild() returns (o: Origin)
    ensures o == Origin(SAMPLE, "n", "ns", 1) && Exists(o) && Want(o).name == "sda1-n" && !Want(o).terminating
    ensures Labelled(Want(o), PARENT_DEVICE_LABEL, "sda-n")
  {
    o := Origin(SAMPLE, "n", "ns", 1);
    GeneratedAt(SAMPLE, "n", "ns", 1);
    assert Want(o).name == "sda1-n";
  }

  lemma CreatedThenMarked(create: Step, name: string)
    requires create.Creates() && Exists(create.origin) && Want(create.origin).name == name
    ensures var w := Next(Next(EMPTY, create), DeleteCall(name));
            && w.store.objs.Keys == {name} && w.store.objs[name].terminating && w.store.objs[name].name == name
            && w.store.objs[name] in w.past
  {
    var w1 := Next(EMPTY, create);
    assert w1.store.objs.Keys == {name};
  }

  lemma ChildAfterMark(w: World, create: Step, parent: string)
    requires w.store.objs.Keys == {parent} && w.store.objs[parent] in w.past && w.store.objs[parent].terminating
    requires w.store.objs[parent].name == parent
    requires create.Creates() && Exists(create.origin) && Want(create.origin).name != parent
    requires Labelled(Want(create.origin), PARENT_DEVICE_LABEL, parent) && !Want(create.origin).terminating
    ensures !Tree(Next(Next(w, create), Disappear(w.store.objs[parent])).store.objs)
  {
    var child := Want(create.origin);
    var w3 := Next(w, create);
    assert w3.store.objs == w.store.objs[child.name := child.(version := w.store.rev + 1)];
    var objs := Next(w3, Disappear(w.store.objs[parent])).store.objs;
    assert objs == w3.store.objs - {parent};
    assert child.name in objs && objs[child.name].labels == child.labels;
  }

  lemma ChildWithoutParent(w: World, step: Step)
    requires w.store.objs == map[] && step.Creates() && Exists(step.origin) && !Want(step.origin).terminating
    requires exists parent ::
               parent != Want(step.origin).name && Labelled(Want(step.origin), PARENT_DEVICE_LABEL, parent)
    ensures !Tree(Next(w, step).store.objs)
  {
    var want := Want(step.origin);
    var objs := Next(w, step).store.objs;
    assert objs.Keys == {want.name} && objs[want.name].labels == want.labels;
  }

  lemma ReplayFour(s1: Step, s2: Step, s3: Step, s4: Step)
    ensures Replay([s1, s2, s3, s4]) == Next(Next(Next(Next(EMPTY, s1), s2), s3), s4)
  {
    ReplayOneMore([], s1);
    ReplayOneMore([s1], s2);
    ReplayOneMore([s1, s2], s3);
    ReplayOneMore([s1, s2, s3], s4);
    assert [] + [s1] == [s1] && [s1] + [s2] == [s1, s2];
    assert [s1, s2] + [s3] == [s1, s2, s3] && [s1, s2, s3] + [s4] == [s1, s2, s3, s4];
  }

  // ---------------------------------------------------------------- what the saves bring in

  /** The disk readings behind the saves of a run satisfy `ok`. */
  ghost predicate SavesFrom(log: seq<Step>, origins: iset<Origin>) {
    forall i | 0 <= i < |log| && log[i].IsSave() :: log[i].origin in origins
  }

  /** Readings of disks whose bus path does not have "longhorn" at any position. */
  ghost function NotLonghorn(): iset<Origin> { iset o: Origin | !Occurs(o.disk.busPath, "longhorn") }

  ghost predicate FromLonghorn(bd: BlockDevice) { Occurs(bd.deviceStatus.details.busPath, "longhorn") }

  lemma {:induction false} NoLonghornDeviceRecorded(log: seq<Step>)
    requires SavesFrom(log, NotLonghorn())
    ensures var objs := Replay(log).store.objs;
            forall n | n in objs :: !FromLonghorn(objs[n])
  {
    if log != [] {
      var before, step := log[..|log| - 1], log[|log| - 1];
      NoLonghornDeviceRecorded(before);
      assert forall n | n in Replay(before).store.objs :: !FromLonghorn(Replay(before).store.objs[n]);
      ReachableInv(before);
      assert step.IsSave() ==> step.origin in NotLonghorn();
      StepRecordsNoLonghorn(Replay(before), step);
    }
  }

  lemma StepRecordsNoLonghorn(w: World, step: Step)
    requires Inv(w) && (step.IsSave() ==> step.origin in NotLonghorn())
    requires forall n | n in w.store.objs :: !FromLonghorn(w.store.objs[n])
    ensures forall n | n in Next(w, step).store.objs :: !FromLonghorn(Next(w, step).store.objs[n])
  {
    hide OnlyOwnFields, FromLonghorn, Inv;
    if Commits(w, step) {
      StepIsConfined(w, step);
      var pre, post, name := w.store.objs, Next(w, step).store.objs, Target(step);
      if step.IsSave() {
        SaveReplacesStatus(w, step);
        GeneratedAt(step.origin.disk, step.origin.node, step.origin.ns, step.origin.index);
        SameBusPath(post[name], step.origin.disk.busPath);
      } else if name in pre && name in post {
        OwnFieldsKeepDetails(step, pre[name], post[name]);
        SameBusPath(post[name], pre[name].deviceStatus.details.busPath);
        SameBusPath(pre[name], pre[name].deviceStatus.details.busPath);
      }
    }
  }

  lemma SaveReplacesStatus(w: World, step: Step)
    requires step.IsSave() && Commits(w, step)
    ensures Target(step) in Next(w, step).store.objs
    ensures Next(w, step).store.objs[Target(step)].deviceStatus == Want(step.origin).deviceStatus
  {
  }

  lemma SameBusPath(bd: BlockDevice, busPath: string)
    requires bd.deviceStatus.details.busPath == busPath
    ensures FromLonghorn(bd) <==> Occurs(busPath, "longhorn")
  {
  }

  /** Only saves write a device's details. */
  lemma OwnFieldsKeepDetails(step: Step, pre: BlockDevice, post: BlockDevice)
    requires OnlyOwnFields(step, pre, post) && !step.IsSave()
    ensures post.deviceStatus.details == pre.deviceStatus.details
  {
  }

  /** Any committed save clears the format stamp. */
  lemma SaveClearsFormatStamp(log: seq<Step>, step: Step)
    requires step.IsSave() && Commits(Replay(log), step)
    ensures var objs := Replay(log + [step]).store.objs;
            Target(step) in objs && objs[Target(step)].deviceStatus.fileSystem.lastFormattedAt == None
  {
    ReplayOneMore(log, step);
    SaveReplacesStatus(Replay(log), step);
    GeneratedAt(step.origin.disk, step.origin.node, step.origin.ns, step.origin.index);
  }

  /** What a committed save writes: the status of its reading; on an add event, and on creation, the Spec of its reading
      too, whereas the scan keeps the Spec that is stored. */
  lemma SaveRecordsReading(log: seq<Step>, step: Step)
    requires step.IsSave() && Commits(Replay(log), step)
    ensures step.origin.index <= |step.origin.disk.partitions|
    ensures var pre, post, o := Replay(log).store.objs, Replay(log + [step]).store.objs, step.origin;
            var name := DeviceName(o.disk, o.index) + "-" + o.node;
            && Target(step) == name && name in post && StatusRead(post[name].deviceStatus, o.disk, o.index)
            && (if name in pre && step.ScanSave? then post[name].spec == pre[name].spec
                else SpecRead(post[name].spec, o.disk, o.index, o.node))
  {
    ReplayOneMore(log, step);
    ReachableInv(log);
    GeneratedReads(step.origin.disk, step.origin.node, step.origin.ns, step.origin.index);
    if !step.Creates() { ReadIsCurrent(Replay(log), step); }
  }

  /** A save records a device of Longhorn's exactly when the saved reading is of one. */
  lemma SaveRecordsLonghornExactly(log: seq<Step>, step: Step)
    requires step.IsSave() && Commits(Replay(log), step)
    ensures var objs := Replay(log + [step]).store.objs;
            Target(step) in objs && (FromLonghorn(objs[Target(step)]) <==> step.origin !in NotLonghorn())
  {
    ReplayOneMore(log, step);
    SaveReplacesStatus(Replay(log), step);
    GeneratedAt(step.origin.disk, step.origin.node, step.origin.ns, step.origin.index);
  }
}
