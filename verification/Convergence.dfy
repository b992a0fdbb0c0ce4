/** Where a save loop is heading, and why refused calls, lost answers and other writers do not change that. */
module Convergence {
  import opened Strings
  import opened BlockDevices
  import opened Generation
  import opened Machine
  import opened Lifecycle
  import opened Interleaving
  import opened Server
  import opened Order

  /** The store after every device of `bds` has been saved once: created, or merged into the object that exists. */
  function Overlay(objs: Objects, bds: seq<BlockDevice>, keepSpec: bool): Objects {
    var added := set i | 0 <= i < |bds| :: bds[i].name;
    map n | n in objs.Keys + added ::
      if n !in objs then Find(bds, n).GetOr(bds[0])
      else match Find(bds, n)
        case Some(want) => Merge(objs[n], want, keepSpec)
        case None => objs[n]
  }

  /** What of two stores is compared: the objects with these names; unless `strict`, without the fields of the
      online/offline handler. Versions are never compared. */
  datatype View = View(strict: bool, names: iset<string>)

  function Erase(strict: bool, bd: BlockDevice): BlockDevice {
    if strict then bd.(version := 0) else bd.(version := 0, state := Active, conditions := [])
  }

  predicate SameAt(strict: bool, a: Objects, b: Objects, n: string) {
    (n in a <==> n in b) && (n in a ==> Erase(strict, a[n]) == Erase(strict, b[n]))
  }

  ghost predicate Agree(view: View, a: Objects, b: Objects) {
    forall n | n in view.names :: SameAt(view.strict, a, b, n)
  }

  /** Steps that leave alone what is compared: those that write other objects, finalizers, and unless `strict` the
      online/offline handler. */
  ghost predicate Calm(view: View, step: Step) {
    || step.AddFinalizer? || (!view.strict && step.SetState?)
    || (step.IsSave() && !Exists(step.origin)) || Target(step) !in view.names
  }

  ghost predicate StepsCalm(view: View, steps: seq<Step>) { forall i | 0 <= i < |steps| :: Calm(view, steps[i]) }

  ghost predicate AllCalm(view: View, fates: seq<Fate>) {
    forall i | 0 <= i < |fates| && fates[i].Interleaved? :: StepsCalm(view, fates[i].others)
  }

  /** The view takes in all devices that are saved. */
  ghost predicate Covers(view: View, bds: seq<BlockDevice>) { forall i | 0 <= i < |bds| :: bds[i].name in view.names }

  /** The other clients leave the view, and with it the saved devices, alone. */
  ghost predicate Spared(view: View, bds: seq<BlockDevice>, fates: seq<Fate>) {
    Covers(view, bds) && AllCalm(view, fates)
  }

  /** The object is there and saving `want` again would change nothing but its version. */
  predicate Saved(objs: Objects, want: BlockDevice, keepSpec: bool) {
    want.name in objs && Merge(objs[want.name], want, keepSpec) == objs[want.name]
  }

  predicate AllSaved(objs: Objects, bds: seq<BlockDevice>, upTo: nat, keepSpec: bool)
    requires upTo <= |bds|
  {
    forall j | 0 <= j < upTo :: Saved(objs, bds[j], keepSpec)
  }

  lemma OverlayAt(objs: Objects, bds: seq<BlockDevice>, keepSpec: bool, n: string)
    ensures n in Overlay(objs, bds, keepSpec) <==> n in objs || Find(bds, n).Some?
    ensures n in objs && Find(bds, n).None? ==> Overlay(objs, bds, keepSpec)[n] == objs[n]
    ensures n in objs && Find(bds, n).Some? ==>
              Overlay(objs, bds, keepSpec)[n] == Merge(objs[n], Find(bds, n).value, keepSpec)
    ensures n !in objs && Find(bds, n).Some? ==> Overlay(objs, bds, keepSpec)[n] == Find(bds, n).value
  {
    if Find(bds, n).Some? {
      var i :| 0 <= i < |bds| && bds[i].name == n;
      assert n in Overlay(objs, bds, keepSpec);
    }
  }

  /** The destination of a saved device, field by field. */
  lemma OverlayFields(objs: Objects, bds: seq<BlockDevice>, keepSpec: bool, i: nat)
    requires DistinctNames(bds) && i < |bds|
    ensures var n := bds[i].name;
            && n in Overlay(objs, bds, keepSpec)
            && var bd := Overlay(objs, bds, keepSpec)[n];
               && bd.deviceStatus == bds[i].deviceStatus
               && bd.spec == (if keepSpec && n in objs then objs[n].spec else bds[i].spec)
               && var rest := if n in objs then objs[n] else bds[i];
                  && bd.name == rest.name && bd.namespace == rest.namespace && bd.labels == rest.labels
                  && bd.terminating == rest.terminating && bd.state == rest.state && bd.conditions == rest.conditions
  {
    OverlayAt(objs, bds, keepSpec, bds[i].name);
    FindAt(bds, i);
  }

  /** Once everything is saved, the store is where it was heading. */
  lemma AllSavedIsOverlay(objs: Objects, bds: seq<BlockDevice>, keepSpec: bool)
    requires AllSaved(objs, bds, |bds|, keepSpec)
    ensures Overlay(objs, bds, keepSpec) == objs
  {
    forall n ensures n in Overlay(objs, bds, keepSpec) <==> n in objs {
      OverlayAt(objs, bds, keepSpec, n);
      if Find(bds, n).Some? { assert Find(bds, n).value in bds; }
    }
    forall n | n in objs ensures Overlay(objs, bds, keepSpec)[n] == objs[n] {
      OverlayAt(objs, bds, keepSpec, n);
      if Find(bds, n).Some? {
        var i :| 0 <= i < |bds| && bds[i] == Find(bds, n).value;
        assert Saved(objs, bds[i], keepSpec);
      }
    }
  }

  lemma AgreeTransitive(view: View, a: Objects, b: Objects, c: Objects)
    requires Agree(view, a, b) && Agree(view, b, c)
    ensures Agree(view, a, c)
  {
    forall n | n in view.names ensures SameAt(view.strict, a, c, n) {
      assert SameAt(view.strict, a, b, n) && SameAt(view.strict, b, c, n);
    }
  }

  /** A change that is not compared leaves the destination alone. */
  lemma IgnoredChange(view: View, pre: Objects, post: Objects, bds: seq<BlockDevice>, keepSpec: bool)
    requires Agree(view, post, pre)
    ensures Agree(view, Overlay(post, bds, keepSpec), Overlay(pre, bds, keepSpec))
    ensures forall want: BlockDevice | want.name in view.names && Saved(pre, want, keepSpec) ::
        Saved(post, want, keepSpec)
  {
    forall n | n in view.names
      ensures SameAt(view.strict, Overlay(post, bds, keepSpec), Overlay(pre, bds, keepSpec), n)
    {
      OverlayAt(pre, bds, keepSpec, n);
      OverlayAt(post, bds, keepSpec, n);
      assert SameAt(view.strict, post, pre, n);
    }
    forall want: BlockDevice | want.name in view.names && Saved(pre, want, keepSpec)
      ensures Saved(post, want, keepSpec)
    {
      assert SameAt(view.strict, post, pre, want.name);
    }
  }

  lemma CalmStep(view: View, w: World, step: Step)
    requires Inv(w) && Calm(view, step)
    ensures Agree(view, Next(w, step).store.objs, w.store.objs)
  {
    hide Request, Commit, Inv;
    if Commits(w, step) { StepIsConfined(w, step); }
  }

  lemma {:induction false} CalmSteps(view: View, w: World, steps: seq<Step>)
    requires Inv(w) && StepsCalm(view, steps)
    ensures Agree(view, Steps(w, steps).store.objs, w.store.objs)
  {
    if steps != [] {
      var before := steps[..|steps| - 1];
      CalmSteps(view, w, before);
      StepsKeepInv(w, before);
      CalmStep(view, Steps(w, before), steps[|steps| - 1]);
      AgreeTransitive(view, Steps(w, steps).store.objs, Steps(w, before).store.objs, w.store.objs);
    }
  }

  /** The effect of a committed save of `want`. */
  predicate PutsSaved(pre: Objects, post: Objects, want: BlockDevice, keepSpec: bool) {
    var n := want.name;
    && n in post && post.Keys == pre.Keys + {n} && (forall m | m in pre && m != n :: post[m] == pre[m])
    && post[n] == (if n in pre then Merge(pre[n], want, keepSpec) else want).(version := post[n].version)
  }

  lemma SaveHeadsAt(strict: bool, pre: Objects, post: Objects, bds: seq<BlockDevice>, i: nat, keepSpec: bool, n: string)
    requires DistinctNames(bds) && i < |bds| && PutsSaved(pre, post, bds[i], keepSpec)
    ensures SameAt(strict, Overlay(post, bds, keepSpec), Overlay(pre, bds, keepSpec), n)
  {
    OverlayAt(pre, bds, keepSpec, n);
    OverlayAt(post, bds, keepSpec, n);
    FindAt(bds, i);
  }

  /** Committing a save of one of the devices: the destination stays, and that device is now saved. */
  lemma SaveHeads(view: View, pre: Objects, post: Objects, bds: seq<BlockDevice>, i: nat, keepSpec: bool)
    requires DistinctNames(bds) && i < |bds| && PutsSaved(pre, post, bds[i], keepSpec)
    ensures Agree(view, Overlay(post, bds, keepSpec), Overlay(pre, bds, keepSpec))
    ensures Saved(post, bds[i], keepSpec)
    ensures forall j | 0 <= j < |bds| && Saved(pre, bds[j], keepSpec) :: Saved(post, bds[j], keepSpec)
  {
    forall n | n in view.names
      ensures SameAt(view.strict, Overlay(post, bds, keepSpec), Overlay(pre, bds, keepSpec), n)
    {
      SaveHeadsAt(view.strict, pre, post, bds, i, keepSpec, n);
    }
  }

  /** The same for the machine step behind the save, whether or not it commits. */
  lemma SaveStep(view: View, w: World, step: Step, bds: seq<BlockDevice>, i: nat)
    requires Inv(w) && step.IsSave() && Enabled(w, step)
    requires DistinctNames(bds) && i < |bds| && Want(step.origin) == bds[i]
    ensures var keepSpec, pre, post := step.ScanSave?, w.store.objs, Next(w, step).store.objs;
            && Agree(view, Overlay(post, bds, keepSpec), Overlay(pre, bds, keepSpec))
            && (Commits(w, step) ==> Saved(post, bds[i], keepSpec))
            && (forall j | 0 <= j < |bds| && Saved(pre, bds[j], keepSpec) :: Saved(post, bds[j], keepSpec))
  {
    hide Overlay;
    if Commits(w, step) {
      if step.known.Some? { ReadIsCurrent(w, step); }
      SaveHeads(view, w.store.objs, Next(w, step).store.objs, bds, i, step.ScanSave?);
    }
  }

  lemma RestOfFates(fates: seq<Fate>)
    ensures forall view | AllCalm(view, fates) :: AllCalm(view, Rest(fates)) && StepsCalm(view, Others(First(fates)))
    ensures Troubles(fates) == Troubles(Rest(fates)) + if First(fates).Smooth? then 0 else 1
  {
  }

  lemma SmoothCall(m: Moment, m': Moment, cause: Step, reply: Reply)
    requires Made(m, m', cause, reply) && First(m.fates).Smooth?
    ensures m'.world == Next(m.world, cause) && m'.fates == Rest(m.fates) && m'.log == m.log + [cause]
    ensures Enabled(m.world, cause) && Inv(m.world) && reply == Answer(m.world.store, Request(cause), Smooth)
  {
    var met: Moment :| Waited(m, met) && Arrived(met, m', First(m.fates), cause, reply);
    assert met.log == m.log;
  }

  /** No other client's calls arrive. */
  predicate Alone(fates: seq<Fate>) { forall i | 0 <= i < |fates| :: !fates[i].Interleaved? }

  /** No other client's call has arrived between the two moments. */
  predicate Quietly(m: Moment, m': Moment) { Alone(m.fates) || Troubles(m'.fates) == Troubles(m.fates) }

  /** A call that no other client's call preceded either has its effect or none. */
  lemma QuietCall(m: Moment, m': Moment, cause: Step, reply: Reply)
    requires Made(m, m', cause, reply) && !First(m.fates).Interleaved?
    ensures m'.world == m.world || m'.world == Next(m.world, cause)
    ensures Inv(m.world) && Enabled(m.world, cause)
    ensures First(m.fates).Smooth? ==>
              m'.world == Next(m.world, cause) && reply == Answer(m.world.store, Request(cause), Smooth)
  {
    var met: Moment :| Waited(m, met) && Arrived(met, m', First(m.fates), cause, reply);
  }

  lemma TroublesAfterCall(m: Moment, m': Moment, cause: Step, reply: Reply)
    requires Made(m, m', cause, reply)
    ensures m'.fates == Rest(m.fates)
    ensures Troubles(m'.fates) == Troubles(m.fates) - (if First(m.fates).Smooth? then 0 else 1)
    ensures m.world.past <= m'.world.past
  {
  }

  // ---------------------------------------------------------------- one save call of a loop

  /** The list still shows the current objects of the devices that are yet to be saved. */
  ghost predicate UpToDate(list: seq<BlockDevice>, objs: Objects, bds: seq<BlockDevice>, i: nat)
    requires i <= |bds|
  {
    forall j | i <= j < |bds| :: Find(list, bds[j].name) ==
        if bds[j].name in objs then Some(objs[bds[j].name]) else None
  }

  /** With an up-to-date list and a smooth call, the save commits and the list stays up to date for the rest. */
  lemma SmoothSave(w: World, step: Step, list: seq<BlockDevice>, bds: seq<BlockDevice>, i: nat)
    requires Inv(w) && step.IsSave() && Enabled(w, step)
    requires DistinctNames(bds) && i < |bds| && Want(step.origin) == bds[i]
    requires step.known == Find(list, bds[i].name) && UpToDate(list, w.store.objs, bds, i)
    ensures Commits(w, step)
    ensures UpToDate(list, Next(w, step).store.objs, bds, i + 1)
  {
    StepIsConfined(w, step);
  }

  /** Progress of a save loop: the first `upTo` devices are saved and the destination has not moved. */
  ghost predicate Toward(view: View, start: Objects, objs: Objects, bds: seq<BlockDevice>, upTo: nat, keepSpec: bool)
    requires upTo <= |bds|
  {
    && Agree(view, Overlay(objs, bds, keepSpec), Overlay(start, bds, keepSpec))
    && AllSaved(objs, bds, upTo, keepSpec)
  }

  lemma CalmStepsToward(
    view: View, start: Objects, w: World, steps: seq<Step>, bds: seq<BlockDevice>, upTo: nat, keepSpec: bool)
    requires Inv(w) && StepsCalm(view, steps) && Covers(view, bds) && upTo <= |bds|
    requires Toward(view, start, w.store.objs, bds, upTo, keepSpec)
    ensures Toward(view, start, Steps(w, steps).store.objs, bds, upTo, keepSpec)
  {
    hide Overlay, Agree;
    CalmSteps(view, w, steps);
    var objs := Steps(w, steps).store.objs;
    IgnoredChange(view, w.store.objs, objs, bds, keepSpec);
    AgreeTransitive(
      view, Overlay(objs, bds, keepSpec), Overlay(w.store.objs, bds, keepSpec), Overlay(start, bds, keepSpec));
  }

  lemma SaveToward(view: View, start: Objects, w: World, step: Step, bds: seq<BlockDevice>, i: nat)
    requires Inv(w) && step.IsSave() && Enabled(w, step)
    requires DistinctNames(bds) && i < |bds| && Want(step.origin) == bds[i]
    requires Toward(view, start, w.store.objs, bds, i, step.ScanSave?)
    ensures Toward(view, start, Next(w, step).store.objs, bds, if Commits(w, step) then i + 1 else i, step.ScanSave?)
  {
    hide Overlay, Agree;
    SaveStep(view, w, step, bds, i);
    var objs, keepSpec := Next(w, step).store.objs, step.ScanSave?;
    AgreeTransitive(
      view, Overlay(objs, bds, keepSpec), Overlay(w.store.objs, bds, keepSpec), Overlay(start, bds, keepSpec));
  }

  lemma TowardFinished(view: View, start: Objects, objs: Objects, bds: seq<BlockDevice>, keepSpec: bool)
    requires Toward(view, start, objs, bds, |bds|, keepSpec)
    ensures Agree(view, objs, Overlay(start, bds, keepSpec))
  {
    AllSavedIsOverlay(objs, bds, keepSpec);
  }

  // ---------------------------------------------------------------- a save loop among other clients

  /** What holds in a save loop after `upTo` devices, whatever fates its calls have met since it began at `m0`. */
  ghost predicate SaveLoop(m0: Moment, m: Moment, bds: seq<BlockDevice>, upTo: nat, keepSpec: bool) {
    && upTo <= |bds| && m.world == Replay(m.log)
    && (forall view | Spared(view, bds, m0.fates) :: LoopCalm(view, m0, m, bds, upTo, keepSpec))
    && SaveOrder(m0, m, bds, upTo)
  }

  ghost predicate LoopCalm(view: View, m0: Moment, m: Moment, bds: seq<BlockDevice>, upTo: nat, keepSpec: bool)
    requires upTo <= |bds|
  {
    AllCalm(view, m.fates) && Toward(view, m0.world.store.objs, m.world.store.objs, bds, upTo, keepSpec)
  }

  /** The loop has been orderly and is ready to go on. */
  ghost predicate SaveOrder(m0: Moment, m: Moment, bds: seq<BlockDevice>, upTo: nat)
    requires upTo <= |bds|
  {
    Orderly(m0, m) && SavedSoFar(m0, m, bds, upTo)
  }

  /** The client's own saves of the first `upTo` devices have taken effect, whatever has become of the devices. */
  ghost predicate SavedSoFar(m0: Moment, m: Moment, bds: seq<BlockDevice>, upTo: nat)
    requires upTo <= |bds|
  {
    forall t | 0 <= t < upTo :: SavedSince(m.log, m.mine, |m0.log|, |m.log|, bds[t].name)
  }

  lemma SaveLoopStarts(m: Moment, bds: seq<BlockDevice>, keepSpec: bool)
    requires m.world == Replay(m.log) && forall i | i in m.mine :: i < |m.log|
    ensures SaveLoop(m, m, bds, 0, keepSpec)
  {
    OrderlySelf(m);
    forall view | Spared(view, bds, m.fates) ensures LoopCalm(view, m, m, bds, 0, keepSpec) {
    }
  }

  lemma SavedSoFarWaits(m0: Moment, m: Moment, m': Moment, bds: seq<BlockDevice>, upTo: nat)
    requires upTo <= |bds| && SavedSoFar(m0, m, bds, upTo) && Waited(m, m')
    ensures SavedSoFar(m0, m', bds, upTo)
  {
    hide SavedSince;
    forall t | 0 <= t < upTo ensures SavedSince(m'.log, m'.mine, |m0.log|, |m'.log|, bds[t].name) {
      SavedMoves(m.log, m.mine, m'.log, m'.mine, |m.log|, |m'.log|, |m0.log|, bds[t].name);
    }
  }

  lemma SaveOrderWaits(m0: Moment, m: Moment, m': Moment, bds: seq<BlockDevice>, upTo: nat)
    requires upTo <= |bds| && SaveOrder(m0, m, bds, upTo) && Waited(m, m')
    ensures SaveOrder(m0, m', bds, upTo)
  {
    OrderlyWait(m, m');
    OrderlyChain(m0, m, m');
    SavedSoFarWaits(m0, m, m', bds, upTo);
  }

  lemma SaveLoopWaits(m0: Moment, m: Moment, m': Moment, bds: seq<BlockDevice>, upTo: nat, keepSpec: bool)
    requires SaveLoop(m0, m, bds, upTo, keepSpec) && Waited(m, m')
    ensures SaveLoop(m0, m', bds, upTo, keepSpec)
  {
    hide Toward, SaveOrder, AllCalm;
    var others := Others(First(m.fates));
    RestOfFates(m.fates);
    ReplaySteps(m.log, others);
    forall view | Spared(view, bds, m0.fates) ensures LoopCalm(view, m0, m', bds, upTo, keepSpec) {
      assert LoopCalm(view, m0, m, bds, upTo, keepSpec);
      CalmStepsToward(view, m0.world.store.objs, m.world, others, bds, upTo, keepSpec);
    }
    SaveOrderWaits(m0, m, m', bds, upTo);
  }

  /** The save that arrives at the end of the log counts from now on. */
  lemma SavedSoFarGrows(m0: Moment, met: Moment, m': Moment, bds: seq<BlockDevice>, i: nat, step: Step)
    requires i < |bds| && SavedSoFar(m0, met, bds, i) && step.IsSave() && Enabled(met.world, step)
    requires Want(step.origin) == bds[i] && met.world == Replay(met.log) && |m0.log| <= |met.log|
    requires m'.log == met.log + [step] && m'.mine == met.mine + {|met.log|}
    ensures SavedSoFar(m0, m', bds, if Commits(met.world, step) then i + 1 else i)
  {
    hide SavedSince;
    var n := |met.log|;
    assert m'.log[..n] == met.log && SameUpTo(met.log, met.mine, m'.log, m'.mine, n);
    forall t | 0 <= t < i ensures SavedSince(m'.log, m'.mine, |m0.log|, |m'.log|, bds[t].name) {
      SavedMoves(met.log, met.mine, m'.log, m'.mine, n, n + 1, |m0.log|, bds[t].name);
    }
    if Commits(met.world, step) { SavedJustNow(m'.log, m'.mine, |m0.log|, bds[i].name); }
  }

  lemma SavedJustNow(log: seq<Step>, mine: set<nat>, base: nat, name: string)
    requires base < |log| && |log| - 1 in mine && SavesAt(log, |log| - 1, name)
    ensures SavedSince(log, mine, base, |log|, name)
  {
    assert SavedAt(log, mine, |log| - 1, |log|, name);
  }

  lemma CalmSaveArrives(
    view: View, m0: Moment, met: Moment, m': Moment, bds: seq<BlockDevice>, i: nat, step: Step)
    requires i < |bds| && LoopCalm(view, m0, met, bds, i, step.ScanSave?) && Inv(met.world)
    requires step.IsSave() && Enabled(met.world, step) && Want(step.origin) == bds[i]
    requires m'.world == Next(met.world, step) && m'.fates == met.fates && DistinctNames(bds)
    ensures LoopCalm(view, m0, m', bds, if Commits(met.world, step) then i + 1 else i, step.ScanSave?)
  {
    SaveToward(view, m0.world.store.objs, met.world, step, bds, i);
  }

  lemma SaveLoopArrives(
    m0: Moment, met: Moment, m': Moment, fate: Fate, bds: seq<BlockDevice>, i: nat, step: Step, reply: Reply)
    requires SaveLoop(m0, met, bds, i, step.ScanSave?) && Inv(met.world)
    requires Arrived(met, m', fate, step, reply) && !fate.Refused?
    requires step.IsSave() && i < |bds| && Want(step.origin) == bds[i] && DistinctNames(bds)
    requires SaveOrder(m0, m', bds, if reply.Done? then i + 1 else i)
    ensures SaveLoop(m0, m', bds, if reply.Done? then i + 1 else i, step.ScanSave?)
  {
    hide Toward, SaveOrder, Inv, Spared, AllCalm;
    var upTo := if reply.Done? then i + 1 else i;
    ReplayOneMore(met.log, step);
    assert reply.Done? ==> Commits(met.world, step);
    forall view | Spared(view, bds, m0.fates) ensures LoopCalm(view, m0, m', bds, upTo, step.ScanSave?) {
      CalmSaveArrives(view, m0, met, m', bds, i, step);
      SavedFewer(view, m0, m', bds, upTo, if Commits(met.world, step) then i + 1 else i, step.ScanSave?);
    }
  }

  lemma OrderlyGrows(m: Moment, m': Moment)
    requires Orderly(m, m')
    ensures |m.log| <= |m'.log|
  {
  }

  lemma SavedFewer(view: View, m0: Moment, m: Moment, bds: seq<BlockDevice>, upTo: nat, upTo': nat, keepSpec: bool)
    requires upTo <= upTo' <= |bds| && LoopCalm(view, m0, m, bds, upTo', keepSpec)
    ensures LoopCalm(view, m0, m, bds, upTo, keepSpec)
  {
  }

  /** A loop that saves each disk before its partitions may make its next call. */
  lemma SaveIsReady(m0: Moment, m: Moment, bds: seq<BlockDevice>, i: nat, step: Step)
    requires i < |bds| && ParentsFirst(bds) && SavedSoFar(m0, m, bds, i)
    requires step.IsSave() && Exists(step.origin) && Want(step.origin) == bds[i]
    ensures Ready(m0, m, step)
  {
    hide SavedSince;
    if AddsPartition(step) {
      PartitionNamesParent(step.origin);
      var t :| 0 <= t < i && bds[t].name == ParentName(step.origin);
    }
  }

  lemma SaveOrderCalls(m0: Moment, m: Moment, m': Moment, bds: seq<BlockDevice>, i: nat, step: Step, reply: Reply)
    requires i < |bds| && ParentsFirst(bds) && SaveOrder(m0, m, bds, i) && Made(m, m', step, reply)
    requires step.IsSave() && Exists(step.origin) && Want(step.origin) == bds[i] && m.world == Replay(m.log)
    ensures SaveOrder(m0, m', bds, if reply.Done? then i + 1 else i)
  {
    hide SavedSince, Orderly, Waited, ParentsFirst, Inv;
    var met: Moment :| Waited(m, met) && Arrived(met, m', First(m.fates), step, reply);
    SaveIsReady(m0, m, bds, i, step);
    OrderlyCall(m0, m, m', step, reply);
    SaveOrderWaits(m0, m, met, bds, i);
    if !First(m.fates).Refused? {
      WaitedReplays(m, met);
      OrderlyGrows(m0, met);
      SavedSoFarGrows(m0, met, m', bds, i, step);
    }
  }

  lemma WaitedReplays(m: Moment, m': Moment)
    requires Waited(m, m') && m.world == Replay(m.log)
    ensures m'.world == Replay(m'.log)
  {
    ReplaySteps(m.log, Others(First(m.fates)));
  }

  /** One save call: on success one more device is saved, otherwise as many as before. */
  lemma SaveLoopCalls(
    m0: Moment, m: Moment, m': Moment, bds: seq<BlockDevice>, i: nat, step: Step, reply: Reply)
    requires SaveLoop(m0, m, bds, i, step.ScanSave?) && Made(m, m', step, reply)
    requires step.IsSave() && i < |bds| && Exists(step.origin) && Want(step.origin) == bds[i]
    requires DistinctNames(bds) && ParentsFirst(bds)
    ensures SaveLoop(m0, m', bds, if reply.Done? then i + 1 else i, step.ScanSave?)
  {
    hide LoopCalm, SaveOrder, Spared, Waited, ParentsFirst, DistinctNames;
    var met: Moment :| Waited(m, met) && Arrived(met, m', First(m.fates), step, reply);
    SaveOrderCalls(m0, m, m', bds, i, step, reply);
    SaveLoopWaits(m0, m, met, bds, i, step.ScanSave?);
    if First(m.fates).Refused? {
      assert m' == met;
    } else {
      WaitedKeepsInv(m, met);
      SaveLoopArrives(m0, met, m', First(m.fates), bds, i, step, reply);
    }
  }

  lemma WaitedKeepsInv(m: Moment, m': Moment)
    requires Waited(m, m')
    ensures Inv(m'.world)
  {
  }

  /** A whole save loop inside another one: whatever it had saved before, the outer loop now has everything saved. */
  lemma SaveLoopNests(
    m0: Moment, m1: Moment, m2: Moment, bds: seq<BlockDevice>, upTo: nat, upTo': nat, keepSpec: bool)
    requires SaveLoop(m0, m1, bds, upTo, keepSpec) && SaveLoop(m1, m2, bds, |bds|, keepSpec) && upTo' <= |bds|
    ensures SaveLoop(m0, m2, bds, upTo', keepSpec)
  {
    hide Overlay, Agree, Orderly, AllCalm;
    forall view | Spared(view, bds, m0.fates) ensures LoopCalm(view, m0, m2, bds, upTo', keepSpec) {
      assert LoopCalm(view, m0, m1, bds, upTo, keepSpec);
      assert LoopCalm(view, m1, m2, bds, |bds|, keepSpec);
      AgreeTransitive(view, Overlay(m2.world.store.objs, bds, keepSpec), Overlay(m1.world.store.objs, bds, keepSpec),
                      Overlay(m0.world.store.objs, bds, keepSpec));
    }
    OrderlyChain(m0, m1, m2);
    OrderlyGrows(m0, m1);
    SavedEarlier(m0, m1, m2, bds, upTo');
  }

  lemma SavedEarlier(m0: Moment, m1: Moment, m2: Moment, bds: seq<BlockDevice>, upTo: nat)
    requires upTo <= |bds| && SavedSoFar(m1, m2, bds, |bds|) && |m0.log| <= |m1.log|
    ensures SavedSoFar(m0, m2, bds, upTo)
  {
  }

  /** The result of a completed loop. */
  lemma SaveLoopFinished(m0: Moment, m: Moment, bds: seq<BlockDevice>, keepSpec: bool)
    requires SaveLoop(m0, m, bds, |bds|, keepSpec)
    ensures forall view | Spared(view, bds, m0.fates) ::
              Agree(view, m.world.store.objs, Overlay(m0.world.store.objs, bds, keepSpec))
  {
    forall view | Spared(view, bds, m0.fates)
      ensures Agree(view, m.world.store.objs, Overlay(m0.world.store.objs, bds, keepSpec))
    {
      assert LoopCalm(view, m0, m, bds, |bds|, keepSpec);
      TowardFinished(view, m0.world.store.objs, m.world.store.objs, bds, keepSpec);
    }
  }
}
