/** The delete loops of OnBlockDeviceDelete and OnNodeDelete. */
module Deletion {
  import opened BlockDevices
  import opened Machine
  import opened Lifecycle
  import opened Interleaving
  import opened Server
  import opened Order
  import opened Convergence
  import opened Confinement

  predicate AllTerminating(objs: Objects, key: string, value: string) {
    forall n | n in objs && Labelled(objs[n], key, value) :: objs[n].terminating
  }

  /** Deleted exactly the labelled objects, leaving all others as they were. */
  predicate MarkedOnly(pre: Objects, post: Objects, key: string, value: string) {
    && pre.Keys == post.Keys
    && forall n | n in pre ::
         if Labelled(pre[n], key, value) && !pre[n].terminating then
           post[n] == pre[n].(terminating := post[n].terminating, version := post[n].version)
         else post[n] == pre[n]
  }

  /** Removed exactly `name` and marked exactly its partitions, leaving all others as they were. */
  predicate RemovedOnly(pre: Objects, post: Objects, name: string) {
    && post.Keys == pre.Keys - {name}
    && forall n | n in post ::
         if Labelled(pre[n], PARENT_DEVICE_LABEL, name) && !pre[n].terminating then
           post[n] == pre[n].(terminating := true, version := post[n].version)
         else post[n] == pre[n]
  }

  /** Every labelled object is being deleted or is still to come in the list. */
  predicate Pending(objs: Objects, items: seq<BlockDevice>, i: nat, key: string, value: string)
    requires i <= |items|
  {
    forall n | n in objs && Labelled(objs[n], key, value) ::
      objs[n].terminating || exists j | i <= j < |items| :: items[j].name == n
  }

  predicate AllIn(items: seq<BlockDevice>, objs: Objects, key: string, value: string) {
    forall j | 0 <= j < |items| :: items[j].name in objs && Labelled(objs[items[j].name], key, value)
  }

  /** `names` covers every labelled object, and the other writers keep to it. */
  ghost predicate Covered(m: Moment, names: iset<string>, key: string, value: string) {
    && FatesKeepTo(m.fates, names)
    && forall n | n in m.world.store.objs && Labelled(m.world.store.objs[n], key, value) :: n in names
  }

  /** The delete loop before its i-th call; it listed its items when the log was `k` calls long. */
  ghost predicate DeleteLoop(
    m0: Moment, m: Moment, items: seq<BlockDevice>, i: nat, k: nat, key: string, value: string) {
    && i <= |items| && m.world == Replay(m.log)
    && Troubles(m.fates) <= Troubles(m0.fates)
    && Tidy(m0, m) && |m0.log| <= k && Swept(m, items, i, k, key, value)
    && (forall names | Covered(m0, names, key, value) :: LoopConfined(m0, m, items, i, names, key, value))
    && (Alone(m0.fates) ==> Alone(m.fates))
    && (Quietly(m0, m) ==>
          && MarkedOnly(m0.world.store.objs, m.world.store.objs, key, value)
          && AllIn(items, m0.world.store.objs, key, value)
          && Pending(m.world.store.objs, items, i, key, value))
  }

  /** The items hold all that was labelled at `k`; the client has marked the first `i` since, and created nothing. */
  ghost predicate Swept(m: Moment, items: seq<BlockDevice>, i: nat, k: nat, key: string, value: string)
    requires i <= |items|
  {
    && k <= |m.log|
    && AllListed(Replay(m.log[..k]).store.objs, items, key, value)
    && (forall t | 0 <= t < i :: MarkedSince(m.log, m.mine, k, |m.log|, items[t].name))
    && forall c | c in m.mine && k <= c < |m.log| :: !m.log[c].Creates()
  }

  predicate AllListed(objs: Objects, items: seq<BlockDevice>, key: string, value: string) {
    forall n | n in objs && Labelled(objs[n], key, value) :: exists t | 0 <= t < |items| :: items[t].name == n
  }

  lemma SweptStarts(m: Moment, items: seq<BlockDevice>, key: string, value: string)
    requires m.world == Replay(m.log) && AllListed(m.world.store.objs, items, key, value)
    ensures Swept(m, items, 0, |m.log|, key, value)
  {
    assert m.log[..|m.log|] == m.log;
  }

  lemma SweptCalls(m: Moment, m': Moment, items: seq<BlockDevice>, i: nat, k: nat, key: string, value: string,
      reply: Reply)
    requires i < |items| && Swept(m, items, i, k, key, value) && m.world == Replay(m.log)
    requires Made(m, m', DeleteCall(items[i].name), reply)
    ensures Swept(m', items, if reply.Done? then i + 1 else i, k, key, value)
  {
    hide Commits, Replay, Inv;
    var cause := DeleteCall(items[i].name);
    OwnCall(m, m', cause, reply);
    OwnDelete(m, m', items[i].name, reply);
    assert m'.log[..k] == m.log[..k];
    forall t | 0 <= t < i ensures MarkedSince(m'.log, m'.mine, k, |m'.log|, items[t].name) {
      assert SameUpTo(m.log, m.mine, m'.log, m'.mine, |m.log|);
      MarkedMoves(m.log, m.mine, m'.log, m'.mine, k, |m.log|, |m'.log|, items[t].name);
    }
    forall c | c in m'.mine && k <= c < |m'.log| ensures !m'.log[c].Creates() {
      if c < |m.log| { assert m'.log[c] == m.log[c]; }
    }
  }

  /** A delete call that is answered has marked the object at its place in the log. */
  lemma OwnDelete(m: Moment, m': Moment, name: string, reply: Reply)
    requires Made(m, m', DeleteCall(name), reply) && m.world == Replay(m.log)
    ensures reply.Done? ==> MarkedSince(m'.log, m'.mine, |m.log|, |m'.log|, name)
  {
    hide Inv;
    var met: Moment :| Waited(m, met) && Arrived(met, m', First(m.fates), DeleteCall(name), reply);
    ReplaySteps(m.log, Others(First(m.fates)));
    if reply.Done? {
      assert m'.log[..|met.log|] == met.log;
      assert MarksAt(m'.log, |met.log|, name);
    }
  }

  lemma SweptEnds(m: Moment, items: seq<BlockDevice>, base: nat, k: nat, key: string, value: string)
    requires base <= k && Swept(m, items, |items|, k, key, value)
    ensures HandledSince(m.log, m.mine, base, |m.log|, key, value)
  {
    var objs := Replay(m.log[..k]).store.objs;
    forall n | n in objs && Labelled(objs[n], key, value)
      ensures MarkedSince(m.log, m.mine, k, |m.log|, n)
    {
      var t :| 0 <= t < |items| && items[t].name == n;
    }
    assert HandledAt(m.log, m.mine, k, |m.log|, key, value);
  }

  ghost predicate LoopConfined(
    m0: Moment, m: Moment, items: seq<BlockDevice>, i: nat, names: iset<string>, key: string, value: string)
    requires i <= |items|
  {
    && FatesKeepTo(m.fates, names) && Confined(m0.world.store.objs, m.world.store.objs, names)
    && Pending(m.world.store.objs, items, i, key, value) && forall j | 0 <= j < |items| :: items[j].name in names
  }

  lemma DeleteLoopStarts(m0: Moment, m: Moment, items: seq<BlockDevice>, ok: bool, key: string, value: string)
    requires m0.world == Replay(m0.log) && Waited(m0, m) && ok == Answers(First(m0.fates))
    requires var objs := m.world.store.objs;
             && (ok ==> forall n | n in objs && Labelled(objs[n], key, value) :: objs[n] in items)
             && AllIn(items, objs, key, value)
             && forall i | 0 <= i < |items| :: items[i].name in objs && objs[items[i].name] == items[i]
    ensures ok ==> DeleteLoop(m0, m, items, 0, |m.log|, key, value)
    ensures !ok ==> Deleted(m0, m, key, value, false)
  {
    hide Tidy, Swept, HandledSince, Confined, FatesKeepTo, Pending, MarkedOnly, AllIn, Covered, Waited;
    RestOfFates(m0.fates);
    TidyWait(m0, m);
    FirstWait(m0, m, items, key, value);
    if ok {
      AllPending(m.world.store.objs, items, key, value);
      SweptStarts(m, items, key, value);
    }
    forall names | Covered(m0, names, key, value)
      ensures FatesKeepTo(m.fates, names) && Confined(m0.world.store.objs, m.world.store.objs, names)
      ensures forall j | 0 <= j < |items| :: items[j].name in names
    {
      ListedAreCovered(m0, m, items, names, key, value);
    }
  }

  lemma FirstWait(m0: Moment, m: Moment, items: seq<BlockDevice>, key: string, value: string)
    requires m0.world == Replay(m0.log) && Waited(m0, m)
    requires AllIn(items, m.world.store.objs, key, value)
    ensures m.world == Replay(m.log) && |m0.log| <= |m.log| && m.fates == Rest(m0.fates)
    ensures forall n | n in m.world.store.objs :: m.world.store.objs[n].name == n
    ensures !First(m0.fates).Interleaved? ==>
              && MarkedOnly(m0.world.store.objs, m.world.store.objs, key, value)
              && AllIn(items, m0.world.store.objs, key, value)
  {
    ReplaySteps(m0.log, Others(First(m0.fates)));
  }

  lemma ListedAreCovered(
    m0: Moment, m: Moment, items: seq<BlockDevice>, names: iset<string>, key: string, value: string)
    requires Waited(m0, m) && Covered(m0, names, key, value) && AllIn(items, m.world.store.objs, key, value)
    ensures FatesKeepTo(m.fates, names) && Confined(m0.world.store.objs, m.world.store.objs, names)
    ensures forall j | 0 <= j < |items| :: items[j].name in names
  {
    ConfinedWait(m0, m, names);
  }

  lemma AllPending(objs: Objects, items: seq<BlockDevice>, key: string, value: string)
    requires forall n | n in objs && Labelled(objs[n], key, value) :: objs[n] in items
    requires forall i | 0 <= i < |items| :: items[i].name in objs && objs[items[i].name] == items[i]
    requires forall n | n in objs :: objs[n].name == n
    ensures AllListed(objs, items, key, value) && Pending(objs, items, 0, key, value)
  {
    forall n | n in objs && Labelled(objs[n], key, value)
      ensures exists j | 0 <= j < |items| :: items[j].name == n
    {
      var j :| 0 <= j < |items| && items[j] == objs[n];
      assert items[j].name == n;
    }
  }

  /** What holds even when the loop ends early. */
  ghost predicate DeleteLoopFailed(m0: Moment, m: Moment, key: string, value: string) {
    && Troubles(m.fates) <= Troubles(m0.fates)
    && Tidy(m0, m)
    && (forall names | Covered(m0, names, key, value) ::
          FatesKeepTo(m.fates, names) && Confined(m0.world.store.objs, m.world.store.objs, names))
    && (Alone(m0.fates) ==> Alone(m.fates))
    && (Quietly(m0, m) ==> MarkedOnly(m0.world.store.objs, m.world.store.objs, key, value))
  }

  /** The outcome. The client has been tidy; if the other writers keep to a set of names that covers the labelled
      objects, so does everything that happened; without other writers only labelled objects are marked; a failure has
      cost a trouble. On success the client has listed and then marked every labelled object; none is left that is not
      being deleted, unless other writers have created one. */
  ghost predicate Deleted(m0: Moment, m: Moment, key: string, value: string, ok: bool) {
    && DeleteLoopFailed(m0, m, key, value)
    && (!ok ==> Troubles(m.fates) < Troubles(m0.fates))
    && (ok ==> HandledSince(m.log, m.mine, |m0.log|, |m.log|, key, value))
    && (ok && (Quietly(m0, m) || exists names :: Covered(m0, names, key, value)) ==>
          AllTerminating(m.world.store.objs, key, value))
  }

  lemma DeleteLoopEnds(
    m0: Moment, m: Moment, items: seq<BlockDevice>, i: nat, k: nat, all: bool, key: string, value: string)
    requires DeleteLoop(m0, m, items, i, k, key, value)
    requires if all then i == |items| else Troubles(m.fates) < Troubles(m0.fates)
    ensures Deleted(m0, m, key, value, all)
  {
    hide Tidy, Swept, HandledSince;
    if all { SweptEnds(m, items, |m0.log|, k, key, value); }
    forall names | Covered(m0, names, key, value)
      ensures FatesKeepTo(m.fates, names) && Confined(m0.world.store.objs, m.world.store.objs, names)
      ensures all ==> AllTerminating(m.world.store.objs, key, value)
    {
      assert LoopConfined(m0, m, items, i, names, key, value);
    }
  }

  lemma DeleteMarks(pre: Objects, s: Store, name: string, key: string, value: string)
    requires MarkedOnly(pre, s.objs, key, value) && name in pre && Labelled(pre[name], key, value)
    requires name in s.objs ==> s.objs[name].name == name
    ensures Commit(s, Delete(name)).Some? && MarkedOnly(pre, Commit(s, Delete(name)).value.objs, key, value)
  {
  }

  lemma StoredUnderName(w: World, name: string)
    requires Inv(w)
    ensures name in w.store.objs ==> w.store.objs[name].name == name
  {
  }

  lemma QuietDelete(m0: Moment, m: Moment, m': Moment, name: string, key: string, value: string, reply: Reply)
    requires Made(m, m', DeleteCall(name), reply) && !First(m.fates).Interleaved?
    requires MarkedOnly(m0.world.store.objs, m.world.store.objs, key, value)
    requires name in m0.world.store.objs && Labelled(m0.world.store.objs[name], key, value)
    ensures First(m.fates).Smooth? ==> reply.Done?
    ensures MarkedOnly(m0.world.store.objs, m'.world.store.objs, key, value)
    ensures Shrunk(m.world.store.objs, m'.world.store.objs)
  {
    hide Made, Commit, Inv, Enabled, MarkedOnly;
    QuietCall(m, m', DeleteCall(name), reply);
    LabelsKept(m.world, DeleteCall(name));
    StoredUnderName(m.world, name);
    DeleteMarks(m0.world.store.objs, m.world.store, name, key, value);
  }

  lemma StillPending(
    objs: Objects, objs': Objects, items: seq<BlockDevice>, i: nat, done: bool, key: string, value: string)
    requires i < |items| && Pending(objs, items, i, key, value) && Shrunk(objs, objs')
    requires done ==> items[i].name in objs' && objs'[items[i].name].terminating
    ensures Pending(objs', items, if done then i + 1 else i, key, value)
  {
    var i' := if done then i + 1 else i;
    forall n | n in objs' && Labelled(objs'[n], key, value) && !objs'[n].terminating
      ensures exists j | i' <= j < |items| :: items[j].name == n
    {
      assert Labelled(objs[n], key, value) && !objs[n].terminating;
      var j :| i <= j < |items| && items[j].name == n;
    }
  }

  lemma LoopConfinedCalls(m0: Moment, m: Moment, m': Moment, items: seq<BlockDevice>, i: nat, names: iset<string>,
      key: string, value: string, reply: Reply)
    requires i < |items| && LoopConfined(m0, m, items, i, names, key, value) &&
        Made(m, m', DeleteCall(items[i].name), reply)
    ensures LoopConfined(m0, m', items, if reply.Done? then i + 1 else i, names, key, value)
  {
    var name := items[i].name;
    ConfinedCall(m, m', DeleteCall(name), reply, names);
    ConfinedTransitive(m0.world.store.objs, m.world.store.objs, m'.world.store.objs, names);
    DeleteAnswer(m, m', name, reply);
    StillPending(m.world.store.objs, m'.world.store.objs, items, i, reply.Done?, key, value);
  }

  /** One delete call; one that fails has met trouble. */
  lemma DeleteLoopCalls(m0: Moment, m: Moment, m': Moment, items: seq<BlockDevice>, i: nat, k: nat, key: string,
                        value: string, reply: Reply)
    requires i < |items| && DeleteLoop(m0, m, items, i, k, key, value)
    requires Made(m, m', DeleteCall(items[i].name), reply) && m'.world == Replay(m'.log)
    ensures DeleteLoop(m0, m', items, if reply.Done? then i + 1 else i, k, key, value)
    ensures !reply.Done? ==> Troubles(m'.fates) < Troubles(m0.fates)
  {
    hide Confined, MarkedOnly, Made, FatesKeepTo, LoopConfined, Tidy, Swept;
    var name := items[i].name;
    TroublesAfterCall(m, m', DeleteCall(name), reply);
    if Quietly(m0, m') {
      QuietDelete(m0, m, m', name, key, value, reply);
      DeleteAnswer(m, m', name, reply);
      StillPending(m.world.store.objs, m'.world.store.objs, items, i, reply.Done?, key, value);
    }
    TidyCall(m0, m, m', DeleteCall(name), reply);
    SweptCalls(m, m', items, i, k, key, value, reply);
    forall names | Covered(m0, names, key, value)
      ensures LoopConfined(m0, m', items, if reply.Done? then i + 1 else i, names, key, value)
    {
      LoopConfinedCalls(m0, m, m', items, i, names, key, value, reply);
    }
  }

  /** List the objects with this label and delete them one by one; the first error ends it. */
  method DeleteLabelled(server: ApiServer, key: string, value: string) returns (ok: bool)
    requires server.Valid()
    modifies server
    ensures server.Valid()
    ensures Deleted(old(server.Now()), server.Now(), key, value, ok)
  {
    hide DeleteLoop, Deleted, Made, Waited, Troubles, Inv, SavesFrom, Replay;
    ghost var m0 := server.Now();
    var items;
    ok, items := server.ListLabelled(key, value);
    ghost var k := |server.log|;
    DeleteLoopStarts(m0, server.Now(), if ok then items else [], ok, key, value);
    if !ok {
      return;
    }
    var i := 0;
    while i < |items|
      invariant 0 <= i <= |items| && server.Valid() && DeleteLoop(m0, server.Now(), items, i, k, key, value)
    {
      ghost var m := server.Now();
      var reply := server.Call(Delete(items[i].name), DeleteCall(items[i].name));
      DeleteLoopCalls(m0, m, server.Now(), items, i, k, key, value, reply);
      if !reply.Done? {
        DeleteLoopEnds(m0, server.Now(), items, i, k, false, key, value);
        return false;
      }
      i := i + 1;
    }
    DeleteLoopEnds(m0, server.Now(), items, i, k, true, key, value);
    ok := true;
  }
}
