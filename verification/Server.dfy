/**
 The API server as one client sees it: each of its calls meets a fate chosen in advance by the environment. All
 failures, lost answers and other clients' writes of a run are one finite list of fates; after it, every call is smooth.
 */
module Server {
  import opened Strings
  import opened BlockDevices
  import opened Machine

  datatype Fate =
    | Smooth
    | Refused                        // the call fails and has no effect
    | AnswerLost                     // the call takes effect, but the client is told that it failed
    | Interleaved(others: seq<Step>) // other clients' calls arrive first

  datatype Reply = Done | NotFound | Failed

  function First(fates: seq<Fate>): Fate { if fates == [] then Smooth else fates[0] }

  function Rest(fates: seq<Fate>): seq<Fate> { if fates == [] then [] else fates[1..] }

  /** The number of calls that will not be smooth. */
  function Troubles(fates: seq<Fate>): nat {
    if fates == [] then 0 else (if fates[0].Smooth? then 0 else 1) + Troubles(fates[1..])
  }

  function Others(fate: Fate): seq<Step> { if fate.Interleaved? then fate.others else [] }

  /** Steps taken one after another. */
  function Steps(w: World, steps: seq<Step>): World {
    if steps == [] then w else Next(Steps(w, steps[..|steps| - 1]), steps[|steps| - 1])
  }

  /** Whether the client receives the answer to its call. */
  predicate Answers(fate: Fate) { fate.Smooth? || fate.Interleaved? }

  /** What the client is told; `s` is the store when the call arrives. */
  function Answer(s: Store, op: Op, fate: Fate): Reply {
    if !Answers(fate) then Failed
    else if Commit(s, op).Some? then Done
    else if op.Create? || OpName(op) in s.objs then Failed
    else NotFound
  }

  lemma {:induction false} ReplaySteps(log: seq<Step>, steps: seq<Step>)
    ensures Replay(log + steps) == Steps(Replay(log), steps)
  {
    if steps == [] {
      assert log + steps == log;
    } else {
      var n := |steps| - 1;
      ReplaySteps(log, steps[..n]);
      assert (log + steps)[..|log| + n] == log + steps[..n];
    }
  }

  lemma StepsOneMore(w: World, steps: seq<Step>, step: Step)
    ensures Steps(w, steps + [step]) == Next(Steps(w, steps), step)
  {
    assert (steps + [step])[..|steps|] == steps;
  }

  lemma {:induction false} StepsKeepInv(w: World, steps: seq<Step>)
    requires Inv(w)
    ensures Inv(Steps(w, steps)) && w.past <= Steps(w, steps).past
  {
    if steps != [] {
      StepsKeepInv(w, steps[..|steps| - 1]);
      NextKeepsInv(Steps(w, steps[..|steps| - 1]), steps[|steps| - 1]);
    }
  }

  /** Every stored object, and nothing else. */
  ghost predicate Lists(items: seq<BlockDevice>, objs: Objects) {
    && (forall i | 0 <= i < |items| :: items[i].name in objs && objs[items[i].name] == items[i])
    && (forall n | n in objs :: objs[n] in items)
  }

  lemma FindListed(items: seq<BlockDevice>, objs: Objects, name: string)
    requires Lists(items, objs) && (forall n | n in objs :: objs[n].name == n)
    ensures Find(items, name) == if name in objs then Some(objs[name]) else None
  {
  }

  /** A list as some client may hold it: objects that were stored at some time. */
  predicate FromPast(items: seq<BlockDevice>, past: set<BlockDevice>) {
    forall i | 0 <= i < |items| :: items[i] in past
  }

  /** The server's state at one moment; `mine` are the places of this client's own calls in the log. */
  datatype Moment = Moment(world: World, log: seq<Step>, fates: seq<Fate>, mine: set<nat>)

  /** From `m` to `m'` only other clients' calls arrive: those of the next fate. */
  ghost predicate Waited(m: Moment, m': Moment) {
    && m'.fates == Rest(m.fates)
    && m'.log == m.log + Others(First(m.fates))
    && m'.mine == m.mine && (forall i | i in m.mine :: i < |m.log|)
    && m'.world == Steps(m.world, Others(First(m.fates)))
    && Inv(m.world) && Inv(m'.world) && m.world.past <= m'.world.past
  }

  /** From `m` to `m'` one call is made: after the others' calls it arrives, unless it is refused. */
  ghost predicate Made(m: Moment, m': Moment, cause: Step, reply: Reply) {
    exists met: Moment :: Waited(m, met) && Arrived(met, m', First(m.fates), cause, reply)
  }

  ghost predicate Arrived(met: Moment, m': Moment, fate: Fate, cause: Step, reply: Reply) {
    && (cause.IsSave() ==> Exists(cause.origin))
    && Enabled(met.world, cause)
    && m'.fates == met.fates
    && m'.log == (if fate.Refused? then met.log else met.log + [cause])
    && m'.mine == (if fate.Refused? then met.mine else met.mine + {|met.log|})
    && m'.world == (if fate.Refused? then met.world else Next(met.world, cause))
    && reply == Answer(met.world.store, Request(cause), fate)
    && Inv(m'.world) && met.world.past <= m'.world.past
  }

  lemma OneMoreSave(log: seq<Step>, step: Step, origins: iset<Origin>)
    requires SavesFrom(log, origins) && (step.IsSave() ==> step.origin in origins)
    ensures SavesFrom(log + [step], origins)
  {
  }

  class ApiServer {
    var world: World
    var fates: seq<Fate>
    ghost var log: seq<Step>
    ghost var mine: set<nat>
    ghost const origins: iset<Origin> // the disk readings that any client saves

    ghost predicate Valid()
      reads this
    {
      && world == Replay(log) && (forall i | i in mine :: i < |log|)
      && SavesFrom(log, origins)
      && forall i | 0 <= i < |fates| && fates[i].Interleaved? :: SavesFrom(fates[i].others, origins)
    }

    ghost function Now(): Moment
      reads this
    {
      Moment(world, log, fates, mine)
    }

    lemma Known(name: string)
      requires Valid()
      ensures world == Replay(log) && Inv(world) && forall i | i in mine :: i < |log|
      ensures name in world.store.objs ==> world.store.objs[name].name == name && world.store.objs[name] in world.past
    {
      ReachableInv(log);
    }

    constructor (fates: seq<Fate>, ghost origins: iset<Origin>)
      requires forall i | 0 <= i < |fates| && fates[i].Interleaved? :: SavesFrom(fates[i].others, origins)
      ensures Valid() && world == EMPTY && log == [] && mine == {} && this.fates == fates && this.origins == origins
    {
      this.world, this.fates, this.log, this.mine, this.origins := EMPTY, fates, [], {}, origins;
    }

    /** The next fate is drawn and the other clients' calls that come with it are carried out. */
    method Turn() returns (fate: Fate)
      requires Valid()
      modifies this
      ensures Valid() && Waited(old(Now()), Now()) && fate == First(old(fates))
    {
      fate := First(fates);
      fates := Rest(fates);
      var others := Others(fate);
      var i := 0;
      ghost var before := log;
      while i < |others|
        invariant 0 <= i <= |others|
        invariant world == Steps(old(world), others[..i])
        invariant fates == Rest(old(fates)) && log == before && mine == old(mine)
      {
        world := Next(world, others[i]);
        assert others[..i + 1] == others[..i] + [others[i]];
        StepsOneMore(old(world), others[..i], others[i]);
        i := i + 1;
      }
      assert others[..i] == others;
      log := log + others;
      ReplaySteps(before, others);
      ReachableInv(before);
      StepsKeepInv(old(world), others);
    }

    /** One write: Create, Update or Delete, or the removal of the last finalizer. */
    method Call(op: Op, ghost cause: Step) returns (reply: Reply)
      requires Valid()
      requires cause.IsSave() ==> Exists(cause.origin) && cause.origin in origins
      requires op == Request(cause) && Enabled(world, cause)
      modifies this
      ensures Valid() && Made(old(Now()), Now(), cause, reply)
    {
      hide Inv, Commit, Request, Enabled, Replay;
      var fate := Turn();
      ghost var met := Now();
      reply := Answer(world.store, op, fate);
      StillEnabled(old(world), world, cause);
      NextKeepsInv(world, cause);
      ReplayOneMore(met.log, cause);
      OneMoreSave(log, cause, origins);
      if !fate.Refused? {
        world := Applied(world, op);
        mine, log := mine + {|log|}, log + [cause];
      }
      assert Arrived(met, Now(), fate, cause, reply);
    }

    /** List, from the server or from a cache that has caught up with it; a failed call leaves the list empty. */
    method List() returns (ok: bool, items: seq<BlockDevice>)
      requires Valid()
      modifies this
      ensures Valid() && Waited(old(Now()), Now()) && ok == Answers(First(old(fates)))
      ensures FromPast(items, world.past)
      ensures if ok then Lists(items, world.store.objs) else items == []
    {
      var fate := Turn();
      ok := Answers(fate);
      items := [];
      if ok {
        items := AllItems();
      }
    }

    /** The objects in some order. */
    method AllItems() returns (items: seq<BlockDevice>)
      requires Inv(world)
      ensures Lists(items, world.store.objs) && FromPast(items, world.past)
    {
      items := [];
      var objs := world.store.objs;
      var rest := objs.Keys;
      while rest != {}
        invariant rest <= objs.Keys && FromPast(items, world.past)
        invariant forall i | 0 <= i < |items| :: items[i].name in objs && objs[items[i].name] == items[i]
        invariant forall n | n in objs && n !in rest :: objs[n] in items
      {
        var name :| name in rest;
        items := items + [objs[name]];
        rest := rest - {name};
      }
    }

    /** A selector List: the listed objects that carry the label. */
    method ListLabelled(key: string, value: string) returns (ok: bool, items: seq<BlockDevice>)
      requires Valid()
      modifies this
      ensures Valid() && Waited(old(Now()), Now()) && ok == Answers(First(old(fates)))
      ensures ok ==> forall n | n in world.store.objs && Labelled(world.store.objs[n], key, value) ::
          world.store.objs[n] in items
      ensures forall i | 0 <= i < |items| ::
                && items[i].name in world.store.objs && world.store.objs[items[i].name] == items[i]
                && Labelled(items[i], key, value)
    {
      var all;
      ok, all := List();
      items := [];
      var i := 0;
      while i < |all|
        invariant 0 <= i <= |all|
        invariant forall j | 0 <= j < i && Labelled(all[j], key, value) :: all[j] in items
        invariant forall j | 0 <= j < |items| :: items[j] in all && Labelled(items[j], key, value)
      {
        if Labelled(all[i], key, value) {
          items := items + [all[i]];
        }
        i := i + 1;
      }
    }
  }
}
