/** Interference that creates nothing and keeps to a given set of names: what the remove handlers of a device tree,
    or of a node, do to each other. */
module Confinement {
  import opened Machine
  import opened Server

  /** Nothing new, nothing relabelled, nothing revived. */
  predicate Shrunk(pre: Objects, post: Objects) {
    && post.Keys <= pre.Keys
    && forall n | n in post :: post[n].labels == pre[n].labels && (pre[n].terminating ==> post[n].terminating)
  }

  /** Nor, outside `names`, anything different about objects that were not being deleted. */
  ghost predicate Confined(pre: Objects, post: Objects, names: iset<string>) {
    && Shrunk(pre, post)
    && (forall n | n in pre && n !in names && !pre[n].terminating :: n in post && post[n] == pre[n])
  }

  /** A step that creates nothing and, outside `names`, can only take away an object that is being deleted. */
  ghost predicate KeepsTo(step: Step, names: iset<string>) {
    && !step.Creates()
    && (step.Disappear? || (step.IsSave() && !Exists(step.origin)) || Target(step) in names)
  }

  ghost predicate StepsKeepTo(steps: seq<Step>, names: iset<string>) {
    forall i | 0 <= i < |steps| :: KeepsTo(steps[i], names)
  }

  ghost predicate FatesKeepTo(fates: seq<Fate>, names: iset<string>) {
    forall i | 0 <= i < |fates| && fates[i].Interleaved? :: StepsKeepTo(fates[i].others, names)
  }

  lemma ConfinedTransitive(a: Objects, b: Objects, c: Objects, names: iset<string>)
    requires Confined(a, b, names) && Confined(b, c, names)
    ensures Confined(a, c, names)
  {
  }

  lemma ConfinedStep(w: World, step: Step, names: iset<string>)
    requires Inv(w) && KeepsTo(step, names)
    ensures Confined(w.store.objs, Next(w, step).store.objs, names)
  {
    if !Commits(w, step) || !step.Disappear? { LabelsKept(w, step); }
    if Commits(w, step) { StepIsConfined(w, step); }
  }

  lemma {:induction false} ConfinedSteps(w: World, steps: seq<Step>, names: iset<string>)
    requires Inv(w) && StepsKeepTo(steps, names)
    ensures Confined(w.store.objs, Steps(w, steps).store.objs, names)
  {
    if steps != [] {
      var before := steps[..|steps| - 1];
      ConfinedSteps(w, before, names);
      StepsKeepInv(w, before);
      ConfinedStep(Steps(w, before), steps[|steps| - 1], names);
      ConfinedTransitive(w.store.objs, Steps(w, before).store.objs, Steps(w, steps).store.objs, names);
    }
  }

  lemma ConfinedWait(m: Moment, m': Moment, names: iset<string>)
    requires Waited(m, m') && FatesKeepTo(m.fates, names)
    ensures FatesKeepTo(m'.fates, names) && Confined(m.world.store.objs, m'.world.store.objs, names)
  {
    ConfinedSteps(m.world, Others(First(m.fates)), names);
  }

  /** One call that keeps to the names, too. */
  lemma ConfinedCall(m: Moment, m': Moment, cause: Step, reply: Reply, names: iset<string>)
    requires Made(m, m', cause, reply) && FatesKeepTo(m.fates, names) && KeepsTo(cause, names)
    ensures FatesKeepTo(m'.fates, names) && Confined(m.world.store.objs, m'.world.store.objs, names)
  {
    var met: Moment :| Waited(m, met) && Arrived(met, m', First(m.fates), cause, reply);
    ConfinedWait(m, met, names);
    if !First(m.fates).Refused? {
      ConfinedStep(met.world, cause, names);
      ConfinedTransitive(m.world.store.objs, met.world.store.objs, m'.world.store.objs, names);
    }
  }

  /** The answer to a delete call is up to date. */
  lemma DeleteAnswer(m: Moment, m': Moment, name: string, reply: Reply)
    requires Made(m, m', DeleteCall(name), reply)
    ensures reply.Done? ==> name in m'.world.store.objs && m'.world.store.objs[name].terminating
    ensures reply.NotFound? ==> name !in m'.world.store.objs
  {
  }
}
