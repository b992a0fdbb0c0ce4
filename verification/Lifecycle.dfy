/** What the committed calls of a run say about one object: when it is stored, with which labels, and whether it is
    being deleted. */
module Lifecycle {
  import opened BlockDevices
  import opened Generation
  import opened Machine

  ghost predicate SavesAt(log: seq<Step>, i: int, name: string) {
    0 <= i < |log| && Commits(Replay(log[..i]), log[i]) && log[i].IsSave() && Target(log[i]) == name
  }

  ghost predicate CreatesAt(log: seq<Step>, i: int, name: string) { SavesAt(log, i, name) && log[i].Creates() }

  ghost predicate MarksAt(log: seq<Step>, i: int, name: string) {
    0 <= i < |log| && Commits(Replay(log[..i]), log[i]) && log[i] == DeleteCall(name)
  }

  ghost predicate RemovesAt(log: seq<Step>, i: int, name: string) {
    0 <= i < |log| && Commits(Replay(log[..i]), log[i]) && log[i].Disappear? && log[i].seen.name == name
  }

  /** Creation, marking and removal are the only turns in an object's life; labels never change. */
  lemma OneStep(log: seq<Step>, i: nat, name: string)
    requires i < |log|
    ensures var pre, post := Replay(log[..i]).store.objs, Replay(log[..i + 1]).store.objs;
            && (CreatesAt(log, i, name) <==> name !in pre && name in post)
            && (RemovesAt(log, i, name) <==> name in pre && name !in post)
            && (RemovesAt(log, i, name) ==> pre[name].terminating)
            && (CreatesAt(log, i, name) ==> !post[name].terminating && post[name].labels == Want(log[i].origin).labels)
            && (name in pre && name in post ==>
                  && post[name].labels == pre[name].labels
                  && (post[name].terminating <==> pre[name].terminating || MarksAt(log, i, name)))
            && (SavesAt(log, i, name) ==> name in post)
            && (MarksAt(log, i, name) ==> name in pre && name in post)
  {
    var w, step := Replay(log[..i]), log[i];
    assert log[..i + 1] == log[..i] + [step];
    ReplayOneMore(log[..i], step);
    ReachableInv(log[..i]);
    if Commits(w, step) {
      StepIsConfined(w, step);
      StepTurns(w, step);
    }
  }

  lemma StepTurns(w: World, step: Step)
    requires Inv(w) && Commits(w, step)
    ensures var pre, post, name := w.store.objs, Next(w, step).store.objs, Target(step);
            && (step.Disappear? ==> name in pre && pre[name].terminating)
            && (step.Creates() ==>
                  name in post && !post[name].terminating && post[name].labels == Want(step.origin).labels)
            && (step.IsSave() ==> name in post)
            && (step.DeleteCall? ==> name in pre && name in post && post[name].terminating)
            && (name in pre && name in post ==>
                  && post[name].labels == pre[name].labels
                  && (!step.DeleteCall? ==> post[name].terminating == pre[name].terminating))
  {
    var pre, post, name := w.store.objs, Next(w, step).store.objs, Target(step);
    if step.Creates() { GeneratedAt(step.origin.disk, step.origin.node, step.origin.ns, step.origin.index); }
    if name in pre && name in post {
      TargetChange(w, step);
      OwnFieldsKeepTurns(step, pre[name], post[name]);
    }
  }

  lemma OwnFieldsKeepTurns(step: Step, pre: BlockDevice, post: BlockDevice)
    requires OnlyOwnFields(step, pre, post)
    ensures post.labels == pre.labels && (!step.DeleteCall? ==> post.terminating == pre.terminating)
  {
  }

  /** An object that is no longer stored was removed and has not been created since. */
  lemma {:induction false} GoneMeansRemoved(log: seq<Step>, a: nat, b: nat, name: string) returns (k: nat)
    requires a <= b <= |log|
    requires name in Replay(log[..a]).store.objs && name !in Replay(log[..b]).store.objs
    ensures a <= k < b && RemovesAt(log, k, name) && forall c | k < c < b :: !CreatesAt(log, c, name)
  {
    hide Commits, Replay, Target;
    OneStep(log, b - 1, name);
    if name in Replay(log[..b - 1]).store.objs {
      k := b - 1;
    } else {
      k := GoneMeansRemoved(log, a, b - 1, name);
    }
  }

  lemma {:induction false} RemovedStaysAway(log: seq<Step>, k: nat, b: nat, name: string)
    requires RemovesAt(log, k, name) && k < b <= |log| && forall c | k < c < b :: !CreatesAt(log, c, name)
    ensures name !in Replay(log[..b]).store.objs
  {
    hide Commits, Replay, Target;
    OneStep(log, b - 1, name);
    if b - 1 > k { RemovedStaysAway(log, k, b - 1, name); }
  }

  /** From its creation at `c` on the object has been stored under the labels of the reading it was created from,
      and it is being deleted if and only if a delete call came after the creation. */
  ghost predicate AliveSince(log: seq<Step>, c: nat, b: nat, name: string) {
    && c < b <= |log| && CreatesAt(log, c, name)
    && (forall k | c < k <= b :: StoredAs(Replay(log[..k]).store.objs, name, Want(log[c].origin).labels))
    && (Replay(log[..b]).store.objs[name].terminating <==> exists d | c < d < b :: MarksAt(log, d, name))
  }

  predicate StoredAs(objs: Objects, name: string, labels: map<string, string>) {
    name in objs && objs[name].labels == labels
  }

  /** Every stored object has such a creation. */
  lemma {:induction false} CreationOf(log: seq<Step>, b: nat, name: string) returns (c: nat)
    requires b <= |log| && name in Replay(log[..b]).store.objs
    ensures AliveSince(log, c, b, name)
  {
    hide Commits, Target;
    OneStep(log, b - 1, name);
    if CreatesAt(log, b - 1, name) {
      c := b - 1;
    } else {
      c := CreationOf(log, b - 1, name);
      StaysAlive(log, c, b - 1, name);
    }
  }

  lemma StaysAlive(log: seq<Step>, c: nat, b: nat, name: string)
    requires b < |log| && AliveSince(log, c, b, name) && name in Replay(log[..b + 1]).store.objs
    ensures AliveSince(log, c, b + 1, name)
  {
    OneStep(log, b, name);
    var pre, post := Replay(log[..b]).store.objs, Replay(log[..b + 1]).store.objs;
    assert StoredAs(pre, name, Want(log[c].origin).labels);
    if d :| c < d < b + 1 && MarksAt(log, d, name) {
      assert d < b ==> pre[name].terminating;
    }
  }

  /** A created object is stored until someone asks for its deletion. */
  lemma {:induction false} LiveUntilMarked(log: seq<Step>, c: nat, b: nat, name: string)
    requires c < b <= |log| && CreatesAt(log, c, name) && forall d | c < d < b :: !MarksAt(log, d, name)
    ensures AliveSince(log, c, b, name) && !Replay(log[..b]).store.objs[name].terminating
  {
    hide Commits, Replay, Target;
    OneStep(log, b - 1, name);
    if b - 1 > c {
      LiveUntilMarked(log, c, b - 1, name);
      StaysAlive(log, c, b - 1, name);
    }
  }

  /** A stored partition is known as one if and only if the save that created it read the whole disk: a partition
      that its own add event has created is never linked to its disk, whatever is saved later. */
  lemma ParentLabelComesWithCreation(log: seq<Step>, name: string)
    requires name in Replay(log).store.objs
    ensures exists c: nat :: AliveSince(log, c, |log|, name)
              && (PARENT_DEVICE_LABEL in Replay(log).store.objs[name].labels <==> log[c].origin.index > 0)
  {
    assert log[..|log|] == log;
    var c := CreationOf(log, |log|, name);
    var o := log[c].origin;
    GeneratedAt(o.disk, o.node, o.ns, o.index);
    assert StoredAs(Replay(log[..|log|]).store.objs, name, Want(o).labels);
  }
}
