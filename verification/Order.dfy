/** What a client's calls between two moments do to the device tree, whatever the other clients' calls in between
    are. */
module Order {
  import opened BlockDevices
  import opened Machine
  import opened Interleaving
  import opened Server

  ghost predicate FromFates(fates: seq<Fate>, step: Step) {
    exists f | 0 <= f < |fates| && fates[f].Interleaved? :: step in fates[f].others
  }

  /** The log has grown by this client's calls and by calls of others that were fated to arrive. */
  ghost predicate Extends(m: Moment, m': Moment) {
    && m.log <= m'.log && m.mine <= m'.mine
    && (forall i | i in m'.mine :: i < |m'.log| && (i < |m.log| ==> i in m.mine))
    && (forall i | |m.log| <= i < |m'.log| && i !in m'.mine :: FromFates(m.fates, m'.log[i]))
    && (forall step | FromFates(m'.fates, step) :: FromFates(m.fates, step))
  }

  /** In between, this client has been orderly. */
  ghost predicate Orderly(m: Moment, m': Moment) {
    && Extends(m, m')
    && forall i | i in m'.mine && |m.log| <= i :: OrderlyAt(m'.log, m'.mine, |m.log|, i)
  }

  lemma OrderlySelf(m: Moment)
    requires forall i | i in m.mine :: i < |m.log|
    ensures Orderly(m, m)
  {
  }

  lemma OrderlyChain(m0: Moment, m1: Moment, m2: Moment)
    requires Orderly(m0, m1) && Orderly(m1, m2)
    ensures Orderly(m0, m2)
  {
    hide OrderlyAt, FromFates;
    forall i | |m0.log| <= i < |m2.log| && i !in m2.mine ensures FromFates(m0.fates, m2.log[i]) {
      if i < |m1.log| { assert m2.log[i] == m1.log[i]; }
    }
    forall i | i in m2.mine && |m0.log| <= i ensures OrderlyAt(m2.log, m2.mine, |m0.log|, i) {
      if i < |m1.log| {
        OrderlyMoves(m1.log, m1.mine, m2.log, m2.mine, |m0.log|, i);
      } else {
        OrderlySooner(m2.log, m2.mine, |m0.log|, |m1.log|, i);
      }
    }
  }

  lemma OrderlySooner(log: seq<Step>, mine: set<nat>, base: nat, base': nat, i: nat)
    requires base <= base' && i < |log| && OrderlyAt(log, mine, base', i)
    ensures OrderlyAt(log, mine, base, i)
  {
  }

  lemma OrderlyWait(m: Moment, m': Moment)
    requires Waited(m, m')
    ensures Orderly(m, m')
  {
    var others := Others(First(m.fates));
    forall i | |m.log| <= i < |m'.log| ensures FromFates(m.fates, m'.log[i]) {
      assert m'.log[i] == others[i - |m.log|];
    }
    forall step | FromFates(m'.fates, step) ensures FromFates(m.fates, step) {
      var f :| 0 <= f < |m'.fates| && m'.fates[f].Interleaved? && step in m'.fates[f].others;
      assert m.fates[f + 1] == m'.fates[f];
    }
  }

  /** What this client must have done since `m0` for the call to be orderly. */
  ghost predicate Ready(m0: Moment, m: Moment, cause: Step) {
    && (AddsPartition(cause) ==> SavedSince(m.log, m.mine, |m0.log|, |m.log|, ParentName(cause.origin)))
    && (cause.Disappear? ==> HandledSince(m.log, m.mine, |m0.log|, |m.log|, PARENT_DEVICE_LABEL, cause.seen.name))
  }

  lemma OrderlyCall(m0: Moment, m: Moment, m': Moment, cause: Step, reply: Reply)
    requires Orderly(m0, m) && Made(m, m', cause, reply) && Ready(m0, m, cause)
    ensures Orderly(m0, m')
  {
    hide OrderlyAt, SavedSince, HandledSince;
    var met: Moment :| Waited(m, met) && Arrived(met, m', First(m.fates), cause, reply);
    OrderlyWait(m, met);
    OrderlyChain(m0, m, met);
    if !First(m.fates).Refused? { OrderlyArrives(m0, m, met, m', cause); }
  }

  /** A call that needs no preparation. */
  lemma OrderlyAlone(m: Moment, m': Moment, cause: Step, reply: Reply)
    requires Made(m, m', cause, reply) && !cause.Disappear? && !AddsPartition(cause)
    ensures Orderly(m, m')
  {
    hide OrderlyAt, FromFates;
    OrderlySelf(m);
    OrderlyCall(m, m, m', cause, reply);
  }

  lemma OrderlyArrives(m0: Moment, m: Moment, met: Moment, m': Moment, cause: Step)
    requires Orderly(m0, met) && Waited(m, met) && Ready(m0, m, cause) && m0.log <= m.log
    requires m'.log == met.log + [cause] && m'.mine == met.mine + {|met.log|} && m'.fates == met.fates
    ensures Orderly(m0, m')
  {
    hide SavedSince, HandledSince, FromFates;
    var i := |met.log|;
    assert SameUpTo(met.log, met.mine, m'.log, m'.mine, i);
    forall k | |m0.log| <= k < |m'.log| && k !in m'.mine ensures FromFates(m0.fates, m'.log[k]) {
      assert m'.log[k] == met.log[k];
    }
    forall k | k in m'.mine && |m0.log| <= k ensures OrderlyAt(m'.log, m'.mine, |m0.log|, k) {
      if k < i {
        OrderlyMoves(met.log, met.mine, m'.log, m'.mine, |m0.log|, k);
      } else {
        assert SameUpTo(m.log, m.mine, m'.log, m'.mine, |m.log|);
        if AddsPartition(cause) {
          SavedMoves(m.log, m.mine, m'.log, m'.mine, |m.log|, i, |m0.log|, ParentName(cause.origin));
        }
        if cause.Disappear? {
          HandledMoves(m.log, m.mine, m'.log, m'.mine, |m.log|, i, |m0.log|, PARENT_DEVICE_LABEL, cause.seen.name);
        }
      }
    }
  }

  // ---------------------------------------------------------------- clients that create nothing

  /** In between, this client has been orderly and has created nothing. */
  ghost predicate Tidy(m: Moment, m': Moment) {
    && Orderly(m, m')
    && forall i | i in m'.mine && |m.log| <= i < |m'.log| :: !m'.log[i].Creates()
  }

  lemma TidySelf(m: Moment)
    requires forall i | i in m.mine :: i < |m.log|
    ensures Tidy(m, m)
  {
    OrderlySelf(m);
  }

  lemma TidyChain(m0: Moment, m1: Moment, m2: Moment)
    requires Tidy(m0, m1) && Tidy(m1, m2)
    ensures Tidy(m0, m2)
  {
    OrderlyChain(m0, m1, m2);
  }

  lemma TidyWait(m: Moment, m': Moment)
    requires Waited(m, m')
    ensures Tidy(m, m')
  {
    OrderlyWait(m, m');
  }

  lemma TidyCall(m0: Moment, m: Moment, m': Moment, cause: Step, reply: Reply)
    requires Tidy(m0, m) && Made(m, m', cause, reply) && Ready(m0, m, cause) && !cause.Creates()
    ensures Tidy(m0, m')
  {
    hide Ready, OrderlyAt, FromFates;
    OrderlyCall(m0, m, m', cause, reply);
    OwnCall(m, m', cause, reply);
  }

  lemma OwnCall(m: Moment, m': Moment, cause: Step, reply: Reply)
    requires Made(m, m', cause, reply)
    ensures m.log <= m'.log && m.mine <= m'.mine
    ensures forall c | c in m.mine :: c < |m.log|
    ensures forall c | c in m'.mine && c !in m.mine :: c < |m'.log| && m'.log[c] == cause
  {
  }

  // ---------------------------------------------------------------- the tree

  /** No call of another client orphans a partition at its own moment. */
  ghost predicate OthersClean(m: Moment, m': Moment) {
    forall i | |m.log| <= i < |m'.log| && i !in m'.mine :: !OrphansAt(m'.log, i)
  }

  /** No call of another client crosses a window of this one's. */
  ghost predicate Uncrossed(m: Moment, m': Moment) {
    forall i | |m.log| <= i < |m'.log| && i in m'.mine :: !WindowCrossed(m'.log, m'.mine, |m.log|, i)
  }

  /** If the tree was always there, it is there at every later point exactly if the other clients take care of it
      and cross no window. */
  ghost predicate KeepsTree(m: Moment, m': Moment) {
    AlwaysTree(m.log) ==> (AlwaysTree(m'.log) <==> OthersClean(m, m') && Uncrossed(m, m'))
  }

  lemma OrderlyIsClean(m: Moment, m': Moment)
    requires Orderly(m, m')
    ensures CleanFrom(m'.log, |m.log|) <==> OthersClean(m, m') && Uncrossed(m, m')
  {
    hide OrphansAt, OrderlyAt, WindowCrossed;
    forall i | |m.log| <= i < |m'.log| && i in m'.mine
      ensures OrphansAt(m'.log, i) <==> WindowCrossed(m'.log, m'.mine, |m.log|, i)
    {
      OrphansExactly(m'.log, m'.mine, |m.log|, i);
    }
  }

  lemma OrderlyKeepsTree(m: Moment, m': Moment)
    requires Orderly(m, m')
    ensures KeepsTree(m, m')
  {
    hide AlwaysTree, CleanFrom, OthersClean, Uncrossed;
    assert m'.log[..|m.log|] == m.log;
    if AlwaysTree(m.log) {
      TreeSince(m'.log, |m.log|);
      OrderlyIsClean(m, m');
    }
  }

  /** Writers that neither create nor remove objects. */
  predicate Harmless(step: Step) { !step.Creates() && !step.Disappear? }

  /** Next to them, an orderly client keeps the tree. */
  lemma HarmlessOthersKeepTree(m: Moment, m': Moment)
    requires Orderly(m, m') && AlwaysTree(m.log) && forall step | FromFates(m.fates, step) :: Harmless(step)
    ensures AlwaysTree(m'.log)
  {
    hide OrderlyAt, FromFates, AlwaysTree, Commits;
    OrderlyKeepsTree(m, m');
  }
}
