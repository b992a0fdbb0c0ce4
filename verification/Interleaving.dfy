/**
 Any number of clients interleaving their calls. A client is known by the places of its calls in the log. It is orderly
 if it creates a partition only after saving the disk, and takes an object away only after its remove handler has
 listed the object's partitions and deleted each of them: that is all that the code of the save loops and of the
 handlers ensures. Between these two calls of one client others may run, and two of their calls do harm: exactly these
 break the device tree.
 */
module Interleaving {
  import opened BlockDevices
  import opened Naming
  import opened Generation
  import opened Machine
  import opened Lifecycle

  function ParentName(o: Origin): string { GetBlockDeviceName(o.disk.name, o.node) }

  /** A call that would create a partition. */
  predicate AddsPartition(step: Step) {
    step.Creates() && Exists(step.origin) && step.origin.index > 0 && Want(step.origin).name != ParentName(step.origin)
  }

  lemma PartitionNamesParent(o: Origin)
    requires Exists(o)
    ensures PARENT_DEVICE_LABEL in Want(o).labels <==> o.index > 0
    ensures o.index > 0 ==> Want(o).labels[PARENT_DEVICE_LABEL] == ParentName(o)
  {
    GeneratedAt(o.disk, o.node, o.ns, o.index);
  }

  // ---------------------------------------------------------------- orderly clients

  /** At `j` the client saved `name`, and it has not removed it since. */
  ghost predicate SavedAt(log: seq<Step>, mine: set<nat>, j: nat, i: nat, name: string) {
    && j < i <= |log| && j in mine && SavesAt(log, j, name)
    && forall k | k in mine && j < k < i :: !(log[k].Disappear? && log[k].seen.name == name)
  }

  ghost predicate SavedSince(log: seq<Step>, mine: set<nat>, base: nat, i: nat, name: string) {
    exists j | base <= j :: SavedAt(log, mine, j, i, name)
  }

  /** At `k` the client listed the objects with this label; it has marked each of them since, and created nothing. */
  ghost predicate HandledAt(log: seq<Step>, mine: set<nat>, k: nat, i: nat, key: string, value: string) {
    && k <= i <= |log|
    && (forall n | n in Replay(log[..k]).store.objs && Labelled(Replay(log[..k]).store.objs[n], key, value) ::
          MarkedSince(log, mine, k, i, n))
    && forall c | c in mine && k <= c < i :: !log[c].Creates()
  }

  ghost predicate MarkedSince(log: seq<Step>, mine: set<nat>, k: nat, i: nat, name: string) {
    exists d | k <= d < i :: d in mine && MarksAt(log, d, name)
  }

  lemma MarkedMoves(log: seq<Step>, mine: set<nat>, log': seq<Step>, mine': set<nat>, k: nat, i: nat, i': nat,
      name: string)
    requires MarkedSince(log, mine, k, i, name) && SameUpTo(log, mine, log', mine', i) && i <= i'
    ensures MarkedSince(log', mine', k, i', name)
  {
    var d :| k <= d < i && d in mine && MarksAt(log, d, name);
    SameEvents(log, log', i, d);
    assert MarksAt(log', d, name);
  }

  ghost predicate HandledSince(log: seq<Step>, mine: set<nat>, base: nat, i: nat, key: string, value: string) {
    exists k | base <= k :: HandledAt(log, mine, k, i, key, value)
  }

  /** The client's call at `i` is orderly, judged by what it has done since `base`. */
  ghost predicate OrderlyAt(log: seq<Step>, mine: set<nat>, base: nat, i: nat)
    requires i < |log|
  {
    && (AddsPartition(log[i]) ==> SavedSince(log, mine, base, i, ParentName(log[i].origin)))
    && (log[i].Disappear? ==> HandledSince(log, mine, base, i, PARENT_DEVICE_LABEL, log[i].seen.name))
  }

  /** The two views of a run agree up to `i`. */
  ghost predicate SameUpTo(log: seq<Step>, mine: set<nat>, log': seq<Step>, mine': set<nat>, i: nat) {
    i <= |log| && i <= |log'| && log[..i] == log'[..i] && forall k | 0 <= k < i :: k in mine <==> k in mine'
  }

  lemma SameEvents(log: seq<Step>, log': seq<Step>, i: nat, k: nat)
    requires k < i <= |log| && i <= |log'| && log[..i] == log'[..i]
    ensures log[k] == log'[k] && log[..k] == log'[..k]
  {
    assert log[..i][k] == log[k] && log'[..i][k] == log'[k];
    assert log[..i][..k] == log[..k] && log'[..i][..k] == log'[..k];
  }

  /** Later calls do not undo that a disk has been saved, unless the client itself removes it. */
  lemma SavedMoves(
    log: seq<Step>, mine: set<nat>, log': seq<Step>, mine': set<nat>, i: nat, i': nat, base: nat, name: string)
    requires SavedSince(log, mine, base, i, name) && SameUpTo(log, mine, log', mine', i) && i <= i' <= |log'|
    requires forall k | k in mine' && i <= k < i' :: !(log'[k].Disappear? && log'[k].seen.name == name)
    ensures SavedSince(log', mine', base, i', name)
  {
    var j :| base <= j && SavedAt(log, mine, j, i, name);
    SameEvents(log, log', i, j);
    forall k | k in mine' && j < k < i' ensures !(log'[k].Disappear? && log'[k].seen.name == name) {
      if k < i { SameEvents(log, log', i, k); }
    }
    assert SavedAt(log', mine', j, i', name);
  }

  /** Nor that a handler has run, unless the client itself creates something. */
  lemma HandledMoves(log: seq<Step>, mine: set<nat>, log': seq<Step>, mine': set<nat>, i: nat, i': nat, base: nat,
                     key: string, value: string)
    requires HandledSince(log, mine, base, i, key, value) && SameUpTo(log, mine, log', mine', i) && i <= i' <= |log'|
    requires forall k | k in mine' && i <= k < i' :: !log'[k].Creates()
    ensures HandledSince(log', mine', base, i', key, value)
  {
    hide Replay;
    var k :| base <= k && HandledAt(log, mine, k, i, key, value);
    assert log[..k] == log[..i][..k] == log'[..i][..k] == log'[..k];
    var objs := Replay(log[..k]).store.objs;
    forall n | n in objs && Labelled(objs[n], key, value) ensures MarkedSince(log', mine', k, i', n) {
      MarkedMoves(log, mine, log', mine', k, i, i', n);
    }
    forall c | c in mine' && k <= c < i' ensures !log'[c].Creates() {
      if c < i { SameEvents(log, log', i, c); }
    }
    assert HandledAt(log', mine', k, i', key, value);
  }

  lemma OrderlyMoves(log: seq<Step>, mine: set<nat>, log': seq<Step>, mine': set<nat>, base: nat, i: nat)
    requires i < |log| && OrderlyAt(log, mine, base, i) && SameUpTo(log, mine, log', mine', i + 1)
    ensures OrderlyAt(log', mine', base, i)
  {
    hide SavedSince, HandledSince;
    SameEvents(log, log', i + 1, i);
    if AddsPartition(log[i]) { SavedMoves(log, mine, log', mine', i, i, base, ParentName(log[i].origin)); }
    if log[i].Disappear? { HandledMoves(log, mine, log', mine', i, i, base, PARENT_DEVICE_LABEL, log[i].seen.name); }
  }

  // ---------------------------------------------------------------- the two windows

  /** Between the client's save of the disk and its creation of the partition at `i`, another client removes the
      disk, and nobody creates it again. */
  ghost predicate SaveWindowCrossed(log: seq<Step>, mine: set<nat>, base: nat, i: nat)
    requires i < |log|
  {
    AddsPartition(log[i]) &&
    exists j, k | base <= j < k < i :: CrossesSave(log, mine, j, k, i, ParentName(log[i].origin))
  }

  ghost predicate CrossesSave(log: seq<Step>, mine: set<nat>, j: nat, k: nat, i: nat, name: string) {
    && SavedAt(log, mine, j, i, name) && k !in mine && RemovesAt(log, k, name)
    && forall c | k < c < i :: !CreatesAt(log, c, name)
  }

  /** Between the listing by the client's remove handler and its removal of the object at `i`, another client creates a
      partition of the object, and nobody deletes it. */
  ghost predicate RemovalWindowCrossed(log: seq<Step>, mine: set<nat>, base: nat, i: nat)
    requires i < |log|
  {
    log[i].Disappear? && exists k, c | base <= k <= c < i :: CrossesRemoval(log, mine, k, c, i, log[i].seen.name)
  }

  ghost predicate CrossesRemoval(log: seq<Step>, mine: set<nat>, k: nat, c: nat, i: nat, name: string)
    requires c < |log|
  {
    && HandledAt(log, mine, k, i, PARENT_DEVICE_LABEL, name)
    && c !in mine && AddsPartition(log[c]) && ParentName(log[c].origin) == name
    && CreatesAt(log, c, Want(log[c].origin).name)
    && forall d | c < d < i :: !MarksAt(log, d, Want(log[c].origin).name)
  }

  ghost predicate WindowCrossed(log: seq<Step>, mine: set<nat>, base: nat, i: nat)
    requires i < |log|
  {
    && Commits(Replay(log[..i]), log[i])
    && (SaveWindowCrossed(log, mine, base, i) || RemovalWindowCrossed(log, mine, base, i))
  }

  /** An orderly creation of a partition orphans it if and only if its window was crossed. */
  lemma CreationOrphansExactly(log: seq<Step>, mine: set<nat>, base: nat, i: nat)
    requires i < |log| && OrderlyAt(log, mine, base, i) && Commits(Replay(log[..i]), log[i]) && log[i].Creates()
    ensures OrphansAt(log, i) <==> SaveWindowCrossed(log, mine, base, i)
  {
    var o := log[i].origin;
    PartitionNamesParent(o);
    if AddsPartition(log[i]) {
      var name := ParentName(o);
      if name !in Replay(log[..i]).store.objs {
        var j :| base <= j && SavedAt(log, mine, j, i, name);
        OneStep(log, j, name);
        var k := GoneMeansRemoved(log, j + 1, i, name);
        assert CrossesSave(log, mine, j, k, i, name);
      }
      if j, k :| base <= j < k < i && CrossesSave(log, mine, j, k, i, name) {
        RemovedStaysAway(log, k, i, name);
      }
    }
  }

  /** An orderly removal orphans a partition if and only if its window was crossed. */
  lemma RemovalOrphansExactly(log: seq<Step>, mine: set<nat>, base: nat, i: nat)
    requires i < |log| && OrderlyAt(log, mine, base, i) && Commits(Replay(log[..i]), log[i]) && log[i].Disappear?
    ensures OrphansAt(log, i) <==> RemovalWindowCrossed(log, mine, base, i)
  {
    hide Commits, Replay;
    var name := log[i].seen.name;
    var objs := Replay(log[..i]).store.objs;
    if HasLiveChild(objs, name) {
      var n :| n in objs && Labelled(objs[n], PARENT_DEVICE_LABEL, name) && !objs[n].terminating;
      var k :| base <= k && HandledAt(log, mine, k, i, PARENT_DEVICE_LABEL, name);
      OneStep(log, i, name);
      var c := LateChild(log, mine, k, i, name, n);
      assert CrossesRemoval(log, mine, k, c, i, name);
    }
    if k, c :| base <= k <= c < i && CrossesRemoval(log, mine, k, c, i, name) {
      var n := Want(log[c].origin).name;
      LiveUntilMarked(log, c, i, n);
      PartitionNamesParent(log[c].origin);
      assert StoredAs(objs, n, Want(log[c].origin).labels);
    }
  }

  /** A partition that is live after its disk's handler has run was created after the handler's listing. */
  lemma LateChild(log: seq<Step>, mine: set<nat>, k: nat, i: nat, parent: string, n: string) returns (c: nat)
    requires HandledAt(log, mine, k, i, PARENT_DEVICE_LABEL, parent) && n != parent
    requires var objs := Replay(log[..i]).store.objs;
             n in objs && Labelled(objs[n], PARENT_DEVICE_LABEL, parent) && !objs[n].terminating
    ensures k <= c < i && c !in mine && CreatesAt(log, c, n) && Want(log[c].origin).name == n
    ensures AddsPartition(log[c]) && ParentName(log[c].origin) == parent
    ensures forall d | c < d < i :: !MarksAt(log, d, n)
  {
    hide Replay;
    c := CreationOf(log, i, n);
    assert StoredAs(Replay(log[..i]).store.objs, n, Want(log[c].origin).labels);
    PartitionNamesParent(log[c].origin);
    if c < k { EarlyChildIsMarked(log, mine, k, i, parent, n, c); }
  }

  lemma EarlyChildIsMarked(log: seq<Step>, mine: set<nat>, k: nat, i: nat, parent: string, n: string, c: nat)
    requires HandledAt(log, mine, k, i, PARENT_DEVICE_LABEL, parent) && AliveSince(log, c, i, n) && c < k
    requires Labelled(Want(log[c].origin), PARENT_DEVICE_LABEL, parent)
    ensures Replay(log[..i]).store.objs[n].terminating
  {
    assert StoredAs(Replay(log[..k]).store.objs, n, Want(log[c].origin).labels);
  }

  lemma OrphansExactly(log: seq<Step>, mine: set<nat>, base: nat, i: nat)
    requires i < |log| && OrderlyAt(log, mine, base, i)
    ensures OrphansAt(log, i) <==> WindowCrossed(log, mine, base, i)
  {
    if Commits(Replay(log[..i]), log[i]) {
      if log[i].Creates() { CreationOrphansExactly(log, mine, base, i); }
      if log[i].Disappear? { RemovalOrphansExactly(log, mine, base, i); }
    }
  }

  // ---------------------------------------------------------------- whole runs

  ghost predicate OrphansAt(log: seq<Step>, i: nat)
    requires i < |log|
  {
    Orphans(Replay(log[..i]), log[i])
  }

  /** The run up to its end orphans nothing from `base` on. */
  ghost predicate CleanFrom(log: seq<Step>, base: nat) { forall i | base <= i < |log| :: !OrphansAt(log, i) }

  lemma {:induction false} TreeSince(log: seq<Step>, base: nat)
    requires base <= |log| && AlwaysTree(log[..base])
    ensures AlwaysTree(log) <==> CleanFrom(log, base)
  {
    if base == |log| {
      assert log[..base] == log;
    } else {
      hide OrphansAt, Replay;
      var n := |log| - 1;
      assert log[..n][..base] == log[..base];
      TreeSince(log[..n], base);
      CleanOneMore(log, base);
      ReachableInv(log[..n]);
      TreeOneMore(log);
    }
  }

  lemma CleanOneMore(log: seq<Step>, base: nat)
    requires base < |log|
    ensures var n := |log| - 1; CleanFrom(log, base) <==> CleanFrom(log[..n], base) && !OrphansAt(log, n)
  {
    hide Orphans, Replay;
    var n := |log| - 1;
    forall i | base <= i < n ensures OrphansAt(log[..n], i) <==> OrphansAt(log, i) {
      assert log[..n][..i] == log[..i] && log[..n][i] == log[i];
    }
  }

  lemma TreeOneMore(log: seq<Step>)
    requires log != []
    ensures var n := |log| - 1; AlwaysTree(log) <==> AlwaysTree(log[..n]) && !OrphansAt(log, n)
  {
    hide Orphans;
    var n := |log| - 1;
    ReachableInv(log[..n]);
    if AlwaysTree(log[..n]) { TreeKeptExactly(Replay(log[..n]), log[n]); }
  }

  /** Every call is an orderly one of some client. */
  ghost predicate AllOrderly(log: seq<Step>, clients: seq<set<nat>>) {
    forall i | 0 <= i < |log| :: HasClient(log, clients, i)
  }

  ghost predicate HasClient(log: seq<Step>, clients: seq<set<nat>>, i: nat)
    requires i < |log|
  {
    exists c | 0 <= c < |clients| :: Issues(log, clients[c], i)
  }

  ghost predicate Issues(log: seq<Step>, mine: set<nat>, i: nat)
    requires i < |log|
  {
    i in mine && OrderlyAt(log, mine, 0, i)
  }

  /** However many clients run their scans, add events, reconciles, state events, edits and removals at the same
      time, the tree holds at every point of the run if and only if no call of a client crosses the window of another
      one's. */
  lemma TreeExactlyInWindows(log: seq<Step>, clients: seq<set<nat>>)
    requires AllOrderly(log, clients)
    ensures AlwaysTree(log) <==> NoneCrossed(log, clients)
  {
    hide OrphansAt, OrderlyAt, WindowCrossed;
    assert log[..0] == [];
    TreeSince(log, 0);
    if CleanFrom(log, 0) {
      forall c, i | 0 <= c < |clients| && 0 <= i < |log| && Issues(log, clients[c], i)
        ensures !WindowCrossed(log, clients[c], 0, i)
      {
        OrphansExactly(log, clients[c], 0, i);
      }
    }
    if NoneCrossed(log, clients) {
      forall i | 0 <= i < |log| ensures !OrphansAt(log, i) {
        assert HasClient(log, clients, i);
        var c :| 0 <= c < |clients| && Issues(log, clients[c], i);
        OrphansExactly(log, clients[c], 0, i);
      }
    }
  }

  ghost predicate NoneCrossed(log: seq<Step>, clients: seq<set<nat>>) {
    forall c, i | 0 <= c < |clients| && 0 <= i < |log| && Issues(log, clients[c], i) ::
        !WindowCrossed(log, clients[c], 0, i)
  }
}
