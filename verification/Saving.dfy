/** What the startup scan saves, and why its one stale list does no harm. */
module Saving {
  import opened Strings
  import opened BlockDevices
  import opened Naming
  import opened Generation
  import opened Machine

  /** A scanned disk's devices; a disk that Longhorn created has none. */
  function WantedOn(disk: Disk, node: string, ns: string): seq<BlockDevice> {
    if IsLonghornBlockDevice(disk.busPath) then [] else Generate(disk, node, ns)
  }

  /** The devices of all scanned disks, disk by disk. */
  function Wanted(disks: seq<Disk>, node: string, ns: string): seq<BlockDevice> {
    if disks == [] then [] else Wanted(disks[..|disks| - 1], node, ns) + WantedOn(disks[|disks| - 1], node, ns)
  }

  function Origins(disk: Disk, node: string, ns: string): seq<Origin> {
    seq(|disk.partitions| + 1, i requires 0 <= i => Origin(disk, node, ns, i))
  }

  function SourcesOn(disk: Disk, node: string, ns: string): seq<Origin> {
    if IsLonghornBlockDevice(disk.busPath) then [] else Origins(disk, node, ns)
  }

  /** Where each of them comes from. */
  function Sources(disks: seq<Disk>, node: string, ns: string): seq<Origin> {
    if disks == [] then [] else Sources(disks[..|disks| - 1], node, ns) + SourcesOn(disks[|disks| - 1], node, ns)
  }

  predicate Match(sources: seq<Origin>, bds: seq<BlockDevice>) {
    |sources| == |bds| && forall i | 0 <= i < |bds| :: Exists(sources[i]) && Want(sources[i]) == bds[i]
  }

  lemma OriginsMatch(disk: Disk, node: string, ns: string)
    ensures Match(Origins(disk, node, ns), Generate(disk, node, ns))
  {
  }

  lemma MatchConcat(s1: seq<Origin>, b1: seq<BlockDevice>, s2: seq<Origin>, b2: seq<BlockDevice>)
    requires Match(s1, b1) && Match(s2, b2)
    ensures Match(s1 + s2, b1 + b2)
  {
  }

  lemma {:induction false} SourcesMatch(disks: seq<Disk>, node: string, ns: string)
    ensures Match(Sources(disks, node, ns), Wanted(disks, node, ns)) && ParentsFirst(Wanted(disks, node, ns))
  {
    if disks != [] {
      var before, disk := disks[..|disks| - 1], disks[|disks| - 1];
      SourcesMatch(before, node, ns);
      OriginsMatch(disk, node, ns);
      GeneratedParentsFirst(disk, node, ns);
      MatchConcat(
        Sources(before, node, ns), Wanted(before, node, ns), SourcesOn(disk, node, ns), WantedOn(disk, node, ns));
      ParentsFirstConcat(Wanted(before, node, ns), WantedOn(disk, node, ns));
    }
  }

  /** The scan saves nothing that Longhorn created. */
  lemma {:induction false} SourcesNotLonghorn(disks: seq<Disk>, node: string, ns: string)
    ensures forall i | 0 <= i < |Sources(disks, node, ns)| :: Sources(disks, node, ns)[i] in NotLonghorn()
  {
    if disks != [] {
      SourcesNotLonghorn(disks[..|disks| - 1], node, ns);
      var disk := disks[|disks| - 1];
      LonghornExactly(disk.busPath);
      assert forall i | 0 <= i < |SourcesOn(disk, node, ns)| :: SourcesOn(disk, node, ns)[i] in NotLonghorn();
    }
  }

  // ---------------------------------------------------------------- which devices are scanned

  /** The scan takes in this disk. */
  ghost predicate Scanned(disks: seq<Disk>, disk: Disk) { disk in disks && !Occurs(disk.busPath, "longhorn") }

  /** Every device of every scanned disk whose bus path does not have "longhorn" in it is saved. */
  lemma {:induction false} NoDiskIsLeftOut(disks: seq<Disk>, node: string, ns: string, disk: Disk, i: nat)
    requires Scanned(disks, disk) && i <= |disk.partitions|
    ensures Generate(disk, node, ns)[i] in Wanted(disks, node, ns)
  {
    var before, last := disks[..|disks| - 1], disks[|disks| - 1];
    if disk == last {
      LonghornExactly(disk.busPath);
    } else {
      NoDiskIsLeftOut(before, node, ns, disk, i);
    }
  }

  /** And nothing else is. */
  lemma {:induction false} NothingElseIsSaved(disks: seq<Disk>, node: string, ns: string, bd: BlockDevice)
    returns (disk: Disk, i: nat)
    requires bd in Wanted(disks, node, ns)
    ensures Scanned(disks, disk) && i <= |disk.partitions| && bd == Generate(disk, node, ns)[i]
  {
    var before, last := disks[..|disks| - 1], disks[|disks| - 1];
    LonghornExactly(last.busPath);
    if bd in Wanted(before, node, ns) {
      disk, i := NothingElseIsSaved(before, node, ns, bd);
    } else {
      disk := last;
      i :| 0 <= i <= |last.partitions| && bd == Generate(last, node, ns)[i];
    }
  }

  /** The kernel lists every device of the scanned disks once. */
  ghost predicate DistinctScan(disks: seq<Disk>) {
    && (forall a | 0 <= a < |disks| && !Occurs(disks[a].busPath, "longhorn") :: DistinctParts(disks[a]))
    && (forall a, b | 0 <= a < b < |disks| :: Apart(disks[a], disks[b]))
  }

  ghost predicate Apart(one: Disk, other: Disk) {
    !Occurs(one.busPath, "longhorn") && !Occurs(other.busPath, "longhorn") ==>
      forall i, j | 0 <= i <= |one.partitions| && 0 <= j <= |other.partitions| ::
          DeviceName(one, i) != DeviceName(other, j)
  }

  lemma {:induction false} DistinctScanNames(disks: seq<Disk>, node: string, ns: string)
    requires DistinctScan(disks)
    ensures DistinctNames(Wanted(disks, node, ns))
  {
    if disks != [] {
      var n := |disks| - 1;
      var before, last := disks[..n], disks[n];
      var old_, new_ := Wanted(before, node, ns), WantedOn(last, node, ns);
      DistinctScanNames(before, node, ns);
      LonghornExactly(last.busPath);
      if !IsLonghornBlockDevice(last.busPath) { GeneratedDistinct(last, node, ns); }
      forall a, b | 0 <= a < |old_| && 0 <= b < |new_| ensures old_[a].name != new_[b].name {
        var disk, i := NothingElseIsSaved(before, node, ns, old_[a]);
        var c :| 0 <= c < n && before[c] == disk;
        assert Apart(disks[c], disks[n]);
        GeneratedAt(disk, node, ns, i);
        GeneratedAt(last, node, ns, b);
        if old_[a].name == new_[b].name { NameDeterminesDevice(DeviceName(disk, i), DeviceName(last, b), node); }
      }
    }
  }

  // ---------------------------------------------------------------- one list, or a new list before each save

  /** One save against a snapshot of the store, when the call is smooth. */
  function SaveAgainst(s: Store, bd: BlockDevice, snapshot: Objects): Option<Store> {
    Commit(s, if bd.name in snapshot then Update(Merge(snapshot[bd.name], bd, true)) else Create(bd))
  }

  /** The scan as written: every save against one list taken before the loop; the first error ends it. */
  function ScanOnce(s: Store, bds: seq<BlockDevice>, snapshot: Objects): (Store, bool)
    decreases |bds|
  {
    if bds == [] then (s, true)
    else match SaveAgainst(s, bds[0], snapshot)
      case None => (s, false)
      case Some(s') => ScanOnce(s', bds[1..], snapshot)
  }

  /** The scan as one would specify it: list again before each save. */
  function ScanRelisting(s: Store, bds: seq<BlockDevice>): (Store, bool)
    decreases |bds|
  {
    if bds == [] then (s, true)
    else match SaveAgainst(s, bds[0], s.objs)
      case None => (s, false)
      case Some(s') => ScanRelisting(s', bds[1..])
  }

  predicate Keyed(s: Store) { forall n | n in s.objs :: s.objs[n].name == n && 0 < s.objs[n].version <= s.rev }

  /** The snapshot still shows what is stored under the names that are yet to be saved. */
  predicate Current(s: Store, bds: seq<BlockDevice>, snapshot: Objects) {
    forall i | 0 <= i < |bds| ::
      var n := bds[i].name; (n in snapshot <==> n in s.objs) && (n in s.objs ==> snapshot[n] == s.objs[n])
  }

  lemma FreshSaveCommits(s: Store, bd: BlockDevice)
    requires Keyed(s)
    ensures SaveAgainst(s, bd, s.objs).Some?
    ensures var s' := SaveAgainst(s, bd, s.objs).value;
            && Keyed(s') && s'.objs.Keys == s.objs.Keys + {bd.name} && s'.objs[bd.name].version == s.rev + 1
            && forall n | n in s.objs && n != bd.name :: s'.objs[n] == s.objs[n]
  {
  }

  /** Re-listing never fails without interference. */
  lemma {:induction false} RelistingSucceeds(s: Store, bds: seq<BlockDevice>)
    requires Keyed(s)
    ensures ScanRelisting(s, bds).1
    decreases |bds|
  {
    if bds != [] {
      FreshSaveCommits(s, bds[0]);
      RelistingSucceeds(SaveAgainst(s, bds[0], s.objs).value, bds[1..]);
    }
  }

  /** The object is newer than the snapshot, or was not in it. */
  predicate Outdated(s: Store, snapshot: Objects, n: string) {
    n in s.objs && (n in snapshot ==> snapshot[n].name == n && snapshot[n].version < s.objs[n].version)
  }

  /** A device that was saved since the snapshot was taken makes the scan fail when it comes up again. */
  lemma {:induction false} OutdatedFails(s: Store, bds: seq<BlockDevice>, snapshot: Objects, i: nat)
    requires Keyed(s) && i < |bds| && Outdated(s, snapshot, bds[i].name)
    requires forall n | n in snapshot :: snapshot[n].name == n && snapshot[n].version <= s.rev
    ensures !ScanOnce(s, bds, snapshot).1
    decreases |bds|
  {
    var saved := SaveAgainst(s, bds[0], snapshot);
    if saved.Some? {
      if i == 0 {
        assert false;
      } else {
        assert bds[1..][i - 1] == bds[i];
        OutdatedFails(saved.value, bds[1..], snapshot, i - 1);
      }
    }
  }

  lemma {:induction false} CurrentScan(s: Store, bds: seq<BlockDevice>, snapshot: Objects)
    requires Keyed(s) && Current(s, bds, snapshot)
    requires forall n | n in snapshot :: snapshot[n].name == n && snapshot[n].version <= s.rev
    ensures ScanOnce(s, bds, snapshot).1 <==> DistinctNames(bds)
    ensures DistinctNames(bds) ==> ScanOnce(s, bds, snapshot) == ScanRelisting(s, bds)
    decreases |bds|
  {
    if bds != [] {
      var name, rest := bds[0].name, bds[1..];
      assert SaveAgainst(s, bds[0], snapshot) == SaveAgainst(s, bds[0], s.objs) by {
        assert name in s.objs ==> snapshot[name] == s.objs[name];
      }
      FreshSaveCommits(s, bds[0]);
      var s' := SaveAgainst(s, bds[0], s.objs).value;
      if k :| 0 <= k < |rest| && rest[k].name == name {
        assert bds[k + 1].name == bds[0].name;
        OutdatedFails(s', rest, snapshot, k);
      } else {
        forall i | 0 <= i < |rest|
          ensures var n := rest[i].name;
                  (n in snapshot <==> n in s'.objs) && (n in s'.objs ==> snapshot[n] == s'.objs[n])
        {
          assert rest[i] == bds[i + 1];
        }
        CurrentScan(s', rest, snapshot);
        assert DistinctNames(bds) <==> DistinctNames(rest) by {
          assert forall i | 0 <= i < |rest| :: rest[i] == bds[i + 1];
          assert forall i | 0 < i < |bds| :: bds[i] == rest[i - 1];
        }
      }
    }
  }

  /** Without other writers, saving everything against one list taken before the loop succeeds exactly when the scanned
      names are distinct, and then leaves the store that re-listing before each save would leave. */
  lemma StaleListIsHarmless(s: Store, bds: seq<BlockDevice>)
    requires Keyed(s)
    ensures ScanOnce(s, bds, s.objs).1 <==> DistinctNames(bds)
    ensures DistinctNames(bds) ==> ScanOnce(s, bds, s.objs) == ScanRelisting(s, bds)
    ensures ScanRelisting(s, bds).1
  {
    CurrentScan(s, bds, s.objs);
    RelistingSucceeds(s, bds);
  }

  /** The object that a save leaves: the scanned status in what was there, Spec included, or else the scanned object
      itself. */
  predicate Recorded(pre: Objects, post: Objects, bd: BlockDevice) {
    && bd.name in post
    && var recorded := if bd.name in pre then pre[bd.name].(deviceStatus := bd.deviceStatus) else bd;
       post[bd.name] == recorded.(version := post[bd.name].version)
  }

  /** After an undisturbed scan every scanned device is recorded, and no other object was touched. */
  lemma {:induction false} ScanRecords(s: Store, bds: seq<BlockDevice>)
    requires Keyed(s) && DistinctNames(bds)
    ensures var post := ScanRelisting(s, bds).0.objs;
            && (forall i | 0 <= i < |bds| :: Recorded(s.objs, post, bds[i]))
            && (forall n | n in s.objs || n in post :: Find(bds, n).None? ==>
                n in s.objs && n in post && post[n] == s.objs[n])
    decreases |bds|
  {
    if bds != [] {
      FreshSaveCommits(s, bds[0]);
      var s', rest := SaveAgainst(s, bds[0], s.objs).value, bds[1..];
      assert DistinctNames(rest);
      ScanRecords(s', rest);
      var post := ScanRelisting(s, bds).0.objs;
      assert post == ScanRelisting(s', rest).0.objs;
      assert Find(rest, bds[0].name).None?;
      assert Recorded(s.objs, post, bds[0]);
      forall i | 0 < i < |bds| ensures Recorded(s.objs, post, bds[i]) {
        assert rest[i - 1] == bds[i] && Recorded(s'.objs, post, rest[i - 1]);
      }
    }
  }

  /** A scanned device is stored under its own name with its scanned status; what was stored before keeps all else, Spec
      included, and what is new has the scanned Spec. */
  predicate ScanStored(pre: Objects, post: Objects, disk: Disk, i: nat, node: string)
    requires i <= |disk.partitions|
  {
    var n := DeviceName(disk, i) + "-" + node;
    && n in post && StatusRead(post[n].deviceStatus, disk, i)
    && if n in pre then
         post[n] == pre[n].(deviceStatus := post[n].deviceStatus, version := post[n].version)
       else
         SpecRead(post[n].spec, disk, i, node)
  }

  /** Some scanned device has this object name. */
  ghost predicate IsScannedName(disks: seq<Disk>, node: string, n: string) {
    exists disk, i | Scanned(disks, disk) && 0 <= i <= |disk.partitions| :: n == DeviceName(disk, i) + "-" + node
  }

  /** What an undisturbed scan of these disks makes of the objects. */
  ghost predicate ScanLeaves(pre: Objects, post: Objects, disks: seq<Disk>, node: string) {
    && (forall disk, i | Scanned(disks, disk) && 0 <= i <= |disk.partitions| :: ScanStored(pre, post, disk, i, node))
    && forall n | n in pre || n in post ::
         IsScannedName(disks, node, n) || (n in pre && n in post && post[n] == pre[n])
  }

  /** It succeeds and records exactly the scanned devices. */
  lemma ScanStores(s: Store, disks: seq<Disk>, node: string, ns: string)
    requires Keyed(s) && DistinctScan(disks)
    ensures var scan := ScanOnce(s, Wanted(disks, node, ns), s.objs);
            scan.1 && ScanLeaves(s.objs, scan.0.objs, disks, node)
  {
    hide Generate, StatusRead, SpecRead, Wanted, Occurs, ScanOnce, ScanRelisting, DistinctScan, Recorded;
    var bds := Wanted(disks, node, ns);
    DistinctScanNames(disks, node, ns);
    StaleListIsHarmless(s, bds);
    ScanRecords(s, bds);
    var post := ScanOnce(s, bds, s.objs).0.objs;
    forall disk, i | Scanned(disks, disk) && 0 <= i <= |disk.partitions|
      ensures ScanStored(s.objs, post, disk, i, node)
    {
      GeneratedReads(disk, node, ns, i);
      NoDiskIsLeftOut(disks, node, ns, disk, i);
      var k :| 0 <= k < |bds| && bds[k] == Generate(disk, node, ns)[i];
      RecordedIsStored(s.objs, post, disk, node, ns, i);
    }
    forall n | (n in s.objs || n in post) && Find(bds, n).Some? ensures IsScannedName(disks, node, n) {
      var disk, i := NothingElseIsSaved(disks, node, ns, Find(bds, n).value);
      GeneratedReads(disk, node, ns, i);
    }
  }

  lemma RecordedIsStored(pre: Objects, post: Objects, disk: Disk, node: string, ns: string, i: nat)
    requires i <= |disk.partitions| && i < |Generate(disk, node, ns)|
    requires Recorded(pre, post, Generate(disk, node, ns)[i])
    ensures ScanStored(pre, post, disk, i, node)
  {
    hide Generate, StatusRead, SpecRead;
    GeneratedReads(disk, node, ns, i);
  }
}
