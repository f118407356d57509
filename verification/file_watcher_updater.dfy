/**
 * `virtualFileSystemContentsChanged` of the non-hierarchical file watcher
 * updater: the roots watched for each snapshot are remembered by snapshot
 * path; a removed snapshot gives back exactly the roots stored for it, an added
 * one records and watches its roots, and both also count the subdirectories the
 * visitor emits. The folded delta is then applied in one update.
 */
module FileWatcherUpdater {
  import opened Seqs
  import opened WatchDelta
  import opened SubdirectoryVisitor

  /** The updater's state: the watched-directory multiset and the roots recorded per snapshot path. */
  datatype Updater = Updater(watched: Counts, rootsForSnapshot: map<string, seq<string>>)

  /**
   * The collaborators the updater consults: whether the watchable hierarchies
   * watch a snapshot, whether they ignore a directory, and the directories to
   * watch for a snapshot's root.
   */
  datatype Hierarchies = Hierarchies(
    shouldWatch: Snapshot -> bool,
    ignored: Snapshot -> bool,
    directoriesToWatch: Snapshot -> seq<string>)

  /** The remembered roots together with the delta accumulated so far. */
  datatype Bookkeeping = Bookkeeping(records: map<string, seq<string>>, delta: Delta)

  /** A removed snapshot whose path has no recorded roots: the source dereferences null. */
  datatype UnknownSnapshot = UnknownSnapshot(records: map<string, seq<string>>, path: string)

  datatype Removal = Removed(bookkeeping: Bookkeeping) | RemovalFailed(failure: UnknownSnapshot)

  /** Removing one watched snapshot: forget its record, give back its roots and its subdirectories. */
  function RemoveSnapshot(b: Bookkeeping, s: Snapshot, ignored: Snapshot -> bool): (r: Removal)
    ensures r.RemovalFailed? <==> s.path !in b.records
    ensures r.RemovalFailed? ==> r.failure == UnknownSnapshot(b.records, s.path)
    ensures r.Removed? ==> r.bookkeeping.records == b.records - {s.path}
    ensures r.Removed? ==> forall p ::
      Change(r.bookkeeping.delta, p) == Change(b.delta, p) - Occurrences(b.records[s.path], p) - Occurrences(SubdirectoriesToWatch(s, ignored), p)
  {
    if s.path !in b.records then RemovalFailed(UnknownSnapshot(b.records, s.path))
    else
      var paths := b.records[s.path] + SubdirectoriesToWatch(s, ignored);
      var d := Fold(b.delta, DecAll(paths));
      DecAllFold(b.delta, paths);
      AppendCounts(b.records[s.path], SubdirectoriesToWatch(s, ignored));
      Removed(Bookkeeping(b.records - {s.path}, d))
  }

  /** Adding one watched snapshot: record its roots, watch them and its subdirectories. */
  function AddSnapshot(b: Bookkeeping, s: Snapshot, roots: seq<string>, ignored: Snapshot -> bool): (r: Bookkeeping)
    ensures r.records == b.records[s.path := roots]
    ensures forall p ::
      Change(r.delta, p) == Change(b.delta, p) + Occurrences(roots, p) + Occurrences(SubdirectoriesToWatch(s, ignored), p)
    ensures r.delta.Keys == b.delta.Keys + Elements(roots) + Elements(SubdirectoriesToWatch(s, ignored))
  {
    var paths := roots + SubdirectoriesToWatch(s, ignored);
    var d := Fold(b.delta, IncAll(paths));
    IncAllFold(b.delta, paths);
    AppendCounts(roots, SubdirectoriesToWatch(s, ignored));
    Bookkeeping(b.records[s.path := roots], d)
  }

  /**
   * Adding a snapshot that had no record and removing it again restores the
   * records and leaves every path's accumulated change as it was.
   */
  lemma AddThenRemove(b: Bookkeeping, s: Snapshot, roots: seq<string>, ignored: Snapshot -> bool)
    requires s.path !in b.records
    ensures RemoveSnapshot(AddSnapshot(b, s, roots, ignored), s, ignored).Removed?
    ensures var b' := RemoveSnapshot(AddSnapshot(b, s, roots, ignored), s, ignored).bookkeeping;
      b'.records == b.records && forall p :: Change(b'.delta, p) == Change(b.delta, p)
  {
    var a := AddSnapshot(b, s, roots, ignored);
    assert a.records[s.path] == roots;
    assert a.records - {s.path} == b.records;
  }

  /** The paths of the watched snapshots in `snapshots`. */
  function WatchedPaths(snapshots: seq<Snapshot>, shouldWatch: Snapshot -> bool): (r: set<string>)
    ensures forall s :: s in snapshots && shouldWatch(s) ==> s.path in r
    ensures forall p :: p in r ==> exists s :: s in snapshots && shouldWatch(s) && s.path == p
  {
    set s | s in snapshots && shouldWatch(s) :: s.path
  }

  /**
   * Every path a removal gives back, as one list: for each watched removed
   * snapshot in turn, the roots still recorded for it and the subdirectories
   * the visitor emits for it.
   */
  function RemovedPaths(records: map<string, seq<string>>, removed: seq<Snapshot>, h: Hierarchies): seq<string>
    decreases |removed|
  {
    if |removed| == 0 then []
    else if !h.shouldWatch(removed[0]) then RemovedPaths(records, removed[1..], h)
    else
      var s := removed[0];
      (if s.path in records then records[s.path] else [])
        + SubdirectoriesToWatch(s, h.ignored)
        + RemovedPaths(records - {s.path}, removed[1..], h)
  }

  /**
   * Every path an addition watches, as one list: for each watched added
   * snapshot, the directories to watch for it and the subdirectories the
   * visitor emits for it.
   */
  function AddedPaths(added: seq<Snapshot>, h: Hierarchies): seq<string>
    decreases |added|
  {
    if |added| == 0 then []
    else
      var s := added[0];
      (if h.shouldWatch(s) then h.directoriesToWatch(s) + SubdirectoriesToWatch(s, h.ignored) else [])
        + AddedPaths(added[1..], h)
  }

  /**
   * Removing `removed` in order finds a record for every watched snapshot when
   * its turn comes: each watched path is recorded, and no two watched removed
   * snapshots share a path (the first would delete the record the second needs).
   */
  ghost predicate RemovalFindsRecords(records: map<string, seq<string>>, removed: seq<Snapshot>, h: Hierarchies)
  {
    && (forall i :: 0 <= i < |removed| && h.shouldWatch(removed[i]) ==> removed[i].path in records)
    && (forall i, j :: 0 <= i < j < |removed| && h.shouldWatch(removed[i]) && h.shouldWatch(removed[j]) ==>
          removed[i].path != removed[j].path)
  }

  /** `RemovalFindsRecords` one snapshot at a time. */
  lemma {:induction false} RemovalFindsRecordsCons(records: map<string, seq<string>>, removed: seq<Snapshot>, h: Hierarchies)
    requires |removed| > 0
    ensures h.shouldWatch(removed[0]) ==>
      (RemovalFindsRecords(records, removed, h) <==>
        removed[0].path in records && RemovalFindsRecords(records - {removed[0].path}, removed[1..], h))
    ensures !h.shouldWatch(removed[0]) ==>
      (RemovalFindsRecords(records, removed, h) <==> RemovalFindsRecords(records, removed[1..], h))
  {
    var s, rest := removed[0], removed[1..];
    var records' := if h.shouldWatch(s) then records - {s.path} else records;
    if RemovalFindsRecords(records, removed, h) {
      forall i | 0 <= i < |rest| && h.shouldWatch(rest[i])
        ensures rest[i].path in records'
      {
        assert rest[i] == removed[i + 1];
      }
      forall i, j | 0 <= i < j < |rest| && h.shouldWatch(rest[i]) && h.shouldWatch(rest[j])
        ensures rest[i].path != rest[j].path
      {
        assert rest[i] == removed[i + 1] && rest[j] == removed[j + 1];
      }
    }
    if (!h.shouldWatch(s) || s.path in records) && RemovalFindsRecords(records', rest, h) {
      forall i | 0 <= i < |removed| && h.shouldWatch(removed[i])
        ensures removed[i].path in records
      {
        if i > 0 {
          assert removed[i] == rest[i - 1];
        }
      }
      forall i, j | 0 <= i < j < |removed| && h.shouldWatch(removed[i]) && h.shouldWatch(removed[j])
        ensures removed[i].path != removed[j].path
      {
        assert removed[j] == rest[j - 1];
        if i > 0 {
          assert removed[i] == rest[i - 1];
        }
      }
    }
  }

  /** The removed snapshots, in order; unwatched ones are skipped. */
  function RemoveSnapshots(b: Bookkeeping, removed: seq<Snapshot>, h: Hierarchies): (r: Removal)
    ensures r.Removed? ==> r.bookkeeping.records == b.records - WatchedPaths(removed, h.shouldWatch)
    ensures r.Removed? ==> forall p ::
      Change(r.bookkeeping.delta, p) == Change(b.delta, p) - Occurrences(RemovedPaths(b.records, removed, h), p)
    ensures r.Removed? <==> RemovalFindsRecords(b.records, removed, h)
    ensures r.RemovalFailed? ==> r.failure.path in WatchedPaths(removed, h.shouldWatch)
    ensures r.RemovalFailed? ==> r.failure.path !in r.failure.records
    ensures r.RemovalFailed? ==> r.failure.records.Keys <= b.records.Keys
    ensures WatchedPaths(removed, h.shouldWatch) == {} ==> r == Removed(b)
    decreases |removed|
  {
    if |removed| == 0 then Removed(b)
    else
      var s := removed[0];
      RemovalFindsRecordsCons(b.records, removed, h);
      WatchedPathsCons(removed, h.shouldWatch);
      if !h.shouldWatch(s) then RemoveSnapshots(b, removed[1..], h)
      else
        match RemoveSnapshot(b, s, h.ignored)
        case RemovalFailed(f) => RemovalFailed(f)
        case Removed(b') =>
          RemovedPathsCons(b.records, removed, h);
          RemoveSnapshots(b', removed[1..], h)
  }

  /** `WatchedPaths` one snapshot at a time. */
  lemma WatchedPathsCons(snapshots: seq<Snapshot>, shouldWatch: Snapshot -> bool)
    requires |snapshots| > 0
    ensures WatchedPaths(snapshots, shouldWatch) ==
      (if shouldWatch(snapshots[0]) then {snapshots[0].path} else {}) + WatchedPaths(snapshots[1..], shouldWatch)
  {
  }

  /** The occurrences given back by a removal whose first snapshot is watched and recorded. */
  lemma {:induction false} RemovedPathsCons(records: map<string, seq<string>>, removed: seq<Snapshot>, h: Hierarchies)
    requires |removed| > 0 && h.shouldWatch(removed[0]) && removed[0].path in records
    ensures forall p ::
      Occurrences(RemovedPaths(records, removed, h), p) ==
      Occurrences(records[removed[0].path], p) + Occurrences(SubdirectoriesToWatch(removed[0], h.ignored), p) +
      Occurrences(RemovedPaths(records - {removed[0].path}, removed[1..], h), p)
  {
    var s := removed[0];
    var subdirectories := SubdirectoriesToWatch(s, h.ignored);
    var rest := RemovedPaths(records - {s.path}, removed[1..], h);
    assert RemovedPaths(records, removed, h) == records[s.path] + subdirectories + rest;
    forall p ensures Occurrences(RemovedPaths(records, removed, h), p) ==
      Occurrences(records[s.path], p) + Occurrences(subdirectories, p) + Occurrences(rest, p) {
      OccurrencesAppend(records[s.path] + subdirectories, rest, p);
      OccurrencesAppend(records[s.path], subdirectories, p);
    }
  }

  /** The added snapshots, in order; unwatched ones are skipped, a later one wins a shared path. */
  function AddSnapshots(b: Bookkeeping, added: seq<Snapshot>, h: Hierarchies): (r: Bookkeeping)
    ensures r.records.Keys == b.records.Keys + WatchedPaths(added, h.shouldWatch)
    ensures forall k :: k in b.records && k !in WatchedPaths(added, h.shouldWatch) ==> r.records[k] == b.records[k]
    ensures forall p :: Change(r.delta, p) == Change(b.delta, p) + Occurrences(AddedPaths(added, h), p)
    ensures WatchedPaths(added, h.shouldWatch) == {} ==> r == b
    decreases |added|
  {
    if |added| == 0 then b
    else
      var s := added[0];
      WatchedPathsCons(added, h.shouldWatch);
      var b' := if h.shouldWatch(s) then AddSnapshot(b, s, h.directoriesToWatch(s), h.ignored) else b;
      AddedPathsCons(added, h);
      AddSnapshots(b', added[1..], h)
  }

  /** The occurrences an addition watches, first snapshot apart from the rest. */
  lemma {:induction false} AddedPathsCons(added: seq<Snapshot>, h: Hierarchies)
    requires |added| > 0
    ensures forall p ::
      Occurrences(AddedPaths(added, h), p) ==
      (if h.shouldWatch(added[0])
       then Occurrences(h.directoriesToWatch(added[0]), p) + Occurrences(SubdirectoriesToWatch(added[0], h.ignored), p)
       else 0) +
      Occurrences(AddedPaths(added[1..], h), p)
  {
    var s := added[0];
    var own := if h.shouldWatch(s) then h.directoriesToWatch(s) + SubdirectoriesToWatch(s, h.ignored) else [];
    assert AddedPaths(added, h) == own + AddedPaths(added[1..], h);
    forall p ensures Occurrences(AddedPaths(added, h), p) == Occurrences(own, p) + Occurrences(AddedPaths(added[1..], h), p) {
      OccurrencesAppend(own, AddedPaths(added[1..], h), p);
    }
    if h.shouldWatch(s) {
      forall p ensures Occurrences(own, p) ==
        Occurrences(h.directoriesToWatch(s), p) + Occurrences(SubdirectoriesToWatch(s, h.ignored), p) {
        OccurrencesAppend(h.directoriesToWatch(s), SubdirectoriesToWatch(s, h.ignored), p);
      }
    }
  }

  /** `added[i]` is watched and no later watched added snapshot shares its path: its roots are the ones kept. */
  ghost predicate LastWatched(added: seq<Snapshot>, h: Hierarchies, i: int)
  {
    && 0 <= i < |added|
    && h.shouldWatch(added[i])
    && forall j :: i < j < |added| && h.shouldWatch(added[j]) ==> added[j].path != added[i].path
  }

  /** Each watched added snapshot that no later one overrides keeps its own roots recorded. */
  lemma {:induction false} AddSnapshotsRecordsRoots(b: Bookkeeping, added: seq<Snapshot>, h: Hierarchies, i: nat)
    requires LastWatched(added, h, i)
    ensures AddSnapshots(b, added, h).records[added[i].path] == h.directoriesToWatch(added[i])
    decreases |added|
  {
    if i == 0 {
      AddSnapshotsRecordsFirst(b, added, h);
    } else {
      var s := added[0];
      var b' := if h.shouldWatch(s) then AddSnapshot(b, s, h.directoriesToWatch(s), h.ignored) else b;
      assert AddSnapshots(b, added, h) == AddSnapshots(b', added[1..], h);
      LastWatchedTail(added, h, i);
      AddSnapshotsRecordsRoots(b', added[1..], h, i - 1);
    }
  }

  /** Dropping the first added snapshot keeps a later last-watched one last-watched. */
  lemma LastWatchedTail(added: seq<Snapshot>, h: Hierarchies, i: int)
    requires i > 0 && LastWatched(added, h, i)
    ensures LastWatched(added[1..], h, i - 1) && added[1..][i - 1] == added[i]
  {
    forall j | i - 1 < j < |added[1..]| && h.shouldWatch(added[1..][j])
      ensures added[1..][j].path != added[1..][i - 1].path
    {
      assert added[1..][j] == added[j + 1];
    }
  }

  /** The first added snapshot, when watched and not overridden later, keeps its own roots recorded. */
  lemma AddSnapshotsRecordsFirst(b: Bookkeeping, added: seq<Snapshot>, h: Hierarchies)
    requires LastWatched(added, h, 0)
    ensures AddSnapshots(b, added, h).records[added[0].path] == h.directoriesToWatch(added[0])
  {
    var s := added[0];
    var b' := AddSnapshot(b, s, h.directoriesToWatch(s), h.ignored);
    assert AddSnapshots(b, added, h) == AddSnapshots(b', added[1..], h);
    NotWatchedLater(added, h);
  }

  /** A first snapshot that no later watched snapshot shares a path with is not among the later watched paths. */
  lemma NotWatchedLater(added: seq<Snapshot>, h: Hierarchies)
    requires LastWatched(added, h, 0)
    ensures added[0].path !in WatchedPaths(added[1..], h.shouldWatch)
  {
    forall t | t in added[1..] && h.shouldWatch(t)
      ensures t.path != added[0].path
    {
      var j :| 0 <= j < |added[1..]| && added[1..][j] == t;
      assert added[j + 1] == t;
    }
  }

  /**
   * The net change one call makes to the watch count of `p`: its occurrences
   * among the added paths minus its occurrences among the removed ones.
   */
  function NetChange(records: map<string, seq<string>>, removed: seq<Snapshot>, added: seq<Snapshot>, h: Hierarchies, p: string): int
  {
    Occurrences(AddedPaths(added, h), p) - Occurrences(RemovedPaths(records, removed, h), p)
  }

  /** The outcome of `virtualFileSystemContentsChanged`. */
  datatype VfsUpdate =
    | Changed(updater: Updater, stop: set<string>, start: set<string>, calls: seq<WatcherCall>)
    | Aborted(updater: Updater, unknownPath: string)

  /**
   * `virtualFileSystemContentsChanged`: folds the removed, then the added
   * snapshots into a delta starting from nothing, and applies it. A removed
   * watched snapshot without a record aborts before anything is applied,
   * leaving the records already forgotten forgotten.
   */
  method VirtualFileSystemContentsChanged(u: Updater, removed: seq<Snapshot>, added: seq<Snapshot>, h: Hierarchies)
    returns (r: VfsUpdate)
    requires Proper(u.watched)
    ensures r.Aborted? ==> r.updater.watched == u.watched
    ensures r.Aborted? ==> r.updater.rootsForSnapshot.Keys <= u.rootsForSnapshot.Keys
    ensures r.Aborted? <==> !RemovalFindsRecords(u.rootsForSnapshot, removed, h)
    ensures r.Aborted? ==> r.unknownPath in WatchedPaths(removed, h.shouldWatch)
    ensures r.Aborted? ==> r.unknownPath !in r.updater.rootsForSnapshot
    ensures r.Changed? ==> Proper(r.updater.watched)
    ensures r.Changed? ==> forall p ::
      Applied(u.watched, NetChange(u.rootsForSnapshot, removed, added, h, p), r.updater.watched, r.stop, r.start, p)
    ensures r.Changed? ==> r.stop !! r.start
    ensures r.Changed? ==> r.calls == (if r.stop == {} then [] else [StopWatching(r.stop)])
                                   + (if r.start == {} then [] else [StartWatching(r.start)])
    ensures r.Changed? ==>
      r.updater.rootsForSnapshot.Keys == (u.rootsForSnapshot.Keys - WatchedPaths(removed, h.shouldWatch)) + WatchedPaths(added, h.shouldWatch)
    ensures r.Changed? ==> forall k :: k in r.updater.rootsForSnapshot && k !in WatchedPaths(added, h.shouldWatch) ==>
      k in u.rootsForSnapshot && r.updater.rootsForSnapshot[k] == u.rootsForSnapshot[k]
    ensures r.Changed? ==> forall i :: LastWatched(added, h, i) ==>
      added[i].path in r.updater.rootsForSnapshot && r.updater.rootsForSnapshot[added[i].path] == h.directoriesToWatch(added[i])
    ensures WatchedPaths(removed, h.shouldWatch) == {} && WatchedPaths(added, h.shouldWatch) == {} ==>
      r == Changed(u, {}, {}, [])
  {
    var start := Bookkeeping(u.rootsForSnapshot, map[]);
    match RemoveSnapshots(start, removed, h)
    case RemovalFailed(f) =>
      return Aborted(Updater(u.watched, f.records), f.path);
    case Removed(b) =>
      var b' := AddSnapshots(b, added, h);
      forall i | LastWatched(added, h, i)
        ensures added[i].path in b'.records && b'.records[added[i].path] == h.directoriesToWatch(added[i])
      {
        AddSnapshotsRecordsRoots(b, added, h, i);
      }
      var update := UpdateWatchedDirectories(u.watched, b'.delta);
      forall p ensures Applied(u.watched, NetChange(u.rootsForSnapshot, removed, added, h, p), update.watched, update.stop, update.start, p) {
        assert Change(b'.delta, p) == NetChange(u.rootsForSnapshot, removed, added, h, p);
        assert Applied(u.watched, Change(b'.delta, p), update.watched, update.stop, update.start, p);
      }
      return Changed(Updater(update.watched, b'.records), update.stop, update.start, update.calls);
  }

  /**
   * A first watched root on an empty updater: the native watcher is asked to
   * start watching exactly its one directory, which is then counted once.
   */
  method WatchFirstRoot() returns (r: VfsUpdate)
    ensures r.Changed?
    ensures Count(r.updater.watched, "x") == 1
    ensures forall p :: p != "x" ==> Count(r.updater.watched, p) == 0
    ensures r.calls == [StartWatching({"x"})]
  {
    var root := RegularFile("p");
    var h := Hierarchies(s => true, s => false, s => ["x"]);
    r := VirtualFileSystemContentsChanged(Updater(map[], map[]), [], [root], h);
    assert WatchedPaths([], h.shouldWatch) == {};
    assert r.Changed?;
    assert AddedPaths([root], h) == ["x"];
    forall p
      ensures (p in r.start <==> p == "x") && p !in r.stop
      ensures Count(r.updater.watched, p) == if p == "x" then 1 else 0
    {
      assert Occurrences(["x"], p) == if p == "x" then 1 else 0 by {
        assert ["x"][1..] == [];
      }
      assert NetChange(map[], [], [root], h, p) == if p == "x" then 1 else 0;
      assert Applied(map[], NetChange(map[], [], [root], h, p), r.updater.watched, r.stop, r.start, p);
    }
    assert r.stop == {};
    assert r.start == {"x"};
  }

  /**
   * A call that only adds one watched snapshot: it records the snapshot's roots
   * under its path and watches its roots and subdirectories once more each.
   */
  method WatchOne(u: Updater, s: Snapshot, h: Hierarchies) returns (r: VfsUpdate)
    requires Proper(u.watched) && h.shouldWatch(s)
    ensures r.Changed? && Proper(r.updater.watched)
    ensures r.updater.rootsForSnapshot == u.rootsForSnapshot[s.path := h.directoriesToWatch(s)]
    ensures forall p ::
      Applied(u.watched, Occurrences(AddedPaths([s], h), p), r.updater.watched, r.stop, r.start, p)
  {
    r := VirtualFileSystemContentsChanged(u, [], [s], h);
    assert RemovalFindsRecords(u.rootsForSnapshot, [], h);
    assert LastWatched([s], h, 0);
    WatchedPathsCons([s], h.shouldWatch);
    forall p ensures Applied(u.watched, Occurrences(AddedPaths([s], h), p), r.updater.watched, r.stop, r.start, p) {
      assert NetChange(u.rootsForSnapshot, [], [s], h, p) == Occurrences(AddedPaths([s], h), p);
    }
  }

  /**
   * A call that only removes one watched, recorded snapshot: it forgets the
   * record and gives back the stored roots and the subdirectories once each.
   */
  method UnwatchOne(u: Updater, s: Snapshot, h: Hierarchies) returns (r: VfsUpdate)
    requires Proper(u.watched) && h.shouldWatch(s) && s.path in u.rootsForSnapshot
    ensures r.Changed? && Proper(r.updater.watched)
    ensures r.updater.rootsForSnapshot == u.rootsForSnapshot - {s.path}
    ensures forall p ::
      Applied(u.watched, -(Occurrences(u.rootsForSnapshot[s.path] + SubdirectoriesToWatch(s, h.ignored), p) as int),
              r.updater.watched, r.stop, r.start, p)
  {
    r := VirtualFileSystemContentsChanged(u, [s], [], h);
    assert RemovalFindsRecords(u.rootsForSnapshot, [s], h);
    WatchedPathsCons([s], h.shouldWatch);
    assert [s][1..] == [];
    var paths := u.rootsForSnapshot[s.path] + SubdirectoriesToWatch(s, h.ignored);
    assert RemovedPaths(u.rootsForSnapshot, [s], h) == paths + RemovedPaths(u.rootsForSnapshot - {s.path}, [], h);
    assert RemovedPaths(u.rootsForSnapshot, [s], h) == paths && AddedPaths([], h) == [];
    forall p ensures Applied(u.watched, -(Occurrences(paths, p) as int), r.updater.watched, r.stop, r.start, p) {
      assert NetChange(u.rootsForSnapshot, [s], [], h, p) == -(Occurrences(paths, p) as int);
    }
  }

  /**
   * Watching a snapshot that has no record and then removing it again restores
   * the records and every watch count; the second call stops exactly what the
   * first one started.
   */
  method WatchThenUnwatch(u: Updater, s: Snapshot, h: Hierarchies) returns (first: VfsUpdate, second: VfsUpdate)
    requires Proper(u.watched) && h.shouldWatch(s) && s.path !in u.rootsForSnapshot
    ensures first.Changed? && second.Changed?
    ensures second.updater.rootsForSnapshot == u.rootsForSnapshot
    ensures forall p :: Count(second.updater.watched, p) == Count(u.watched, p)
    ensures first.stop == {} && second.start == {} && second.stop == first.start
  {
    first := WatchOne(u, s, h);
    var u1 := first.updater;
    second := UnwatchOne(u1, s, h);
    SingleSnapshotPaths(u1.rootsForSnapshot, s, h);
    forall p
      ensures Count(second.updater.watched, p) == Count(u.watched, p)
      ensures (p in second.stop <==> p in first.start) && p !in first.stop && p !in second.start
    {
      AppliedUndone(u.watched, Occurrences(AddedPaths([s], h), p), u1.watched, first.stop, first.start,
                    second.updater.watched, second.stop, second.start, p);
    }
    assert u1.rootsForSnapshot - {s.path} == u.rootsForSnapshot;
  }

  /** One watched snapshot whose record holds its own roots adds and removes the same paths. */
  lemma {:induction false} SingleSnapshotPaths(records: map<string, seq<string>>, s: Snapshot, h: Hierarchies)
    requires h.shouldWatch(s) && s.path in records && records[s.path] == h.directoriesToWatch(s)
    ensures AddedPaths([s], h) == h.directoriesToWatch(s) + SubdirectoriesToWatch(s, h.ignored)
    ensures RemovedPaths(records, [s], h) == AddedPaths([s], h)
  {
    var paths := h.directoriesToWatch(s) + SubdirectoriesToWatch(s, h.ignored);
    assert [s][1..] == [];
    assert AddedPaths([s], h) == paths + AddedPaths([], h);
    assert RemovedPaths(records, [s], h) == paths + RemovedPaths(records - {s.path}, [], h);
  }
}
