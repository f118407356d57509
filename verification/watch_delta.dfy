/**
 * Reference counting of watched directories by the non-hierarchical file
 * watcher updater. Path events are folded into a delta map; the delta is then
 * applied to a multiset of watched directories, and the directories whose count
 * leaves or reaches zero are handed to the native watcher.
 */
module WatchDelta {
  import opened Seqs

  /** A signed change per path, as accumulated in `changedWatchedDirectories`. */
  type Delta = map<string, int>

  /** A Guava multiset of paths: a path is present only with a positive count. */
  type Counts = map<string, nat>

  ghost predicate Proper(w: Counts)
  {
    forall p :: p in w ==> w[p] > 0
  }

  /** The multiplicity of `p` (Guava's `count`). */
  function Count(w: Counts, p: string): nat
  {
    if p in w then w[p] else 0
  }

  /** The accumulated change for `p`, zero when absent. */
  function Change(d: Delta, p: string): int
  {
    if p in d then d[p] else 0
  }

  /** `increment`: a first event on a path records +1, a later one adds 1. */
  function Increment(d: Delta, path: string): (r: Delta)
    ensures r.Keys == d.Keys + {path}
    ensures Change(r, path) == Change(d, path) + 1
    ensures forall p :: p != path ==> Change(r, p) == Change(d, p)
  {
    d[path := if path in d then d[path] + 1 else 1]
  }

  /** `decrement`: a first event on a path records -1, a later one subtracts 1. */
  function Decrement(d: Delta, path: string): (r: Delta)
    ensures r.Keys == d.Keys + {path}
    ensures Change(r, path) == Change(d, path) - 1
    ensures forall p :: p != path ==> Change(r, p) == Change(d, p)
  {
    d[path := if path in d then d[path] - 1 else -1]
  }

  /** A path event produced while walking added or removed snapshots. */
  datatype PathEvent = Inc(path: string) | Dec(path: string)

  function Apply(d: Delta, e: PathEvent): Delta
  {
    match e
    case Inc(p) => Increment(d, p)
    case Dec(p) => Decrement(d, p)
  }

  /** Events applied left to right. */
  function Fold(d: Delta, events: seq<PathEvent>): Delta
    decreases |events|
  {
    if |events| == 0 then d else Fold(Apply(d, events[0]), events[1..])
  }

  /** Increments of `p` among `events`. */
  function Incs(events: seq<PathEvent>, p: string): nat
  {
    if |events| == 0 then 0 else (if events[0] == Inc(p) then 1 else 0) + Incs(events[1..], p)
  }

  /** Decrements of `p` among `events`. */
  function Decs(events: seq<PathEvent>, p: string): nat
  {
    if |events| == 0 then 0 else (if events[0] == Dec(p) then 1 else 0) + Decs(events[1..], p)
  }

  /** The paths `events` mention. */
  function Mentioned(events: seq<PathEvent>): set<string>
  {
    if |events| == 0 then {} else {events[0].path} + Mentioned(events[1..])
  }

  /**
   * After folding a batch, each path's change is its increments minus its
   * decrements, and a path has an entry iff it had one or an event mentioned it
   * (so events that cancel leave a zero entry behind).
   */
  lemma {:induction false} FoldCounts(d: Delta, events: seq<PathEvent>)
    ensures forall p :: Change(Fold(d, events), p) == Change(d, p) + Incs(events, p) - Decs(events, p)
    ensures Fold(d, events).Keys == d.Keys + Mentioned(events)
    decreases |events|
  {
    if |events| > 0 {
      FoldCounts(Apply(d, events[0]), events[1..]);
    }
  }

  /** The increment events for every path in `paths`, in order. */
  function IncAll(paths: seq<string>): (r: seq<PathEvent>)
    ensures |r| == |paths|
    ensures forall i :: 0 <= i < |paths| ==> r[i] == Inc(paths[i])
  {
    if |paths| == 0 then [] else [Inc(paths[0])] + IncAll(paths[1..])
  }

  /** The decrement events for every path in `paths`, in order. */
  function DecAll(paths: seq<string>): (r: seq<PathEvent>)
    ensures |r| == |paths|
    ensures forall i :: 0 <= i < |paths| ==> r[i] == Dec(paths[i])
  {
    if |paths| == 0 then [] else [Dec(paths[0])] + DecAll(paths[1..])
  }

  /** Incrementing every path of a list adds, per path, its number of occurrences. */
  lemma {:induction false} IncAllCounts(paths: seq<string>, p: string)
    ensures Incs(IncAll(paths), p) == Occurrences(paths, p)
    ensures Decs(IncAll(paths), p) == 0
    ensures Mentioned(IncAll(paths)) == Elements(paths)
  {
    if |paths| > 0 {
      IncAllCounts(paths[1..], p);
      assert IncAll(paths)[1..] == IncAll(paths[1..]);
      assert Elements(paths) == {paths[0]} + Elements(paths[1..]);
    }
  }

  /** Decrementing every path of a list subtracts, per path, its number of occurrences. */
  lemma {:induction false} DecAllCounts(paths: seq<string>, p: string)
    ensures Decs(DecAll(paths), p) == Occurrences(paths, p)
    ensures Incs(DecAll(paths), p) == 0
    ensures Mentioned(DecAll(paths)) == Elements(paths)
  {
    if |paths| > 0 {
      DecAllCounts(paths[1..], p);
      assert DecAll(paths)[1..] == DecAll(paths[1..]);
      assert Elements(paths) == {paths[0]} + Elements(paths[1..]);
    }
  }

  /** Folding the increments of `paths` adds each path's occurrences and gives each of them an entry. */
  lemma IncAllFold(d: Delta, paths: seq<string>)
    ensures forall p :: Change(Fold(d, IncAll(paths)), p) == Change(d, p) + Occurrences(paths, p)
    ensures Fold(d, IncAll(paths)).Keys == d.Keys + Elements(paths)
  {
    FoldCounts(d, IncAll(paths));
    forall p ensures Change(Fold(d, IncAll(paths)), p) == Change(d, p) + Occurrences(paths, p) {
      IncAllCounts(paths, p);
    }
    IncAllCounts(paths, "");
  }

  /** Folding the decrements of `paths` subtracts each path's occurrences. */
  lemma DecAllFold(d: Delta, paths: seq<string>)
    ensures forall p :: Change(Fold(d, DecAll(paths)), p) == Change(d, p) - Occurrences(paths, p)
  {
    FoldCounts(d, DecAll(paths));
    forall p ensures Change(Fold(d, DecAll(paths)), p) == Change(d, p) - Occurrences(paths, p) {
      DecAllCounts(paths, p);
    }
  }

  /** Guava's `add(path, k)`: the multiset after adding, and the count before. */
  function MultisetAdd(w: Counts, path: string, k: nat): (r: (Counts, nat))
    requires Proper(w) && k > 0
    ensures Proper(r.0)
    ensures r.1 == Count(w, path)
    ensures Count(r.0, path) == Count(w, path) + k
    ensures forall p :: p != path ==> Count(r.0, p) == Count(w, p)
    ensures r.0.Keys == w.Keys + {path}
  {
    (w[path := Count(w, path) + k], Count(w, path))
  }

  /** Guava's `remove(path, k)`: removes at most the occurrences present; returns the count before. */
  function MultisetRemove(w: Counts, path: string, k: nat): (r: (Counts, nat))
    requires Proper(w) && k > 0
    ensures Proper(r.0)
    ensures r.1 == Count(w, path)
    ensures Count(r.0, path) == if Count(w, path) <= k then 0 else Count(w, path) - k
    ensures forall p :: p != path ==> Count(r.0, p) == Count(w, p)
    ensures r.0.Keys <= w.Keys
  {
    var before := Count(w, path);
    if before <= k then (w - {path}, before) else (w[path := before - k], before)
  }

  /** A call on the native file watcher. */
  datatype WatcherCall = StopWatching(paths: set<string>) | StartWatching(paths: set<string>)

  /** What `updateWatchedDirectories` leaves behind and hands to the native watcher. */
  datatype WatchUpdate = WatchUpdate(watched: Counts, stop: set<string>, start: set<string>, calls: seq<WatcherCall>)

  /** The threshold rules for a path whose accumulated change is `c`. */
  ghost predicate Applied(w0: Counts, c: int, w: Counts, stop: set<string>, start: set<string>, p: string)
  {
    && (c > 0 ==> Count(w, p) == Count(w0, p) + c && (p in start <==> Count(w0, p) == 0) && p !in stop)
    && (c < 0 ==> Count(w, p) == (if Count(w0, p) <= -c then 0 else Count(w0, p) + c)
                  && (p in stop <==> Count(w0, p) <= -c) && p !in start)
    && (c == 0 ==> Count(w, p) == Count(w0, p) && p !in stop && p !in start)
  }

  /** Applying a non-negative change and then its opposite restores the count of `p`. */
  lemma AppliedUndone(w0: Counts, c: nat, w1: Counts, stop1: set<string>, start1: set<string>,
                      w2: Counts, stop2: set<string>, start2: set<string>, p: string)
    requires Applied(w0, c, w1, stop1, start1, p) && Applied(w1, -(c as int), w2, stop2, start2, p)
    ensures Count(w2, p) == Count(w0, p)
    ensures (p in stop2 <==> p in start1) && p !in stop1 && p !in start2
  {
  }

  /** A path the update has not touched. */
  ghost predicate Untouched(w0: Counts, w: Counts, stop: set<string>, start: set<string>, p: string)
  {
    Count(w, p) == Count(w0, p) && p !in stop && p !in start
  }

  /**
   * One entry of the delta: Guava's `remove` for a negative change, noting the
   * path to stop when nothing is left of it; `add` for a positive one, noting
   * the path to start when it was not watched before; nothing for zero.
   */
  function ApplyEntry(w: Counts, stop: set<string>, start: set<string>, path: string, c: int)
    : (r: (Counts, set<string>, set<string>))
    requires Proper(w) && path !in stop && path !in start
    ensures Proper(r.0)
    ensures Applied(w, c, r.0, r.1, r.2, path)
    ensures forall q :: q != path ==>
      Count(r.0, q) == Count(w, q) && (q in r.1 <==> q in stop) && (q in r.2 <==> q in start)
  {
    if c < 0 then
      var removed := MultisetRemove(w, path, -c);
      (removed.0, if removed.1 <= -c then stop + {path} else stop, start)
    else if c > 0 then
      var added := MultisetAdd(w, path, c);
      (added.0, stop, if added.1 == 0 then start + {path} else start)
    else
      (w, stop, start)
  }

  /**
   * `updateWatchedDirectories`: applies the delta entry by entry, in whatever
   * order the hash map enumerates them, then stops watching before it starts,
   * skipping a call whose set is empty.
   */
  method UpdateWatchedDirectories(watched: Counts, d: Delta) returns (u: WatchUpdate)
    requires Proper(watched)
    ensures Proper(u.watched)
    ensures forall p :: p in d ==> Applied(watched, d[p], u.watched, u.stop, u.start, p)
    ensures forall p :: p !in d ==> Untouched(watched, u.watched, u.stop, u.start, p)
    ensures forall p :: Applied(watched, Change(d, p), u.watched, u.stop, u.start, p)
    ensures u.stop !! u.start
    ensures u.calls == (if u.stop == {} then [] else [StopWatching(u.stop)])
                     + (if u.start == {} then [] else [StartWatching(u.start)])
    ensures |d| == 0 ==> u.calls == [] && u.watched == watched && u.stop == {} && u.start == {}
  {
    if |d| == 0 {
      return WatchUpdate(watched, {}, {}, []);
    }
    var w := watched;
    var stop: set<string> := {};
    var start: set<string> := {};
    var remaining := d.Keys;
    while remaining != {}
      invariant remaining <= d.Keys
      invariant Proper(w)
      invariant forall p :: p in d && p !in remaining ==> Applied(watched, d[p], w, stop, start, p)
      invariant forall p :: p !in d || p in remaining ==> Untouched(watched, w, stop, start, p)
      decreases remaining
    {
      var path :| path in remaining;
      var next := ApplyEntry(w, stop, start, path, d[path]);
      w, stop, start := next.0, next.1, next.2;
      remaining := remaining - {path};
    }
    forall p | p in stop
      ensures p !in start
    {
      assert p in d && p !in remaining;
      assert Applied(watched, d[p], w, stop, start, p);
    }
    var calls: seq<WatcherCall> := [];
    if stop != {} {
      calls := calls + [StopWatching(stop)];
    }
    if start != {} {
      calls := calls + [StartWatching(start)];
    }
    u := WatchUpdate(w, stop, start, calls);
  }
}
