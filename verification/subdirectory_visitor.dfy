/**
 * The subdirectory visitor of the non-hierarchical file watcher updater: a
 * pre-order walk over a file-system snapshot that skips the root, prunes every
 * directory the watchable hierarchies ignore together with its subtree, and
 * emits every other directory.
 */
module SubdirectoryVisitor {

  /** A file-system location snapshot: a directory with its children, a regular file, or a missing file. */
  datatype Snapshot =
    | Directory(path: string, children: seq<Snapshot>)
    | RegularFile(path: string)
    | Missing(path: string)

  /**
   * The directories the visitor emits for `root`, in visiting order: exactly
   * the paths of the directories strictly below the root that are reached
   * without passing through an ignored directory. The root itself is skipped,
   * ignored subtrees are pruned, and files and missing entries never appear.
   */
  function SubdirectoriesToWatch(root: Snapshot, ignored: Snapshot -> bool): (r: seq<string>)
    ensures forall p :: p in r <==> WatchableBelow(root, ignored, p)
  {
    match root
    case Directory(_, children) =>
      var r := Below(children, ignored);
      assert forall p :: p in r <==> WatchableBelow(root, ignored, p) by {
        forall p ensures p in r <==> WatchableBelow(root, ignored, p) {
          if p in r {
            BelowSound(children, ignored, p);
          }
          if exists ip :: Watchable(root, ip, ignored) && PathAt(root.children, ip, ignored) == p {
            var ip :| Watchable(root, ip, ignored) && PathAt(root.children, ip, ignored) == p;
            BelowComplete(children, ip, ignored);
          }
        }
      }
      r
    case _ => []
  }

  /** What the visitor emits for a list of siblings, in order. */
  function Below(cs: seq<Snapshot>, ignored: Snapshot -> bool): seq<string>
    decreases cs, 1
  {
    if |cs| == 0 then [] else Visit(cs[0], ignored) + Below(cs[1..], ignored)
  }

  /** What the visitor emits for a non-root entry: an ignored directory prunes its subtree. */
  function Visit(s: Snapshot, ignored: Snapshot -> bool): seq<string>
    decreases s, 0
  {
    match s
    case Directory(path, children) =>
      if ignored(s) then [] else [path] + Below(children, ignored)
    case RegularFile(_) => []
    case Missing(_) => []
  }

  /**
   * `ip` leads from the sibling list `cs` to a directory through non-ignored
   * directories only: each index picks a child of the directory picked before.
   */
  ghost predicate Reaches(cs: seq<Snapshot>, ip: seq<nat>, ignored: Snapshot -> bool)
    decreases |ip|
  {
    && |ip| > 0
    && ip[0] < |cs|
    && cs[ip[0]].Directory?
    && !ignored(cs[ip[0]])
    && (|ip| == 1 || Reaches(cs[ip[0]].children, ip[1..], ignored))
  }

  /** The path of the entry `ip` leads to. */
  ghost function PathAt(cs: seq<Snapshot>, ip: seq<nat>, ignored: Snapshot -> bool): string
    requires Reaches(cs, ip, ignored)
    decreases |ip|
  {
    if |ip| == 1 then cs[ip[0]].path else PathAt(cs[ip[0]].children, ip[1..], ignored)
  }

  /** A directory strictly below `root` with no ignored directory on the way, itself included. */
  ghost predicate Watchable(root: Snapshot, ip: seq<nat>, ignored: Snapshot -> bool)
  {
    root.Directory? && Reaches(root.children, ip, ignored)
  }

  /** `p` is the path of some directory that `Watchable` admits below `root`. */
  ghost predicate WatchableBelow(root: Snapshot, ignored: Snapshot -> bool, p: string)
  {
    exists ip :: Watchable(root, ip, ignored) && PathAt(root.children, ip, ignored) == p
  }

  /** Moving the first index one sibling to the right. */
  lemma ShiftReaches(cs: seq<Snapshot>, ip: seq<nat>, ignored: Snapshot -> bool)
    requires |cs| > 0 && Reaches(cs[1..], ip, ignored)
    ensures Reaches(cs, [ip[0] + 1] + ip[1..], ignored)
    ensures PathAt(cs, [ip[0] + 1] + ip[1..], ignored) == PathAt(cs[1..], ip, ignored)
  {
    var ip' := [ip[0] + 1] + ip[1..];
    assert ip'[1..] == ip[1..];
  }

  /** Descending into the first sibling. */
  lemma DescendReaches(cs: seq<Snapshot>, ip: seq<nat>, ignored: Snapshot -> bool)
    requires |cs| > 0 && cs[0].Directory? && !ignored(cs[0]) && Reaches(cs[0].children, ip, ignored)
    ensures Reaches(cs, [0] + ip, ignored)
    ensures PathAt(cs, [0] + ip, ignored) == PathAt(cs[0].children, ip, ignored)
  {
    assert ([0] + ip)[1..] == ip;
  }

  /** Everything emitted below a sibling list is a reachable directory's path. */
  lemma {:induction false} BelowSound(cs: seq<Snapshot>, ignored: Snapshot -> bool, p: string)
    requires p in Below(cs, ignored)
    ensures exists ip :: Reaches(cs, ip, ignored) && PathAt(cs, ip, ignored) == p
    decreases cs, 1
  {
    assert |cs| > 0;
    if p in Visit(cs[0], ignored) {
      VisitSound(cs, ignored, p);
    } else {
      assert p in Below(cs[1..], ignored);
      BelowSound(cs[1..], ignored, p);
      var ip :| Reaches(cs[1..], ip, ignored) && PathAt(cs[1..], ip, ignored) == p;
      ShiftReaches(cs, ip, ignored);
    }
  }

  lemma {:induction false} VisitSound(cs: seq<Snapshot>, ignored: Snapshot -> bool, p: string)
    requires |cs| > 0 && p in Visit(cs[0], ignored)
    ensures exists ip :: Reaches(cs, ip, ignored) && PathAt(cs, ip, ignored) == p
    decreases cs[0], 0
  {
    var s := cs[0];
    assert s.Directory? && !ignored(s);
    if p == s.path {
      assert Reaches(cs, [0], ignored) && PathAt(cs, [0], ignored) == p;
    } else {
      assert p in Below(s.children, ignored);
      BelowSound(s.children, ignored, p);
      var ip :| Reaches(s.children, ip, ignored) && PathAt(s.children, ip, ignored) == p;
      DescendReaches(cs, ip, ignored);
    }
  }

  /** Every reachable directory's path is emitted. */
  lemma {:induction false} BelowComplete(cs: seq<Snapshot>, ip: seq<nat>, ignored: Snapshot -> bool)
    requires Reaches(cs, ip, ignored)
    ensures PathAt(cs, ip, ignored) in Below(cs, ignored)
    decreases |ip|, |cs|
  {
    if ip[0] == 0 {
      var s := cs[0];
      if |ip| > 1 {
        BelowComplete(s.children, ip[1..], ignored);
      }
      assert PathAt(cs, ip, ignored) in Visit(s, ignored);
    } else {
      var ip' := [ip[0] - 1] + ip[1..];
      assert ip'[1..] == ip[1..];
      assert Reaches(cs[1..], ip', ignored);
      assert PathAt(cs[1..], ip', ignored) == PathAt(cs, ip, ignored);
      BelowComplete(cs[1..], ip', ignored);
    }
  }
}
