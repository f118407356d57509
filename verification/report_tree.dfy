/**
 * `treeFromTrie` of the configuration cache report: a trie of node paths
 * becomes a view tree whose children are ordered by the string form of their
 * labels, whose nodes without children start collapsed, and whose children are
 * expanded exactly when their parent has a single child.
 */
module ReportTree {
  import opened Seqs

  datatype ViewState = Collapsed | Expanded

  /** A trie as the report reads it: its size and its entries, label to sub-trie. */
  datatype Trie<T> = Trie(size: nat, entries: seq<(T, Trie<T>)>)

  datatype Tree<T> = Tree(node: T, children: seq<Tree<T>>, state: ViewState)

  /** Lexicographic order on strings, character by character. */
  predicate StringLe(a: string, b: string)
  {
    if |a| == 0 then true
    else if |b| == 0 then false
    else if a[0] != b[0] then a[0] < b[0]
    else StringLe(a[1..], b[1..])
  }

  lemma {:induction false} StringLeTotal(a: string, b: string)
    ensures StringLe(a, b) || StringLe(b, a)
  {
    if |a| > 0 && |b| > 0 && a[0] == b[0] {
      StringLeTotal(a[1..], b[1..]);
    }
  }

  lemma {:induction false} StringLeTransitive(a: string, b: string, c: string)
    requires StringLe(a, b) && StringLe(b, c)
    ensures StringLe(a, c)
  {
    if |a| > 0 && |b| > 0 && |c| > 0 && a[0] == b[0] && b[0] == c[0] {
      StringLeTransitive(a[1..], b[1..], c[1..]);
    }
  }

  lemma {:induction false} StringLeAntisymmetric(a: string, b: string)
    requires StringLe(a, b) && StringLe(b, a)
    ensures a == b
  {
    if |a| > 0 && |b| > 0 {
      StringLeAntisymmetric(a[1..], b[1..]);
      assert a == [a[0]] + a[1..] && b == [b[0]] + b[1..];
    }
  }

  /** `s` is ordered by the string keys of its elements. */
  ghost predicate SortedBy<E>(s: seq<E>, key: E -> string)
  {
    forall i, j :: 0 <= i < j < |s| ==> StringLe(key(s[i]), key(s[j]))
  }

  /** `x` placed after every element of `sorted` whose key is strictly smaller. */
  function InsertByKey<E>(x: E, sorted: seq<E>, key: E -> string): (r: seq<E>)
    ensures multiset(r) == multiset(sorted) + multiset{x}
    ensures |r| == |sorted| + 1
    ensures SortedBy(sorted, key) ==> SortedBy(r, key)
  {
    if |sorted| == 0 || StringLe(key(x), key(sorted[0])) then
      assert SortedBy(sorted, key) ==> SortedBy([x] + sorted, key) by {
        if SortedBy(sorted, key) {
          forall k | 0 <= k < |sorted|
            ensures StringLe(key(x), key(sorted[k]))
          {
            if k > 0 {
              StringLeTransitive(key(x), key(sorted[0]), key(sorted[k]));
            }
          }
          SortedPrepend(x, sorted, key);
        }
      }
      [x] + sorted
    else
      var rest := InsertByKey(x, sorted[1..], key);
      assert SortedBy(sorted, key) ==> SortedBy([sorted[0]] + rest, key) by {
        if SortedBy(sorted, key) {
          StringLeTotal(key(x), key(sorted[0]));
          forall i | 0 <= i < |sorted[1..]|
            ensures StringLe(key(sorted[0]), key(sorted[1..][i]))
          {
            assert sorted[1..][i] == sorted[i + 1];
          }
          AllKeysFollow(sorted[0], x, sorted[1..], rest, key);
          SortedPrepend(sorted[0], rest, key);
        }
      }
      assert sorted == [sorted[0]] + sorted[1..];
      [sorted[0]] + rest
  }

  /** An element whose key precedes every key of a sorted sequence can go in front of it. */
  lemma SortedPrepend<E>(x: E, s: seq<E>, key: E -> string)
    requires SortedBy(s, key)
    requires forall j :: 0 <= j < |s| ==> StringLe(key(x), key(s[j]))
    ensures SortedBy([x] + s, key)
  {
    forall i, j | 0 <= i < j < |[x] + s|
      ensures StringLe(key(([x] + s)[i]), key(([x] + s)[j]))
    {
      assert ([x] + s)[j] == s[j - 1];
      if i > 0 {
        assert ([x] + s)[i] == s[i - 1];
      }
    }
  }

  /** A key that precedes `x` and every element of `tail` precedes every element of a rearrangement of both. */
  lemma AllKeysFollow<E>(y: E, x: E, tail: seq<E>, rest: seq<E>, key: E -> string)
    requires multiset(rest) == multiset(tail) + multiset{x}
    requires StringLe(key(y), key(x))
    requires forall i :: 0 <= i < |tail| ==> StringLe(key(y), key(tail[i]))
    ensures forall j :: 0 <= j < |rest| ==> StringLe(key(y), key(rest[j]))
  {
    forall j | 0 <= j < |rest|
      ensures StringLe(key(y), key(rest[j]))
    {
      assert rest[j] in multiset(rest);
      if rest[j] != x {
        assert rest[j] in multiset(tail);
        var i :| 0 <= i < |tail| && tail[i] == rest[j];
      }
    }
  }

  /** `sortedBy`: a stable sort by string key. */
  function SortByKey<E>(s: seq<E>, key: E -> string): (r: seq<E>)
    ensures multiset(r) == multiset(s)
    ensures SortedBy(r, key)
  {
    if |s| == 0 then []
    else
      assert s == [s[0]] + s[1..];
      InsertByKey(s[0], SortByKey(s[1..], key), key)
  }

  /** The elements of `s` whose key is `k`, in order. */
  function WithKey<E>(s: seq<E>, key: E -> string, k: string): seq<E>
  {
    if |s| == 0 then [] else (if key(s[0]) == k then [s[0]] else []) + WithKey(s[1..], key, k)
  }

  lemma {:induction false} InsertByKeyStable<E>(x: E, sorted: seq<E>, key: E -> string, k: string)
    requires SortedBy(sorted, key)
    ensures WithKey(InsertByKey(x, sorted, key), key, k) ==
      (if key(x) == k then [x] else []) + WithKey(sorted, key, k)
  {
    if |sorted| == 0 || StringLe(key(x), key(sorted[0])) {
      WithKeyCons(x, sorted, key, k);
    } else {
      var y := sorted[0];
      InsertByKeyStable(x, sorted[1..], key, k);
      StringLeTotal(key(x), key(x));
      assert key(x) != key(y);
      assert sorted == [y] + sorted[1..];
      WithKeyPast(x, y, InsertByKey(x, sorted[1..], key), sorted[1..], key, k);
    }
  }

  /** Putting `y` in front of the insertion point of `x` keeps the elements with key `k` in order, as keys differ. */
  lemma WithKeyPast<E>(x: E, y: E, inserted: seq<E>, tail: seq<E>, key: E -> string, k: string)
    requires key(x) != key(y)
    requires WithKey(inserted, key, k) == (if key(x) == k then [x] else []) + WithKey(tail, key, k)
    ensures WithKey([y] + inserted, key, k) == (if key(x) == k then [x] else []) + WithKey([y] + tail, key, k)
  {
    WithKeyCons(y, inserted, key, k);
    WithKeyCons(y, tail, key, k);
    var wx: seq<E> := if key(x) == k then [x] else [];
    var wy: seq<E> := if key(y) == k then [y] else [];
    var w := WithKey(tail, key, k);
    assert wy + (wx + w) == wx + (wy + w);
  }

  /** `WithKey` of a sequence with one more element in front. */
  lemma WithKeyCons<E>(y: E, s: seq<E>, key: E -> string, k: string)
    ensures WithKey([y] + s, key, k) == (if key(y) == k then [y] else []) + WithKey(s, key, k)
  {
    assert ([y] + s)[1..] == s;
  }

  /**
   * The sort is stable: the elements sharing a key keep their relative order,
   * so the sorted sequence holds, key by key, exactly the original elements.
   */
  lemma {:induction false} SortByKeyStable<E>(s: seq<E>, key: E -> string, k: string)
    ensures WithKey(SortByKey(s, key), key, k) == WithKey(s, key, k)
  {
    if |s| > 0 {
      SortByKeyStable(s[1..], key, k);
      InsertByKeyStable(s[0], SortByKey(s[1..], key), key, k);
    }
  }

  /** The label of a trie entry, as a string. */
  function EntryKey<T>(key: T -> string): ((T, Trie<T>)) -> string
  {
    (e: (T, Trie<T>)) => key(e.0)
  }

  /** The trie's entries in the order the children appear. */
  function SortedEntries<T>(trie: Trie<T>, key: T -> string): (r: seq<(T, Trie<T>)>)
    ensures multiset(r) == multiset(trie.entries)
    ensures forall e :: e in r ==> e in trie.entries
    ensures SortedBy(r, EntryKey(key))
  {
    var r := SortByKey(trie.entries, EntryKey(key));
    assert forall e :: e in r ==> e in multiset(r);
    r
  }

  /**
   * `treeFromTrie`: the node is collapsed when the trie is empty and otherwise
   * takes the given state; its children are expanded iff the trie has size 1.
   */
  function TreeFromTrie<T>(node: T, trie: Trie<T>, state: ViewState, key: T -> string): (r: Tree<T>)
    ensures r.node == node
    ensures r.state == Collapsed <==> trie.size == 0 || state == Collapsed
    ensures |r.children| == |trie.entries|
    ensures forall i :: 0 <= i < |r.children| ==>
      (r.children[i].state == Expanded <==> trie.size == 1 && SortedEntries(trie, key)[i].1.size != 0)
    decreases trie, 1
  {
    var subTreeState := if trie.size == 1 then Expanded else Collapsed;
    Tree(node, SubTreesFromTrie(trie, subTreeState, key), if trie.size == 0 then Collapsed else state)
  }

  /** `subTreesFromTrie`: one tree per entry, ordered by the string form of the labels. */
  function SubTreesFromTrie<T>(trie: Trie<T>, state: ViewState, key: T -> string): (r: seq<Tree<T>>)
    ensures |r| == |trie.entries|
    ensures forall i :: 0 <= i < |r| ==> r[i].node == SortedEntries(trie, key)[i].0
    ensures forall i :: 0 <= i < |r| ==>
      r[i].state == (if SortedEntries(trie, key)[i].1.size == 0 then Collapsed else state)
    decreases trie, 0
  {
    var sorted := SortedEntries(trie, key);
    seq(|sorted|, i requires 0 <= i < |sorted| =>
      assert sorted[i] in trie.entries;
      TreeFromTrie(sorted[i].0, sorted[i].1, state, key))
  }

  /** The labels of trie entries, in order. */
  function EntryLabels<T>(es: seq<(T, Trie<T>)>): (r: seq<T>)
    ensures |r| == |es|
    ensures forall i :: 0 <= i < |es| ==> r[i] == es[i].0
  {
    if |es| == 0 then [] else [es[0].0] + EntryLabels(es[1..])
  }

  /** The labels of trees, in order. */
  function NodesOf<T>(ts: seq<Tree<T>>): (r: seq<T>)
    ensures |r| == |ts|
    ensures forall i :: 0 <= i < |ts| ==> r[i] == ts[i].node
  {
    if |ts| == 0 then [] else [ts[0].node] + NodesOf(ts[1..])
  }

  /**
   * The children of a tree node: their labels are the trie's entry labels,
   * each as often as it occurs there, in label-string order.
   */
  lemma {:induction false} TreeFromTrieChildren<T>(node: T, trie: Trie<T>, state: ViewState, key: T -> string)
    ensures multiset(NodesOf(TreeFromTrie(node, trie, state, key).children)) == multiset(EntryLabels(trie.entries))
    ensures SortedBy(NodesOf(TreeFromTrie(node, trie, state, key).children), key)
  {
    var sorted := SortedEntries(trie, key);
    ChildrenFollowSortedEntries(node, trie, state, key);
    LabelsPermuted(sorted, trie.entries);
    LabelsSorted(sorted, key);
  }

  /** The children's labels are the labels of the sorted entries. */
  lemma ChildrenFollowSortedEntries<T>(node: T, trie: Trie<T>, state: ViewState, key: T -> string)
    ensures NodesOf(TreeFromTrie(node, trie, state, key).children) == EntryLabels(SortedEntries(trie, key))
  {
  }

  /** Entries sorted by the string form of their labels have sorted labels. */
  lemma LabelsSorted<T>(sorted: seq<(T, Trie<T>)>, key: T -> string)
    requires SortedBy(sorted, EntryKey(key))
    ensures SortedBy(EntryLabels(sorted), key)
  {
  }

  /** Two permutations of entries have permuted label sequences. */
  lemma {:induction false} LabelsPermuted<T>(a: seq<(T, Trie<T>)>, b: seq<(T, Trie<T>)>)
    requires multiset(a) == multiset(b)
    ensures multiset(EntryLabels(a)) == multiset(EntryLabels(b))
    decreases |a|
  {
    if |a| > 0 {
      var k := IndexOf(b, a[0]);
      var b' := b[..k] + b[k + 1..];
      RemoveAt(b, k);
      assert multiset(a[1..]) == multiset(a) - multiset{a[0]} by {
        assert a == [a[0]] + a[1..];
      }
      LabelsPermuted(a[1..], b');
      LabelsCons(a, b, k);
    }
  }

  /** A position of `x` in `b`. */
  lemma IndexOf<E>(b: seq<E>, x: E) returns (k: nat)
    requires x in multiset(b)
    ensures k < |b| && b[k] == x
  {
    assert x in b;
    k :| 0 <= k < |b| && b[k] == x;
  }

  /** Matching the head of `a` with position `k` of `b` extends a permutation of the rest. */
  lemma LabelsCons<T>(a: seq<(T, Trie<T>)>, b: seq<(T, Trie<T>)>, k: nat)
    requires |a| > 0 && k < |b| && b[k] == a[0]
    requires multiset(EntryLabels(a[1..])) == multiset(EntryLabels(b[..k] + b[k + 1..]))
    ensures multiset(EntryLabels(a)) == multiset(EntryLabels(b))
  {
    EntryLabelsSplit(b, k);
    var la, lb := EntryLabels(a), EntryLabels(b);
    assert la == [a[0].0] + EntryLabels(a[1..]);
    assert lb[k] == a[0].0;
    assert a[0].0 in multiset(lb);
  }

  /** Taking one element out of a sequence takes it out of its multiset. */
  lemma RemoveAt<E>(b: seq<E>, k: nat)
    requires k < |b|
    ensures multiset(b[..k] + b[k + 1..]) == multiset(b) - multiset{b[k]}
  {
    assert b == b[..k] + [b[k]] + b[k + 1..];
  }

  lemma EntryLabelsAppend<T>(u: seq<(T, Trie<T>)>, v: seq<(T, Trie<T>)>)
    ensures EntryLabels(u + v) == EntryLabels(u) + EntryLabels(v)
  {
  }

  /** Taking one entry out of a sequence takes its label out of the labels. */
  lemma EntryLabelsSplit<T>(b: seq<(T, Trie<T>)>, k: nat)
    requires k < |b|
    ensures multiset(EntryLabels(b[..k] + b[k + 1..])) == multiset(EntryLabels(b)) - multiset{b[k].0}
  {
    SplitAt(b, k);
    EntryLabelsRemoveOne(b[..k], b[k], b[k + 1..], b);
  }

  /** A sequence is its prefix, the element at `k`, and its suffix. */
  lemma SplitAt<E>(b: seq<E>, k: nat)
    requires k < |b|
    ensures b == b[..k] + ([b[k]] + b[k + 1..])
  {
  }

  /** Taking entry `e` out from between `u` and `v` takes its label out of the labels. */
  lemma EntryLabelsRemoveOne<T>(u: seq<(T, Trie<T>)>, e: (T, Trie<T>), v: seq<(T, Trie<T>)>, b: seq<(T, Trie<T>)>)
    requires b == u + ([e] + v)
    ensures multiset(EntryLabels(u + v)) == multiset(EntryLabels(b)) - multiset{e.0}
  {
    EntryLabelsAppend(u, [e] + v);
    EntryLabelsAppend([e], v);
    EntryLabelsAppend(u, v);
    var lu, lv := EntryLabels(u), EntryLabels(v);
    assert EntryLabels([e]) == [e.0];
    MultisetOfAppend(lu, [e.0] + lv);
    MultisetOfAppend([e.0], lv);
    MultisetOfAppend(lu, lv);
  }

  /** The multiset of a concatenation is the sum of the parts' multisets. */
  lemma MultisetOfAppend<E>(a: seq<E>, b: seq<E>)
    ensures multiset(a + b) == multiset(a) + multiset(b)
  {
  }
}
