/**
 * The list algebra of a scene: the first-occurrence removal of
 * `List.Remove`, the binary search of `List.BinarySearch`, the scene's
 * three-case sorted insertion and its remove-then-insert move, and the
 * filter that the dispatch loops apply. Keys are read from a world `w` of
 * component states.
 */
module SceneLists {
  import opened Wrappers
  import opened GameComponents
  import opened OrderComparer
  import opened Seqs

  ghost predicate SortedBy(key: OrderKey, w: World, s: seq<Component>)
  {
    forall i, j :: 0 <= i < j < |s| ==> Key(w, s[i], key) <= Key(w, s[j], key)
  }

  /** No component occurs twice. */
  ghost predicate Distinct(s: seq<Component>) {
    forall c :: c in s ==> multiset(s)[c] == 1
  }

  /** The index of the first occurrence of `x` in `s`, or -1. */
  function IndexOf(s: seq<Component>, x: Component): (i: int)
    ensures -1 <= i < |s|
    ensures i >= 0 ==> s[i] == x && x !in s[..i]
    ensures i < 0 ==> x !in s
  {
    if |s| == 0 then -1
    else if s[|s| - 1] == x && x !in s[..|s| - 1] then |s| - 1
    else
      var i := IndexOf(s[..|s| - 1], x);
      assert i >= 0 ==> s[..i] == s[..|s| - 1][..i];
      i
  }

  /** `List.Remove(x)`: drops the first occurrence of `x`, if any, and keeps the rest in order. */
  function RemoveFirst(s: seq<Component>, x: Component): (r: seq<Component>)
    ensures x in s ==> |r| == |s| - 1
    ensures x !in s ==> r == s
  {
    var i := IndexOf(s, x);
    if i < 0 then s else s[..i] + s[i + 1..]
  }

  /** Removal takes exactly one occurrence of a member away, and nothing else. */
  lemma RemoveFirstElements(s: seq<Component>, x: Component)
    ensures multiset(RemoveFirst(s, x)) == multiset(s) - multiset{x}
    ensures forall c :: c in RemoveFirst(s, x) ==> c in s
  {
    var i := IndexOf(s, x);
    if i >= 0 {
      assert s == s[..i] + [s[i]] + s[i + 1..];
    }
  }

  lemma RemoveFirstKeepsOrder(key: OrderKey, w: World, s: seq<Component>, x: Component)
    requires SortedBy(key, w, s)
    ensures SortedBy(key, w, RemoveFirst(s, x))
  {
    var i := IndexOf(s, x);
    if i >= 0 {
      var r := RemoveFirst(s, x);
      forall a, b | 0 <= a < b < |r| ensures Key(w, r[a], key) <= Key(w, r[b], key) {
        assert r[a] == if a < i then s[a] else s[a + 1];
        assert r[b] == if b < i then s[b] else s[b + 1];
      }
    }
  }

  /** Removal keeps every other member. */
  lemma RemoveFirstKeepsOthers(s: seq<Component>, x: Component, y: Component)
    requires y in s && y != x
    ensures y in RemoveFirst(s, x)
  {
    if x in s {
      assert multiset(s)[y] > 0;
    }
  }

  /** Removing a component inserted into a list that lacked it gives back the list. */
  lemma RemoveFirstInserted(s: seq<Component>, p: int, x: Component)
    requires 0 <= p <= |s| && x !in s
    ensures RemoveFirst(s[..p] + [x] + s[p..], x) == s
  {
    var r := s[..p] + [x] + s[p..];
    assert r[..p] == s[..p];
    assert r[p] == x;
    assert x !in r[..p];
    assert x in r[..p + 1];
    assert r[p + 1..] == s[p..];
    assert s == s[..p] + s[p..];
  }

  /** Sortedness depends only on the keys of the members. */
  lemma SortedByKeysAgree(key: OrderKey, w: World, w': World, s: seq<Component>)
    requires SortedBy(key, w, s)
    requires forall c :: c in s ==> Key(w, c, key) == Key(w', c, key)
    ensures SortedBy(key, w', s)
  {
    forall i, j | 0 <= i < j < |s| ensures Key(w', s[i], key) <= Key(w', s[j], key) {
      assert s[i] in s && s[j] in s;
    }
  }

  /** The probe of one halving step, `lo + ((hi - lo) >> 1)`. */
  function Mid(lo: int, hi: int): (m: int)
    requires lo <= hi
    ensures lo <= m <= hi
  {
    lo + (hi - lo) / 2
  }

  /** The keys of a list, in order. */
  function Keys(key: OrderKey, w: World, s: seq<Component>): (ks: seq<int>)
    ensures |ks| == |s| && forall i :: 0 <= i < |s| ==> ks[i] == Key(w, s[i], key)
  {
    seq(|s|, i requires 0 <= i < |s| => Key(w, s[i], key))
  }

  /**
   * The halving of `List.BinarySearch` over `ks[lo..hi]`, as the
   * framework's array helper runs it: probe the middle, stop when the
   * probe compares equal to the target, otherwise halve; when nothing
   * compares equal the result is `~lo`, the bitwise complement of the
   * insertion point.
   */
  function SearchKeys(ks: seq<int>, target: int, lo: int, hi: int): (r: int)
    requires 0 <= lo <= hi + 1 <= |ks|
    ensures r >= 0 ==> lo <= r <= hi && ks[r] == target
    ensures r < 0 ==> lo <= -r - 1 <= hi + 1
    decreases hi - lo
  {
    if lo > hi then -lo - 1
    else
      var i := Mid(lo, hi);
      var order := CompareTo(ks[i], target);
      if order == 0 then i
      else if order < 0 then SearchKeys(ks, target, i + 1, hi)
      else SearchKeys(ks, target, lo, i - 1)
  }

  /**
   * Below a miss's insertion point every index has a probe at or above it,
   * still below the insertion point, whose key was smaller than the target.
   */
  lemma {:induction false} ProbeBelow(ks: seq<int>, target: int, lo: int, hi: int, k: int) returns (j: int)
    requires 0 <= lo <= hi + 1 <= |ks|
    requires SearchKeys(ks, target, lo, hi) < 0
    requires lo <= k < -SearchKeys(ks, target, lo, hi) - 1
    ensures k <= j < -SearchKeys(ks, target, lo, hi) - 1 && ks[j] < target
    decreases hi - lo
  {
    var i := Mid(lo, hi);
    if ks[i] < target {
      if k > i {
        j := ProbeBelow(ks, target, i + 1, hi, k);
      } else {
        j := i;
      }
    } else {
      j := ProbeBelow(ks, target, lo, i - 1, k);
    }
  }

  /**
   * From a miss's insertion point to the window's end every index has a
   * probe at or below it, not below the insertion point, whose key was
   * larger than the target.
   */
  lemma {:induction false} ProbeAbove(ks: seq<int>, target: int, lo: int, hi: int, k: int) returns (j: int)
    requires 0 <= lo <= hi + 1 <= |ks|
    requires SearchKeys(ks, target, lo, hi) < 0
    requires -SearchKeys(ks, target, lo, hi) - 1 <= k <= hi
    ensures -SearchKeys(ks, target, lo, hi) - 1 <= j <= k && target < ks[j]
    decreases hi - lo
  {
    var i := Mid(lo, hi);
    if ks[i] > target {
      if k < i {
        j := ProbeAbove(ks, target, lo, i - 1, k);
      } else {
        j := i;
      }
    } else {
      j := ProbeAbove(ks, target, i + 1, hi, k);
    }
  }

  /**
   * `List.BinarySearch(item, comparer)` over `s[lo..hi]`. The list holds no
   * nulls, so the comparer's answer on a probe is `CompareTo` on the two
   * keys (`CompareNonNull`) and the search sees only the keys. A hit
   * carries the item's key; on a sorted list the complement of a miss
   * splits the window into smaller and larger keys.
   */
  function BinarySearch(key: OrderKey, w: World, s: seq<Component>, item: Component, lo: int, hi: int): (r: int)
    requires 0 <= lo <= hi + 1 <= |s|
    ensures r >= 0 ==> lo <= r <= hi && Key(w, s[r], key) == Key(w, item, key)
    ensures r < 0 ==> lo <= -r - 1 <= hi + 1
  {
    SearchKeys(Keys(key, w, s), Key(w, item, key), lo, hi)
  }

  /** On a sorted list, every key left of a miss's insertion point is smaller than the item's. */
  lemma {:induction false} BinarySearchMissBelow(key: OrderKey, w: World, s: seq<Component>, item: Component,
                                                 lo: int, hi: int, k: int)
    requires 0 <= lo <= hi + 1 <= |s| && SortedBy(key, w, s)
    requires BinarySearch(key, w, s, item, lo, hi) < 0
    requires lo <= k < -BinarySearch(key, w, s, item, lo, hi) - 1
    ensures Key(w, s[k], key) < Key(w, item, key)
  {
    var j := ProbeBelow(Keys(key, w, s), Key(w, item, key), lo, hi, k);
    assert Key(w, s[k], key) <= Key(w, s[j], key);
  }

  /** On a sorted list, every key from a miss's insertion point to the window's end is larger than the item's. */
  lemma {:induction false} BinarySearchMissAbove(key: OrderKey, w: World, s: seq<Component>, item: Component,
                                                 lo: int, hi: int, k: int)
    requires 0 <= lo <= hi + 1 <= |s| && SortedBy(key, w, s)
    requires BinarySearch(key, w, s, item, lo, hi) < 0
    requires -BinarySearch(key, w, s, item, lo, hi) - 1 <= k <= hi
    ensures Key(w, item, key) < Key(w, s[k], key)
  {
    var j := ProbeAbove(Keys(key, w, s), Key(w, item, key), lo, hi, k);
    assert Key(w, s[j], key) <= Key(w, s[k], key);
  }

  /**
   * Where `AddSorted*` puts `item`: at the end when the list is empty or its
   * last key is at most the item's, at the front when its first key is at
   * least the item's, otherwise where the binary search says. On a sorted
   * list every key before that index is at most the item's and every key
   * from it on is at least the item's.
   */
  function InsertionIndex(key: OrderKey, w: World, s: seq<Component>, item: Component): (p: int)
    ensures 0 <= p <= |s|
  {
    if |s| == 0 || CompareTo(Key(w, s[|s| - 1], key), Key(w, item, key)) <= 0 then |s|
    else if CompareTo(Key(w, s[0], key), Key(w, item, key)) >= 0 then 0
    else
      var index := BinarySearch(key, w, s, item, 0, |s| - 1);
      if index < 0 then -index - 1 else index
  }

  /**
   * On a sorted list the insertion index splits the keys: every key before
   * it is at most the item's, every key from it on is at least the item's.
   */
  lemma InsertionIndexSplits(key: OrderKey, w: World, s: seq<Component>, item: Component)
    requires SortedBy(key, w, s)
    ensures var p := InsertionIndex(key, w, s, item);
            (forall k :: 0 <= k < p ==> Key(w, s[k], key) <= Key(w, item, key)) &&
            (forall k :: p <= k < |s| ==> Key(w, item, key) <= Key(w, s[k], key))
  {
    if |s| == 0 || CompareTo(Key(w, s[|s| - 1], key), Key(w, item, key)) <= 0 {
    } else if CompareTo(Key(w, s[0], key), Key(w, item, key)) >= 0 {
    } else {
      SearchSplits(key, w, s, item);
    }
  }

  /** The third case of the insertion rule: the index the binary search gives splits a sorted list. */
  lemma SearchSplits(key: OrderKey, w: World, s: seq<Component>, item: Component)
    requires SortedBy(key, w, s) && |s| > 0
    ensures var r := BinarySearch(key, w, s, item, 0, |s| - 1);
            var p := if r < 0 then -r - 1 else r;
            (forall k :: 0 <= k < p ==> Key(w, s[k], key) <= Key(w, item, key)) &&
            (forall k :: p <= k < |s| ==> Key(w, item, key) <= Key(w, s[k], key))
  {
    var r := BinarySearch(key, w, s, item, 0, |s| - 1);
    if r >= 0 {
      SearchHitSplits(key, w, s, item, r);
    } else {
      SearchMissSplits(key, w, s, item, -r - 1);
    }
  }

  lemma SearchHitSplits(key: OrderKey, w: World, s: seq<Component>, item: Component, p: int)
    requires SortedBy(key, w, s) && |s| > 0
    requires BinarySearch(key, w, s, item, 0, |s| - 1) == p >= 0
    ensures forall k :: 0 <= k < p ==> Key(w, s[k], key) <= Key(w, item, key)
    ensures forall k :: p <= k < |s| ==> Key(w, item, key) <= Key(w, s[k], key)
  {
    assert Key(w, s[p], key) == Key(w, item, key);
    forall k | 0 <= k < p ensures Key(w, s[k], key) <= Key(w, item, key) {
      assert Key(w, s[k], key) <= Key(w, s[p], key);
    }
    forall k | p < k < |s| ensures Key(w, item, key) <= Key(w, s[k], key) {
      assert Key(w, s[p], key) <= Key(w, s[k], key);
    }
  }

  lemma SearchMissSplits(key: OrderKey, w: World, s: seq<Component>, item: Component, p: int)
    requires SortedBy(key, w, s) && |s| > 0
    requires BinarySearch(key, w, s, item, 0, |s| - 1) == -p - 1 < 0
    ensures forall k :: 0 <= k < p ==> Key(w, s[k], key) <= Key(w, item, key)
    ensures forall k :: p <= k < |s| ==> Key(w, item, key) <= Key(w, s[k], key)
  {
    forall k | 0 <= k < p ensures Key(w, s[k], key) <= Key(w, item, key) {
      BinarySearchMissBelow(key, w, s, item, 0, |s| - 1, k);
    }
    forall k | p <= k < |s| ensures Key(w, item, key) <= Key(w, s[k], key) {
      BinarySearchMissAbove(key, w, s, item, 0, |s| - 1, k);
    }
  }

  /** The list after `AddSorted*(item)`: the old list with `item` placed once, at the insertion index. */
  function InsertSorted(key: OrderKey, w: World, s: seq<Component>, item: Component): (r: seq<Component>)
    ensures |r| == |s| + 1
  {
    var p := InsertionIndex(key, w, s, item);
    s[..p] + [item] + s[p..]
  }

  /** Insertion adds exactly one occurrence of the item and nothing else. */
  lemma InsertSortedElements(key: OrderKey, w: World, s: seq<Component>, item: Component)
    ensures multiset(InsertSorted(key, w, s, item)) == multiset(s) + multiset{item}
    ensures item in InsertSorted(key, w, s, item)
    ensures forall c :: c in InsertSorted(key, w, s, item) ==> c in s || c == item
  {
    var p := InsertionIndex(key, w, s, item);
    assert s == s[..p] + s[p..];
    assert InsertSorted(key, w, s, item)[p] == item;
  }

  /** The list after `MoveSorted*(item)`: remove the first occurrence, insert again by the current key. */
  function MoveSorted(key: OrderKey, w: World, s: seq<Component>, item: Component): (r: seq<Component>)
    ensures item in r
    ensures |r| == if item in s then |s| else |s| + 1
  {
    RemoveFirstElements(s, item);
    InsertSortedElements(key, w, RemoveFirst(s, item), item);
    InsertSorted(key, w, RemoveFirst(s, item), item)
  }

  /** A move keeps the multiset of members, adding the item if it was missing. */
  lemma MoveSortedElements(key: OrderKey, w: World, s: seq<Component>, item: Component)
    ensures item in s ==> multiset(MoveSorted(key, w, s, item)) == multiset(s)
    ensures item !in s ==> multiset(MoveSorted(key, w, s, item)) == multiset(s) + multiset{item}
    ensures item in MoveSorted(key, w, s, item)
    ensures forall c :: c in MoveSorted(key, w, s, item) ==> c in s || c == item
  {
    RemoveFirstElements(s, item);
    InsertSortedElements(key, w, RemoveFirst(s, item), item);
  }

  /** The list after the order-changed event has run `MoveSorted*(item)` once for each of `n` subscriptions. */
  function MoveSortedRepeatedly(key: OrderKey, w: World, s: seq<Component>, item: Component, n: nat): (r: seq<Component>)
    ensures n == 0 ==> r == s
    ensures n > 0 ==> item in r
    ensures forall c :: c in r ==> c in s || c == item
  {
    if n == 0 then s
    else
      var prev := MoveSortedRepeatedly(key, w, s, item, n - 1);
      MoveSortedElements(key, w, prev, item);
      MoveSorted(key, w, prev, item)
  }

  /** One or more moves keep the multiset, adding the item once if it was missing. */
  lemma {:induction false} MoveSortedRepeatedlyMultiset(key: OrderKey, w: World, s: seq<Component>, item: Component, n: nat)
    ensures n > 0 ==> multiset(MoveSortedRepeatedly(key, w, s, item, n)) ==
                      multiset(s) + (if item in s then multiset{} else multiset{item})
  {
    if n > 0 {
      var prev := MoveSortedRepeatedly(key, w, s, item, n - 1);
      MoveSortedElements(key, w, prev, item);
      if n > 1 {
        MoveSortedRepeatedlyMultiset(key, w, s, item, n - 1);
      }
    }
  }

  /** Placing `item` at an index that splits a sorted list into smaller-or-equal and larger-or-equal keys keeps it sorted. */
  lemma SortedInsertAt(key: OrderKey, w: World, s: seq<Component>, p: int, item: Component)
    requires SortedBy(key, w, s) && 0 <= p <= |s|
    requires forall k :: 0 <= k < p ==> Key(w, s[k], key) <= Key(w, item, key)
    requires forall k :: p <= k < |s| ==> Key(w, item, key) <= Key(w, s[k], key)
    ensures SortedBy(key, w, s[..p] + [item] + s[p..])
  {
    var r := s[..p] + [item] + s[p..];
    forall a, b | 0 <= a < b < |r| ensures Key(w, r[a], key) <= Key(w, r[b], key) {
      if a < p {
        assert r[a] == s[a];
      } else if a > p {
        assert r[a] == s[a - 1];
      }
      if b < p {
        assert r[b] == s[b];
      } else if b > p {
        assert r[b] == s[b - 1];
      }
    }
  }

  /**
   * Any insertion, into a sorted list or not, puts `item` at the insertion
   * index and leaves the old elements around it in their order.
   */
  lemma InsertSortedSplices(key: OrderKey, w: World, s: seq<Component>, item: Component)
    ensures var p := InsertionIndex(key, w, s, item);
            InsertSorted(key, w, s, item)[p] == item &&
            InsertSorted(key, w, s, item)[..p] + InsertSorted(key, w, s, item)[p + 1..] == s
  {
    var p := InsertionIndex(key, w, s, item);
    var r := InsertSorted(key, w, s, item);
    assert r[..p] == s[..p];
    assert r[p + 1..] == s[p..];
  }

  /** Inserting at the index the rule picks keeps a sorted list sorted. */
  lemma InsertSortedKeepsOrder(key: OrderKey, w: World, s: seq<Component>, item: Component)
    requires SortedBy(key, w, s)
    ensures SortedBy(key, w, InsertSorted(key, w, s, item))
  {
    InsertionIndexSplits(key, w, s, item);
    SortedInsertAt(key, w, s, InsertionIndex(key, w, s, item), item);
  }

  /** The first two cases of the insertion rule: append, else prepend. */
  lemma InsertionCases(key: OrderKey, w: World, s: seq<Component>, item: Component)
    ensures |s| == 0 || Key(w, s[|s| - 1], key) <= Key(w, item, key) ==>
              InsertSorted(key, w, s, item) == s + [item]
    ensures |s| > 0 && Key(w, item, key) < Key(w, s[|s| - 1], key) && Key(w, item, key) <= Key(w, s[0], key) ==>
              InsertSorted(key, w, s, item) == [item] + s
  {
  }

  /**
   * A move ends sorted as soon as the list without the moved component was
   * sorted under its new key, and a component that occurred at most once
   * then occurs exactly once.
   */
  lemma MoveSortedSorts(key: OrderKey, w: World, s: seq<Component>, item: Component)
    requires SortedBy(key, w, RemoveFirst(s, item))
    ensures SortedBy(key, w, MoveSorted(key, w, s, item))
    ensures multiset(s)[item] <= 1 ==> multiset(MoveSorted(key, w, s, item))[item] == 1
  {
    InsertSortedKeepsOrder(key, w, RemoveFirst(s, item), item);
    MoveSortedElements(key, w, s, item);
  }

  /** Repeated moves of a component that occurs at most once, from a list sorted apart from it, end sorted. */
  lemma {:induction false} MoveSortedRepeatedlySorts(key: OrderKey, w: World, s: seq<Component>, item: Component, n: nat)
    requires SortedBy(key, w, RemoveFirst(s, item))
    requires multiset(s)[item] <= 1
    ensures n > 0 ==> SortedBy(key, w, MoveSortedRepeatedly(key, w, s, item, n))
    ensures multiset(MoveSortedRepeatedly(key, w, s, item, n))[item] <= 1
  {
    if n > 0 {
      var prev := MoveSortedRepeatedly(key, w, s, item, n - 1);
      assert MoveSortedRepeatedly(key, w, s, item, n) == MoveSorted(key, w, prev, item);
      MoveSortedRepeatedlySorts(key, w, s, item, n - 1);
      if n - 1 > 0 {
        RemoveFirstKeepsOrder(key, w, prev, item);
      }
      MoveSortedSorts(key, w, prev, item);
      assert multiset(MoveSorted(key, w, prev, item))[item] == 1;
    } else {
      assert MoveSortedRepeatedly(key, w, s, item, n) == s;
    }
  }

  /**
   * Re-keying one component of a sorted list that holds it at most once and
   * moving it `n` times leaves the list sorted by the new keys, as long as
   * it is moved at least once when it is listed.
   */
  lemma ReKeyedSorts(key: OrderKey, w: World, w': World, s: seq<Component>, item: Component, n: nat)
    requires SortedBy(key, w, s) && multiset(s)[item] <= 1
    requires forall x :: x != item ==> Key(w', x, key) == Key(w, x, key)
    requires n > 0 || item !in s
    ensures SortedBy(key, w', MoveSortedRepeatedly(key, w', s, item, n))
  {
    if n > 0 {
      var v := RemoveFirst(s, item);
      assert SortedBy(key, w', v) by {
        RemoveFirstKeepsOrder(key, w, s, item);
        RemoveFirstElements(s, item);
        assert item !in v;
        SortedByKeysAgree(key, w, w', v);
      }
      MoveSortedRepeatedlySorts(key, w', s, item, n);
    } else {
      SortedByKeysAgree(key, w, w', s);
    }
  }

  /** What a dispatch loop tests on each member: `Enabled` for Update, `Visible` for Draw, `is IDisposable` for Dispose. */
  datatype Flag = Enabled | Visible | Disposable

  predicate Flagged(w: World, c: Component, flag: Flag) {
    match flag
    case Enabled => StateOf(w, c).enabled
    case Visible => StateOf(w, c).visible
    case Disposable => c.isDisposable
  }

  /** The members of `s` a loop over `s` calls: those with the flag set, in list order, one call per occurrence. */
  function Selected(flag: Flag, w: World, s: seq<Component>): (r: seq<Component>)
    ensures |r| <= |s|
    ensures forall c :: c in r ==> c in s && Flagged(w, c, flag)
  {
    if |s| == 0 then []
    else
      var last := s[|s| - 1];
      Selected(flag, w, s[..|s| - 1]) + (if Flagged(w, last, flag) then [last] else [])
  }

  /**
   * The calls a dispatch loop makes when the callees in `throwing` throw:
   * the calls in order up to and including the first one that throws,
   * whose exception ends the loop.
   */
  function CallsUntil<T>(calls: seq<T>, throwing: set<T>): (r: seq<T>)
    ensures r <= calls
    ensures r == calls || (|r| > 0 && r[|r| - 1] in throwing)
  {
    if |calls| == 0 then []
    else if calls[0] in throwing then [calls[0]]
    else [calls[0]] + CallsUntil(calls[1..], throwing)
  }

  /** Some callee of `calls` throws. */
  ghost predicate SomeThrows<T>(calls: seq<T>, throwing: set<T>) {
    exists c :: c in calls && c in throwing
  }

  /**
   * The loop stops at the FIRST callee that throws: no call before the
   * last one throws, and the last one throws exactly when some callee does.
   */
  lemma {:induction false} CallsUntilFirst<T>(calls: seq<T>, throwing: set<T>)
    ensures var r := CallsUntil(calls, throwing);
            forall i :: 0 <= i < |r| - 1 ==> r[i] !in throwing
    ensures var r := CallsUntil(calls, throwing);
            (|r| > 0 && r[|r| - 1] in throwing) <==> SomeThrows(calls, throwing)
  {
    if |calls| > 0 && calls[0] !in throwing {
      CallsUntilFirst(calls[1..], throwing);
      assert forall c :: c in calls[1..] ==> c in calls;
      assert forall c :: c in calls && c != calls[0] ==> c in calls[1..];
    }
  }

  /** Calls that do not throw all happen, and the loop then goes on as it would from there. */
  lemma {:induction false} CallsUntilAppend<T>(s: seq<T>, t: seq<T>, throwing: set<T>)
    requires forall c :: c in s ==> c !in throwing
    ensures CallsUntil(s + t, throwing) == s + CallsUntil(t, throwing)
  {
    if |s| > 0 {
      assert (s + t)[0] == s[0];
      assert (s + t)[1..] == s[1..] + t;
      CallsUntilAppend(s[1..], t, throwing);
    } else {
      assert s + t == t;
    }
  }

  /**
   * A loop over `s` whose call on `s[i]` throws, the calls before it not
   * throwing, has made exactly the calls `CallsUntil` allows.
   */
  lemma DispatchStops(flag: Flag, w: World, s: seq<Component>, i: int, throwing: set<Component>)
    requires 0 <= i < |s| && Flagged(w, s[i], flag) && s[i] in throwing
    requires forall j :: 0 <= j < i ==> !(Flagged(w, s[j], flag) && s[j] in throwing)
    ensures CallsUntil(Selected(flag, w, s), throwing) == Selected(flag, w, s[..i]) + [s[i]]
  {
    var pre := Selected(flag, w, s[..i]);
    var post := Selected(flag, w, s[i + 1..]);
    SelectedAround(flag, w, s, i);
    assert CallsUntil(pre + ([s[i]] + post), throwing) == pre + CallsUntil([s[i]] + post, throwing) by {
      SelectedNoneThrow(flag, w, s[..i], throwing);
      CallsUntilAppend(pre, [s[i]] + post, throwing);
    }
    assert CallsUntil([s[i]] + post, throwing) == [s[i]];
  }

  /**
   * One round of a dispatch loop over `s`, from the calls on `s[..i]` none
   * of which threw: the round adds the call on `s[i]` when it is flagged;
   * when that call throws the loop has made all the calls `CallsUntil`
   * allows, and otherwise still none of its calls has thrown.
   */
  lemma DispatchRound(flag: Flag, w: World, s: seq<Component>, i: int, calls: seq<Component>, throwing: set<Component>)
    requires 0 <= i < |s| && calls == Selected(flag, w, s[..i])
    requires forall j :: 0 <= j < i ==> !(Flagged(w, s[j], flag) && s[j] in throwing)
    ensures var calls' := calls + if Flagged(w, s[i], flag) then [s[i]] else [];
            calls' == Selected(flag, w, s[..i + 1]) &&
            (Flagged(w, s[i], flag) && s[i] in throwing ==> CallsUntil(Selected(flag, w, s), throwing) == calls')
    ensures !(Flagged(w, s[i], flag) && s[i] in throwing) ==>
              forall j :: 0 <= j < i + 1 ==> !(Flagged(w, s[j], flag) && s[j] in throwing)
  {
    DispatchStep(flag, w, s, i);
    if Flagged(w, s[i], flag) && s[i] in throwing {
      DispatchStops(flag, w, s, i, throwing);
    }
  }

  /** The calls of a loop over `s`: those before `s[i]`, the one on `s[i]` when it is flagged, then those after it. */
  lemma SelectedAround(flag: Flag, w: World, s: seq<Component>, i: int)
    requires 0 <= i < |s|
    ensures Selected(flag, w, s) ==
            Selected(flag, w, s[..i]) + ((if Flagged(w, s[i], flag) then [s[i]] else []) + Selected(flag, w, s[i + 1..]))
  {
    var pre := Selected(flag, w, s[..i]);
    var mid: seq<Component> := if Flagged(w, s[i], flag) then [s[i]] else [];
    var post := Selected(flag, w, s[i + 1..]);
    assert s == s[..i + 1] + s[i + 1..];
    SelectedAppend(flag, w, s[..i + 1], s[i + 1..]);
    DispatchStep(flag, w, s, i);
    Associative(pre, mid, post);
  }

  /**
   * A loop over `s` ends in an exception exactly when a flagged member of
   * `s` throws, and then its last call is on such a member and no call
   * before it throws.
   */
  lemma DispatchInterrupted(flag: Flag, w: World, s: seq<Component>, throwing: set<Component>)
    ensures var calls := CallsUntil(Selected(flag, w, s), throwing);
            (|calls| > 0 && calls[|calls| - 1] in throwing) <==> exists x :: x in s && Flagged(w, x, flag) && x in throwing
    ensures var calls := CallsUntil(Selected(flag, w, s), throwing);
            |calls| > 0 && calls[|calls| - 1] in throwing ==>
              calls[|calls| - 1] in s && Flagged(w, calls[|calls| - 1], flag) &&
              forall i :: 0 <= i < |calls| - 1 ==> calls[i] !in throwing
  {
    var all := Selected(flag, w, s);
    var calls := CallsUntil(all, throwing);
    CallsUntilFirst(all, throwing);
    SelectedThrows(flag, w, s, throwing);
    if |calls| > 0 {
      PrefixElement(calls, all, |calls| - 1);
    }
  }

  /** Some call of a loop over `s` is on a member in `throwing` exactly when some flagged member of `s` is in it. */
  lemma SelectedThrows(flag: Flag, w: World, s: seq<Component>, throwing: set<Component>)
    ensures SomeThrows(Selected(flag, w, s), throwing) <==> exists x :: x in s && Flagged(w, x, flag) && x in throwing
  {
    if exists x :: x in s && Flagged(w, x, flag) && x in throwing {
      var x :| x in s && Flagged(w, x, flag) && x in throwing;
      SelectedCount(flag, w, s, x);
      assert multiset(Selected(flag, w, s))[x] > 0;
    }
  }

  /** When no flagged member of `s` throws, neither does any call of a loop over `s`. */
  lemma SelectedNoneThrow(flag: Flag, w: World, s: seq<Component>, throwing: set<Component>)
    requires forall j :: 0 <= j < |s| ==> !(Flagged(w, s[j], flag) && s[j] in throwing)
    ensures forall c :: c in Selected(flag, w, s) ==> c !in throwing
  {
    forall c | c in Selected(flag, w, s) ensures c !in throwing {
      var j :| 0 <= j < |s| && s[j] == c;
    }
  }

  /** A loop over `s` of which no flagged member throws makes all its calls, the last of which does not throw. */
  lemma DispatchAll(flag: Flag, w: World, s: seq<Component>, throwing: set<Component>)
    requires forall j :: 0 <= j < |s| ==> !(Flagged(w, s[j], flag) && s[j] in throwing)
    ensures CallsUntil(Selected(flag, w, s), throwing) == Selected(flag, w, s)
    ensures var r := Selected(flag, w, s); |r| > 0 ==> r[|r| - 1] !in throwing
  {
    SelectedNoneThrow(flag, w, s, throwing);
    DispatchCompletes(Selected(flag, w, s), throwing);
  }

  /** A loop over `s` none of whose calls threw has made every call. */
  lemma DispatchCompletes<T>(calls: seq<T>, throwing: set<T>)
    requires forall c :: c in calls ==> c !in throwing
    ensures CallsUntil(calls, throwing) == calls
  {
    CallsUntilAppend(calls, [], throwing);
    assert calls + [] == calls;
  }

  /** Selection distributes over concatenation: the calls for `s + t` are the calls for `s`, then those for `t`. */
  lemma {:induction false} SelectedAppend(flag: Flag, w: World, s: seq<Component>, t: seq<Component>)
    ensures Selected(flag, w, s + t) == Selected(flag, w, s) + Selected(flag, w, t)
    decreases |t|
  {
    if |t| > 0 {
      var t0, last := t[..|t| - 1], t[|t| - 1];
      SnocSplit(s, t);
      SelectedAppend(flag, w, s, t0);
      SelectedSnoc(flag, w, s + t0, last);
      SelectedSnoc(flag, w, t0, last);
      var tail := if Flagged(w, last, flag) then [last] else [];
      Associative(Selected(flag, w, s), Selected(flag, w, t0), tail);
    } else {
      EmptyRight(s, t);
    }
  }

  /** Appending one member adds one call when its flag is set. */
  lemma {:induction false} SelectedSnoc(flag: Flag, w: World, s: seq<Component>, c: Component)
    ensures Selected(flag, w, s + [c]) == Selected(flag, w, s) + (if Flagged(w, c, flag) then [c] else [])
  {
    var sc := s + [c];
    assert sc[..|sc| - 1] == s && sc[|sc| - 1] == c;
  }

  /** The members a loop over a sorted list calls come in sorted order. */
  /** One round of a dispatch loop: the calls so far, and one more when the next member is flagged. */
  lemma DispatchStep(flag: Flag, w: World, s: seq<Component>, i: int)
    requires 0 <= i < |s|
    ensures Selected(flag, w, s[..i + 1]) == Selected(flag, w, s[..i]) + (if Flagged(w, s[i], flag) then [s[i]] else [])
  {
    assert s[..i + 1] == s[..i] + [s[i]];
    SelectedSnoc(flag, w, s[..i], s[i]);
  }

  lemma {:induction false} SelectedSorted(flag: Flag, key: OrderKey, w: World, s: seq<Component>)
    requires SortedBy(key, w, s)
    ensures SortedBy(key, w, Selected(flag, w, s))
  {
    if |s| > 0 {
      var init, last := s[..|s| - 1], s[|s| - 1];
      assert SortedBy(key, w, init) by {
        forall i, j | 0 <= i < j < |init| ensures Key(w, init[i], key) <= Key(w, init[j], key) {
          assert init[i] == s[i] && init[j] == s[j];
        }
      }
      SelectedSorted(flag, key, w, init);
      var r0 := Selected(flag, w, init);
      if Flagged(w, last, flag) {
        var r := r0 + [last];
        forall i | 0 <= i < |r0| ensures Key(w, r0[i], key) <= Key(w, last, key) {
          assert r0[i] in init;
          var j :| 0 <= j < |init| && init[j] == r0[i];
          assert s[j] == init[j];
        }
        forall i, j | 0 <= i < j < |r| ensures Key(w, r[i], key) <= Key(w, r[j], key) {
          assert r[i] == r0[i];
          if j < |r0| {
            assert r[j] == r0[j];
          }
        }
      }
    }
  }

  /** Every flagged member is called once per occurrence, and no unflagged member is called. */
  lemma {:induction false} SelectedCount(flag: Flag, w: World, s: seq<Component>, c: Component)
    ensures multiset(Selected(flag, w, s))[c] == if Flagged(w, c, flag) then multiset(s)[c] else 0
  {
    if |s| > 0 {
      var init, last := s[..|s| - 1], s[|s| - 1];
      SnocSplit([], s);
      SelectedCount(flag, w, init, c);
      SelectedSnoc(flag, w, init, last);
      SnocCount(init, last, c);
      SnocCount(Selected(flag, w, init), last, c);
    }
  }

  lemma SnocCount<T>(s: seq<T>, x: T, c: T)
    ensures multiset(s + [x])[c] == multiset(s)[c] + (if x == c then 1 else 0)
  {
  }
}
