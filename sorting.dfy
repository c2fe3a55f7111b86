/**
 * Stable sorting by a key under a total preorder, as LINQ's `OrderBy` does:
 * the result is a permutation, keys are non-decreasing, and elements with
 * equivalent keys keep their original relative order. The sort works on
 * positions: `SortIndices(keys, le, n)` is the order in which the first `n`
 * positions are visited.
 */
module Sorting {
  import opened Wrappers

  /** A comparison that is total and transitive (ties allowed). */
  ghost predicate TotalPreorder<K(!new)>(le: (K, K) -> bool) {
    (forall a, b :: le(a, b) || le(b, a)) &&
    (forall a, b, c :: le(a, b) && le(b, c) ==> le(a, c))
  }

  /** Whether position `i` comes before position `j`: a smaller key, or an equivalent key and an earlier position. */
  predicate Before<K>(keys: seq<K>, le: (K, K) -> bool, i: nat, j: nat)
    requires i < |keys| && j < |keys|
  {
    le(keys[i], keys[j]) && (le(keys[j], keys[i]) ==> i < j)
  }

  /** The positions `0 .. n-1` in order. */
  function Range(n: nat): (r: seq<nat>)
    ensures |r| == n && forall i :: 0 <= i < n ==> r[i] == i
  {
    seq(n, i requires 0 <= i => i)
  }

  /** Every element of `s` is strictly before every later one. */
  predicate SortedPositions<K>(keys: seq<K>, le: (K, K) -> bool, s: seq<nat>)
  {
    (forall i :: 0 <= i < |s| ==> s[i] < |keys|) &&
    forall i, j :: 0 <= i < j < |s| ==> Before(keys, le, s[i], s[j])
  }

  /** Inserting a position before the first element it precedes. */
  function Insert<K>(keys: seq<K>, le: (K, K) -> bool, x: nat, s: seq<nat>): (r: seq<nat>)
    requires x < |keys| && forall i :: 0 <= i < |s| ==> s[i] < |keys|
    ensures |r| == |s| + 1
    ensures multiset(r) == multiset(s) + multiset{x}
    ensures forall i :: 0 <= i < |r| ==> r[i] < |keys|
  {
    if s == [] then [x]
    else if Before(keys, le, x, s[0]) then [x] + s
    else
      assert s == [s[0]] + s[1..];
      [s[0]] + Insert(keys, le, x, s[1..])
  }

  /** Insertion sort of the first `n` positions. */
  function SortIndices<K>(keys: seq<K>, le: (K, K) -> bool, n: nat): (r: seq<nat>)
    requires n <= |keys|
    ensures |r| == n
    ensures multiset(r) == multiset(Range(n))
    ensures forall i :: 0 <= i < |r| ==> r[i] < n
  {
    if n == 0 then []
    else
      var r := Insert(keys, le, n - 1, SortIndices(keys, le, n - 1));
      assert Range(n) == Range(n - 1) + [n - 1];
      RangeBound(r, n);
      r
  }

  /** A sequence with the elements of `Range(n)` holds only positions below `n`. */
  lemma RangeBound(r: seq<nat>, n: nat)
    requires multiset(r) == multiset(Range(n))
    ensures forall i :: 0 <= i < |r| ==> r[i] < n
  {
    forall i | 0 <= i < |r| ensures r[i] < n {
      assert r[i] in multiset(Range(n));
    }
  }

  /** A bound on every element keeps the bound itself out. */
  lemma BoundNotIn(s: seq<nat>, m: nat)
    requires forall i :: 0 <= i < |s| ==> s[i] < m
    ensures m !in s
  {
  }

  lemma BeforeTransitive<K(!new)>(keys: seq<K>, le: (K, K) -> bool, a: nat, b: nat, c: nat)
    requires TotalPreorder(le) && a < |keys| && b < |keys| && c < |keys|
    requires Before(keys, le, a, b) && Before(keys, le, b, c)
    ensures Before(keys, le, a, c)
  {
    if le(keys[c], keys[a]) {
      assert le(keys[b], keys[a]);
      assert le(keys[c], keys[b]);
    }
  }

  /** Between two different positions, exactly one comes first. */
  lemma BeforeTotal<K(!new)>(keys: seq<K>, le: (K, K) -> bool, a: nat, b: nat)
    requires TotalPreorder(le) && a < |keys| && b < |keys| && a != b
    ensures Before(keys, le, a, b) != Before(keys, le, b, a)
  {
  }

  lemma {:induction false} InsertSorted<K(!new)>(keys: seq<K>, le: (K, K) -> bool, x: nat, s: seq<nat>)
    requires TotalPreorder(le) && x < |keys|
    requires SortedPositions(keys, le, s) && x !in s
    ensures SortedPositions(keys, le, Insert(keys, le, x, s))
    decreases |s|
  {
    if s == [] {
    } else if Before(keys, le, x, s[0]) {
      var r := [x] + s;
      forall i, j | 0 <= i < j < |r| ensures Before(keys, le, r[i], r[j]) {
        if i == 0 && j > 1 {
          BeforeTransitive(keys, le, x, s[0], s[j - 1]);
        }
      }
    } else {
      BeforeTotal(keys, le, x, s[0]);
      InsertSorted(keys, le, x, s[1..]);
      var t := Insert(keys, le, x, s[1..]);
      var r := [s[0]] + t;
      forall k | 0 <= k < |t| ensures Before(keys, le, s[0], t[k]) {
        assert t[k] in multiset(s[1..]) + multiset{x};
        if t[k] != x {
          assert t[k] in s[1..];
          var m :| 0 <= m < |s[1..]| && s[1..][m] == t[k];
          assert s[m + 1] == t[k];
        }
      }
      assert r == Insert(keys, le, x, s);
    }
  }

  /** The positions come out sorted: keys non-decreasing, ties in their original order. */
  lemma {:induction false} SortIndicesSorted<K(!new)>(keys: seq<K>, le: (K, K) -> bool, n: nat)
    requires TotalPreorder(le) && n <= |keys|
    ensures SortedPositions(keys, le, SortIndices(keys, le, n))
    decreases n
  {
    if n > 0 {
      SortIndicesSorted(keys, le, n - 1);
      SortIndicesStep(keys, le, n);
    }
  }

  /** Inserting the next position keeps the positions sorted. */
  lemma SortIndicesStep<K(!new)>(keys: seq<K>, le: (K, K) -> bool, n: nat)
    requires TotalPreorder(le) && 0 < n <= |keys|
    requires SortedPositions(keys, le, SortIndices(keys, le, n - 1))
    ensures SortedPositions(keys, le, SortIndices(keys, le, n))
  {
    var s := SortIndices(keys, le, n - 1);
    BoundNotIn(s, n - 1);
    InsertSorted(keys, le, n - 1, s);
  }

  /** The elements at the given positions, in that order. */
  function Reorder<T>(xs: seq<T>, order: seq<nat>): (r: seq<T>)
    requires forall i :: 0 <= i < |order| ==> order[i] < |xs|
    ensures |r| == |order| && forall i :: 0 <= i < |order| ==> r[i] == xs[order[i]]
  {
    seq(|order|, i requires 0 <= i < |order| => xs[order[i]])
  }

  lemma {:induction false} ReorderMultiset<T>(xs: seq<T>, order: seq<nat>)
    requires forall i :: 0 <= i < |order| ==> order[i] < |xs|
    ensures multiset(Reorder(xs, order)) == MapMultiset(xs, order)
    decreases |order|
  {
    if order != [] {
      var init := order[..|order| - 1];
      ReorderMultiset(xs, init);
      assert Reorder(xs, order) == Reorder(xs, init) + [xs[order[|order| - 1]]];
    }
  }

  /** The multiset of the elements at the given positions. */
  function MapMultiset<T>(xs: seq<T>, order: seq<nat>): multiset<T>
    requires forall i :: 0 <= i < |order| ==> order[i] < |xs|
    decreases |order|
  {
    if order == [] then multiset{}
    else MapMultiset(xs, order[..|order| - 1]) + multiset{xs[order[|order| - 1]]}
  }

  /** Positions with the same multiset pick out the same multiset of elements. */
  lemma {:induction false} MapMultisetPerm<T>(xs: seq<T>, a: seq<nat>, b: seq<nat>)
    requires forall i :: 0 <= i < |a| ==> a[i] < |xs|
    requires forall i :: 0 <= i < |b| ==> b[i] < |xs|
    requires multiset(a) == multiset(b)
    ensures MapMultiset(xs, a) == MapMultiset(xs, b)
    decreases |a|
  {
    if a != [] {
      var last := a[|a| - 1];
      var a' := a[..|a| - 1];
      MultisetRemoveLast(a);
      assert last in multiset(b);
      var k :| 0 <= k < |b| && b[k] == last;
      var b' := b[..k] + b[k + 1..];
      MultisetRemoveAt(b, k);
      MapMultisetPerm(xs, a', b');
      MapMultisetRemove(xs, b, k);
    }
  }

  lemma MultisetRemoveLast(a: seq<nat>)
    requires a != []
    ensures multiset(a[..|a| - 1]) == multiset(a) - multiset{a[|a| - 1]}
  {
    assert a == a[..|a| - 1] + [a[|a| - 1]];
  }

  lemma MultisetRemoveAt(b: seq<nat>, k: nat)
    requires k < |b|
    ensures multiset(b[..k] + b[k + 1..]) == multiset(b) - multiset{b[k]}
  {
    assert b == b[..k] + [b[k]] + b[k + 1..];
  }

  lemma {:induction false} MapMultisetRemove<T>(xs: seq<T>, b: seq<nat>, k: nat)
    requires forall i :: 0 <= i < |b| ==> b[i] < |xs|
    requires k < |b|
    ensures MapMultiset(xs, b) == MapMultiset(xs, b[..k] + b[k + 1..]) + multiset{xs[b[k]]}
    decreases |b|
  {
    var n := |b| - 1;
    if k < n {
      var b' := b[..n];
      MapMultisetRemove(xs, b', k);
      assert b'[..k] + b'[k + 1..] == (b[..k] + b[k + 1..])[..n - 1];
      assert (b[..k] + b[k + 1..])[n - 1] == b[n];
    } else {
      assert b[..k] + b[k + 1..] == b[..n];
    }
  }

  /** The stable sort of `xs` by `key`. */
  function StableSort<T, K>(xs: seq<T>, keys: seq<K>, le: (K, K) -> bool): (r: seq<T>)
    requires |keys| == |xs|
  {
    Reorder(xs, SortIndices(keys, le, |xs|))
  }

  /**
   * The stable sort is a permutation of its input; its keys are in
   * non-decreasing order; and two elements with equivalent keys appear in the
   * order they had in the input.
   */
  lemma StableSortCorrect<T, K(!new)>(xs: seq<T>, keys: seq<K>, le: (K, K) -> bool)
    requires |keys| == |xs| && TotalPreorder(le)
    ensures multiset(StableSort(xs, keys, le)) == multiset(xs)
    ensures forall i, j :: 0 <= i < j < |xs| ==>
      var order := SortIndices(keys, le, |xs|);
      le(keys[order[i]], keys[order[j]]) && (le(keys[order[j]], keys[order[i]]) ==> order[i] < order[j])
  {
    var order := SortIndices(keys, le, |xs|);
    SortIndicesSorted(keys, le, |xs|);
    ReorderMultiset(xs, order);
    MapMultisetPerm(xs, order, Range(|xs|));
    assert Reorder(xs, Range(|xs|)) == xs;
    ReorderMultiset(xs, Range(|xs|));
  }

  /** `null` keys first, then the given order on strings. */
  function NullFirst(le: (string, string) -> bool): (r: (Option<string>, Option<string>) -> bool)
    ensures forall a: Option<string> :: r(None, a)
    ensures forall a: string, b: string :: r(Some(a), Some(b)) == le(a, b)
    ensures forall a: string :: !r(Some(a), None)
  {
    (a: Option<string>, b: Option<string>) => a.None? || (b.Some? && le(a.value, b.value))
  }

  lemma NullFirstPreorder(le: (string, string) -> bool)
    requires TotalPreorder(le)
    ensures TotalPreorder(NullFirst(le))
  {
  }
}
