/**
 * The array operations the lead ranking uses: `filter`, and a stable sort
 * into descending order of a numeric key, as `Array.prototype.sort` does
 * with a comparator `(a, b) => key(b) - key(a)`.  ECMAScript requires
 * `sort` to be stable, so the sorted array is fully determined: elements
 * in descending key order, equal keys in their original order.
 * `SortDescending` defines that array; `SortInPlace` computes it in place.
 */
module Sorting {

  /** `s.filter(p)`. */
  function Filter<T>(s: seq<T>, p: T -> bool): (r: seq<T>)
    ensures |r| <= |s|
    ensures forall k | 0 <= k < |r| :: p(r[k])
  {
    if s == [] then []
    else Filter(s[..|s| - 1], p) + (if p(s[|s| - 1]) then [s[|s| - 1]] else [])
  }

  /** An element is kept by `filter` exactly when it is in the array and passes the test. */
  lemma {:induction false} FilterMembers<T>(s: seq<T>, p: T -> bool, x: T)
    ensures x in Filter(s, p) <==> x in s && p(x)
  {
    if s != [] {
      var init := s[..|s| - 1];
      FilterMembers(init, p, x);
      assert s == init + [s[|s| - 1]];
    }
  }

  /** `filter` keeps a sub-multiset of the array. */
  lemma {:induction false} FilterSubMultiset<T>(s: seq<T>, p: T -> bool)
    ensures multiset(Filter(s, p)) <= multiset(s)
  {
    if s != [] {
      var init := s[..|s| - 1];
      FilterSubMultiset(init, p);
      assert s == init + [s[|s| - 1]];
    }
  }

  /** `filter` keeps every occurrence of an element that passes the test, and none of one that fails it. */
  lemma {:induction false} FilterMultiplicity<T>(s: seq<T>, p: T -> bool, x: T)
    ensures multiset(Filter(s, p))[x] == if p(x) then multiset(s)[x] else 0
  {
    if s != [] {
      var init := s[..|s| - 1];
      FilterMultiplicity(init, p, x);
      assert s == init + [s[|s| - 1]];
    }
  }

  /** The positions of `s` whose elements pass the test, in increasing order. */
  function MatchingIndices<T>(s: seq<T>, p: T -> bool): (idx: seq<nat>)
    ensures forall k | 0 <= k < |idx| :: idx[k] < |s| && p(s[idx[k]])
    ensures forall k, l | 0 <= k < l < |idx| :: idx[k] < idx[l]
    ensures forall i | 0 <= i < |s| && p(s[i]) :: i in idx
  {
    if s == [] then []
    else
      var init := s[..|s| - 1];
      assert forall i | 0 <= i < |init| :: init[i] == s[i];
      MatchingIndices(init, p) + (if p(s[|s| - 1]) then [|s| - 1] else [])
  }

  /**
   * `filter` keeps the passing elements in their order: its result is `s`
   * read at the passing positions, in increasing order.
   */
  lemma {:induction false} FilterKeepsOrder<T>(s: seq<T>, p: T -> bool)
    ensures |Filter(s, p)| == |MatchingIndices(s, p)|
    ensures forall k | 0 <= k < |Filter(s, p)| :: Filter(s, p)[k] == s[MatchingIndices(s, p)[k]]
  {
    if s != [] {
      var init := s[..|s| - 1];
      FilterKeepsOrder(init, p);
      assert forall i | 0 <= i < |init| :: init[i] == s[i];
    }
  }

  /** Keys never increase from left to right. */
  ghost predicate NonIncreasing<T>(s: seq<T>, key: T -> real) {
    forall i, j | 0 <= i < j < |s| :: key(s[i]) >= key(s[j])
  }

  /**
   * `x` placed into a descending sequence after every element whose key is at
   * least its own: where a stable sort puts an element that comes last.
   */
  function Insert<T>(x: T, sorted: seq<T>, key: T -> real): (r: seq<T>)
    ensures |r| == |sorted| + 1
  {
    if sorted == [] || key(sorted[0]) < key(x) then [x] + sorted
    else [sorted[0]] + Insert(x, sorted[1..], key)
  }

  /** Inserting adds `x` and loses nothing. */
  lemma {:induction false} InsertPermutes<T>(x: T, sorted: seq<T>, key: T -> real)
    ensures multiset(Insert(x, sorted, key)) == multiset(sorted) + multiset{x}
  {
    if sorted != [] && key(sorted[0]) >= key(x) {
      InsertPermutes(x, sorted[1..], key);
      assert sorted == [sorted[0]] + sorted[1..];
    }
  }

  /** Inserting into a descending sequence keeps it descending. */
  lemma {:induction false} InsertSorted<T>(x: T, sorted: seq<T>, key: T -> real)
    requires NonIncreasing(sorted, key)
    ensures NonIncreasing(Insert(x, sorted, key), key)
  {
    if sorted != [] && key(sorted[0]) >= key(x) {
      InsertSorted(x, sorted[1..], key);
      InsertPermutes(x, sorted[1..], key);
      var rest := Insert(x, sorted[1..], key);
      assert forall k | 0 <= k < |rest| :: rest[k] in multiset(sorted[1..]) + multiset{x};
      forall k | 0 <= k < |rest| ensures key(sorted[0]) >= key(rest[k]) {
        assert rest[k] in multiset(sorted[1..]) + multiset{x};
        if rest[k] != x {
          assert rest[k] in sorted[1..];
        }
      }
    }
  }

  /**
   * Where `Insert` puts `x`: after the first `j` elements when their keys are
   * at least its own and the next one's key is smaller.
   */
  lemma {:induction false} InsertAt<T>(x: T, sorted: seq<T>, j: nat, key: T -> real)
    requires j <= |sorted|
    requires forall k | 0 <= k < j :: key(sorted[k]) >= key(x)
    requires j < |sorted| ==> key(sorted[j]) < key(x)
    ensures Insert(x, sorted, key) == sorted[..j] + [x] + sorted[j..]
  {
    if j == 0 {
      assert sorted[..0] + [x] + sorted[0..] == [x] + sorted;
    } else {
      var tail := sorted[1..];
      assert forall k | 0 <= k < j - 1 :: tail[k] == sorted[k + 1];
      InsertAt(x, tail, j - 1, key);
      ConsSplit(sorted, x, j - 1);
    }
  }

  /** Putting `x` in at `n` of `s[1..]` and then `s[0]` in front is putting `x` in at `n + 1` of `s`. */
  lemma ConsSplit<T>(s: seq<T>, x: T, n: nat)
    requires n < |s|
    ensures [s[0]] + (s[1..][..n] + [x] + s[1..][n..]) == s[..n + 1] + [x] + s[n + 1..]
  {
    assert s[..n + 1] == [s[0]] + s[1..][..n];
    assert s[n + 1..] == s[1..][n..];
  }

  /** The stable sort of `s` into descending order of `key`. */
  function SortDescending<T>(s: seq<T>, key: T -> real): (r: seq<T>)
    ensures |r| == |s|
  {
    if s == [] then []
    else Insert(s[|s| - 1], SortDescending(s[..|s| - 1], key), key)
  }

  /** Sorting permutes its input into descending order of `key`. */
  lemma {:induction false} SortDescendingSorted<T>(s: seq<T>, key: T -> real)
    ensures multiset(SortDescending(s, key)) == multiset(s)
    ensures NonIncreasing(SortDescending(s, key), key)
  {
    if s != [] {
      var init := s[..|s| - 1];
      assert s == init + [s[|s| - 1]];
      SortDescendingSorted(init, key);
      InsertSorted(s[|s| - 1], SortDescending(init, key), key);
      InsertPermutes(s[|s| - 1], SortDescending(init, key), key);
    }
  }

  /**
   * Index of the first element of `s` with the largest key, found as a scan
   * from the left that moves on only when a strictly larger key turns up.
   */
  function FirstMaxIndex<T>(s: seq<T>, key: T -> real): (k: nat)
    requires s != []
    ensures k < |s|
    ensures forall j | 0 <= j < |s| :: key(s[j]) <= key(s[k])
    ensures forall j | 0 <= j < k :: key(s[j]) < key(s[k])
  {
    if |s| == 1 then 0
    else
      var k := FirstMaxIndex(s[..|s| - 1], key);
      if key(s[k]) < key(s[|s| - 1]) then |s| - 1 else k
  }

  /** How `SortDescending` takes one more element. */
  lemma SortDescendingSnoc<T>(init: seq<T>, x: T, key: T -> real)
    ensures SortDescending(init + [x], key) == Insert(x, SortDescending(init, key), key)
  {
    assert (init + [x])[..|init|] == init;
  }

  /** The head of `Insert`'s result. */
  lemma InsertHead<T>(x: T, sorted: seq<T>, key: T -> real)
    ensures Insert(x, sorted, key)[0]
      == if sorted == [] || key(sorted[0]) < key(x) then x else sorted[0]
  {
  }

  /**
   * The first element of the sorted array is the first element of `s` with
   * the largest key.
   */
  lemma {:induction false} SortedHeadIsFirstMax<T>(s: seq<T>, key: T -> real)
    requires s != []
    ensures SortDescending(s, key)[0] == s[FirstMaxIndex(s, key)]
  {
    var init, x := s[..|s| - 1], s[|s| - 1];
    assert s == init + [x];
    SortDescendingSnoc(init, x, key);
    var sorted := SortDescending(init, key);
    InsertHead(x, sorted, key);
    if init != [] {
      SortedHeadIsFirstMax(init, key);
      var k := FirstMaxIndex(init, key);
      assert init[k] == s[k];
    }
  }

  /**
   * The first `n` elements of the sorted array are `n` elements of `s`, in
   * descending order, none with a key below an element of `s` they leave out.
   */
  lemma TopPrefix<T>(s: seq<T>, key: T -> real, n: nat)
    requires n <= |s|
    ensures var top := SortDescending(s, key)[..n];
      multiset(top) <= multiset(s)
      && NonIncreasing(top, key)
      && forall a, b | a in top && b in s && b !in top :: key(a) >= key(b)
  {
    var r := SortDescending(s, key);
    SortDescendingSorted(s, key);
    PrefixDominates(s, key, n);
    PrefixOf(r, key, n);
  }

  /** A prefix of a sequence is a sub-multiset of it, and descending when it is. */
  lemma PrefixOf<T>(r: seq<T>, key: T -> real, n: nat)
    requires n <= |r|
    ensures multiset(r[..n]) <= multiset(r)
    ensures NonIncreasing(r, key) ==> NonIncreasing(r[..n], key)
  {
    assert r == r[..n] + r[n..];
  }

  /** Where an element of `r` missing from its first `n` elements sits. */
  lemma SuffixIndex<T>(r: seq<T>, n: nat, b: T) returns (j: nat)
    requires n <= |r| && b in r && b !in r[..n]
    ensures n <= j < |r| && r[j] == b
  {
    var top, rest := r[..n], r[n..];
    assert r == top + rest;
    assert b in rest;
    var k :| 0 <= k < |rest| && rest[k] == b;
    j := n + k;
  }

  /**
   * After sorting, everything in the first `n` elements has a key at least as
   * large as any element of `s` left out of them: `slice(0, n)` of the sorted
   * array is a top `n`.
   */
  lemma PrefixDominates<T>(s: seq<T>, key: T -> real, n: nat)
    requires n <= |s|
    ensures forall a, b | a in SortDescending(s, key)[..n] && b in s
      && b !in SortDescending(s, key)[..n] :: key(a) >= key(b)
  {
    var r := SortDescending(s, key);
    SortDescendingSorted(s, key);
    var top := r[..n];
    forall a, b | a in top && b in s && b !in top ensures key(a) >= key(b) {
      assert b in multiset(s);
      assert b in multiset(r);
      assert b in multiset(s);
      var j := SuffixIndex(r, n, b);
      var i :| 0 <= i < n && top[i] == a;
      assert r[i] == a;
    }
  }

  /** Sorting one element more of `s` inserts it into the sorted shorter prefix. */
  lemma SortPrefixStep<T>(s: seq<T>, i: nat, key: T -> real)
    requires i < |s|
    ensures SortDescending(s[..i + 1], key) == Insert(s[i], SortDescending(s[..i], key), key)
  {
    assert s[..i + 1] == s[..i] + [s[i]];
    SortDescendingSnoc(s[..i], s[i], key);
  }

  /** A sequence that is `sorted` with `x` put in at index `j`. */
  lemma Shifted<T>(arr: seq<T>, sorted: seq<T>, j: nat, x: T)
    requires j <= |sorted| && |arr| == |sorted| + 1
    requires forall k | 0 <= k < j :: arr[k] == sorted[k]
    requires arr[j] == x
    requires forall k | j < k < |arr| :: arr[k] == sorted[k - 1]
    ensures arr == sorted[..j] + [x] + sorted[j..]
  {
  }

  /**
   * The elements of the sorted prefix `a[..i]` whose keys are below
   * `key(x)` moved one place right, leaving a gap at the returned index.
   */
  method OpenGap<T>(a: array<T>, i: nat, x: T, key: T -> real) returns (j: nat)
    requires i < a.Length
    modifies a
    ensures j <= i
    ensures forall k | 0 <= k < j :: a[k] == old(a[k])
    ensures forall k | j < k <= i :: a[k] == old(a[k - 1])
    ensures forall k | i < k < a.Length :: a[k] == old(a[k])
    ensures forall k | j <= k < i :: key(old(a[k])) < key(x)
    ensures j > 0 ==> key(old(a[j - 1])) >= key(x)
  {
    j := i;
    while j > 0 && key(a[j - 1]) < key(x)
      invariant 0 <= j <= i
      invariant forall k | 0 <= k < j :: a[k] == old(a[k])
      invariant forall k | j < k <= i :: a[k] == old(a[k - 1])
      invariant forall k | i < k < a.Length :: a[k] == old(a[k])
      invariant forall k | j <= k < i :: key(old(a[k])) < key(x)
    {
      a[j] := a[j - 1];
      j := j - 1;
    }
  }

  /**
   * Insertion of `a[i]` into the sorted prefix `a[..i]`: the elements with
   * smaller keys move one place right and `a[i]` drops into the gap.
   */
  method InsertNext<T>(a: array<T>, i: nat, key: T -> real)
    requires i < a.Length && NonIncreasing(a[..i], key)
    modifies a
    ensures a[..i + 1] == Insert(old(a[i]), old(a[..i]), key)
    ensures a[i + 1..] == old(a[i + 1..])
  {
    var x := a[i];
    ghost var sorted := a[..i];
    var j := OpenGap(a, i, x, key);
    assert a[i + 1..] == old(a[i + 1..]);
    a[j] := x;
    assert a[i + 1..] == old(a[i + 1..]);
    assert forall k | 0 <= k < j :: key(sorted[k]) >= key(x) by {
      if j > 0 {
        assert forall k | 0 <= k < j :: key(sorted[k]) >= key(sorted[j - 1]);
      }
    }
    InsertAt(x, sorted, j, key);
    Shifted(a[..i + 1], sorted, j, x);
  }

  /**
   * The array sorted in place into descending order of `key`, stably: an
   * insertion sort over a growing sorted prefix.
   */
  method SortInPlace<T>(a: array<T>, key: T -> real)
    modifies a
    ensures a[..] == SortDescending(old(a[..]), key)
  {
    ghost var original := a[..];
    for i := 0 to a.Length
      invariant a[..i] == SortDescending(original[..i], key)
      invariant a[i..] == original[i..]
    {
      assert a[i] == original[i] && a[i + 1..] == original[i + 1..];
      SortDescendingSorted(original[..i], key);
      InsertNext(a, i, key);
      SortPrefixStep(original, i, key);
      assert a[..i + 1] == SortDescending(original[..i + 1], key);
    }
    assert original[..a.Length] == original;
  }
}
