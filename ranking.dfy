/**
 * The rank-and-select core shared by the chart builders: a stable sort by a
 * numeric key in descending order (the `sort((a, b) => key(b) - key(a))` of
 * the chart module; `Array.prototype.sort` is stable), and the truncation
 * `slice(0, count)`.
 */
module Ranking {

  /** `s` is in non-increasing order of `key`. */
  ghost predicate SortedDesc<T>(s: seq<T>, key: T -> real) {
    forall i, j :: 0 <= i < j < |s| ==> key(s[i]) >= key(s[j])
  }

  /**
   * The elements of `s` whose key is `k`, in their order in `s`. A sort is
   * stable exactly when it leaves every such subsequence as it was.
   */
  function WithKey<T>(s: seq<T>, key: T -> real, k: real): (r: seq<T>)
    ensures |r| <= |s|
  {
    if s == [] then []
    else (if key(s[0]) == k then [s[0]] else []) + WithKey(s[1..], key, k)
  }

  /**
   * Inserts `x` in front of the first element whose key is not larger than
   * its own, so `x` ends up ahead of every element with an equal key.
   */
  function Insert<T>(x: T, s: seq<T>, key: T -> real): (r: seq<T>)
    ensures |r| == |s| + 1
    ensures multiset(r) == multiset(s) + multiset{x}
  {
    if s == [] || key(x) >= key(s[0]) then [x] + s
    else
      assert s == [s[0]] + s[1..];
      [s[0]] + Insert(x, s[1..], key)
  }

  /** Stable sort by `key`, largest first. */
  function SortDesc<T>(s: seq<T>, key: T -> real): (r: seq<T>)
    ensures |r| == |s|
    ensures multiset(r) == multiset(s)
  {
    if s == [] then []
    else
      assert s == [s[0]] + s[1..];
      Insert(s[0], SortDesc(s[1..], key), key)
  }

  lemma {:induction false} InsertSorted<T>(x: T, s: seq<T>, key: T -> real)
    requires SortedDesc(s, key)
    ensures SortedDesc(Insert(x, s, key), key)
  {
    if s == [] || key(x) >= key(s[0]) {
    } else {
      var tail := Insert(x, s[1..], key);
      InsertSorted(x, s[1..], key);
      forall i | 0 <= i < |tail| ensures key(s[0]) >= key(tail[i]) {
        assert tail[i] in multiset(tail);
        assert tail[i] == x || tail[i] in multiset(s[1..]);
        if tail[i] != x {
          var j :| 0 <= j < |s[1..]| && s[1..][j] == tail[i];
          assert s[j + 1] == tail[i];
        }
      }
    }
  }

  lemma {:induction false} InsertWithKey<T>(x: T, s: seq<T>, key: T -> real, k: real)
    ensures WithKey(Insert(x, s, key), key, k)
         == (if key(x) == k then [x] else []) + WithKey(s, key, k)
  {
    var mine := if key(x) == k then [x] else [];
    if s == [] || key(x) >= key(s[0]) {
      assert ([x] + s)[1..] == s;
      assert WithKey([x] + s, key, k) == mine + WithKey(s, key, k);
    } else {
      var rest := Insert(x, s[1..], key);
      var head := if key(s[0]) == k then [s[0]] else [];
      InsertWithKey(x, s[1..], key, k);
      assert ([s[0]] + rest)[1..] == rest;
      assert WithKey([s[0]] + rest, key, k) == head + WithKey(rest, key, k);
      assert WithKey(s, key, k) == head + WithKey(s[1..], key, k);
      assert key(x) == k ==> head == [];
      assert head + (mine + WithKey(s[1..], key, k)) == mine + (head + WithKey(s[1..], key, k));
    }
  }

  /**
   * What the sort promises: the result is in non-increasing key order, is a
   * permutation of the input, and keeps records with equal keys in their
   * input order.
   */
  lemma {:induction false} SortDescCorrect<T>(s: seq<T>, key: T -> real)
    ensures SortedDesc(SortDesc(s, key), key)
    ensures multiset(SortDesc(s, key)) == multiset(s)
    ensures forall k :: WithKey(SortDesc(s, key), key, k) == WithKey(s, key, k)
  {
    if s != [] {
      SortDescCorrect(s[1..], key);
      InsertSorted(s[0], SortDesc(s[1..], key), key);
      forall k ensures WithKey(SortDesc(s, key), key, k) == WithKey(s, key, k) {
        InsertWithKey(s[0], SortDesc(s[1..], key), key, k);
      }
    }
  }

  /**
   * The end index that JavaScript's `slice(0, end)` uses on a sequence of
   * length `n`: a negative `end` counts back from the end.
   */
  function SliceEnd(n: nat, end: int): (e: nat)
    ensures e <= n
    ensures end >= 0 ==> e == if end < n then end else n
    ensures end < 0 ==> e == if n + end > 0 then n + end else 0
  {
    if end < 0 then (if n + end > 0 then n + end else 0)
    else if end < n then end else n
  }

  /** `s.slice(0, count)`. */
  function Take<T>(s: seq<T>, count: int): (r: seq<T>)
    ensures |r| == SliceEnd(|s|, count)
    ensures r == s[..|r|]
  {
    s[..SliceEnd(|s|, count)]
  }

  /** `a` is an initial segment of `b`. */
  ghost predicate IsPrefix<T>(a: seq<T>, b: seq<T>) {
    |a| <= |b| && a == b[..|a|]
  }

  /**
   * The key-`k` elements of a prefix of `s` are a prefix of the key-`k`
   * elements of `s`: truncation drops equal-key elements only from the end.
   */
  lemma {:induction false} WithKeyOfPrefix<T>(s: seq<T>, n: nat, key: T -> real, k: real)
    requires n <= |s|
    ensures IsPrefix(WithKey(s[..n], key, k), WithKey(s, key, k))
  {
    if n > 0 {
      WithKeyOfPrefix(s[1..], n - 1, key, k);
      assert s[..n][1..] == s[1..][..n - 1];
    }
  }

  /**
   * Truncating a sorted sequence keeps its largest elements: everything
   * taken has a key at least as large as everything left behind.
   */
  lemma TakeKeepsLargest<T>(s: seq<T>, count: int, key: T -> real)
    requires SortedDesc(s, key)
    ensures SortedDesc(Take(s, count), key)
    ensures multiset(Take(s, count)) <= multiset(s)
    ensures forall y, x :: y in Take(s, count) && x in multiset(s) - multiset(Take(s, count))
              ==> key(y) >= key(x)
  {
    var n := SliceEnd(|s|, count);
    assert s == s[..n] + s[n..];
    assert multiset(s) == multiset(s[..n]) + multiset(s[n..]);
    forall y, x | y in Take(s, count) && x in multiset(s) - multiset(Take(s, count))
      ensures key(y) >= key(x)
    {
      assert x in multiset(s[n..]);
      var i :| 0 <= i < n && s[i] == y;
      var j :| 0 <= j < |s[n..]| && s[n..][j] == x;
      assert s[n + j] == x;
    }
  }
}
