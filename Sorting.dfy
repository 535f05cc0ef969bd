/**
 * Ordering of row or item indices by a numeric key, as the Python code gets
 * it from `sorted(..., reverse=True)`, `DataFrame.nlargest` and
 * `np.argsort(...)[-k:][::-1]`.  Items are named by their index into the
 * key sequence.
 */
module Sorting {

  predicate ValidIdx(s: seq<nat>, key: seq<real>) {
    forall i :: 0 <= i < |s| ==> s[i] < |key|
  }

  /** Keys never increase along `s`. */
  predicate SortedDesc(s: seq<nat>, key: seq<real>)
    requires ValidIdx(s, key)
  {
    forall i, j :: 0 <= i < j < |s| ==> key[s[i]] >= key[s[j]]
  }

  /** Items with equal keys keep their original (index) order. */
  predicate Stable(s: seq<nat>, key: seq<real>)
    requires ValidIdx(s, key)
  {
    forall i, j :: 0 <= i < j < |s| && key[s[i]] == key[s[j]] ==> s[i] < s[j]
  }

  predicate Increasing(s: seq<nat>) {
    forall i, j :: 0 <= i < j < |s| ==> s[i] < s[j]
  }

  /** 0, 1, ..., n-1: the items of a sequence of length n. */
  function Range(n: nat): (r: seq<nat>)
    ensures |r| == n && Increasing(r)
    ensures forall i :: 0 <= i < n ==> r[i] == i
  {
    seq(n, i requires 0 <= i < n => i)
  }

  /** Puts `x` before the first item whose key is not larger than its own. */
  function Insert(x: nat, s: seq<nat>, key: seq<real>): (r: seq<nat>)
    requires x < |key| && ValidIdx(s, key)
    ensures |r| == |s| + 1 && multiset(r) == multiset(s) + multiset{x}
    ensures ValidIdx(r, key)
    decreases |s|
  {
    if s == [] then [x]
    else if key[s[0]] > key[x] then
      assert s == [s[0]] + s[1..];
      [s[0]] + Insert(x, s[1..], key)
    else [x] + s
  }

  lemma MemberOfInsert(x: nat, s: seq<nat>, key: seq<real>, z: nat)
    requires x < |key| && ValidIdx(s, key)
    requires z in Insert(x, s, key)
    ensures z == x || z in s
  {
    assert z in multiset(Insert(x, s, key));
  }

  lemma {:induction false} InsertSorted(x: nat, s: seq<nat>, key: seq<real>)
    requires x < |key| && ValidIdx(s, key) && SortedDesc(s, key)
    ensures SortedDesc(Insert(x, s, key), key)
    decreases |s|
  {
    if s != [] && key[s[0]] > key[x] {
      var t := Insert(x, s[1..], key);
      InsertSorted(x, s[1..], key);
      var r := [s[0]] + t;
      forall j | 0 <= j < |t| ensures key[s[0]] >= key[t[j]] {
        MemberOfInsert(x, s[1..], key, t[j]);
      }
      assert forall i, j :: 0 <= i < j < |r| ==> key[r[i]] >= key[r[j]] by {
        forall i, j | 0 <= i < j < |r| ensures key[r[i]] >= key[r[j]] {
          if i > 0 { assert r[i] == t[i - 1] && r[j] == t[j - 1]; }
          else { assert r[j] == t[j - 1]; }
        }
      }
    }
  }

  lemma {:induction false} InsertStable(x: nat, s: seq<nat>, key: seq<real>)
    requires x < |key| && ValidIdx(s, key) && Stable(s, key)
    requires forall i :: 0 <= i < |s| ==> x < s[i]
    ensures Stable(Insert(x, s, key), key)
    decreases |s|
  {
    if s != [] && key[s[0]] > key[x] {
      var t := Insert(x, s[1..], key);
      InsertStable(x, s[1..], key);
      var r := [s[0]] + t;
      forall j | 0 <= j < |t| && key[s[0]] == key[t[j]] ensures s[0] < t[j] {
        MemberOfInsert(x, s[1..], key, t[j]);
        if t[j] != x {
          StableHead(s, key, t[j]);
        }
      }
      assert forall i, j :: 0 <= i < j < |r| && key[r[i]] == key[r[j]] ==> r[i] < r[j] by {
        forall i, j | 0 <= i < j < |r| && key[r[i]] == key[r[j]] ensures r[i] < r[j] {
          if i > 0 { assert r[i] == t[i - 1] && r[j] == t[j - 1]; }
          else { assert r[j] == t[j - 1]; }
        }
      }
    }
  }

  /** In a stable list, an item after the head with the head's key has a larger index. */
  lemma StableHead(s: seq<nat>, key: seq<real>, z: nat)
    requires ValidIdx(s, key) && Stable(s, key) && |s| > 0
    requires z in s[1..] && key[s[0]] == key[z]
    ensures s[0] < z
  {
    var q :| 0 <= q < |s| - 1 && s[1..][q] == z;
    assert s[q + 1] == z;
  }

  /** A stable sort by descending key (insertion sort). */
  function SortDesc(s: seq<nat>, key: seq<real>): (r: seq<nat>)
    requires ValidIdx(s, key)
    ensures |r| == |s| && multiset(r) == multiset(s)
    ensures ValidIdx(r, key)
    decreases |s|
  {
    if s == [] then []
    else
      assert s == [s[0]] + s[1..];
      Insert(s[0], SortDesc(s[1..], key), key)
  }

  /** The sort orders by descending key and keeps the original order of equal keys. */
  lemma {:induction false} SortDescSorted(s: seq<nat>, key: seq<real>)
    requires ValidIdx(s, key)
    ensures SortedDesc(SortDesc(s, key), key)
    ensures Increasing(s) ==> Stable(SortDesc(s, key), key)
    decreases |s|
  {
    if s != [] {
      var t := SortDesc(s[1..], key);
      SortDescSorted(s[1..], key);
      InsertSorted(s[0], t, key);
      if Increasing(s) {
        forall i | 0 <= i < |t| ensures s[0] < t[i] {
          assert t[i] in multiset(s[1..]);
          var j :| 0 <= j < |s[1..]| && s[1..][j] == t[i];
          assert s[j + 1] == t[i];
        }
        InsertStable(s[0], t, key);
      }
    }
  }

  lemma StableDistinct(s: seq<nat>, key: seq<real>)
    requires ValidIdx(s, key) && Stable(s, key)
    ensures forall i, j :: 0 <= i < j < |s| ==> s[i] != s[j]
  {
  }

  /**
   * The first `k` items by descending key (`nlargest`, or the tail of an
   * ascending argsort read backwards).
   */
  function TopK(s: seq<nat>, key: seq<real>, k: nat): (r: seq<nat>)
    requires ValidIdx(s, key)
    ensures |r| == (if k < |s| then k else |s|)
    ensures ValidIdx(r, key)
  {
    var full := SortDesc(s, key);
    full[..if k < |s| then k else |s|]
  }

  lemma PrefixKeepsOrder(full: seq<nat>, key: seq<real>, m: nat)
    requires ValidIdx(full, key) && m <= |full|
    ensures SortedDesc(full, key) ==> SortedDesc(full[..m], key)
    ensures Stable(full, key) ==> Stable(full[..m], key)
    ensures multiset(full[..m]) <= multiset(full)
  {
    assert full == full[..m] + full[m..];
    assert forall q :: 0 <= q < m ==> full[..m][q] == full[q];
  }

  /** TopK keeps items of `s` only, in descending key order, stable on ties when `s` is in index order. */
  lemma TopKOrdered(s: seq<nat>, key: seq<real>, k: nat)
    requires ValidIdx(s, key)
    ensures multiset(TopK(s, key, k)) <= multiset(s)
    ensures SortedDesc(TopK(s, key, k), key)
    ensures Increasing(s) ==> Stable(TopK(s, key, k), key)
  {
    SortDescSorted(s, key);
    PrefixKeepsOrder(SortDesc(s, key), key, if k < |s| then k else |s|);
  }

  /** Every item TopK leaves out has a key no larger than any item it keeps. */
  lemma TopKComplete(s: seq<nat>, key: seq<real>, k: nat, i: nat, j: nat)
    requires ValidIdx(s, key)
    requires i < |s| && s[i] !in TopK(s, key, k) && j < |TopK(s, key, k)|
    ensures key[s[i]] <= key[TopK(s, key, k)[j]]
  {
    var full := SortDesc(s, key);
    SortDescSorted(s, key);
    var m := if k < |s| then k else |s|;
    var r := full[..m];
    assert s[i] in multiset(full);
    var p :| 0 <= p < |full| && full[p] == s[i];
    assert forall q :: 0 <= q < m ==> r[q] == full[q];
    assert p >= m;
  }

  /** The items of `s` that satisfy `p`, in their order in `s` (a boolean mask). */
  function Filter(s: seq<nat>, p: nat -> bool): (r: seq<nat>)
    ensures |r| <= |s|
    ensures forall x :: x in r ==> x in s && p(x)
    decreases |s|
  {
    if s == [] then []
    else if p(s[0]) then [s[0]] + Filter(s[1..], p)
    else Filter(s[1..], p)
  }

  /** An item of `s` that satisfies `p` is kept. */
  lemma {:induction false} FilterKeeps(s: seq<nat>, p: nat -> bool, x: nat)
    requires x in s && p(x)
    ensures x in Filter(s, p)
    decreases |s|
  {
    if s[0] != x {
      FilterKeeps(s[1..], p, x);
    }
  }

  lemma {:induction false} FilterIncreasing(s: seq<nat>, p: nat -> bool)
    requires Increasing(s)
    ensures Increasing(Filter(s, p))
    decreases |s|
  {
    if s != [] {
      FilterIncreasing(s[1..], p);
      var t := Filter(s[1..], p);
      forall q | 0 <= q < |t| ensures s[0] < t[q] {
        assert t[q] in s[1..];
        var z :| 0 <= z < |s[1..]| && s[1..][z] == t[q];
        assert s[z + 1] == t[q];
      }
    }
  }

  lemma {:induction false} FilterValid(s: seq<nat>, key: seq<real>, p: nat -> bool)
    requires ValidIdx(s, key)
    ensures ValidIdx(Filter(s, p), key)
  {
    forall q | 0 <= q < |Filter(s, p)| ensures Filter(s, p)[q] < |key| {
      var x := Filter(s, p)[q];
      assert x in s;
    }
  }

  /** Masks that agree on the items of `s` select the same items. */
  lemma {:induction false} FilterExt(s: seq<nat>, p: nat -> bool, q: nat -> bool)
    requires forall x :: x in s ==> p(x) == q(x)
    ensures Filter(s, p) == Filter(s, q)
    decreases |s|
  {
    if s != [] {
      FilterExt(s[1..], p, q);
    }
  }

  /** Filtering twice is filtering by the conjunction. */
  lemma {:induction false} FilterFilter(s: seq<nat>, p: nat -> bool, q: nat -> bool)
    ensures Filter(Filter(s, p), q) == Filter(s, (x: nat) => p(x) && q(x))
    decreases |s|
  {
    if s != [] {
      FilterFilter(s[1..], p, q);
    }
  }

  /**
   * Two masks that never both hold select at most |s| items together, and
   * exactly |s| when every item satisfies one of them.
   */
  lemma {:induction false} FilterSplit(s: seq<nat>, p: nat -> bool, q: nat -> bool)
    requires forall x :: x in s ==> !(p(x) && q(x))
    ensures |Filter(s, p)| + |Filter(s, q)| <= |s|
    ensures (forall x :: x in s ==> p(x) || q(x)) ==> |Filter(s, p)| + |Filter(s, q)| == |s|
    decreases |s|
  {
    if s != [] {
      FilterSplit(s[1..], p, q);
    }
  }
}
