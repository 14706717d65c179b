/** `rdd.takeOrdered(n, key = lambda a: -score(a))`, used for the top-3 users
    (Code.py:52) and for the top-X predictions (Code.py:102). PySpark computes it
    as `heapq.nsmallest`, which equals the first `n` elements of a stable sort by
    the key: descending score, equal scores in their input order. */
module Ordering {

  /** The scores never increase along `s`. */
  predicate SortedDesc<T>(s: seq<T>, score: T -> real) {
    forall i, j :: 0 <= i < j < |s| ==> score(s[i]) >= score(s[j])
  }

  /** Inserts `x` before the first element that does not score higher. */
  function Insert<T>(x: T, s: seq<T>, score: T -> real): (r: seq<T>)
    requires SortedDesc(s, score)
    ensures SortedDesc(r, score)
    ensures multiset(r) == multiset(s) + multiset{x}
    ensures forall y :: y in r ==> y == x || y in s
    decreases |s|
  {
    if s == [] || score(s[0]) <= score(x) then
      SortedCons(x, s, score);
      [x] + s
    else
      var rest := Insert(x, s[1..], score);
      assert s == [s[0]] + s[1..];
      SortedCons(s[0], rest, score);
      [s[0]] + rest
  }

  lemma SortedCons<T>(a: T, s: seq<T>, score: T -> real)
    requires SortedDesc(s, score)
    requires forall y :: y in s ==> score(y) <= score(a)
    ensures SortedDesc([a] + s, score)
  {
    var r := [a] + s;
    forall i, j | 0 <= i < j < |r| ensures score(r[i]) >= score(r[j]) {
      assert r[j] == s[j - 1];
      if i > 0 { assert r[i] == s[i - 1]; }
    }
  }

  /** A stable insertion sort by descending score. */
  function SortDesc<T>(s: seq<T>, score: T -> real): (r: seq<T>)
    ensures SortedDesc(r, score)
    ensures multiset(r) == multiset(s)
    decreases |s|
  {
    if s == [] then []
    else
      assert s == [s[0]] + s[1..];
      Insert(s[0], SortDesc(s[1..], score), score)
  }

  function Min(a: nat, b: nat): nat {
    if a < b then a else b
  }

  /** The `n` highest-scoring elements, highest first: as many as there are,
      up to `n`; taken from `s`; and no element left out scores higher than
      the last one taken. */
  function TakeOrdered<T>(n: nat, s: seq<T>, score: T -> real): (r: seq<T>)
    ensures |r| == Min(n, |s|)
    ensures SortedDesc(r, score)
    ensures multiset(r) <= multiset(s)
    ensures forall x :: x in multiset(s) - multiset(r) ==> forall i :: 0 <= i < |r| ==> score(x) <= score(r[i])
    ensures forall x :: x in r ==> x in s
    ensures forall x :: x in s && x !in r ==> forall i :: 0 <= i < |r| ==> score(x) <= score(r[i])
  {
    var t := SortDesc(s, score);
    var k := Min(n, |s|);
    assert |t| == |s| by { assert |multiset(t)| == |multiset(s)|; }
    PrefixFacts(t, s, k, score);
    t[..k]
  }

  lemma PrefixFacts<T>(t: seq<T>, s: seq<T>, k: nat, score: T -> real)
    requires k <= |t| && SortedDesc(t, score) && multiset(t) == multiset(s)
    ensures SortedDesc(t[..k], score)
    ensures multiset(t[..k]) <= multiset(s)
    ensures forall x :: x in multiset(s) - multiset(t[..k]) ==> forall i :: 0 <= i < k ==> score(x) <= score(t[..k][i])
    ensures forall x :: x in t[..k] ==> x in s
    ensures forall x :: x in s && x !in t[..k] ==> forall i :: 0 <= i < k ==> score(x) <= score(t[..k][i])
  {
    LeftOutBound(t, k, score);
    SubMultisetMembers(t[..k], s, score);
  }

  /** The multiset facts of `TakeOrdered` read on plain membership. */
  lemma SubMultisetMembers<T>(r: seq<T>, s: seq<T>, score: T -> real)
    requires multiset(r) <= multiset(s)
    requires forall x :: x in multiset(s) - multiset(r) ==> forall i :: 0 <= i < |r| ==> score(x) <= score(r[i])
    ensures forall x :: x in r ==> x in s
    ensures forall x :: x in s && x !in r ==> forall i :: 0 <= i < |r| ==> score(x) <= score(r[i])
  {
    forall x | x in r ensures x in s {
      assert x in multiset(r);
    }
    forall x | x in s && x !in r ensures forall i :: 0 <= i < |r| ==> score(x) <= score(r[i]) {
      assert x in multiset(s) - multiset(r);
    }
  }

  lemma LeftOutBound<T>(t: seq<T>, k: nat, score: T -> real)
    requires k <= |t| && SortedDesc(t, score)
    ensures multiset(t[..k]) <= multiset(t)
    ensures forall x :: x in multiset(t) - multiset(t[..k]) ==> forall i :: 0 <= i < k ==> score(x) <= score(t[i])
  {
    assert t == t[..k] + t[k..];
    assert multiset(t) == multiset(t[..k]) + multiset(t[k..]);
    forall x | x in multiset(t) - multiset(t[..k])
      ensures forall i :: 0 <= i < k ==> score(x) <= score(t[i])
    {
      assert x in multiset(t[k..]);
      assert x in t[k..];
      var j :| k <= j < |t| && t[j] == x;
    }
  }
}
