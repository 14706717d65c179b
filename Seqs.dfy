/** `rdd.distinct()` on ids, and the facts about duplicate-free sequences the
    evaluator's counting needs. */
module Seqs {

  predicate NoDuplicates(s: seq<int>) {
    forall i, j :: 0 <= i < j < |s| ==> s[i] != s[j]
  }

  /** The elements of `s` once each, in order of first appearance. */
  function Distinct(s: seq<int>): (r: seq<int>)
    ensures NoDuplicates(r)
    ensures forall x :: x in r <==> x in s
    ensures |r| <= |s|
    decreases |s|
  {
    if s == [] then []
    else
      var d := Distinct(s[..|s| - 1]);
      var x := s[|s| - 1];
      assert s == s[..|s| - 1] + [x];
      if x in d then d else d + [x]
  }

  function Elements(s: seq<int>): set<int> {
    set x | x in s
  }

  /** A sequence has at most as many distinct elements as it is long, and
      exactly as many when it has no duplicates. */
  lemma {:induction false} ElementsCard(s: seq<int>)
    ensures |Elements(s)| <= |s|
    ensures NoDuplicates(s) ==> |Elements(s)| == |s|
    decreases |s|
  {
    if s != [] {
      var pre := s[..|s| - 1];
      var x := s[|s| - 1];
      assert s == pre + [x];
      ElementsCard(pre);
      assert Elements(s) == Elements(pre) + {x};
      if NoDuplicates(s) {
        assert NoDuplicates(pre);
        assert x !in Elements(pre);
      }
    }
  }

  /** A subset has at most as many elements, and one with as many is the whole set. */
  lemma SubsetCard(a: set<int>, b: set<int>)
    requires a <= b
    ensures |a| <= |b|
    ensures |a| == |b| ==> a == b
  {
    assert b == a + (b - a);
    assert a * (b - a) == {};
  }
}
