/** Per-user play statistics (Code.py:42-52): `reduceByKey(calcPlayCount)`
    folds each user's `(playcount, 1)` values into `(total, count)`, a map
    computes the integer mean, and `takeOrdered(3, -total)` keeps the three
    users with the largest total. */
module PlayStats {
  import opened Wrappers
  import opened Records
  import opened Ordering
  import opened Seqs

  /** A user's `(total, count)` pair. */
  datatype Agg = Agg(total: int, count: int)

  /** `lambda a: (a[0], (a[2], 1))` (Code.py:42): the value of one row. */
  function Seed(t: Interaction): Agg {
    Agg(t.plays, 1)
  }

  /** `calcPlayCount(a, b)` as written (Code.py:43-49). A two-element tuple is
      always true, so the `if a:` branch is always taken; it adds `b`'s total
      but only one to the count, whatever `b`'s count is. */
  function CalcPlayCount(a: Agg, b: Agg): (r: Agg)
    ensures r.total == MergeAgg(a, b).total
    ensures r == MergeAgg(a, b) <==> b.count == 1
  {
    Agg(a.total + b.total, a.count + 1)
  }

  /** The evidently intended combination: add both totals and both counts. */
  function MergeAgg(a: Agg, b: Agg): (r: Agg)
    ensures r.total - a.total == b.total && r.count - a.count == b.count
  {
    Agg(a.total + b.total, a.count + b.count)
  }

  /** The sum of the totals of `vs`. */
  function SumTotals(vs: seq<Agg>): int
    decreases |vs|
  {
    if vs == [] then 0 else SumTotals(vs[..|vs| - 1]) + vs[|vs| - 1].total
  }

  /** The sum of the play counts of `u`'s rows. */
  function TotalPlays(data: seq<Interaction>, u: int): int
    decreases |data|
  {
    if data == [] then 0
    else TotalPlays(data[..|data| - 1], u) + (if data[|data| - 1].user == u then data[|data| - 1].plays else 0)
  }

  /** The number of `u`'s rows. */
  function RowCount(data: seq<Interaction>, u: int): nat
    decreases |data|
  {
    if data == [] then 0
    else RowCount(data[..|data| - 1], u) + (if data[|data| - 1].user == u then 1 else 0)
  }

  /** The values `u`'s rows contribute within one partition, in order. */
  function Seeds(part: seq<Interaction>, u: int): (r: seq<Agg>)
    ensures |r| == RowCount(part, u)
    decreases |part|
  {
    if part == [] then []
    else Seeds(part[..|part| - 1], u) + (if part[|part| - 1].user == u then [Seed(part[|part| - 1])] else [])
  }

  /** Each of `u`'s values counts one row, and their totals add up to `u`'s
      play count in the partition. */
  lemma {:induction false} SeedsSum(part: seq<Interaction>, u: int)
    ensures forall i :: 0 <= i < |Seeds(part, u)| ==> Seeds(part, u)[i].count == 1
    ensures SumTotals(Seeds(part, u)) == TotalPlays(part, u)
    decreases |part|
  {
    if part != [] {
      var pre := Seeds(part[..|part| - 1], u);
      var t := part[|part| - 1];
      SeedsSum(part[..|part| - 1], u);
      if t.user == u {
        assert Seeds(part, u) == pre + [Seed(t)];
        assert (pre + [Seed(t)])[..|pre|] == pre;
      } else {
        assert Seeds(part, u) == pre;
      }
    }
  }

  /** A left fold with `f` whose start is the first value (PySpark's
      `createCombiner` is the identity for `reduceByKey`). */
  function FoldAgg(vs: seq<Agg>, f: (Agg, Agg) -> Agg): Agg
    requires vs != []
    decreases |vs|
  {
    if |vs| == 1 then vs[0] else f(FoldAgg(vs[..|vs| - 1], f), vs[|vs| - 1])
  }

  /** One combiner per partition that holds a row of `u`, in partition order. */
  function Combiners(parts: seq<seq<Interaction>>, u: int, f: (Agg, Agg) -> Agg): (r: seq<Agg>)
    ensures r == [] <==> RowCount(Flatten(parts), u) == 0
    decreases |parts|
  {
    if parts == [] then []
    else
      var last := parts[|parts| - 1];
      RowCountAppend(Flatten(parts[..|parts| - 1]), last, u);
      Combiners(parts[..|parts| - 1], u, f) + (if RowCount(last, u) > 0 then [FoldAgg(Seeds(last, u), f)] else [])
  }

  /** The rows of all partitions, in order. */
  function Flatten(parts: seq<seq<Interaction>>): seq<Interaction>
    decreases |parts|
  {
    if parts == [] then [] else Flatten(parts[..|parts| - 1]) + parts[|parts| - 1]
  }

  /** `reduceByKey(f)` for one user over partitioned rows: each partition's
      values are folded with `f`, then the partition combiners are merged with
      `f` again. None when the user has no row. */
  function ReduceByKey(parts: seq<seq<Interaction>>, u: int, f: (Agg, Agg) -> Agg): (r: Option<Agg>)
    ensures r.None? <==> RowCount(Flatten(parts), u) == 0
  {
    var cs := Combiners(parts, u, f);
    if cs == [] then None else Some(FoldAgg(cs, f))
  }

  lemma {:induction false} RowCountAppend(a: seq<Interaction>, b: seq<Interaction>, u: int)
    ensures RowCount(a + b, u) == RowCount(a, u) + RowCount(b, u)
    ensures TotalPlays(a + b, u) == TotalPlays(a, u) + TotalPlays(b, u)
    decreases |b|
  {
    if b == [] {
      assert a + b == a;
    } else {
      assert (a + b)[..|a + b| - 1] == a + b[..|b| - 1];
      RowCountAppend(a, b[..|b| - 1], u);
    }
  }

  lemma {:induction false} NoRowsNoPlays(data: seq<Interaction>, u: int)
    requires RowCount(data, u) == 0
    ensures TotalPlays(data, u) == 0
    decreases |data|
  {
    if data != [] {
      NoRowsNoPlays(data[..|data| - 1], u);
    }
  }

  /** Within one partition, folding a user's values gives the sum of the
      user's play counts and the number of the user's rows, with the function
      as written and with the corrected one alike (every value counts one). */
  lemma {:induction false} FoldSeeds(part: seq<Interaction>, u: int)
    requires RowCount(part, u) > 0
    ensures FoldAgg(Seeds(part, u), CalcPlayCount) == Agg(TotalPlays(part, u), RowCount(part, u))
    ensures FoldAgg(Seeds(part, u), MergeAgg) == Agg(TotalPlays(part, u), RowCount(part, u))
    decreases |part|
  {
    var pre := part[..|part| - 1];
    var t := part[|part| - 1];
    var ss := Seeds(pre, u);
    if t.user == u {
      assert Seeds(part, u) == ss + [Seed(t)];
      if RowCount(pre, u) == 0 {
        NoRowsNoPlays(pre, u);
        assert Seeds(part, u) == [Seed(t)];
      } else {
        FoldSeeds(pre, u);
        assert (ss + [Seed(t)])[..|ss|] == ss;
      }
    } else {
      assert Seeds(part, u) == ss;
      FoldSeeds(pre, u);
    }
  }

  /** Adding a partition: a user without rows in it keeps the old result; a new
      user gets the partition's combiner; otherwise the old result and the
      combiner are merged with `f`. */
  lemma ReduceByKeyStep(parts: seq<seq<Interaction>>, u: int, f: (Agg, Agg) -> Agg)
    requires parts != []
    ensures var pre := parts[..|parts| - 1];
            var last := parts[|parts| - 1];
            ReduceByKey(parts, u, f) ==
              if RowCount(last, u) == 0 then ReduceByKey(pre, u, f)
              else if ReduceByKey(pre, u, f).None? then Some(FoldAgg(Seeds(last, u), f))
              else Some(f(ReduceByKey(pre, u, f).value, FoldAgg(Seeds(last, u), f)))
  {
    var pre := parts[..|parts| - 1];
    var last := parts[|parts| - 1];
    var cs := Combiners(pre, u, f);
    if RowCount(last, u) > 0 {
      var c := FoldAgg(Seeds(last, u), f);
      assert Combiners(parts, u, f) == cs + [c];
      if cs == [] {
        assert cs + [c] == [c];
      } else {
        assert (cs + [c])[..|cs|] == cs;
      }
    } else {
      assert Combiners(parts, u, f) == cs;
    }
  }

  /** With the corrected merge, `reduceByKey` over any partitioning gives the
      user's true total and row count. */
  lemma {:induction false} ReduceByKeyMerged(parts: seq<seq<Interaction>>, u: int)
    requires RowCount(Flatten(parts), u) > 0
    ensures ReduceByKey(parts, u, MergeAgg) == Some(Agg(TotalPlays(Flatten(parts), u), RowCount(Flatten(parts), u)))
    decreases |parts|
  {
    var pre := parts[..|parts| - 1];
    var last := parts[|parts| - 1];
    var flat := Flatten(pre);
    assert Flatten(parts) == flat + last;
    RowCountAppend(flat, last, u);
    ReduceByKeyStep(parts, u, MergeAgg);
    if RowCount(last, u) == 0 {
      NoRowsNoPlays(last, u);
      assert ReduceByKey(parts, u, MergeAgg) == ReduceByKey(pre, u, MergeAgg);
      ReduceByKeyMerged(pre, u);
    } else if RowCount(flat, u) == 0 {
      NoRowsNoPlays(flat, u);
      assert ReduceByKey(parts, u, MergeAgg) == Some(FoldAgg(Seeds(last, u), MergeAgg));
      FoldSeeds(last, u);
    } else {
      var a := ReduceByKey(pre, u, MergeAgg);
      var b := FoldAgg(Seeds(last, u), MergeAgg);
      assert a.Some?;
      assert ReduceByKey(parts, u, MergeAgg) == Some(MergeAgg(a.value, b));
      ReduceByKeyMerged(pre, u);
      FoldSeeds(last, u);
      assert a.value == Agg(TotalPlays(flat, u), RowCount(flat, u));
      assert b == Agg(TotalPlays(last, u), RowCount(last, u));
    }
  }

  /** As written, the total is right however the rows are partitioned. */
  lemma {:induction false} ReduceByKeyTotal(parts: seq<seq<Interaction>>, u: int)
    requires RowCount(Flatten(parts), u) > 0
    ensures ReduceByKey(parts, u, CalcPlayCount).value.total == TotalPlays(Flatten(parts), u)
    decreases |parts|
  {
    var pre := parts[..|parts| - 1];
    var last := parts[|parts| - 1];
    var cs := Combiners(pre, u, CalcPlayCount);
    RowCountAppend(Flatten(pre), last, u);
    if RowCount(last, u) > 0 {
      FoldSeeds(last, u);
      var c := FoldAgg(Seeds(last, u), CalcPlayCount);
      assert Combiners(parts, u, CalcPlayCount) == cs + [c];
      if cs == [] {
        NoRowsNoPlays(Flatten(pre), u);
        assert cs + [c] == [c];
      } else {
        ReduceByKeyTotal(pre, u);
        assert (cs + [c])[..|cs|] == cs;
      }
    } else {
      NoRowsNoPlays(last, u);
      assert Combiners(parts, u, CalcPlayCount) == cs;
      ReduceByKeyTotal(pre, u);
    }
  }

  /** The number of partitions that hold a row of `u`. */
  function PartsWithRows(parts: seq<seq<Interaction>>, u: int): nat
    decreases |parts|
  {
    if parts == [] then 0
    else PartsWithRows(parts[..|parts| - 1], u) + (if RowCount(parts[|parts| - 1], u) > 0 then 1 else 0)
  }

  /** The number of `u`'s rows in the first partition that holds any. */
  function FirstRows(parts: seq<seq<Interaction>>, u: int): (r: nat)
    ensures PartsWithRows(parts, u) > 0 ==> r > 0
    decreases |parts|
  {
    if parts == [] then 0
    else if PartsWithRows(parts[..|parts| - 1], u) > 0 then FirstRows(parts[..|parts| - 1], u)
    else RowCount(parts[|parts| - 1], u)
  }

  /** The rows of `u` beyond the first in every later partition that holds
      some: the rows `calcPlayCount` leaves uncounted. */
  function Extra(parts: seq<seq<Interaction>>, u: int): (r: nat)
    ensures PartsWithRows(parts, u) <= 1 ==> r == 0
    decreases |parts|
  {
    if parts == [] then 0
    else
      var pre := parts[..|parts| - 1];
      var n := RowCount(parts[|parts| - 1], u);
      Extra(pre, u) + (if PartsWithRows(pre, u) > 0 && n > 0 then n - 1 else 0)
  }

  /** Every partition after the first one holding a row of `u` holds at most one. */
  predicate LaterSingletons(parts: seq<seq<Interaction>>, u: int) {
    forall i :: 0 <= i < |parts| && PartsWithRows(parts[..i], u) > 0 ==> RowCount(parts[i], u) <= 1
  }

  lemma {:induction false} CombinersCount(parts: seq<seq<Interaction>>, u: int, f: (Agg, Agg) -> Agg)
    ensures |Combiners(parts, u, f)| == PartsWithRows(parts, u)
    decreases |parts|
  {
    if parts != [] {
      CombinersCount(parts[..|parts| - 1], u, f);
    }
  }

  /** Folding with the function as written adds one per value after the first. */
  lemma {:induction false} FoldCalcCount(vs: seq<Agg>)
    requires vs != []
    ensures FoldAgg(vs, CalcPlayCount).count == vs[0].count + |vs| - 1
    decreases |vs|
  {
    if |vs| > 1 {
      FoldCalcCount(vs[..|vs| - 1]);
    }
  }

  lemma {:induction false} CombinersFirst(parts: seq<seq<Interaction>>, u: int)
    requires PartsWithRows(parts, u) > 0
    ensures Combiners(parts, u, CalcPlayCount) != []
    ensures Combiners(parts, u, CalcPlayCount)[0].count == FirstRows(parts, u)
    decreases |parts|
  {
    var pre := parts[..|parts| - 1];
    var last := parts[|parts| - 1];
    var cs := Combiners(pre, u, CalcPlayCount);
    CombinersCount(pre, u, CalcPlayCount);
    if PartsWithRows(pre, u) > 0 {
      CombinersFirst(pre, u);
      if RowCount(last, u) > 0 {
        assert Combiners(parts, u, CalcPlayCount) == cs + [FoldAgg(Seeds(last, u), CalcPlayCount)];
      } else {
        assert Combiners(parts, u, CalcPlayCount) == cs;
      }
    } else {
      FoldSeeds(last, u);
      assert cs == [];
      assert Combiners(parts, u, CalcPlayCount) == cs + [FoldAgg(Seeds(last, u), CalcPlayCount)];
    }
  }

  /** The user's rows split into the first partition's rows, one row for each
      later partition holding some, and the extra rows of those partitions. */
  lemma {:induction false} RowsSplit(parts: seq<seq<Interaction>>, u: int)
    ensures PartsWithRows(parts, u) == 0 ==> RowCount(Flatten(parts), u) == 0
    ensures PartsWithRows(parts, u) > 0 ==>
              RowCount(Flatten(parts), u) + 1 == FirstRows(parts, u) + PartsWithRows(parts, u) + Extra(parts, u)
    decreases |parts|
  {
    if parts != [] {
      var pre := parts[..|parts| - 1];
      var last := parts[|parts| - 1];
      RowsSplit(pre, u);
      assert Flatten(parts) == Flatten(pre) + last;
      RowCountAppend(Flatten(pre), last, u);
    }
  }

  /** The count as written: the first partition's rows, plus one for each
      later partition holding a row of the user; it misses exactly `Extra`. */
  lemma ReduceByKeyCount(parts: seq<seq<Interaction>>, u: int)
    requires RowCount(Flatten(parts), u) > 0
    ensures ReduceByKey(parts, u, CalcPlayCount).value.count == FirstRows(parts, u) + PartsWithRows(parts, u) - 1
    ensures RowCount(Flatten(parts), u) == ReduceByKey(parts, u, CalcPlayCount).value.count + Extra(parts, u)
  {
    RowsSplit(parts, u);
    CombinersCount(parts, u, CalcPlayCount);
    CombinersFirst(parts, u);
    FoldCalcCount(Combiners(parts, u, CalcPlayCount));
  }

  lemma {:induction false} ExtraZero(parts: seq<seq<Interaction>>, u: int)
    ensures Extra(parts, u) == 0 <==> LaterSingletons(parts, u)
    decreases |parts|
  {
    if parts != [] {
      var pre := parts[..|parts| - 1];
      var last := parts[|parts| - 1];
      ExtraZero(pre, u);
      assert parts[..|pre|] == pre;
      assert forall i :: 0 <= i < |pre| ==> parts[..i] == pre[..i] && parts[i] == pre[i];
      assert LaterSingletons(parts, u) <==>
             LaterSingletons(pre, u) && (PartsWithRows(pre, u) > 0 ==> RowCount(last, u) <= 1);
    }
  }

  /** As written, the count is right exactly when every partition after the
      first one holding a row of the user holds at most one of them. */
  lemma ReduceByKeyCountRight(parts: seq<seq<Interaction>>, u: int)
    requires RowCount(Flatten(parts), u) > 0
    ensures ReduceByKey(parts, u, CalcPlayCount).value.count == RowCount(Flatten(parts), u) <==> LaterSingletons(parts, u)
  {
    ReduceByKeyCount(parts, u);
    ExtraZero(parts, u);
  }

  /** As written, the count is right when one partition holds all of the
      user's rows, whatever the other partitions hold. */
  lemma SinglePartitionCount(parts: seq<seq<Interaction>>, u: int)
    requires PartsWithRows(parts, u) == 1
    ensures ReduceByKey(parts, u, CalcPlayCount) == Some(Agg(TotalPlays(Flatten(parts), u), RowCount(Flatten(parts), u)))
  {
    RowsSplit(parts, u);
    ReduceByKeyCount(parts, u);
    ReduceByKeyTotal(parts, u);
  }

  lemma TwoRows(a: Interaction, b: Interaction, u: int)
    requires a.user == u && b.user == u
    ensures RowCount([a, b], u) == 2 && TotalPlays([a, b], u) == a.plays + b.plays
  {
    var none: seq<Interaction> := [];
    assert [a, b][..1] == [a] && [a][..0] == none;
    assert RowCount([a], u) == RowCount(none, u) + 1 && TotalPlays([a], u) == TotalPlays(none, u) + a.plays;
    assert RowCount([a, b], u) == RowCount([a], u) + 1 && TotalPlays([a, b], u) == TotalPlays([a], u) + b.plays;
  }

  /** As written, a user with two rows in each of two partitions gets the
      count 3 instead of 4: merging the combiners `(2, 2)` and `(2, 2)` adds
      one to the count. */
  lemma ReduceByKeyUndercounts()
    ensures var parts := [[Interaction(1, 10, 1), Interaction(1, 11, 1)], [Interaction(1, 12, 1), Interaction(1, 13, 1)]];
            RowCount(Flatten(parts), 1) == 4 &&
            ReduceByKey(parts, 1, CalcPlayCount) == Some(Agg(4, 3)) &&
            ReduceByKey(parts, 1, MergeAgg) == Some(Agg(4, 4))
  {
    var p0 := [Interaction(1, 10, 1), Interaction(1, 11, 1)];
    var p1 := [Interaction(1, 12, 1), Interaction(1, 13, 1)];
    var parts := [p0, p1];
    var noParts: seq<seq<Interaction>> := [];
    TwoRows(p0[0], p0[1], 1);
    TwoRows(p1[0], p1[1], 1);
    FoldSeeds(p0, 1);
    FoldSeeds(p1, 1);
    assert parts[..1] == [p0] && [p0][..0] == noParts;
    assert Flatten(parts) == p0 + p1 by { assert Flatten([p0]) == p0; }
    RowCountAppend(p0, p1, 1);
    var c := Agg(2, 2);
    assert [c, c][..1] == [c];
    assert Combiners(parts, 1, CalcPlayCount) == [c, c];
    assert Combiners(parts, 1, MergeAgg) == [c, c];
    assert FoldAgg([c, c], CalcPlayCount) == CalcPlayCount(c, c);
    assert FoldAgg([c, c], MergeAgg) == MergeAgg(c, c);
  }

  /** As written, a user with play counts 1, 1 in one partition and 5, 5 in
      another gets the mean 12 / 3 == 4 instead of 12 / 4 == 3. */
  lemma ReduceByKeyWrongMean()
    ensures var parts := [[Interaction(1, 10, 1), Interaction(1, 11, 1)], [Interaction(1, 12, 5), Interaction(1, 13, 5)]];
            ReduceByKey(parts, 1, CalcPlayCount) == Some(Agg(12, 3)) && 12 / 3 == 4 &&
            RowCount(Flatten(parts), 1) > 0 && Mean(Flatten(parts), 1) == 3
  {
    var p0 := [Interaction(1, 10, 1), Interaction(1, 11, 1)];
    var p1 := [Interaction(1, 12, 5), Interaction(1, 13, 5)];
    var parts := [p0, p1];
    var noParts: seq<seq<Interaction>> := [];
    TwoRows(p0[0], p0[1], 1);
    TwoRows(p1[0], p1[1], 1);
    FoldSeeds(p0, 1);
    FoldSeeds(p1, 1);
    assert parts[..1] == [p0] && [p0][..0] == noParts;
    assert Flatten(parts) == p0 + p1 by { assert Flatten([p0]) == p0; }
    RowCountAppend(p0, p1, 1);
    var c0 := Agg(2, 2);
    var c1 := Agg(10, 2);
    assert [c0, c1][..1] == [c0];
    assert Combiners(parts, 1, CalcPlayCount) == [c0, c1];
    assert FoldAgg([c0, c1], CalcPlayCount) == CalcPlayCount(c0, c1);
  }

  /** `a[1][0] / a[1][1]` (Code.py:51): Python 2 integer division, which
      rounds toward negative infinity; the count is positive. */
  function Mean(data: seq<Interaction>, u: int): (r: int)
    requires RowCount(data, u) > 0
    ensures RowCount(data, u) * r <= TotalPlays(data, u) < RowCount(data, u) * (r + 1)
  {
    TotalPlays(data, u) / RowCount(data, u)
  }

  lemma {:induction false} PlaysBetween(data: seq<Interaction>, u: int, lo: int, hi: int)
    requires forall i :: 0 <= i < |data| && data[i].user == u ==> lo <= data[i].plays <= hi
    ensures lo * RowCount(data, u) <= TotalPlays(data, u) <= hi * RowCount(data, u)
    decreases |data|
  {
    if data != [] {
      var pre := data[..|data| - 1];
      PlaysBetween(pre, u, lo, hi);
      var c := RowCount(pre, u);
      assert lo * (c + 1) == lo * c + lo;
      assert hi * (c + 1) == hi * c + hi;
    }
  }

  lemma MulMonotone(c: nat, a: int, b: int)
    requires a <= b
    ensures c * a <= c * b
  {
    assert c * b - c * a == c * (b - a);
  }

  /** The mean lies between the smallest and the largest play count of the user. */
  lemma MeanBounds(data: seq<Interaction>, u: int, lo: int, hi: int)
    requires RowCount(data, u) > 0
    requires forall i :: 0 <= i < |data| && data[i].user == u ==> lo <= data[i].plays <= hi
    ensures lo <= Mean(data, u) <= hi
  {
    var c := RowCount(data, u);
    var m := Mean(data, u);
    PlaysBetween(data, u, lo, hi);
    if m > hi {
      MulMonotone(c, hi + 1, m);
      assert false;
    }
    if m < lo {
      MulMonotone(c, m + 1, lo);
      assert false;
    }
  }

  /** One row of `userPlayData` after the mean step: `(user, total, mean)`. */
  datatype UserStat = UserStat(user: int, total: int, mean: int)

  /** The users of the rows, once each. */
  function Users(data: seq<Interaction>): (r: seq<int>)
    ensures NoDuplicates(r)
    ensures forall u :: u in r <==> exists i :: 0 <= i < |data| && data[i].user == u
  {
    var us := seq(|data|, i requires 0 <= i < |data| => data[i].user);
    assert forall u :: u in us <==> exists i :: 0 <= i < |data| && data[i].user == u by {
      forall u | u in us ensures exists i :: 0 <= i < |data| && data[i].user == u {
        var k :| 0 <= k < |us| && us[k] == u;
        assert data[k].user == u;
      }
      forall u | exists i :: 0 <= i < |data| && data[i].user == u ensures u in us {
        var k :| 0 <= k < |data| && data[k].user == u;
        assert us[k] == u;
      }
    }
    Distinct(us)
  }

  lemma {:induction false} RowCountPositive(data: seq<Interaction>, i: int)
    requires 0 <= i < |data|
    ensures RowCount(data, data[i].user) > 0
    decreases |data|
  {
    if i < |data| - 1 {
      RowCountPositive(data[..|data| - 1], i);
    }
  }

  lemma UsersHaveRows(data: seq<Interaction>)
    ensures forall u :: u in Users(data) ==> RowCount(data, u) > 0
  {
    forall u | u in Users(data) ensures RowCount(data, u) > 0 {
      var i :| 0 <= i < |data| && data[i].user == u;
      RowCountPositive(data, i);
    }
  }

  /** `userPlayData` (Code.py:51), one entry per user: the user's total play
      count and mean play count. */
  function UserPlayData(data: seq<Interaction>): (r: seq<UserStat>)
    ensures |r| == |Users(data)|
    ensures forall i :: 0 <= i < |r| ==>
              r[i].user == Users(data)[i] && RowCount(data, r[i].user) > 0 &&
              r[i].total == TotalPlays(data, r[i].user) &&
              RowCount(data, r[i].user) * r[i].mean <= r[i].total < RowCount(data, r[i].user) * (r[i].mean + 1)
  {
    var us := Users(data);
    UsersHaveRows(data);
    seq(|us|, k requires 0 <= k < |us| => UserStat(us[k], TotalPlays(data, us[k]), Mean(data, us[k])))
  }

  /** The key of `takeOrdered` at Code.py:52, negated away: the total play count. */
  function TotalKey(s: UserStat): real {
    s.total as real
  }

  /** `userPlayData.takeOrdered(3, lambda k: -k[1])` (Code.py:52): at most three
      users, largest total first, none left out with a larger total than the
      last one taken. */
  function UserTop3(data: seq<Interaction>): (r: seq<UserStat>)
    ensures |r| == Min(3, |Users(data)|)
    ensures forall i, j :: 0 <= i < j < |r| ==> r[i].total >= r[j].total
    ensures forall s :: s in r ==> s in UserPlayData(data)
    ensures forall s :: s in UserPlayData(data) && s !in r ==> forall i :: 0 <= i < |r| ==> s.total <= r[i].total
  {
    var all := UserPlayData(data);
    TopByTotal(all);
    TakeOrdered(3, all, TotalKey)
  }

  /** `TakeOrdered`'s contract for the top three, read on integer totals. */
  lemma TopByTotal(all: seq<UserStat>)
    ensures var r := TakeOrdered(3, all, TotalKey);
      |r| == Min(3, |all|) &&
      (forall i, j :: 0 <= i < j < |r| ==> r[i].total >= r[j].total) &&
      (forall s :: s in r ==> s in all) &&
      (forall s :: s in all && s !in r ==> forall i :: 0 <= i < |r| ==> s.total <= r[i].total)
  {
    var r := TakeOrdered(3, all, TotalKey);
    TotalsSorted(r);
    TotalsAbove(all, r);
  }

  lemma TotalsSorted(r: seq<UserStat>)
    requires SortedDesc(r, TotalKey)
    ensures forall i, j :: 0 <= i < j < |r| ==> r[i].total >= r[j].total
  {
    forall i, j | 0 <= i < j < |r| ensures r[i].total >= r[j].total {
      assert TotalKey(r[i]) >= TotalKey(r[j]);
    }
  }

  lemma TotalsAbove(all: seq<UserStat>, r: seq<UserStat>)
    requires forall s :: s in all && s !in r ==> forall i :: 0 <= i < |r| ==> TotalKey(s) <= TotalKey(r[i])
    ensures forall s :: s in all && s !in r ==> forall i :: 0 <= i < |r| ==> s.total <= r[i].total
  {
    forall s, i | s in all && s !in r && 0 <= i < |r| ensures s.total <= r[i].total {
      assert TotalKey(s) <= TotalKey(r[i]);
    }
  }
}
