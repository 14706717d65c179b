/** Alias handling (Code.py:27-36): `mergeDict`, the reduction that builds the
    alias dictionary from the one-entry dictionaries of the alias table, and the
    loop that looks for an aliased play-count row. */
module Aliases {
  import opened Wrappers
  import opened Records

  /** The value `mergeDict(a, b)` leaves in `a`: Python's `if a:` is false for an
      empty dictionary, so an empty `a` stays empty and `b` is dropped;
      otherwise `a.update(b)` overwrites and adds `b`'s entries. */
  function Merge(a: map<int, int>, b: map<int, int>): (r: map<int, int>)
    ensures a == map[] ==> r == map[]
    ensures a != map[] ==> r.Keys == a.Keys + b.Keys
    ensures a != map[] ==> forall k :: k in b ==> r[k] == b[k]
    ensures a != map[] ==> forall k :: k in a && k !in b ==> r[k] == a[k]
  {
    if a != map[] then a + b else a
  }

  /** A Python dictionary from artist id to artist id, updated in place. */
  class Dict {
    var entries: map<int, int>

    constructor (entries: map<int, int>)
      ensures this.entries == entries
    {
      this.entries := entries;
    }
  }

  /** `mergeDict(a, b)` (Code.py:27-30): updates `a` in place and returns `a`
      itself; `b` is never changed. */
  method MergeDict(a: Dict, b: Dict) returns (r: Dict)
    modifies a
    ensures r == a
    ensures a.entries == Merge(old(a.entries), old(b.entries))
  {
    if a.entries != map[] {
      a.entries := a.entries + b.entries;
    }
    r := a;
  }

  /** `artistAlias.reduce(mergeDict)` (Code.py:32) on values: a left fold; an
      empty table raises ValueError ("Can not reduce() empty RDD"). */
  function ReduceMerge(ms: seq<map<int, int>>): (r: Result<map<int, int>>)
    ensures r.Err? <==> ms == []
    ensures r.Err? ==> r.error == ValueError
    decreases |ms|
  {
    if ms == [] then Err(ValueError)
    else if |ms| == 1 then Ok(ms[0])
    else Ok(Merge(ReduceMerge(ms[..|ms| - 1]).value, ms[|ms| - 1]))
  }

  /** Every key of any of the dictionaries. */
  function AllKeys(ms: seq<map<int, int>>): set<int>
    decreases |ms|
  {
    if ms == [] then {} else AllKeys(ms[..|ms| - 1]) + ms[|ms| - 1].Keys
  }

  /** The value the last dictionary holding `k` gives it. */
  function LastValue(ms: seq<map<int, int>>, k: int): Option<int>
    decreases |ms|
  {
    if ms == [] then None
    else if k in ms[|ms| - 1] then Some(ms[|ms| - 1][k])
    else LastValue(ms[..|ms| - 1], k)
  }

  predicate AllNonEmpty(ms: seq<map<int, int>>) {
    forall i :: 0 <= i < |ms| ==> ms[i] != map[]
  }

  /** With no empty dictionary in the table, the reduction is the union of all
      entries in which the last entry for a key wins. */
  lemma {:induction false} ReduceMergeLastWins(ms: seq<map<int, int>>)
    requires ms != [] && AllNonEmpty(ms)
    ensures ReduceMerge(ms).Ok?
    ensures ReduceMerge(ms).value.Keys == AllKeys(ms)
    ensures forall k :: LastValue(ms, k) == (if k in ReduceMerge(ms).value then Some(ReduceMerge(ms).value[k]) else None)
    decreases |ms|
  {
    var n := |ms|;
    if n == 1 {
      assert ms[..0] == [];
    } else {
      var pre := ms[..n - 1];
      assert AllNonEmpty(pre) by {
        forall i | 0 <= i < |pre| ensures pre[i] != map[] { assert pre[i] == ms[i]; }
      }
      ReduceMergeLastWins(pre);
      var a := ReduceMerge(pre).value;
      assert pre[0] == ms[0];
      assert ms[0].Keys <= AllKeys(pre) by { AllKeysHasFirst(pre); }
      NonEmptyHasKey(ms[0]);
      var k :| k in ms[0];
      assert k in a;
    }
  }

  lemma NonEmptyHasKey(m: map<int, int>)
    requires m != map[]
    ensures exists k :: k in m
  {
    assert (forall k :: k !in m) ==> m == map[];
  }

  lemma {:induction false} AllKeysHasFirst(ms: seq<map<int, int>>)
    requires ms != []
    ensures ms[0].Keys <= AllKeys(ms)
    decreases |ms|
  {
    if |ms| > 1 {
      AllKeysHasFirst(ms[..|ms| - 1]);
    }
  }

  /** An empty first dictionary swallows every later one. */
  lemma {:induction false} ReduceMergeEmptyFirst(ms: seq<map<int, int>>)
    requires ms != [] && ms[0] == map[]
    ensures ReduceMerge(ms) == Ok(map[])
    decreases |ms|
  {
    if |ms| > 1 {
      ReduceMergeEmptyFirst(ms[..|ms| - 1]);
    }
  }

  lemma MergeAssociative(a: map<int, int>, b: map<int, int>, c: map<int, int>)
    requires b != map[]
    ensures Merge(Merge(a, b), c) == Merge(a, Merge(b, c))
  {
    if a != map[] {
      assert (a + b) + c == a + (b + c);
    }
  }

  lemma {:induction false} ReduceMergeNonEmpty(ms: seq<map<int, int>>)
    requires ms != [] && ms[0] != map[]
    ensures ReduceMerge(ms).value != map[]
    decreases |ms|
  {
    if |ms| > 1 {
      ReduceMergeNonEmpty(ms[..|ms| - 1]);
      var a := ReduceMerge(ms[..|ms| - 1]).value;
      NonEmptyHasKey(a);
      var k :| k in a;
      assert k in Merge(a, ms[|ms| - 1]);
    }
  }

  /** Reducing each partition and then merging the partial results gives the
      same dictionary as one left fold: the partitioning of the alias table
      does not change the alias map. */
  lemma {:induction false} ReduceMergePartitions(xs: seq<map<int, int>>, ys: seq<map<int, int>>)
    requires xs != [] && ys != [] && AllNonEmpty(xs) && AllNonEmpty(ys)
    ensures ReduceMerge(xs + ys) == Ok(Merge(ReduceMerge(xs).value, ReduceMerge(ys).value))
    decreases |ys|
  {
    var n := |ys|;
    var zs := xs + ys;
    assert zs[..|zs| - 1] == xs + ys[..n - 1];
    if n == 1 {
      assert zs[..|zs| - 1] == xs;
    } else {
      var pre := ys[..n - 1];
      assert AllNonEmpty(pre) by {
        forall i | 0 <= i < |pre| ensures pre[i] != map[] { assert pre[i] == ys[i]; }
      }
      ReduceMergePartitions(xs, pre);
      ReduceMergeNonEmpty(pre);
      var a := ReduceMerge(xs).value;
      var b := ReduceMerge(pre).value;
      assert ReduceMerge(zs) == Ok(Merge(Merge(a, b), ys[n - 1]));
      assert ReduceMerge(ys) == Ok(Merge(b, ys[n - 1]));
      MergeAssociative(a, b, ys[n - 1]);
    }
  }

  /** The dictionaries of all partitions, in order. */
  function Concat(parts: seq<seq<map<int, int>>>): seq<map<int, int>>
    decreases |parts|
  {
    if parts == [] then [] else Concat(parts[..|parts| - 1]) + parts[|parts| - 1]
  }

  /** The partial results PySpark's `reduce` collects: one per non-empty
      partition, in partition order. */
  function PartialResults(parts: seq<seq<map<int, int>>>): seq<map<int, int>>
    decreases |parts|
  {
    if parts == [] then []
    else
      var last := parts[|parts| - 1];
      PartialResults(parts[..|parts| - 1]) + (if last == [] then [] else [ReduceMerge(last).value])
  }

  /** `rdd.reduce(mergeDict)` on a partitioned table: each non-empty partition
      is folded, then the partial results are folded; ValueError when every
      partition is empty. */
  function PartitionedReduce(parts: seq<seq<map<int, int>>>): (r: Result<map<int, int>>)
    ensures r.Err? <==> Concat(parts) == []
  {
    PartialResultsEmpty(parts);
    ReduceMerge(PartialResults(parts))
  }

  lemma {:induction false} PartialResultsEmpty(parts: seq<seq<map<int, int>>>)
    ensures PartialResults(parts) == [] <==> Concat(parts) == []
    decreases |parts|
  {
    if parts != [] {
      PartialResultsEmpty(parts[..|parts| - 1]);
    }
  }

  lemma AllNonEmptySplit(a: seq<map<int, int>>, b: seq<map<int, int>>)
    requires AllNonEmpty(a + b)
    ensures AllNonEmpty(a) && AllNonEmpty(b)
  {
    forall i | 0 <= i < |a| ensures a[i] != map[] { assert a[i] == (a + b)[i]; }
    forall i | 0 <= i < |b| ensures b[i] != map[] { assert b[i] == (a + b)[|a| + i]; }
  }

  /** However the table is partitioned, the partitioned reduction equals one
      left fold over the whole table. */
  lemma {:induction false} ReduceMergeAnyPartitioning(parts: seq<seq<map<int, int>>>)
    requires AllNonEmpty(Concat(parts))
    ensures PartitionedReduce(parts) == ReduceMerge(Concat(parts))
    decreases |parts|
  {
    if parts != [] {
      var pre := parts[..|parts| - 1];
      var last := parts[|parts| - 1];
      var c := Concat(pre);
      var ps := PartialResults(pre);
      AllNonEmptySplit(c, last);
      ReduceMergeAnyPartitioning(pre);
      if last == [] {
        assert Concat(parts) == c + [] == c;
        assert PartialResults(parts) == ps + [] == ps;
      } else if c == [] {
        assert Concat(parts) == last;
        assert ps == [];
        assert PartialResults(parts) == [ReduceMerge(last).value];
      } else {
        var x := ReduceMerge(last).value;
        ReduceMergePartitions(c, last);
        assert PartialResults(parts) == ps + [x];
        assert ReduceMerge(ps).Ok?;
        assert (ps + [x])[..|ps|] == ps;
      }
    }
  }

  /** The alias map built from a parsed alias table: a ValueError for an empty
      table, otherwise every duplicate id of the table is a key and maps to the
      canonical id of its last line. */
  lemma AliasMapOfTable(text: string)
    requires ParseAliases(text).Ok?
    ensures var ms := ParseAliases(text).value;
            (ReduceMerge(ms).Err? <==> ms == []) &&
            (ms != [] ==> ReduceMerge(ms).value.Keys == AllKeys(ms) &&
                          forall k :: k in ReduceMerge(ms).value ==> LastValue(ms, k) == Some(ReduceMerge(ms).value[k]))
  {
    var ms := ParseAliases(text).value;
    if ms != [] {
      assert AllNonEmpty(ms) by {
        forall i | 0 <= i < |ms| ensures ms[i] != map[] {
          var lines := NonEmptyLines(text);
          assert |ParseAliasLine(lines[i]).value| == 1;
        }
      }
      ReduceMergeLastWins(ms);
    }
  }

  /** The id an artist id stands for after one lookup in the alias map. */
  function Resolve(aliases: map<int, int>, a: int): int {
    if a in aliases then aliases[a] else a
  }

  /** `(userArtist[0], artistAliasDict[userArtist[1]], userArtist[2])` (Code.py:35). */
  function Rewrite(aliases: map<int, int>, t: Interaction): (r: Interaction)
    requires t.artist in aliases
    ensures r.user == t.user && r.plays == t.plays && r.artist == aliases[t.artist]
  {
    Interaction(t.user, aliases[t.artist], t.plays)
  }

  /** The index of the first row whose artist is an alias key. */
  function FirstAliased(data: seq<Interaction>, aliases: map<int, int>): (r: Option<nat>)
    ensures r.Some? ==> r.value < |data| && data[r.value].artist in aliases
    ensures r.Some? ==> forall j :: 0 <= j < r.value ==> data[j].artist !in aliases
    ensures r.None? ==> forall j :: 0 <= j < |data| ==> data[j].artist !in aliases
    decreases |data|
  {
    if data == [] then None
    else if data[0].artist in aliases then Some(0)
    else match FirstAliased(data[1..], aliases)
      case None => None
      case Some(k) => Some(k + 1)
  }

  /** The loop of Code.py:33-36, as written. It returns the final value of the
      loop variable `userArtist` (None when the loop never ran): the first
      aliased row rewritten to its canonical artist, or the last row when no row
      is aliased. The rows themselves are untouched, because the loop only
      rebinds its own variable, and the `break` leaves every later row unvisited. */
  method AliasLoop(data: seq<Interaction>, aliases: map<int, int>) returns (userArtist: Option<Interaction>)
    ensures FirstAliased(data, aliases).Some? ==>
              userArtist == Some(Rewrite(aliases, data[FirstAliased(data, aliases).value]))
    ensures FirstAliased(data, aliases).None? ==>
              userArtist == (if data == [] then None else Some(data[|data| - 1]))
  {
    userArtist := None;
    var i := 0;
    while i < |data|
      invariant 0 <= i <= |data|
      invariant forall j :: 0 <= j < i ==> data[j].artist !in aliases
      invariant userArtist == (if i == 0 then None else Some(data[i - 1]))
    {
      userArtist := Some(data[i]);
      if data[i].artist in aliases {
        userArtist := Some(Interaction(data[i].user, aliases[data[i].artist], data[i].plays));
        break;
      }
      i := i + 1;
    }
  }

  /** No canonical id is itself a duplicate id, so one lookup suffices. */
  predicate NoChains(aliases: map<int, int>) {
    forall k :: k in aliases ==> aliases[k] !in aliases
  }

  /** The evidently intended alias step: every row mapped through the alias map. */
  function Canonicalize(data: seq<Interaction>, aliases: map<int, int>): (r: seq<Interaction>)
    ensures |r| == |data|
    ensures forall i :: 0 <= i < |data| ==>
              r[i].user == data[i].user && r[i].plays == data[i].plays && r[i].artist == Resolve(aliases, data[i].artist)
  {
    seq(|data|, i requires 0 <= i < |data| => Interaction(data[i].user, Resolve(aliases, data[i].artist), data[i].plays))
  }

  /** Without chains, no canonicalized row refers to a duplicate id, rows that
      were already canonical are unchanged, and canonicalizing twice is the same
      as once. */
  lemma CanonicalizeResolves(data: seq<Interaction>, aliases: map<int, int>)
    requires NoChains(aliases)
    ensures forall i :: 0 <= i < |data| ==> Canonicalize(data, aliases)[i].artist !in aliases
    ensures forall i :: 0 <= i < |data| && data[i].artist !in aliases ==> Canonicalize(data, aliases)[i] == data[i]
    ensures Canonicalize(Canonicalize(data, aliases), aliases) == Canonicalize(data, aliases)
  {
    var c := Canonicalize(data, aliases);
    var cc := Canonicalize(c, aliases);
    assert forall i :: 0 <= i < |data| ==> c[i].artist !in aliases;
    assert forall i :: 0 <= i < |data| ==> cc[i] == c[i];
  }

  /** As written, the rows the rest of the script uses are not canonical: as
      soon as one row's artist is a duplicate id, the unchanged data differs
      from its canonical form at that row. */
  lemma AliasLoopLeavesDuplicates(data: seq<Interaction>, aliases: map<int, int>)
    requires NoChains(aliases)
    requires FirstAliased(data, aliases).Some?
    ensures var k := FirstAliased(data, aliases).value;
            data[k].artist in aliases && Canonicalize(data, aliases)[k] != data[k]
  {
  }

  /** A concrete input: two aliased rows; the loop stops at the first and the
      second is never even looked at. */
  lemma AliasLoopExample()
    ensures var data := [Interaction(1, 5, 3), Interaction(2, 6, 1)];
            var aliases := map[5 := 7, 6 := 7];
            FirstAliased(data, aliases) == Some(0) &&
            data[1].artist in aliases &&
            Canonicalize(data, aliases) == [Interaction(1, 7, 3), Interaction(2, 7, 1)]
  {
    var data := [Interaction(1, 5, 3), Interaction(2, 6, 1)];
    var aliases := map[5 := 7, 6 := 7];
    var c := Canonicalize(data, aliases);
    assert c[0] == Interaction(1, 7, 3);
    assert c[1] == Interaction(2, 7, 1);
  }
}
