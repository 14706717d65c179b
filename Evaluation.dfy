/** The ranking evaluator `modelEval(model, data)` (Code.py:87-105). For every
    user of the held-out rows it ranks the catalog artists the user has no
    training row for by the model's predicted rating, keeps as many as the
    user has held-out rows, and scores the share of those that the user
    really played; the result is the average over the users. */
module Evaluation {
  import opened Wrappers
  import opened Records
  import opened Ordering
  import opened Seqs
  import opened PlayStats

  /** The trained model as `predictAll` sees it: the predicted rating of a
      (user, artist) pair, or None when the model holds no factors for the
      user or the artist (`predictAll` then leaves the pair out). */
  type Model = (int, int) -> Option<real>

  /** A `Rating(user, product, rating)` of `predictAll` for the user at hand. */
  datatype Prediction = Prediction(artist: int, rating: real)

  /** `data` has a row of user `u` for artist `a`. */
  predicate HasRow(data: seq<Interaction>, u: int, a: int) {
    exists i :: 0 <= i < |data| && data[i].user == u && data[i].artist == a
  }

  /** Artist `a` occurs somewhere in `all`. */
  predicate InCatalog(all: seq<Interaction>, a: int) {
    exists i :: 0 <= i < |all| && all[i].artist == a
  }

  lemma HasRowLast(data: seq<Interaction>, u: int)
    requires data != []
    ensures forall a :: HasRow(data, u, a) <==>
              HasRow(data[..|data| - 1], u, a) || (data[|data| - 1].user == u && data[|data| - 1].artist == a)
  {
    var pre := data[..|data| - 1];
    forall a ensures HasRow(data, u, a) <==> HasRow(pre, u, a) || (data[|data| - 1].user == u && data[|data| - 1].artist == a) {
      if HasRow(data, u, a) {
        var i :| 0 <= i < |data| && data[i].user == u && data[i].artist == a;
        if i < |pre| { assert pre[i] == data[i]; }
      }
      if HasRow(pre, u, a) {
        var i :| 0 <= i < |pre| && pre[i].user == u && pre[i].artist == a;
        assert data[i] == pre[i];
      }
    }
  }

  /** `data.filter(lambda u: u[0] == user).map(lambda a: a[1])` (Code.py:97
      and 100): the artist of each of `u`'s rows, one per row, in order. */
  function ArtistsOf(data: seq<Interaction>, u: int): (r: seq<int>)
    ensures |r| == RowCount(data, u)
    ensures forall a :: a in r <==> HasRow(data, u, a)
    decreases |data|
  {
    if data == [] then []
    else
      var t := data[|data| - 1];
      HasRowLast(data, u);
      ArtistsOf(data[..|data| - 1], u) + (if t.user == u then [t.artist] else [])
  }

  /** `userArtistData.map(lambda a: a[1]).distinct()` (Code.py:91). */
  function CatalogArtists(all: seq<Interaction>): (r: seq<int>)
    ensures NoDuplicates(r)
    ensures forall a :: a in r <==> InCatalog(all, a)
  {
    var column := seq(|all|, i requires 0 <= i < |all| => all[i].artist);
    assert forall a :: a in column <==> InCatalog(all, a) by {
      forall a | a in column ensures InCatalog(all, a) {
        var k :| 0 <= k < |column| && column[k] == a;
        assert all[k].artist == a;
      }
      forall a | InCatalog(all, a) ensures a in column {
        var k :| 0 <= k < |all| && all[k].artist == a;
        assert column[k] == a;
      }
    }
    Distinct(column)
  }

  /** `xs.subtract(ys)`: the elements of `xs` that are not in `ys`, in order. */
  function Subtract(xs: seq<int>, ys: seq<int>): (r: seq<int>)
    ensures forall a :: a in r <==> a in xs && a !in ys
    ensures NoDuplicates(xs) ==> NoDuplicates(r)
    decreases |xs|
  {
    if xs == [] then []
    else
      var rest := Subtract(xs[1..], ys);
      assert xs == [xs[0]] + xs[1..];
      assert NoDuplicates(xs) ==> NoDuplicates(xs[1..]) && xs[0] !in xs[1..];
      if xs[0] in ys then rest else [xs[0]] + rest
  }

  /** `predictionArtists` (Code.py:98): the catalog artists `u` has no
      training row for, each once. */
  function Candidates(all: seq<Interaction>, train: seq<Interaction>, u: int): (r: seq<int>)
    ensures NoDuplicates(r)
    ensures forall a :: a in r <==> InCatalog(all, a) && !HasRow(train, u, a)
  {
    Subtract(CatalogArtists(all), ArtistsOf(train, u))
  }

  predicate DistinctArtists(ps: seq<Prediction>) {
    forall i, j :: 0 <= i < j < |ps| ==> ps[i].artist != ps[j].artist
  }

  /** `model.predictAll(sc.parallelize([user]).cartesian(predictionArtists))`
      (Code.py:99): one prediction per candidate the model can score. */
  function Predict(model: Model, u: int, cands: seq<int>): (r: seq<Prediction>)
    ensures forall i :: 0 <= i < |r| ==> r[i].artist in cands && model(u, r[i].artist) == Some(r[i].rating)
    ensures forall a :: a in cands && model(u, a).Some? ==> Prediction(a, model(u, a).value) in r
    ensures NoDuplicates(cands) ==> DistinctArtists(r)
    decreases |cands|
  {
    if cands == [] then []
    else
      var rest := Predict(model, u, cands[1..]);
      assert cands == [cands[0]] + cands[1..];
      assert NoDuplicates(cands) ==> NoDuplicates(cands[1..]) && cands[0] !in cands[1..];
      match model(u, cands[0])
      case None => rest
      case Some(v) => [Prediction(cands[0], v)] + rest
  }

  /** `model.predictAll(user_product)` (Code.py:99) as PySpark runs it: it
      begins with `user_product.first()`, which raises ValueError ("RDD is
      empty") when the user has no candidate artist; otherwise it returns
      the predictions of `Predict`. */
  function PredictAll(model: Model, u: int, cands: seq<int>): (r: Result<seq<Prediction>>)
    ensures r.Err? <==> cands == []
    ensures r.Err? ==> r.error == ValueError
    ensures r.Ok? ==> forall i :: 0 <= i < |r.value| ==>
              r.value[i].artist in cands && model(u, r.value[i].artist) == Some(r.value[i].rating)
    ensures r.Ok? ==> forall a :: a in cands && model(u, a).Some? ==> Prediction(a, model(u, a).value) in r.value
    ensures r.Ok? ==> r.value == Predict(model, u, cands)
  {
    if cands == [] then Err(ValueError) else Ok(Predict(model, u, cands))
  }

  /** Some held-out user has no candidate artist: a training row for every
      artist of the catalog. */
  predicate SomeUserWithoutCandidates(all: seq<Interaction>, train: seq<Interaction>, data: seq<Interaction>) {
    exists i :: 0 <= i < |data| && Candidates(all, train, data[i].user) == []
  }

  /** A (user, artist) pair occurs in at most one row. */
  predicate UniquePairs(all: seq<Interaction>) {
    forall i, j :: 0 <= i < j < |all| && all[i].user == all[j].user ==> all[i].artist != all[j].artist
  }

  lemma {:induction false} TwoOccurrences(s: seq<Interaction>, x: Interaction) returns (i: nat, j: nat)
    requires multiset(s)[x] >= 2
    ensures i < j < |s| && s[i] == x && s[j] == x
    decreases |s|
  {
    var pre := s[..|s| - 1];
    assert s == pre + [s[|s| - 1]];
    assert multiset(s) == multiset(pre) + multiset{s[|s| - 1]};
    if s[|s| - 1] == x {
      assert x in multiset(pre);
      i :| 0 <= i < |pre| && pre[i] == x;
      j := |s| - 1;
    } else {
      i, j := TwoOccurrences(pre, x);
    }
  }

  /** When `train` and `data` take disjoint rows of `all`, as the
      `randomSplit` at Code.py:65 does, and no (user, artist) pair occurs in
      two rows, every held-out user keeps a candidate: the artist of a
      held-out row. Only a repeated pair can make `predictAll` fail. */
  lemma SplitHasCandidates(all: seq<Interaction>, train: seq<Interaction>, data: seq<Interaction>)
    requires multiset(train) + multiset(data) <= multiset(all)
    requires UniquePairs(all)
    ensures !SomeUserWithoutCandidates(all, train, data)
  {
    forall k | 0 <= k < |data| ensures Candidates(all, train, data[k].user) != [] {
      var d := data[k];
      assert d in multiset(data);
      assert d in multiset(all);
      var p :| 0 <= p < |all| && all[p] == d;
      assert InCatalog(all, d.artist);
      if HasRow(train, d.user, d.artist) {
        var m :| 0 <= m < |train| && train[m].user == d.user && train[m].artist == d.artist;
        var t := train[m];
        assert t in multiset(train);
        assert t in multiset(all);
        if t == d {
          assert multiset(all)[d] >= multiset(train)[d] + multiset(data)[d];
          var i, j := TwoOccurrences(all, d);
          assert false;
        } else {
          assert false;
        }
      }
      assert d.artist in Candidates(all, train, d.user);
    }
  }

  /** The failing case needs a repeated pair: user 1 played artist 100 in a
      training row and in a held-out row, and the catalog has no other artist. */
  lemma NoCandidateExample(model: Model)
    ensures Candidates([Interaction(1, 100, 5), Interaction(1, 100, 3)], [Interaction(1, 100, 5)], 1) == []
    ensures EvalScore(model, [Interaction(1, 100, 5), Interaction(1, 100, 3)], [Interaction(1, 100, 5)],
                      [Interaction(1, 100, 3)]) == Err(ValueError)
  {
    var all := [Interaction(1, 100, 5), Interaction(1, 100, 3)];
    var train := [Interaction(1, 100, 5)];
    var data := [Interaction(1, 100, 3)];
    assert HasRow(train, 1, 100) by { assert train[0].user == 1 && train[0].artist == 100; }
    assert Candidates(all, train, data[0].user) == [];
  }

  lemma {:induction false} CountInDistinct(ps: seq<Prediction>, p: Prediction)
    requires DistinctArtists(ps) && p in ps
    ensures multiset(ps)[p] == 1
    decreases |ps|
  {
    assert ps == [ps[0]] + ps[1..];
    assert DistinctArtists(ps[1..]);
    if ps[0] == p {
      assert p !in ps[1..];
    } else {
      CountInDistinct(ps[1..], p);
    }
  }

  lemma CountTwice(r: seq<Prediction>, i: int, j: int)
    requires 0 <= i < j < |r| && r[i] == r[j]
    ensures multiset(r)[r[i]] >= 2
  {
    assert r == r[..j] + [r[j]] + r[j + 1..];
    assert r[i] in r[..j];
  }

  /** Taking a sub-multiset of predictions for distinct artists keeps the
      artists distinct. */
  lemma SubDistinct(r: seq<Prediction>, ps: seq<Prediction>)
    requires multiset(r) <= multiset(ps) && DistinctArtists(ps)
    ensures DistinctArtists(r)
  {
    forall i, j | 0 <= i < j < |r| ensures r[i].artist != r[j].artist {
      if r[i].artist == r[j].artist {
        assert r[i] in multiset(ps) && r[j] in multiset(ps);
        var k :| 0 <= k < |ps| && ps[k] == r[i];
        var l :| 0 <= l < |ps| && ps[l] == r[j];
        assert k == l;
        CountTwice(r, i, j);
        CountInDistinct(ps, r[i]);
        assert false;
      }
    }
  }

  /** The key of `takeOrdered` at Code.py:102, negated away: the predicted rating. */
  function Rating(p: Prediction): real {
    p.rating
  }

  /** `predictions.takeOrdered(X, lambda a: -a[2])` (Code.py:101-102), where X
      is the number of `u`'s held-out rows. */
  function Ranking(model: Model, all: seq<Interaction>, train: seq<Interaction>, data: seq<Interaction>, u: int): (r: seq<Prediction>)
    ensures |r| <= RowCount(data, u)
  {
    TakeOrdered(|ArtistsOf(data, u)|, Predict(model, u, Candidates(all, train, u)), Rating)
  }

  /** The ranking holds the best-rated predictions, best first: as many as
      there are up to X; for candidates only, each with the model's rating;
      one per artist; and no scored candidate left out rates higher than any
      ranked one. */
  lemma RankingFacts(model: Model, all: seq<Interaction>, train: seq<Interaction>, data: seq<Interaction>, u: int)
    ensures var r := Ranking(model, all, train, data, u);
      |r| == Min(RowCount(data, u), |Predict(model, u, Candidates(all, train, u))|)
    ensures var r := Ranking(model, all, train, data, u);
      forall i :: 0 <= i < |r| ==> r[i].artist in Candidates(all, train, u) && model(u, r[i].artist) == Some(r[i].rating)
    ensures var r := Ranking(model, all, train, data, u);
      forall i, j :: 0 <= i < j < |r| ==> r[i].rating >= r[j].rating
    ensures DistinctArtists(Ranking(model, all, train, data, u))
    ensures var r := Ranking(model, all, train, data, u);
      forall a :: a in Candidates(all, train, u) && model(u, a).Some? && (forall k :: 0 <= k < |r| ==> r[k].artist != a) ==>
        forall i :: 0 <= i < |r| ==> model(u, a).value <= r[i].rating
  {
    var cands := Candidates(all, train, u);
    var preds := Predict(model, u, cands);
    var r := Ranking(model, all, train, data, u);
    TakenFacts(|ArtistsOf(data, u)|, preds, r);
    forall a | a in cands && model(u, a).Some? && (forall k :: 0 <= k < |r| ==> r[k].artist != a)
      ensures forall i :: 0 <= i < |r| ==> model(u, a).value <= r[i].rating
    {
      var p := Prediction(a, model(u, a).value);
      assert p in preds;
    }
  }

  /** What the ranking keeps of `takeOrdered`'s contract, in terms of ratings. */
  lemma TakenFacts(n: nat, preds: seq<Prediction>, r: seq<Prediction>)
    requires r == TakeOrdered(n, preds, Rating)
    ensures |r| == Min(n, |preds|)
    ensures forall i :: 0 <= i < |r| ==> r[i] in preds
    ensures forall i, j :: 0 <= i < j < |r| ==> r[i].rating >= r[j].rating
    ensures DistinctArtists(preds) ==> DistinctArtists(r)
    ensures forall p :: p in preds && p !in r ==> forall i :: 0 <= i < |r| ==> p.rating <= r[i].rating
  {
    if DistinctArtists(preds) {
      SubDistinct(r, preds);
    }
    forall i, j | 0 <= i < j < |r| ensures r[i].rating >= r[j].rating {
      assert Rating(r[i]) >= Rating(r[j]);
    }
    assert forall p :: p in preds && p !in r ==> forall i :: 0 <= i < |r| ==> Rating(p) <= Rating(r[i]);
  }

  /** `predictionsSorted.map(lambda a: a[1])` (Code.py:103). */
  function RankedArtists(ps: seq<Prediction>): (r: seq<int>)
    ensures |r| == |ps|
    ensures forall i :: 0 <= i < |ps| ==> r[i] == ps[i].artist
  {
    seq(|ps|, i requires 0 <= i < |ps| => ps[i].artist)
  }

  /** `len(dataArtists.intersection(predictionsSorted).collect())` (Code.py:104):
      `intersection` returns distinct elements. */
  function Hits(held: seq<int>, ranked: seq<int>): (r: nat)
    ensures r <= |ranked| && r <= |held|
  {
    ElementsCard(ranked);
    ElementsCard(held);
    SubsetCard(Elements(held) * Elements(ranked), Elements(ranked));
    SubsetCard(Elements(held) * Elements(ranked), Elements(held));
    |Elements(held) * Elements(ranked)|
  }

  /** One user's term of the sum (Code.py:104): the share of the ranked
      artists the user played in the held-out rows, relative to the number X
      of held-out rows; it lies in [0, 1] because at most X artists are ranked. */
  function UserScore(model: Model, all: seq<Interaction>, train: seq<Interaction>, data: seq<Interaction>, u: int): (r: real)
    requires RowCount(data, u) > 0
    ensures 0.0 <= r <= 1.0
  {
    var held := ArtistsOf(data, u);
    Share(Hits(held, RankedArtists(Ranking(model, all, train, data, u))), |held|)
  }

  /** `hits / float(X)` (Code.py:104). */
  function Share(hits: nat, x: nat): (r: real)
    requires 0 < x && hits <= x
    ensures 0.0 <= r <= 1.0
    ensures r == 0.0 <==> hits == 0
    ensures r == 1.0 <==> hits == x
  {
    RatioBounds(hits as real, x as real);
    RatioOne(x as real);
    hits as real / x as real
  }

  lemma RatioBounds(a: real, b: real)
    requires 0.0 <= a <= b && b > 0.0
    ensures 0.0 <= a / b <= 1.0
  {
  }

  /** A user the model cannot score at all (no factors for them) gets 0. */
  lemma ColdStartUser(model: Model, all: seq<Interaction>, train: seq<Interaction>, data: seq<Interaction>, u: int)
    requires RowCount(data, u) > 0
    requires forall a :: model(u, a) == None
    ensures UserScore(model, all, train, data, u) == 0.0
  {
    PredictNone(model, u, Candidates(all, train, u));
    var ranked := RankedArtists(Ranking(model, all, train, data, u));
    assert ranked == [];
    assert Elements(ranked) == {};
  }

  lemma {:induction false} PredictNone(model: Model, u: int, cands: seq<int>)
    requires forall a :: model(u, a) == None
    ensures Predict(model, u, cands) == []
    decreases |cands|
  {
    if cands != [] {
      PredictNone(model, u, cands[1..]);
    }
  }

  /** Each held-out artist of `u` occurs once, is a candidate that `model`
      can score, and is rated above every other candidate `model` can score. */
  predicate Separates(model: Model, all: seq<Interaction>, train: seq<Interaction>, data: seq<Interaction>, u: int) {
    NoDuplicates(ArtistsOf(data, u)) &&
    (forall a :: a in ArtistsOf(data, u) ==> a in Candidates(all, train, u) && model(u, a).Some?) &&
    (forall a, b ::
       (a in ArtistsOf(data, u) && b in Candidates(all, train, u) && b !in ArtistsOf(data, u) &&
        model(u, a).Some? && model(u, b).Some?) ==> model(u, b).value < model(u, a).value)
  }

  /** A model that rates every held-out artist of `u` above every other
      candidate it can score gets the full score 1 for `u`, when each
      held-out artist occurs once and is a candidate. */
  lemma PerfectModel(model: Model, all: seq<Interaction>, train: seq<Interaction>, data: seq<Interaction>, u: int)
    requires RowCount(data, u) > 0
    requires Separates(model, all, train, data, u)
    ensures UserScore(model, all, train, data, u) == 1.0
  {
    PerfectRanking(model, all, train, data, u);
    FullScore(model, all, train, data, u);
  }

  /** Ranking exactly the held-out artists, each held once, scores 1. */
  lemma FullScore(model: Model, all: seq<Interaction>, train: seq<Interaction>, data: seq<Interaction>, u: int)
    requires RowCount(data, u) > 0 && NoDuplicates(ArtistsOf(data, u))
    requires Elements(RankedArtists(Ranking(model, all, train, data, u))) == Elements(ArtistsOf(data, u))
    ensures UserScore(model, all, train, data, u) == 1.0
  {
    var held := ArtistsOf(data, u);
    var ranked := RankedArtists(Ranking(model, all, train, data, u));
    ElementsCard(held);
    assert Elements(held) * Elements(ranked) == Elements(held);
    assert Hits(held, ranked) == |held|;
  }

  lemma RatioOne(a: real)
    requires a > 0.0
    ensures a / a == 1.0
  {
  }

  /** Under the same conditions the ranked artists are exactly the held-out ones. */
  lemma PerfectRanking(model: Model, all: seq<Interaction>, train: seq<Interaction>, data: seq<Interaction>, u: int)
    requires RowCount(data, u) > 0
    requires Separates(model, all, train, data, u)
    ensures Elements(RankedArtists(Ranking(model, all, train, data, u))) == Elements(ArtistsOf(data, u))
  {
    var held := ArtistsOf(data, u);
    var x := |held|;
    var cands := Candidates(all, train, u);
    var preds := Predict(model, u, cands);
    var r := Ranking(model, all, train, data, u);
    var ranked := RankedArtists(r);
    RankingFacts(model, all, train, data, u);
    var H := Elements(held);
    var R := Elements(ranked);
    ElementsCard(held);
    assert |H| == x;
    HeldAllRanked(model, all, train, data, u);
    assert forall a :: a in H ==> a in cands && model(u, a).Some?;
    assert forall a, b :: (a in H && b in cands && b !in H && model(u, a).Some? && model(u, b).Some?) ==>
             model(u, b).value < model(u, a).value;
    RankedAreHeld(model, u, cands, H, r);
  }

  /** X ranked artists, distinct, each rated above every scored candidate
      left out, are the X held-out artists when those outrank all others. */
  lemma RankedAreHeld(model: Model, u: int, cands: seq<int>, h: set<int>, r: seq<Prediction>)
    requires DistinctArtists(r) && |r| == |h|
    requires forall i :: 0 <= i < |r| ==> r[i].artist in cands && model(u, r[i].artist) == Some(r[i].rating)
    requires forall a :: a in h ==> a in cands && model(u, a).Some?
    requires forall a :: a in cands && model(u, a).Some? && (forall k :: 0 <= k < |r| ==> r[k].artist != a) ==>
               forall i :: 0 <= i < |r| ==> model(u, a).value <= r[i].rating
    requires forall a, b ::
               (a in h && b in cands && b !in h && model(u, a).Some? && model(u, b).Some?) ==> model(u, b).value < model(u, a).value
    ensures Elements(RankedArtists(r)) == h
  {
    var ranked := RankedArtists(r);
    var rs := Elements(ranked);
    assert NoDuplicates(ranked);
    ElementsCard(ranked);
    forall b | b in rs ensures b in h {
      if b !in h {
        var i :| 0 <= i < |ranked| && ranked[i] == b;
        var a := Pigeonhole(h, rs, b);
        assert false;
      }
    }
    SubsetCard(rs, h);
  }

  /** When every held-out artist of `u` is a scored candidate, X of them are ranked. */
  lemma HeldAllRanked(model: Model, all: seq<Interaction>, train: seq<Interaction>, data: seq<Interaction>, u: int)
    requires NoDuplicates(ArtistsOf(data, u))
    requires forall a :: a in ArtistsOf(data, u) ==> a in Candidates(all, train, u) && model(u, a).Some?
    ensures |Ranking(model, all, train, data, u)| == |ArtistsOf(data, u)|
  {
    var held := ArtistsOf(data, u);
    var preds := Predict(model, u, Candidates(all, train, u));
    ElementsCard(held);
    ScoredHeld(model, u, Candidates(all, train, u), held);
    SubsetCard(Elements(held), Elements(RankedArtists(preds)));
    ElementsCard(RankedArtists(preds));
    RankingFacts(model, all, train, data, u);
  }

  /** Artists that are candidates the model scores all have a prediction. */
  lemma ScoredHeld(model: Model, u: int, cands: seq<int>, held: seq<int>)
    requires forall a :: a in held ==> a in cands && model(u, a).Some?
    ensures Elements(held) <= Elements(RankedArtists(Predict(model, u, cands)))
  {
    var preds := Predict(model, u, cands);
    forall a | a in Elements(held) ensures a in Elements(RankedArtists(preds)) {
      var p := Prediction(a, model(u, a).value);
      assert p in preds;
      var k :| 0 <= k < |preds| && preds[k] == p;
      assert RankedArtists(preds)[k] == a;
    }
  }

  /** Two sets of the same size: an element of one outside the other means
      the other has an element outside the one. */
  lemma Pigeonhole(h: set<int>, r: set<int>, b: int) returns (a: int)
    requires |h| == |r| && b in r && b !in h
    ensures a in h && a !in r
  {
    if !exists a :: a in h && a !in r {
      assert h <= r - {b};
      SubsetCard(h, r - {b});
      assert false;
    }
    a :| a in h && a !in r;
  }

  /** The sum of the terms of `users`. */
  function SumScores(model: Model, all: seq<Interaction>, train: seq<Interaction>, data: seq<Interaction>, users: seq<int>): real
    requires forall u :: u in users ==> RowCount(data, u) > 0
    decreases |users|
  {
    if users == [] then 0.0
    else
      var u := users[|users| - 1];
      SumScores(model, all, train, data, users[..|users| - 1]) + UserScore(model, all, train, data, u)
  }

  lemma SumScoresStep(model: Model, all: seq<Interaction>, train: seq<Interaction>, data: seq<Interaction>, users: seq<int>, i: nat)
    requires i < |users| && forall u :: u in users ==> RowCount(data, u) > 0
    ensures SumScores(model, all, train, data, users[..i + 1]) ==
            SumScores(model, all, train, data, users[..i]) + UserScore(model, all, train, data, users[i])
  {
    assert users[..i + 1][..i] == users[..i];
  }

  lemma {:induction false} SumScoresBounds(model: Model, all: seq<Interaction>, train: seq<Interaction>, data: seq<Interaction>, users: seq<int>)
    requires forall u :: u in users ==> RowCount(data, u) > 0
    ensures 0.0 <= SumScores(model, all, train, data, users) <= |users| as real
    decreases |users|
  {
    if users != [] {
      SumScoresBounds(model, all, train, data, users[..|users| - 1]);
    }
  }

  /** What `modelEval` returns: the mean of the users' terms, which lies in
      [0, 1]; with no held-out row at all the final division is by zero, and
      a held-out user without a candidate makes `predictAll` raise ValueError. */
  function EvalScore(model: Model, all: seq<Interaction>, train: seq<Interaction>, data: seq<Interaction>): (r: Result<real>)
    ensures r.Err? <==> data == [] || SomeUserWithoutCandidates(all, train, data)
    ensures r == Err(ZeroDivisionError) <==> data == []
    ensures r == Err(ValueError) <==> SomeUserWithoutCandidates(all, train, data)
    ensures r.Ok? ==> 0.0 <= r.value <= 1.0
  {
    var users := Users(data);
    UsersHaveRows(data);
    assert data != [] ==> data[0].user in users;
    if |users| == 0 then Err(ZeroDivisionError)
    else if SomeUserWithoutCandidates(all, train, data) then Err(ValueError)
    else
      SumScoresBounds(model, all, train, data, users);
      RatioBounds(SumScores(model, all, train, data, users), |users| as real);
      Ok(SumScores(model, all, train, data, users) / (|users| as real))
  }

  lemma {:induction false} SumScoresAllOne(model: Model, all: seq<Interaction>, train: seq<Interaction>, data: seq<Interaction>, users: seq<int>)
    requires forall u :: u in users ==> RowCount(data, u) > 0 && UserScore(model, all, train, data, u) == 1.0
    ensures SumScores(model, all, train, data, users) == |users| as real
    decreases |users|
  {
    if users != [] {
      var pre := users[..|users| - 1];
      assert forall u :: u in pre ==> u in users;
      SumScoresAllOne(model, all, train, data, pre);
      assert users[|users| - 1] in users;
    }
  }

  /** A model that separates every user's held-out artists from the other
      candidates gets the overall score 1. */
  lemma PerfectEval(model: Model, all: seq<Interaction>, train: seq<Interaction>, data: seq<Interaction>)
    requires data != []
    requires forall u :: u in Users(data) ==> Separates(model, all, train, data, u)
    ensures EvalScore(model, all, train, data) == Ok(1.0)
  {
    var users := Users(data);
    UsersHaveRows(data);
    forall u | u in users
      ensures RowCount(data, u) > 0 && UserScore(model, all, train, data, u) == 1.0
    {
      PerfectModel(model, all, train, data, u);
    }
    SumScoresAllOne(model, all, train, data, users);
    assert data[0].user in users;
    forall k | 0 <= k < |data| ensures Candidates(all, train, data[k].user) != [] {
      var u := data[k].user;
      assert u in users;
      var held := ArtistsOf(data, u);
      assert held[0] in held;
    }
    RatioOne(|users| as real);
  }

  lemma UserWithoutCandidates(model: Model, all: seq<Interaction>, train: seq<Interaction>, data: seq<Interaction>, u: int)
    requires u in Users(data) && Candidates(all, train, u) == []
    ensures EvalScore(model, all, train, data) == Err(ValueError)
  {
    var j :| 0 <= j < |data| && data[j].user == u;
    assert Candidates(all, train, data[j].user) == [];
  }

  /** Every user of `us` has a candidate artist. */
  predicate AllHaveCandidates(all: seq<Interaction>, train: seq<Interaction>, us: seq<int>)
    decreases |us|
  {
    us == [] || (AllHaveCandidates(all, train, us[..|us| - 1]) && Candidates(all, train, us[|us| - 1]) != [])
  }

  lemma {:induction false} AllHaveCandidatesIn(all: seq<Interaction>, train: seq<Interaction>, us: seq<int>, u: int)
    requires AllHaveCandidates(all, train, us) && u in us
    ensures Candidates(all, train, u) != []
    decreases |us|
  {
    if us[|us| - 1] != u {
      assert us == us[..|us| - 1] + [us[|us| - 1]];
      AllHaveCandidatesIn(all, train, us[..|us| - 1], u);
    }
  }

  lemma AllHaveCandidatesStep(all: seq<Interaction>, train: seq<Interaction>, us: seq<int>, i: nat)
    requires i < |us| && AllHaveCandidates(all, train, us[..i]) && Candidates(all, train, us[i]) != []
    ensures AllHaveCandidates(all, train, us[..i + 1])
  {
    assert us[..i + 1][..i] == us[..i];
  }

  lemma UsersWithCandidates(model: Model, all: seq<Interaction>, train: seq<Interaction>, data: seq<Interaction>)
    requires data != [] && forall k :: 0 <= k < |Users(data)| ==> Candidates(all, train, Users(data)[k]) != []
    ensures forall u :: u in Users(data) ==> RowCount(data, u) > 0
    ensures EvalScore(model, all, train, data) ==
            Ok(SumScores(model, all, train, data, Users(data)) / (|Users(data)| as real))
  {
    UsersHaveRows(data);
    var users := Users(data);
    forall j | 0 <= j < |data| ensures Candidates(all, train, data[j].user) != [] {
      assert data[j].user in users;
      var k :| 0 <= k < |users| && users[k] == data[j].user;
    }
  }

  /** One pass of the loop body of `modelEval` (Code.py:96-104) for `user`:
      ValueError from `predictAll` when the user has no candidate artist,
      otherwise the user's term. */
  method UserTerm(model: Model, all: seq<Interaction>, train: seq<Interaction>, data: seq<Interaction>, user: int) returns (r: Result<real>)
    requires RowCount(data, user) > 0
    ensures r.Err? <==> Candidates(all, train, user) == []
    ensures r.Err? ==> r.error == ValueError
    ensures r.Ok? ==> r.value == UserScore(model, all, train, data, user)
  {
    var predictionArtists := Candidates(all, train, user);
    var result := PredictAll(model, user, predictionArtists);
    if result.Err? {
      return Err(ValueError);
    }
    var predictions := result.value;
    var dataArtists := ArtistsOf(data, user);
    var x := |dataArtists|;
    var predictionsSorted := TakeOrdered(x, predictions, Rating);
    var hits := Hits(dataArtists, RankedArtists(predictionsSorted));
    r := Ok(Share(hits, x));
  }

  /** The `for user in users` loop of `modelEval` (Code.py:95-104): it adds
      each user's term to `score`, and stops with `predictAll`'s ValueError at
      the first user that has no candidate artist. */
  method SumUserTerms(model: Model, all: seq<Interaction>, train: seq<Interaction>, data: seq<Interaction>, users: seq<int>)
      returns (r: Result<real>)
    requires forall u :: u in users ==> RowCount(data, u) > 0
    ensures r.Err? <==> exists k :: 0 <= k < |users| && Candidates(all, train, users[k]) == []
    ensures r.Err? ==> r.error == ValueError
    ensures r.Ok? ==> r.value == SumScores(model, all, train, data, users)
  {
    var score: real := 0.0;
    var i := 0;
    while i < |users|
      invariant 0 <= i <= |users|
      invariant score == SumScores(model, all, train, data, users[..i])
      invariant AllHaveCandidates(all, train, users[..i])
    {
      var user := users[i];
      var term := UserTerm(model, all, train, data, user);
      if term.Err? {
        return Err(ValueError);
      }
      SumScoresStep(model, all, train, data, users, i);
      AllHaveCandidatesStep(all, train, users, i);
      score := score + term.value;
      i := i + 1;
    }
    assert users[..|users|] == users;
    forall k | 0 <= k < |users| ensures Candidates(all, train, users[k]) != [] {
      AllHaveCandidatesIn(all, train, users, users[k]);
    }
    r := Ok(score);
  }

  /** `modelEval(model, data)` (Code.py:87-105), with the global `trainData`
      as `train` and `userArtistData` as `all`: the loop over the users
      (`SumUserTerms`) sums their terms, then the sum is divided by the
      number of users. */
  method ModelEval(model: Model, all: seq<Interaction>, train: seq<Interaction>, data: seq<Interaction>) returns (r: Result<real>)
    ensures r == EvalScore(model, all, train, data)
    ensures r.Ok? ==> 0.0 <= r.value <= 1.0
  {
    var users := Users(data);
    UsersHaveRows(data);
    var score := SumUserTerms(model, all, train, data, users);
    if score.Err? {
      var k :| 0 <= k < |users| && Candidates(all, train, users[k]) == [];
      UserWithoutCandidates(model, all, train, data, users[k]);
      return Err(ValueError);
    }
    if |users| == 0 {
      r := Err(ZeroDivisionError);
    } else {
      UsersWithCandidates(model, all, train, data);
      r := Ok(score.value / (|users| as real));
    }
  }
}
