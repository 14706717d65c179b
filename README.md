# Music artist recommender: a Dafny model of its core

The modelled program is a PySpark script (`Code.py`) that recommends music artists to a
user based on their listening history. It:

- reads three text tables: the artist catalog, the artist aliases and the user/artist
  play counts;
- merges the alias table into one dictionary and walks the play data looking for aliased
  artists;
- computes per-user play statistics (total, mean, top three users);
- scores implicit-feedback ALS models with a ranking evaluator, `modelEval`;
- prints the names of the five artists recommended to one user.

The project models those steps in the source's own form:

- The line parsers, the alias merge, the statistics and the evaluator's
  per-user steps are pure functions, because the source writes them as
  lambdas and RDD transformations.
- `mergeDict`, which updates its first dictionary in place, is a method on a
  `Dict` class.
- Three of the four explicit Python loops (Code.py:33, 53, 95 and 143) are
  methods with `while` loops, proved against specification functions. These
  are the alias loop, the loop of `modelEval` over users (`SumUserTerms`,
  called by `ModelEval`) and the top-five printing loop. The top-three printing loop at Code.py:53 only prints and is
  left out.

Modules, one file each:

- `Wrappers`: `Option`, `Result` and the Python exceptions the script can raise
  (`IndexError`, `ValueError`, `ZeroDivisionError`).
- `Text`: the Python 2 string operations used:
  - `str.split(sep)` and `str.split()`; whitespace is space, tab, newline,
    carriage return, vertical tab and form feed;
  - `" ".join`;
  - `int()` on a string; surrounding whitespace is stripped, then an optional
    sign and decimal digits are read.
- `Records`: the three line parsers and the empty-line filter.
- `Aliases`: `mergeDict`, `reduce(mergeDict)` and the alias loop.
- `Ordering`: `takeOrdered(n, key)`. PySpark computes it with `heapq.nsmallest`, which
  returns the first `n` elements of a stable sort by the key.
- `Seqs`: `distinct()` and counting facts about duplicate-free sequences.
- `PlayStats`: `calcPlayCount`, `reduceByKey`, the mean and the top three users.
- `Evaluation`: `modelEval`.
- `Recommend`: the name lookup for the top five recommendations.

Inputs and conventions:

- The trained ALS model is a parameter `Model = (user, artist) -> Option<real>`.
  `None` stands for a pair the model cannot score, which `predictAll` leaves out.
- The list returned by `recommendProducts` is a parameter `top`.
- The script's global RDDs are explicit parameters: `userArtistData` is `all`
  and `trainData` is `train`.
- An RDD is a sequence in the order of its rows.
- `reduceByKey` is a sequence of partitions. Each partition is folded on its
  own, then the partition results are folded with the same function.
- The order of that sequence is the order in which the reducer merges the
  partition results. Spark merges them in the order the shuffle fetches them,
  which is not fixed. So "the first partition" in `CombinersFirst`,
  `ReduceByKeyCount` and `ReduceByKeyCountRight` means the first result merged.
  Those lemmas hold for every order of the sequence.
- `predictAll` begins with `user_product.first()`. That raises ValueError
  ("RDD is empty") when a user has no candidate artist, and the model keeps
  this error path (`PredictAll`).

Where the code and its documentation differ, the model follows the code:

- In `modelEval`, X is the number of the user's held-out rows, not the number
  of distinct held-out artists.
- The alias loop never rewrites the play data; see Findings.

## Model

| member | source | states |
|---|---|---|
| Text.SplitOn | Code.py:23-25 | `s.split(sep)`: at least one piece, no piece holds the separator, exactly one piece (the text itself) iff the text has no separator |
| Text.Join | Code.py:23 | `sep.join(parts)`: empty for no pieces, otherwise it starts with the first piece; its inverses are stated by `JoinSplitOn`, `SplitOnJoin` and `TokensJoin` |
| Text.Tokens | Code.py:23 | `s.split()`: every token is non-empty and holds no whitespace |
| Text.TokensSpacePrefix | Code.py:23 | leading whitespace of any kind does not change `s.split()` |
| Text.TokensWordSpace | Code.py:23 | a whitespace-free word followed by any whitespace character is the first token, and the rest of the text gives the other tokens |
| Text.TokensWord | Code.py:23 | a text that is one whitespace-free word splits into that one token; with the two rows above and `TokensOfSpace` this fixes `split()` on every text |
| Text.TokensOfSpace | Code.py:23 | a text of only whitespace has no tokens |
| Text.ParseInt | Code.py:23-25 | `int()`: ValueError on blank text; a parsed text is digits after an optional sign, ends in a digit, and is negative only with a `-` sign; plain digits give their decimal value, `-` digits its negation and `+` digits the value itself |
| Text.JoinSplitOn | Code.py:23-25 | joining the pieces of `s.split(sep)` with `sep` gives back `s` |
| Text.SplitOnJoin | Code.py:23-25 | splitting pieces joined by a separator none of them contains gives back the pieces |
| Text.TokensJoin | Code.py:23 | `c.join(words).split()` gives back `words` for any whitespace character `c`, when the words are non-empty and hold no whitespace |
| Text.ParseIntDecimal | Code.py:23-25 | `int()` of the decimal text of any integer, negative ones included, gives back that integer |
| Records.NonEmptyLines | Code.py:23-25 | after `split('\n')` and the truthiness filter, every line is non-empty and holds no newline |
| Records.NonEmptyLinesJoin | Code.py:23-25 | a file of non-empty lines, with or without a final newline, reads back as exactly those lines |
| Records.DropEmpty | Code.py:23-25 | the filter keeps only non-empty lines, each of them as often as it occurs in the input |
| Records.DropEmptyAppend | Code.py:23-25 | filtering two stretches of lines one after the other is filtering each and concatenating: the order of the kept lines is the input order |
| Records.ParseLines | Code.py:23-25 | the table parses iff every line does; the result then has one record per line, each the parse of its line |
| Records.BlankLineFails | Code.py:23-25 | a non-empty line of only whitespace passes the filter and then raises IndexError in the artist and play parsers |
| Records.ParseArtistLine | Code.py:23 | IndexError iff the line has no token; ValueError iff the first token is not an integer; otherwise the id is the first token's value and the name the remaining tokens joined by single spaces |
| Records.ParseInteractionLine | Code.py:25 | parses iff there are at least three tokens and the first three are integers, which give user, artist and play count; IndexError iff there are fewer than three tokens and all of them are integers; ValueError iff one of the first three tokens is not an integer |
| Records.ParseArtists | Code.py:23 | the catalog parses iff every non-empty line does; then one artist per line, in order |
| Records.ParseAliases | Code.py:24 | the alias table parses iff every non-empty line does; then one dictionary per line, in order |
| Records.ParseInteractions | Code.py:25 | the play data parses iff every non-empty line does; then one row per line, in order |
| Records.InteractionsRoundTrip | Code.py:25 | a play-count file written one row per line, with or without a final newline, parses back to its rows in order |
| Records.ArtistLineRoundTrip | Code.py:23 | an artist line parses to its id and its name words joined by single spaces |
| Records.AliasLineRoundTrip | Code.py:24 | a tab-separated alias line parses to the one-entry dictionary `{dup: canonical}` |
| Records.ParseAliasLine | Code.py:24 | IndexError iff the line has no tab; ValueError iff one of the first two fields is not an integer; otherwise the one-entry dictionary from the first field's value to the second's |
| Records.AliasLineValueFirst | Code.py:24 | the value of the dict display is evaluated first: `"abc"` raises IndexError although `int("abc")` would raise ValueError |
| Records.InteractionLineRoundTrip | Code.py:25 | a play line parses back to its (user, artist, playcount) triple |
| Aliases.Merge | Code.py:27-30 | an empty first dictionary stays empty and the second is dropped; otherwise the key set is the union and the second dictionary's values win |
| Aliases.MergeDict | Code.py:27-30 | updates the first dictionary in place to the merge and returns that same object |
| Aliases.ReduceMerge | Code.py:32 | reducing an empty alias table raises ValueError, and only an empty one does |
| Aliases.ReduceMergeLastWins | Code.py:32 | with no empty entry, the merged map has every duplicate id of the table as a key, mapped to the value of its last line |
| Aliases.ReduceMergeEmptyFirst | Code.py:27-32 | an empty first dictionary makes the whole reduction empty |
| Aliases.MergeAssociative | Code.py:27-30 | merging is associative when the middle dictionary is non-empty |
| Aliases.ReduceMergePartitions | Code.py:32 | for a table split in two: merging the two partial reductions gives the left fold over the whole table |
| Aliases.PartitionedReduce | Code.py:32 | `reduce` over partitions raises ValueError iff every partition is empty |
| Aliases.ReduceMergeAnyPartitioning | Code.py:32 | however the table is split into partitions, empty ones included, reducing each non-empty partition and then the partial results gives the left fold over the whole table |
| Aliases.AliasMapOfTable | Code.py:24-32 | for a parsed alias file: ValueError iff it has no lines; otherwise every duplicate id maps to the canonical id of its last line |
| Aliases.FirstAliased | Code.py:33-34 | gives the first row whose artist is a duplicate id, or reports that there is none |
| Aliases.Rewrite | Code.py:35 | the rewritten row keeps user and play count and has the canonical artist |
| Aliases.AliasLoop | Code.py:33-36 | the loop variable ends as the first aliased row with its artist rewritten, or else as the last row; the play data itself is never changed |
| Aliases.AliasLoopLeavesDuplicates | Code.py:33-36 | when some row is aliased, the data the script goes on using differs from its canonical form at that row |
| Aliases.AliasLoopExample | Code.py:33-36 | with two aliased rows the loop stops at the first, and the second row keeps its duplicate id |
| Aliases.Canonicalize | Code.py:33-36 | every row keeps its user and play count and gets its artist resolved through the alias map |
| Aliases.CanonicalizeResolves | Code.py:33-36 | with no alias chains: no aliased artist is left, unaliased rows are unchanged, and canonicalizing twice is the same as once |
| Ordering.Insert | Code.py:52 | inserting into a list sorted by descending score keeps it sorted and adds exactly that element |
| Ordering.SortDesc | Code.py:52 | the sort's output is sorted by descending score and is a permutation of its input |
| Ordering.TakeOrdered | Code.py:102 | `takeOrdered(n, -score)` returns min(n, length) elements of the input, sorted by descending score, none left out scoring higher |
| Seqs.Distinct | Code.py:94 | `distinct()` holds each element of its input exactly once and nothing else |
| Seqs.ElementsCard | Code.py:104 | a sequence has at most as many distinct elements as entries, and exactly as many when it has no duplicates |
| PlayStats.Seeds | Code.py:42 | one `(playcount, 1)` value per row of the user |
| PlayStats.SeedsSum | Code.py:42 | each of the user's values counts one, and their totals add up to the user's play count in the partition |
| PlayStats.CalcPlayCount | Code.py:43-49 | adds the totals; it agrees with adding the counts exactly when the second value counts one row |
| PlayStats.MergeAgg | Code.py:43-49 | the intended merge adds both totals and both counts |
| PlayStats.ReduceByKeyStep | Code.py:51 | adding a partition keeps a user's value when the partition has none of their rows, and otherwise merges the partition's combiner into it |
| PlayStats.Combiners | Code.py:51 | a user has no partition combiner iff they have no rows |
| PlayStats.ReduceByKey | Code.py:51 | `reduceByKey` yields a value for a user iff the user has a row |
| PlayStats.RowCountAppend | Code.py:42-51 | row counts and play totals add up over concatenated data |
| PlayStats.FoldSeeds | Code.py:43-51 | inside one partition, either combiner gives the partition's true total and row count |
| PlayStats.ReduceByKeyTotal | Code.py:43-51 | `calcPlayCount` as written still gives every user's true total play count, however the rows are partitioned |
| PlayStats.SinglePartitionCount | Code.py:43-51 | when exactly one of several partitions holds the user's rows, `calcPlayCount` gives the true (total, count) |
| PlayStats.CombinersCount | Code.py:51 | there is one combiner per partition holding a row of the user |
| PlayStats.FoldCalcCount | Code.py:43-51 | folding with `calcPlayCount` adds one to the first value's count for each further value |
| PlayStats.CombinersFirst | Code.py:43-51 | the first combiner counts the rows of the first partition holding the user's rows |
| PlayStats.RowsSplit | Code.py:51 | the user's rows are the first such partition's rows, plus one row and the extra rows of each later partition holding some |
| PlayStats.ReduceByKeyCount | Code.py:43-51 | the count as written is the first such partition's rows plus one per later partition holding rows; it misses exactly their extra rows |
| PlayStats.ExtraZero | Code.py:43-51 | no row is missed iff every later partition holding the user's rows holds at most one |
| PlayStats.ReduceByKeyCountRight | Code.py:43-51 | the count as written is the true row count iff every partition after the first one holding the user's rows holds at most one of them |
| PlayStats.ReduceByKeyUndercounts | Code.py:43-51 | four rows in two partitions: `calcPlayCount` counts 3 rows, the intended merge counts 4 |
| PlayStats.ReduceByKeyWrongMean | Code.py:43-51 | plays 1, 1 in one partition and 5, 5 in another: `calcPlayCount` gives (12, 3) and the mean 4, while the true mean is 3 |
| PlayStats.ReduceByKeyMerged | Code.py:43-51 | with the intended merge, every partitioning gives the true (total, count) |
| PlayStats.Mean | Code.py:51 | Python 2 floor division: count * mean <= total < count * (mean + 1) |
| PlayStats.PlaysBetween | Code.py:42-51 | if each play count lies in [lo, hi], the total lies between lo and hi times the row count |
| PlayStats.MeanBounds | Code.py:51 | the mean play count lies between the smallest and the largest play count of the user |
| PlayStats.Users | Code.py:94 | the distinct users: no duplicates, and exactly those with a row |
| PlayStats.UsersHaveRows | Code.py:94-101 | every distinct user has at least one row, so X > 0 and the division at line 104 is safe |
| PlayStats.UserPlayData | Code.py:51 | one entry per user, with their total play count and floor-mean play count |
| PlayStats.TopByTotal | Code.py:52 | the top three of any list of user statistics: sorted by integer total, taken from the list, no left-out entry with a larger total |
| PlayStats.UserTop3 | Code.py:52 | min(3, users) entries of the user statistics, largest total first, no left-out user with a larger total |
| Evaluation.ArtistsOf | Code.py:97-100 | one artist per row of the user, exactly the artists of the user's rows |
| Evaluation.CatalogArtists | Code.py:91 | every artist of the play data once |
| Evaluation.Subtract | Code.py:98 | the elements of the first list not in the second; no duplicates are introduced |
| Evaluation.Candidates | Code.py:91-98 | exactly the catalog artists the user has no training row for, each once |
| Evaluation.Predict | Code.py:99 | the predictions `predictAll` returns for a non-empty candidate list: one for each candidate the model can score, carrying the model's rating, and nothing else; artists are distinct |
| Evaluation.PredictAll | Code.py:99 | ValueError iff the candidate list is empty; otherwise exactly the predictions of `Predict` |
| Evaluation.SplitHasCandidates | Code.py:65-99 | when training and held-out rows are disjoint parts of the play data and no (user, artist) pair occurs twice, no held-out user is without a candidate, so `predictAll` cannot fail |
| Evaluation.NoCandidateExample | Code.py:87-105 | a (user, artist) pair in both a training row and a held-out row, with no other artist in the catalog, leaves no candidate, and `modelEval` raises ValueError |
| Evaluation.UserWithoutCandidates | Code.py:95-99 | one held-out user without a candidate makes `modelEval` raise ValueError |
| Evaluation.UserTerm | Code.py:96-104 | one pass of the loop body: ValueError iff the user has no candidate, otherwise the user's term |
| Evaluation.SumUserTerms | Code.py:95-104 | the loop over users: ValueError iff some user has no candidate, otherwise the sum of the users' terms |
| Evaluation.Ranking | Code.py:101-102 | the ranking has at most X entries |
| Evaluation.RankingFacts | Code.py:99-102 | the ranking holds min(X, scored candidates) distinct candidates, best rating first, with the model's ratings, and no scored candidate left out rates higher |
| Evaluation.SubDistinct | Code.py:102 | taking part of the predictions keeps their artists distinct |
| Evaluation.RankedArtists | Code.py:103 | the artist of each ranked prediction, in order |
| Evaluation.Hits | Code.py:104 | the size of the set intersection is at most the number of ranked artists and of held-out rows |
| Evaluation.Share | Code.py:104 | `hits / float(X)` lies in [0, 1]; it is 0 iff there are no hits and 1 iff every held-out row is a hit |
| Evaluation.UserScore | Code.py:104 | each user's term lies in [0, 1] |
| Evaluation.ColdStartUser | Code.py:99-104 | a user the model cannot score at all contributes 0 |
| Evaluation.PerfectRanking | Code.py:99-103 | a model rating every held-out artist above every other scored candidate ranks exactly the held-out artists |
| Evaluation.PerfectModel | Code.py:99-104 | such a model gets the full term 1 for that user |
| Evaluation.SumScoresAllOne | Code.py:95-104 | when every user's term is 1, the summed terms are the number of users |
| Evaluation.PerfectEval | Code.py:87-105 | a model that rates every user's held-out artists above their other scorable candidates gets the overall score 1 |
| Evaluation.SumScoresBounds | Code.py:95-104 | the summed terms lie between 0 and the number of users |
| Evaluation.EvalScore | Code.py:87-105 | ZeroDivisionError iff the held-out data is empty; ValueError iff some held-out user has no candidate artist; otherwise a score in [0, 1] |
| Evaluation.ModelEval | Code.py:87-105 | the loop over users, then the division: the result is `EvalScore`, with both error cases, and an Ok score lies in [0, 1] |
| Recommend.LookupName | Code.py:144 | the name of the first catalog entry with that id; IndexError iff no entry has the id |
| Recommend.LookupUnique | Code.py:144 | in a catalog with distinct ids, every entry is found by its id |
| Recommend.ArtistLine | Code.py:144 | the printed line is `Artist `, then the decimal index, then `: `, then the name |
| Recommend.ArtistLineIndex | Code.py:144 | the index in a printed line reads back as the loop position |
| Recommend.PrintedLinesAppend | Code.py:143-144 | printing the next found name extends the lines printed so far |
| Recommend.NameTopN | Code.py:142-144 | prints one line per recommendation in order; stops with IndexError at the first position with no recommendation or no catalog entry; succeeds iff there are 5 recommendations, all in the catalog |

## Left out

- Reading the files over HTTP (`urllib.urlopen`) and Spark's distribution are not modelled. A table is given as its text, or as its rows.
- `print` output is not modelled, except the names loop at Code.py:143-144, whose lines are returned. The prints at Code.py:53-54, 69-74 and 118-120 are left out, and so is the IndexError the top-3 loop raises with fewer than three users.
- `randomSplit` (Code.py:65) is not modelled; the training, validation and test sets are parameters. `SplitHasCandidates` takes "disjoint parts of the play data" as its hypothesis instead.
- Evaluation.PredictAll: the text of the "RDD is empty" ValueError and the shape check on the first pair are not modelled; a pair of a user and an artist always has two fields.
- `ALS.trainImplicit`, `predictAll` and `recommendProducts` (Code.py:99, 110-112, 131, 142) are library numerics; only the empty-input ValueError of `predictAll` is modelled. The model is a given score function, and the top-N list is a given list of product ids.
- Floating point is modelled as `real`. Rounding, NaN and infinite ratings are not modelled.
- When ratings or totals tie, `takeOrdered` here keeps input order. In Spark the input order comes from partition and hash order, which is not modelled.
- `distinct()`, `subtract` and `groupByKey` have no defined order in Spark; they are modelled in order of first appearance.
- `data_formatted` (Code.py:93) is computed and never used, so it is not modelled.
- Alias chains (a canonical id that is itself a duplicate) are looked up once, as at Code.py:35, and not followed; the lemmas about `Canonicalize` assume there are none (`NoChains`).
- Python 2's `int()` accepts whitespace between the sign and the digits (`int('- 1')`); this model's `int()` does not.
- Records.ParseAliasLine: the message of a ValueError is not modelled, so which of the two fields raised it is not told apart. The value-first order of the dict display is modelled: a line without a tab raises IndexError (`AliasLineValueFirst`).
- PlayStats.UserPlayData: the mean divides by the true row count, which the intended merge gives for every partitioning (`ReduceByKeyMerged`). The count `reduceByKey(calcPlayCount)` gives as written equals it iff every partition after the first one holding the user's rows holds at most one of them (`ReduceByKeyCountRight`); see Findings.
- Evaluation.Ranking: its own contract states only the length bound; the rest is in `RankingFacts`.

## Findings

| source | as written | input that shows it | evidently intended | confidence | as-written member | corrected member |
|---|---|---|---|---|---|---|
| Code.py:33-36 | the loop rebinds its loop variable to the rewritten row and breaks, so no row of `userArtistData` changes and rows after the first aliased one are never visited | rows (1, 5, 3) and (2, 6, 1) with aliases {5: 7, 6: 7}: both rows keep their duplicate ids | every row's artist replaced by its canonical id | not executed | Aliases.AliasLoop, Aliases.AliasLoopLeavesDuplicates | Aliases.Canonicalize, Aliases.CanonicalizeResolves |
| Code.py:43-49 | `calcPlayCount` adds 1 to the count instead of `b[1]`, so when `reduceByKey` merges two partition results the second partition's count becomes 1 | one user with four rows of 1 play, two per partition: count 3 instead of 4; with plays 1, 1 in one partition and 5, 5 in the other, the mean is 12 / 3 = 4 instead of 3 | add both counts (`a[1] + b[1]`) | not executed | PlayStats.CalcPlayCount, PlayStats.ReduceByKeyUndercounts, PlayStats.ReduceByKeyWrongMean | PlayStats.MergeAgg, PlayStats.ReduceByKeyMerged |

The statistics (`UserPlayData`, `UserTop3`) use the corrected counts.
