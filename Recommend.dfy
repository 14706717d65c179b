/** The last step of the script (Code.py:142-144): the five products
    `recommendProducts` returns for one user are looked up by id in the artist
    catalog and printed as `Artist <i>: <name>`. */
module Recommend {
  import opened Wrappers
  import opened Text
  import opened Records

  /** The number of recommendations asked for and printed (Code.py:142-143). */
  const TopN: nat := 5

  /** `artistData.filter(lambda id: id[0] == product).collect()[0][1]`
      (Code.py:144): the name of the first catalog entry with that id; with no
      such entry, indexing the empty list raises IndexError. */
  function LookupName(catalog: seq<Artist>, id: int): (r: Result<string>)
    ensures r.Err? <==> forall k :: 0 <= k < |catalog| ==> catalog[k].id != id
    ensures r.Err? ==> r.error == IndexError
    ensures r.Ok? ==> exists k :: 0 <= k < |catalog| && catalog[k].id == id && catalog[k].name == r.value &&
                        forall j :: 0 <= j < k ==> catalog[j].id != id
    decreases |catalog|
  {
    if catalog == [] then Err(IndexError)
    else if catalog[0].id == id then
      Ok(catalog[0].name)
    else
      var r := LookupName(catalog[1..], id);
      assert forall k :: 0 < k < |catalog| ==> catalog[k] == catalog[1..][k - 1];
      if r.Ok? then
        var k :| 0 <= k < |catalog[1..]| && catalog[1..][k].id == id && catalog[1..][k].name == r.value &&
                 forall j :: 0 <= j < k ==> catalog[1..][j].id != id;
        assert catalog[k + 1].id == id && catalog[k + 1].name == r.value;
        assert forall j :: 0 <= j < k + 1 ==> catalog[j].id != id by {
          forall j | 0 <= j < k + 1 ensures catalog[j].id != id {
            if j > 0 { assert catalog[j] == catalog[1..][j - 1]; }
          }
        }
        r
      else
        r
  }

  /** The entries of a catalog whose ids are all different are found by id. */
  lemma LookupUnique(catalog: seq<Artist>, k: int)
    requires 0 <= k < |catalog|
    requires forall i, j :: 0 <= i < j < |catalog| ==> catalog[i].id != catalog[j].id
    ensures LookupName(catalog, catalog[k].id) == Ok(catalog[k].name)
  {
    var r := LookupName(catalog, catalog[k].id);
    var m :| 0 <= m < |catalog| && catalog[m].id == catalog[k].id && catalog[m].name == r.value &&
             forall j :: 0 <= j < m ==> catalog[j].id != catalog[k].id;
    assert m == k;
  }

  /** One printed line, `"Artist %d: %s" % (i, name)` (Code.py:144). */
  function ArtistLine(i: nat, name: string): (r: string)
    ensures |r| > 9 + |name|
    ensures r[..7] == "Artist " && r[|r| - |name|..] == name
    ensures r[7..|r| - |name|] == DecimalString(i) + ": "
  {
    var d := DecimalString(i);
    var r := "Artist " + d + ": " + name;
    assert r[7..|r| - |name|] == d + ": ";
    r
  }

  /** The position a printed line shows reads back as the loop index. */
  lemma ArtistLineIndex(i: nat, name: string)
    ensures var r := ArtistLine(i, name);
            ParseInt(r[7..|r| - |name| - 2]) == Some(i)
  {
    var r := ArtistLine(i, name);
    var d := DecimalString(i);
    assert r[7..|r| - |name| - 2] == (d + ": ")[..|d|] == d;
    ParseIntDecimal(i);
  }

  /** `lines` are the printed lines for the first `|lines|` recommendations. */
  predicate PrintedLines(catalog: seq<Artist>, top: seq<int>, lines: seq<string>) {
    forall i :: 0 <= i < |lines| ==>
      i < |top| && LookupName(catalog, top[i]).Ok? && lines[i] == ArtistLine(i, LookupName(catalog, top[i]).value)
  }

  lemma PrintedLinesAppend(catalog: seq<Artist>, top: seq<int>, lines: seq<string>, name: string)
    requires PrintedLines(catalog, top, lines)
    requires |lines| < |top| && LookupName(catalog, top[|lines|]) == Ok(name)
    ensures PrintedLines(catalog, top, lines + [ArtistLine(|lines|, name)])
  {
    var next := lines + [ArtistLine(|lines|, name)];
    forall i | 0 <= i < |next|
      ensures i < |top| && LookupName(catalog, top[i]).Ok? && next[i] == ArtistLine(i, LookupName(catalog, top[i]).value)
    {
      if i < |lines| { assert next[i] == lines[i]; }
    }
  }

  /** The loop `for i in range(5)` (Code.py:143-144). `lines` are the lines
      printed before the loop stops; it stops with IndexError at the first
      position that has no recommendation or no catalog entry. */
  method NameTopN(catalog: seq<Artist>, top: seq<int>) returns (lines: seq<string>, error: Option<Error>)
    ensures |lines| <= TopN && PrintedLines(catalog, top, lines)
    ensures error == None <==> |lines| == TopN
    ensures error != None ==> error == Some(IndexError) && (|lines| >= |top| || LookupName(catalog, top[|lines|]).Err?)
    ensures error == None <==> TopN <= |top| && forall i :: 0 <= i < TopN ==> LookupName(catalog, top[i]).Ok?
  {
    lines := [];
    error := None;
    var i := 0;
    while i < TopN && error == None
      invariant 0 <= i <= TopN && |lines| == i
      invariant PrintedLines(catalog, top, lines)
      invariant error != None ==> i < TopN && error == Some(IndexError) && (i >= |top| || LookupName(catalog, top[i]).Err?)
      decreases TopN - i, if error == None then 1 else 0
    {
      if i >= |top| {
        error := Some(IndexError);
      } else {
        match LookupName(catalog, top[i])
        case Err(e) =>
          error := Some(e);
        case Ok(name) =>
          PrintedLinesAppend(catalog, top, lines, name);
          lines := lines + [ArtistLine(i, name)];
          i := i + 1;
      }
    }
    if error == None {
      assert lines[TopN - 1] in lines;
    }
  }
}
