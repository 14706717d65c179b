/** The three input files and their line parsers (Code.py:23-25): the artist
    catalog, the alias table and the user-artist play counts. Downloading the
    files is left out; each parser takes the downloaded text. */
module Records {
  import opened Wrappers
  import opened Text

  /** A catalog row: `(id, name)`. */
  datatype Artist = Artist(id: int, name: string)

  /** A play-count row: `(user, artist, playcount)`. */
  datatype Interaction = Interaction(user: int, artist: int, plays: int)

  /** `text.split('\n')` without the empty lines (`filter(lambda a: True if a else False)`). */
  function NonEmptyLines(text: string): (r: seq<string>)
    ensures forall i :: 0 <= i < |r| ==> r[i] != [] && '\n' !in r[i]
  {
    DropEmpty(SplitOn(text, '\n'))
  }

  /** The non-empty strings of `lines`, in their order. */
  function DropEmpty(lines: seq<string>): (r: seq<string>)
    ensures forall i :: 0 <= i < |r| ==> r[i] != [] && r[i] in lines
    ensures forall l :: l in lines && l != [] ==> l in r
    ensures forall l :: l != [] ==> multiset(r)[l] == multiset(lines)[l]
    ensures |r| <= |lines|
    decreases |lines|
  {
    if lines == [] then []
    else
      assert lines == [lines[0]] + lines[1..];
      if lines[0] == [] then DropEmpty(lines[1..])
      else [lines[0]] + DropEmpty(lines[1..])
  }

  /** Dropping the empty lines of two stretches of lines one after the other
      keeps the order of the lines. */
  lemma {:induction false} DropEmptyAppend(a: seq<string>, b: seq<string>)
    ensures DropEmpty(a + b) == DropEmpty(a) + DropEmpty(b)
    decreases |a|
  {
    if a == [] {
      assert a + b == b;
    } else {
      assert (a + b)[0] == a[0];
      assert (a + b)[1..] == a[1..] + b;
      DropEmptyAppend(a[1..], b);
    }
  }

  lemma {:induction false} DropEmptyKeeps(lines: seq<string>)
    requires forall i :: 0 <= i < |lines| ==> lines[i] != []
    ensures DropEmpty(lines) == lines
    decreases |lines|
  {
    if lines != [] {
      DropEmptyKeeps(lines[1..]);
      assert lines == [lines[0]] + lines[1..];
    }
  }

  /** A file written as non-empty lines, with or without a final newline, reads
      back as exactly those lines. */
  lemma NonEmptyLinesJoin(lines: seq<string>, finalNewline: bool)
    requires |lines| >= 1
    requires forall i :: 0 <= i < |lines| ==> lines[i] != [] && '\n' !in lines[i]
    ensures NonEmptyLines(Join(lines, "\n") + (if finalNewline then "\n" else "")) == lines
  {
    if finalNewline {
      var ext := lines + [[]];
      JoinAppendEmpty(lines, "\n");
      SplitOnJoin(ext, '\n');
      DropEmptyAppendEmpty(lines);
      DropEmptyKeeps(lines);
    } else {
      assert Join(lines, "\n") + "" == Join(lines, "\n");
      SplitOnJoin(lines, '\n');
      DropEmptyKeeps(lines);
    }
  }

  lemma {:induction false} JoinAppendEmpty(parts: seq<string>, sep: string)
    requires |parts| >= 1
    ensures Join(parts + [[]], sep) == Join(parts, sep) + sep
    decreases |parts|
  {
    if |parts| == 1 {
      assert parts + [[]] == [parts[0], []];
      assert [parts[0], []][1..] == [[]];
    } else {
      assert (parts + [[]])[1..] == parts[1..] + [[]];
      JoinAppendEmpty(parts[1..], sep);
    }
  }

  lemma {:induction false} DropEmptyAppendEmpty(lines: seq<string>)
    ensures DropEmpty(lines + [[]]) == DropEmpty(lines)
    decreases |lines|
  {
    if lines == [] {
      assert DropEmpty([[]]) == DropEmpty([[]][1..]);
    } else {
      assert (lines + [[]])[1..] == lines[1..] + [[]];
      DropEmptyAppendEmpty(lines[1..]);
    }
  }

  /** Parses every line with `parse`; the first failing line fails the whole
      file, as the first exception aborts the job. */
  function ParseLines<T>(lines: seq<string>, parse: string -> Result<T>): (r: Result<seq<T>>)
    ensures r.Ok? <==> forall i :: 0 <= i < |lines| ==> parse(lines[i]).Ok?
    ensures r.Ok? ==> |r.value| == |lines| && forall i :: 0 <= i < |lines| ==> r.value[i] == parse(lines[i]).value
    decreases |lines|
  {
    if lines == [] then Ok([])
    else match parse(lines[0])
      case Err(e) => Err(e)
      case Ok(v) =>
        match ParseLines(lines[1..], parse)
        case Err(e) => Err(e)
        case Ok(vs) => Ok([v] + vs)
  }

  /** `lambda b: (int(b[0]), " ".join(b[1:]))` applied to `a.split()`. A line of
      only whitespace survives the empty-line filter and fails here with IndexError. */
  function ParseArtistLine(line: string): (r: Result<Artist>)
    ensures r == Err(IndexError) <==> Tokens(line) == []
    ensures r == Err(ValueError) <==> Tokens(line) != [] && ParseInt(Tokens(line)[0]).None?
    ensures r.Ok? ==> Some(r.value.id) == ParseInt(Tokens(line)[0]) && r.value.name == Join(Tokens(line)[1..], " ")
  {
    var b := Tokens(line);
    if |b| == 0 then Err(IndexError)
    else match ParseInt(b[0])
      case None => Err(ValueError)
      case Some(id) => Ok(Artist(id, Join(b[1..], " ")))
  }

  /** `lambda b: {int(b[0]): int(b[1])}` applied to `a.split('\t')`. CPython 2
      evaluates the value of a dict display before its key, so `b[1]` is read
      first: a line without a tab raises IndexError even when its one field is
      not an integer. Otherwise both fields must be integers (ValueError), and
      fields after the second are ignored. */
  function ParseAliasLine(line: string): (r: Result<map<int, int>>)
    ensures r == Err(IndexError) <==> '\t' !in line
    ensures r == Err(ValueError) <==>
              '\t' in line && (ParseInt(SplitOn(line, '\t')[0]).None? || ParseInt(SplitOn(line, '\t')[1]).None?)
    ensures r.Ok? ==> r.value == map[ParseInt(SplitOn(line, '\t')[0]).value := ParseInt(SplitOn(line, '\t')[1]).value]
    ensures r.Ok? ==> |r.value| == 1
  {
    var b := SplitOn(line, '\t');
    if |b| < 2 then Err(IndexError)
    else match ParseInt(b[1])
      case None => Err(ValueError)
      case Some(canonical) =>
        match ParseInt(b[0])
        case None => Err(ValueError)
        case Some(dup) => Ok(map[dup := canonical])
  }

  /** `lambda b: (int(b[0]), int(b[1]), int(b[2]))` applied to `a.split()`;
      fields are evaluated left to right and extra fields are ignored. */
  function ParseInteractionLine(line: string): (r: Result<Interaction>)
    ensures var b := Tokens(line);
            r.Ok? <==> |b| >= 3 && ParseInt(b[0]).Some? && ParseInt(b[1]).Some? && ParseInt(b[2]).Some?
    ensures var b := Tokens(line);
            r.Ok? ==> r.value == Interaction(ParseInt(b[0]).value, ParseInt(b[1]).value, ParseInt(b[2]).value)
    ensures var b := Tokens(line);
            r == Err(IndexError) <==> |b| < 3 && forall j :: 0 <= j < |b| ==> ParseInt(b[j]).Some?
    ensures var b := Tokens(line);
            r == Err(ValueError) <==> exists j :: 0 <= j < |b| && j < 3 && ParseInt(b[j]).None?
  {
    var b := Tokens(line);
    if |b| < 1 then Err(IndexError)
    else match ParseInt(b[0])
      case None => Err(ValueError)
      case Some(user) =>
        if |b| < 2 then Err(IndexError)
        else match ParseInt(b[1])
          case None => Err(ValueError)
          case Some(artist) =>
            if |b| < 3 then Err(IndexError)
            else match ParseInt(b[2])
              case None => Err(ValueError)
              case Some(plays) => Ok(Interaction(user, artist, plays))
  }

  /** `artistData` (Code.py:23). */
  function ParseArtists(text: string): (r: Result<seq<Artist>>)
    ensures var lines := NonEmptyLines(text);
            r.Ok? <==> forall i :: 0 <= i < |lines| ==> ParseArtistLine(lines[i]).Ok?
    ensures var lines := NonEmptyLines(text);
            r.Ok? ==> |r.value| == |lines| && forall i :: 0 <= i < |lines| ==> r.value[i] == ParseArtistLine(lines[i]).value
  {
    ParseLines(NonEmptyLines(text), ParseArtistLine)
  }

  /** `artistAlias` (Code.py:24): one single-entry dictionary per line. */
  function ParseAliases(text: string): (r: Result<seq<map<int, int>>>)
    ensures var lines := NonEmptyLines(text);
            r.Ok? <==> forall i :: 0 <= i < |lines| ==> ParseAliasLine(lines[i]).Ok?
    ensures var lines := NonEmptyLines(text);
            r.Ok? ==> |r.value| == |lines| && forall i :: 0 <= i < |lines| ==> r.value[i] == ParseAliasLine(lines[i]).value
  {
    ParseLines(NonEmptyLines(text), ParseAliasLine)
  }

  /** `userArtistData` (Code.py:25). */
  function ParseInteractions(text: string): (r: Result<seq<Interaction>>)
    ensures var lines := NonEmptyLines(text);
            r.Ok? <==> forall i :: 0 <= i < |lines| ==> ParseInteractionLine(lines[i]).Ok?
    ensures var lines := NonEmptyLines(text);
            r.Ok? ==> |r.value| == |lines| && forall i :: 0 <= i < |lines| ==> r.value[i] == ParseInteractionLine(lines[i]).value
  {
    ParseLines(NonEmptyLines(text), ParseInteractionLine)
  }

  /** A line holding only whitespace is not dropped and aborts the parse. */
  lemma {:induction false} BlankLineFails(line: string)
    requires line != [] && AllSpace(line)
    ensures ParseArtistLine(line) == Err(IndexError)
    ensures ParseInteractionLine(line) == Err(IndexError)
  {
    TokensOfSpace(line);
  }

  /** An artist line written as the id followed by the words of the name
      parses back to that id and the words joined by single spaces. */
  lemma {:induction false} ArtistLineRoundTrip(id: int, words: seq<string>)
    requires forall i :: 0 <= i < |words| ==> words[i] != [] && NoSpace(words[i])
    ensures ParseArtistLine(Join([DecimalString(id)] + words, " ")) == Ok(Artist(id, Join(words, " ")))
  {
    var toks := [DecimalString(id)] + words;
    TokensJoin(toks, ' ');
    ParseIntDecimal(id);
    assert toks[1..] == words;
  }

  /** `"dup\tcanonical"` parses back to the one-entry map `{dup: canonical}`. */
  lemma {:induction false} AliasLineRoundTrip(dup: int, canonical: int)
    ensures ParseAliasLine(DecimalString(dup) + "\t" + DecimalString(canonical)) == Ok(map[dup := canonical])
  {
    var parts := [DecimalString(dup), DecimalString(canonical)];
    assert '\t' !in parts[0] by { assert IsSpace('\t'); }
    assert '\t' !in parts[1] by { assert IsSpace('\t'); }
    assert Join(parts, "\t") == DecimalString(dup) + "\t" + DecimalString(canonical) by {
      assert parts[1..] == [DecimalString(canonical)];
    }
    SplitOnJoin(parts, '\t');
    ParseIntDecimal(dup);
    ParseIntDecimal(canonical);
  }

  /** The value is evaluated before the key: `"abc"` raises IndexError
      (no `b[1]`), not the ValueError `int("abc")` would raise first. */
  lemma AliasLineValueFirst()
    ensures ParseInt("abc").None?
    ensures ParseAliasLine("abc") == Err(IndexError)
  {
    assert "abc"[0] == 'a';
    assert '\t' !in "abc";
  }

  /** A play-count row as a line of the file: three space-separated integers. */
  function InteractionText(t: Interaction): string {
    Join([DecimalString(t.user), DecimalString(t.artist), DecimalString(t.plays)], " ")
  }

  /** A play-count row written as three space-separated integers parses back to itself. */
  lemma {:induction false} InteractionLineRoundTrip(t: Interaction)
    ensures InteractionText(t) != [] && '\n' !in InteractionText(t)
    ensures ParseInteractionLine(InteractionText(t)) == Ok(t)
  {
    var toks := [DecimalString(t.user), DecimalString(t.artist), DecimalString(t.plays)];
    assert IsSpace('\n');
    JoinWithout(toks, " ", '\n');
    TokensJoin(toks, ' ');
    ParseIntDecimal(t.user);
    ParseIntDecimal(t.artist);
    ParseIntDecimal(t.plays);
  }

  /** A play-count file written one row per line, with or without a final
      newline, parses back to its rows in order. */
  lemma InteractionsRoundTrip(rows: seq<Interaction>, finalNewline: bool)
    requires rows != []
    ensures var lines := seq(|rows|, i requires 0 <= i < |rows| => InteractionText(rows[i]));
            ParseInteractions(Join(lines, "\n") + (if finalNewline then "\n" else "")) == Ok(rows)
  {
    var lines := seq(|rows|, i requires 0 <= i < |rows| => InteractionText(rows[i]));
    forall i | 0 <= i < |lines|
      ensures lines[i] != [] && '\n' !in lines[i] && ParseInteractionLine(lines[i]) == Ok(rows[i])
    {
      InteractionLineRoundTrip(rows[i]);
    }
    NonEmptyLinesJoin(lines, finalNewline);
    var r := ParseInteractions(Join(lines, "\n") + (if finalNewline then "\n" else ""));
    assert r.Ok?;
    assert r.value == rows;
  }
}
