/** The Python 2 string operations the line parsers rely on: `str.split(sep)`,
    `str.split()`, `sep.join(parts)`, and `int(text)` in base 10. */
module Text {
  import opened Wrappers

  /** The characters Python 2's `str.split()` and `int()` treat as whitespace. */
  predicate IsSpace(c: char) {
    c == ' ' || c == '\t' || c == '\n' || c == '\r' || c as int == 0x0B || c as int == 0x0C
  }

  predicate NoSpace(s: string) {
    forall i :: 0 <= i < |s| ==> !IsSpace(s[i])
  }

  predicate AllSpace(s: string) {
    forall i :: 0 <= i < |s| ==> IsSpace(s[i])
  }

  /** `sep.join(parts)`: empty for no pieces, otherwise it starts with the first piece. */
  function Join(parts: seq<string>, sep: string): (r: string)
    ensures |parts| == 0 ==> r == []
    ensures |parts| >= 1 ==> |parts[0]| <= |r| && r[..|parts[0]|] == parts[0]
    decreases |parts|
  {
    if |parts| == 0 then []
    else if |parts| == 1 then parts[0]
    else parts[0] + sep + Join(parts[1..], sep)
  }

  /** A character in neither the pieces nor the separator is not in their join. */
  lemma {:induction false} JoinWithout(parts: seq<string>, sep: string, c: char)
    requires c !in sep && forall i :: 0 <= i < |parts| ==> c !in parts[i]
    ensures c !in Join(parts, sep)
    decreases |parts|
  {
    if |parts| > 1 {
      JoinWithout(parts[1..], sep, c);
    }
  }

  /** `s.split(sep)` for a one-character separator: the pieces between the
      separators, empty pieces included. */
  function SplitOn(s: string, sep: char): (r: seq<string>)
    ensures |r| >= 1
    ensures forall i :: 0 <= i < |r| ==> sep !in r[i]
    ensures sep !in s ==> r == [s]
    ensures sep in s ==> |r| >= 2
    decreases |s|
  {
    if s == [] then [[]]
    else
      var rest := SplitOn(s[1..], sep);
      assert s == [s[0]] + s[1..];
      assert sep in s && s[0] != sep ==> sep in s[1..];
      if s[0] == sep then [[]] + rest
      else [[s[0]] + rest[0]] + rest[1..]
  }

  /** Joining the pieces with the separator gives back the text. */
  lemma {:induction false} JoinSplitOn(s: string, sep: char)
    ensures Join(SplitOn(s, sep), [sep]) == s
    decreases |s|
  {
    if s != [] {
      var rest := SplitOn(s[1..], sep);
      JoinSplitOn(s[1..], sep);
      if s[0] == sep {
        assert SplitOn(s, sep) == [[]] + rest;
        assert ([[]] + rest)[1..] == rest;
      } else {
        var r := SplitOn(s, sep);
        assert r == [[s[0]] + rest[0]] + rest[1..];
        if |rest| == 1 {
          assert r == [[s[0]] + rest[0]];
        } else {
          assert r[1..] == rest[1..];
          assert Join(rest, [sep]) == rest[0] + [sep] + Join(rest[1..], [sep]);
          assert Join(r, [sep]) == [s[0]] + rest[0] + [sep] + Join(rest[1..], [sep]);
        }
      }
    }
  }

  lemma {:induction false} SplitOnPiece(w: string, rest: string, sep: char)
    requires sep !in w
    ensures SplitOn(w + rest, sep) == [w + SplitOn(rest, sep)[0]] + SplitOn(rest, sep)[1..]
    decreases |w|
  {
    if w != [] {
      assert (w + rest)[1..] == w[1..] + rest;
      SplitOnPiece(w[1..], rest, sep);
      assert [w[0]] + (w[1..] + SplitOn(rest, sep)[0]) == w + SplitOn(rest, sep)[0];
    } else {
      var r := SplitOn(rest, sep);
      assert w + rest == rest;
      assert w + r[0] == r[0];
      assert r == [r[0]] + r[1..];
    }
  }

  /** Splitting pieces joined by the separator gives back the pieces, when no
      piece contains the separator. */
  lemma {:induction false} SplitOnJoin(parts: seq<string>, sep: char)
    requires |parts| >= 1
    requires forall i :: 0 <= i < |parts| ==> sep !in parts[i]
    ensures SplitOn(Join(parts, [sep]), sep) == parts
    decreases |parts|
  {
    if |parts| == 1 {
      SplitOnPiece(parts[0], [], sep);
      assert parts[0] + [] == parts[0];
    } else {
      var tail := Join(parts[1..], [sep]);
      SplitOnJoin(parts[1..], sep);
      assert Join(parts, [sep]) == parts[0] + ([sep] + tail);
      SplitOnPiece(parts[0], [sep] + tail, sep);
      assert ([sep] + tail)[1..] == tail;
      assert SplitOn([sep] + tail, sep) == [[]] + parts[1..];
      assert parts[0] + [] == parts[0];
      assert parts == [parts[0]] + parts[1..];
    }
  }

  /** The tokens of `s.split()` that follow the partial token `word`. */
  function TokensFrom(s: string, word: string): (r: seq<string>)
    requires NoSpace(word)
    ensures forall i :: 0 <= i < |r| ==> r[i] != [] && NoSpace(r[i])
    decreases |s|
  {
    if s == [] then (if word == [] then [] else [word])
    else if IsSpace(s[0]) then (if word == [] then [] else [word]) + TokensFrom(s[1..], [])
    else TokensFrom(s[1..], word + [s[0]])
  }

  /** `s.split()`: the maximal runs of non-whitespace characters. */
  function Tokens(s: string): (r: seq<string>)
    ensures forall i :: 0 <= i < |r| ==> r[i] != [] && NoSpace(r[i])
  {
    TokensFrom(s, [])
  }

  lemma {:induction false} TokensFromWord(w: string, rest: string, word: string)
    requires NoSpace(word) && NoSpace(w)
    ensures NoSpace(word + w)
    ensures TokensFrom(w + rest, word) == TokensFrom(rest, word + w)
    decreases |w|
  {
    assert NoSpace(word + w) by {
      forall i | 0 <= i < |word + w| ensures !IsSpace((word + w)[i]) {
        if i < |word| { assert (word + w)[i] == word[i]; } else { assert (word + w)[i] == w[i - |word|]; }
      }
    }
    if w == [] {
      assert w + rest == rest;
      assert word + w == word;
    } else {
      assert (w + rest)[0] == w[0];
      assert (w + rest)[1..] == w[1..] + rest;
      assert NoSpace(word + [w[0]]) by {
        forall i | 0 <= i < |word + [w[0]]| ensures !IsSpace((word + [w[0]])[i]) {
          if i < |word| { assert (word + [w[0]])[i] == word[i]; }
        }
      }
      assert NoSpace(w[1..]) by {
        forall i | 0 <= i < |w[1..]| ensures !IsSpace(w[1..][i]) { assert w[1..][i] == w[i + 1]; }
      }
      TokensFromWord(w[1..], rest, word + [w[0]]);
      assert word + [w[0]] + w[1..] == word + w;
    }
  }

  /** Whitespace-only text has no tokens. */
  lemma {:induction false} TokensOfSpace(s: string)
    requires AllSpace(s)
    ensures Tokens(s) == []
    decreases |s|
  {
    if s != [] {
      assert AllSpace(s[1..]) by {
        forall i | 0 <= i < |s[1..]| ensures IsSpace(s[1..][i]) { assert s[1..][i] == s[i + 1]; }
      }
      TokensOfSpace(s[1..]);
    }
  }

  /** `c.join(words).split() == words` for any whitespace character `c` and
      non-empty words without whitespace. */
  lemma {:induction false} TokensJoin(words: seq<string>, c: char)
    requires IsSpace(c)
    requires forall i :: 0 <= i < |words| ==> words[i] != [] && NoSpace(words[i])
    ensures Tokens(Join(words, [c])) == words
    decreases |words|
  {
    if |words| == 1 {
      TokensWord(words[0]);
    } else if |words| > 1 {
      var tail := Join(words[1..], [c]);
      assert Join(words, [c]) == words[0] + [c] + tail;
      TokensWordSpace(words[0], c, tail);
      TokensJoin(words[1..], c);
      assert words == [words[0]] + words[1..];
    }
  }

  /** Leading whitespace does not change `s.split()`. */
  lemma {:induction false} TokensSpacePrefix(ws: string, s: string)
    requires AllSpace(ws)
    ensures Tokens(ws + s) == Tokens(s)
    decreases |ws|
  {
    if ws != [] {
      assert (ws + s)[0] == ws[0] && (ws + s)[1..] == ws[1..] + s;
      assert AllSpace(ws[1..]) by {
        forall i | 0 <= i < |ws[1..]| ensures IsSpace(ws[1..][i]) { assert ws[1..][i] == ws[i + 1]; }
      }
      TokensSpacePrefix(ws[1..], s);
    } else {
      assert ws + s == s;
    }
  }

  /** A word followed by a whitespace character is the first token, and the
      rest of the text gives the other tokens. */
  lemma TokensWordSpace(w: string, c: char, s: string)
    requires w != [] && NoSpace(w) && IsSpace(c)
    ensures Tokens(w + [c] + s) == [w] + Tokens(s)
  {
    assert w + [c] + s == w + ([c] + s);
    TokensFromWord(w, [c] + s, []);
    assert [] + w == w;
    assert ([c] + s)[0] == c && ([c] + s)[1..] == s;
  }

  /** A text that is one word is that one token. */
  lemma TokensWord(w: string)
    requires w != [] && NoSpace(w)
    ensures Tokens(w) == [w]
  {
    TokensFromWord(w, [], []);
    assert w + [] == w;
    assert [] + w == w;
  }

  /** `s.lstrip()` */
  function TrimLeft(s: string): (r: string)
    ensures |r| <= |s|
    decreases |s|
  {
    if s != [] && IsSpace(s[0]) then TrimLeft(s[1..]) else s
  }

  /** `s.rstrip()` */
  function TrimRight(s: string): (r: string)
    ensures |r| <= |s|
    decreases |s|
  {
    if s != [] && IsSpace(s[|s| - 1]) then TrimRight(s[..|s| - 1]) else s
  }

  /** `s.strip()`, which `int()` applies to its argument. */
  function Strip(s: string): string {
    TrimRight(TrimLeft(s))
  }

  predicate IsDigit(c: char) {
    '0' <= c <= '9'
  }

  predicate AllDigits(s: string) {
    forall i :: 0 <= i < |s| ==> IsDigit(s[i])
  }

  function DigitValue(c: char): nat
    requires IsDigit(c)
  {
    (c as int) - ('0' as int)
  }

  function DigitChar(d: nat): char
    requires d < 10
  {
    (('0' as int) + d) as char
  }

  /** The value of a run of decimal digits, most significant first. */
  function DigitsValue(ds: string): nat
    requires AllDigits(ds)
    decreases |ds|
  {
    if ds == [] then 0 else DigitsValue(ds[..|ds| - 1]) * 10 + DigitValue(ds[|ds| - 1])
  }

  /** Python 2's `int(s)` in base 10: surrounding whitespace is ignored, then an
      optional sign and at least one digit; anything else raises ValueError (None). */
  function ParseInt(s: string): (r: Option<int>)
    ensures Strip(s) == [] ==> r.None?
    ensures r.Some? ==> Strip(s) != [] && AllDigits(Strip(s)[1..]) && IsDigit(Strip(s)[|Strip(s)| - 1])
    ensures r.Some? && !IsDigit(Strip(s)[0]) ==> Strip(s)[0] in "+-"
    ensures r.Some? && r.value < 0 ==> Strip(s)[0] == '-'
    ensures Strip(s) != [] && AllDigits(Strip(s)) ==> r == Some(DigitsValue(Strip(s)))
    ensures |Strip(s)| > 1 && Strip(s)[0] == '-' && AllDigits(Strip(s)[1..]) ==> r == Some(-(DigitsValue(Strip(s)[1..]) as int))
    ensures |Strip(s)| > 1 && Strip(s)[0] == '+' && AllDigits(Strip(s)[1..]) ==> r == Some(DigitsValue(Strip(s)[1..]))
  {
    var t := Strip(s);
    if |t| > 1 && (t[0] == '-' || t[0] == '+') && AllDigits(t[1..]) then
      var v: int := DigitsValue(t[1..]);
      Some(if t[0] == '-' then -v else v)
    else if |t| > 0 && AllDigits(t) then
      Some(DigitsValue(t))
    else
      None
  }

  /** The decimal digits of a natural number, without leading zeros. */
  function NatString(n: nat): (r: string)
    ensures |r| >= 1 && AllDigits(r)
    decreases n
  {
    if n < 10 then [DigitChar(n)] else NatString(n / 10) + [DigitChar(n % 10)]
  }

  /** `str(n)` for an integer. */
  function DecimalString(n: int): (r: string)
    ensures |r| >= 1 && NoSpace(r)
  {
    if n < 0 then "-" + NatString(-n) else NatString(n)
  }

  lemma {:induction false} NatStringValue(n: nat)
    ensures DigitsValue(NatString(n)) == n
    decreases n
  {
    if n >= 10 {
      var s := NatString(n);
      NatStringValue(n / 10);
      assert s[..|s| - 1] == NatString(n / 10);
    }
  }

  lemma StripUnchanged(s: string)
    requires s != [] && !IsSpace(s[0]) && !IsSpace(s[|s| - 1])
    ensures Strip(s) == s
  {
  }

  /** `int(str(n)) == n`. */
  lemma ParseIntDecimal(n: int)
    ensures ParseInt(DecimalString(n)) == Some(n)
  {
    var s := DecimalString(n);
    var m: nat := if n < 0 then -n else n;
    var ds := NatString(m);
    assert !IsSpace(s[|s| - 1]) by { assert s[|s| - 1] == ds[|ds| - 1]; }
    StripUnchanged(s);
    NatStringValue(m);
    if n < 0 {
      assert s[1..] == ds;
    }
  }
}
