/** Python string helpers the name handling relies on: `str.isspace`,
    `str.strip()`, `re.sub(r"\s+", " ", s)`, `str.split(sep)`, `str.split()`,
    `str.startswith` and `str.casefold` (restricted to ASCII letters). */
module Text {
  import opened Util

  /** `str.isspace()` of one character: the characters Python (and the `\s`
      class of its regular expressions) treats as whitespace. */
  predicate IsSpace(c: char) {
    var k := c as int;
    (9 <= k <= 13) || (28 <= k <= 32) || k == 0x85 || k == 0xA0 || k == 0x1680
    || (0x2000 <= k <= 0x200A) || k == 0x2028 || k == 0x2029 || k == 0x202F
    || k == 0x205F || k == 0x3000
  }

  predicate NoSpace(s: string) {
    forall i :: 0 <= i < |s| ==> !IsSpace(s[i])
  }

  /** `s.lstrip()` */
  function DropLeading(s: string): (r: string)
    ensures |r| <= |s| && r == s[|s| - |r|..]
    ensures r == [] || !IsSpace(r[0])
    ensures forall i :: 0 <= i < |s| - |r| ==> IsSpace(s[i])
    decreases |s|
  {
    if s != [] && IsSpace(s[0]) then DropLeading(s[1..]) else s
  }

  /** `s.rstrip()` */
  function DropTrailing(s: string): (r: string)
    ensures |r| <= |s| && r == s[..|r|]
    ensures r == [] || !IsSpace(r[|r| - 1])
    ensures forall i :: |r| <= i < |s| ==> IsSpace(s[i])
    decreases |s|
  {
    if s != [] && IsSpace(s[|s| - 1]) then DropTrailing(s[..|s| - 1]) else s
  }

  /** `s.strip()` */
  function Strip(s: string): (r: string)
    ensures r == [] || (!IsSpace(r[0]) && !IsSpace(r[|r| - 1]))
  {
    DropTrailing(DropLeading(s))
  }

  /** Every character is whitespace (the empty string included). */
  predicate Blank(s: string) {
    forall i :: 0 <= i < |s| ==> IsSpace(s[i])
  }

  /** `s.strip()` is empty exactly for a blank `s`. */
  lemma StripEmpty(s: string)
    ensures Strip(s) == [] <==> Blank(s)
  {
    var d := DropLeading(s);
    if d != [] {
      assert d[0] == s[|s| - |d|];
    }
  }

  /** `re.sub(r"\s+", " ", s)`: every maximal run of whitespace becomes one
      space. */
  function Collapse(s: string): (r: string)
    ensures |r| <= |s|
    ensures SingleSpaced(r)
    ensures s == [] <==> r == []
    ensures s != [] ==> (IsSpace(s[0]) <==> IsSpace(r[0]))
    decreases |s|
  {
    if s == [] then []
    else if IsSpace(s[0]) then
      var rest := Collapse(DropLeading(s[1..]));
      assert rest == [] || !IsSpace(rest[0]);
      [' '] + rest
    else [s[0]] + Collapse(s[1..])
  }

  /** The only whitespace is the plain space, and no two whitespace characters
      are adjacent. */
  predicate SingleSpaced(s: string) {
    && (forall i :: 0 <= i < |s| && IsSpace(s[i]) ==> s[i] == ' ')
    && (forall i :: 0 <= i < |s| - 1 && IsSpace(s[i]) ==> !IsSpace(s[i + 1]))
  }

  /** The shape `_normalize_whitespace` produces. */
  predicate Normalized(s: string) {
    SingleSpaced(s) && (s == [] || (!IsSpace(s[0]) && !IsSpace(s[|s| - 1])))
  }

  /** `_normalize_whitespace`: `re.sub(r"\s+", " ", value).strip()`. */
  function NormalizeWhitespace(s: string): (r: string)
    ensures Normalized(r)
  {
    var c := Collapse(s);
    StripNormalized(c);
    Strip(c)
  }

  lemma StripNormalized(c: string)
    requires SingleSpaced(c)
    ensures Normalized(Strip(c))
  {
    StripSingleSpaced(c);
  }

  lemma StripSingleSpaced(c: string)
    requires SingleSpaced(c)
    ensures SingleSpaced(Strip(c))
  {
    var lo, len := StripSlice(c);
    SliceSingleSpaced(c, lo, len);
  }

  /** `s.strip()` is a slice of `s`. */
  lemma StripSlice(c: string) returns (lo: int, len: int)
    ensures 0 <= lo && 0 <= len && lo + len <= |c| && Strip(c) == c[lo..lo + len]
  {
    var d := DropLeading(c);
    lo := |c| - |d|;
    var r := DropTrailing(d);
    len := |r|;
    assert d == c[lo..];
    assert r == d[..|r|];
    assert c[lo..][..len] == c[lo..lo + len];
  }

  lemma SliceSingleSpaced(c: string, lo: int, len: int)
    requires SingleSpaced(c) && 0 <= lo && 0 <= len && lo + len <= |c|
    ensures SingleSpaced(c[lo..lo + len])
  {
    var t := c[lo..lo + len];
    forall i | 0 <= i < |t| - 1 && IsSpace(t[i]) ensures !IsSpace(t[i + 1]) {
      assert t[i] == c[lo + i] && t[i + 1] == c[lo + i + 1];
    }
  }

  /** Text already in normal form is left unchanged ... */
  lemma {:induction false} CollapseFixed(s: string)
    requires SingleSpaced(s)
    ensures Collapse(s) == s
    decreases |s|
  {
    if s != [] {
      SliceSingleSpaced(s, 1, |s| - 1);
      CollapseFixed(s[1..]);
      if IsSpace(s[0]) {
        assert s[1..] == [] || !IsSpace(s[1..][0]) by {
          if |s| > 1 { assert s[1..][0] == s[1]; }
        }
        assert DropLeading(s[1..]) == s[1..];
        assert s == [' '] + s[1..];
      } else {
        assert s == [s[0]] + s[1..];
      }
    }
  }

  lemma StripFixed(s: string)
    requires s == [] || (!IsSpace(s[0]) && !IsSpace(s[|s| - 1]))
    ensures Strip(s) == s
  {
  }

  /** ... so normalising twice is normalising once. */
  lemma NormalizeIdempotent(s: string)
    ensures NormalizeWhitespace(NormalizeWhitespace(s)) == NormalizeWhitespace(s)
  {
    var n := NormalizeWhitespace(s);
    CollapseFixed(n);
    StripFixed(n);
  }

  /** `str.casefold`, on ASCII letters. */
  function CaseFold(s: string): (r: string)
    ensures |r| == |s|
    ensures forall i :: 0 <= i < |s| ==> r[i] == LowerChar(s[i])
  {
    if s == [] then [] else [LowerChar(s[0])] + CaseFold(s[1..])
  }

  function LowerChar(c: char): char {
    if 'A' <= c <= 'Z' then (c as int + 32) as char else c
  }

  lemma CaseFoldIdempotent(s: string)
    ensures CaseFold(CaseFold(s)) == CaseFold(s)
  {
  }

  /** `_norm_name`: whitespace normalised, then case-folded. */
  function NormName(s: string): string {
    CaseFold(NormalizeWhitespace(s))
  }

  /** `s.startswith(p)` */
  predicate StartsWith(s: string, p: string) {
    |p| <= |s| && s[..|p|] == p
  }

  /** `s.split(sep)` for a one-character separator: never empty, and an
      empty string splits into one empty piece. */
  function SplitOn(s: string, sep: char): (r: seq<string>)
    ensures |r| >= 1
    ensures forall i :: 0 <= i < |r| ==> sep !in r[i]
    decreases |s|
  {
    if s == [] then [""]
    else
      var rest := SplitOn(s[1..], sep);
      if s[0] == sep then [""] + rest
      else [[s[0]] + rest[0]] + rest[1..]
  }

  /** `sep.join(pieces)` */
  function JoinWith(pieces: seq<string>, sep: char): string
    requires |pieces| >= 1
    decreases |pieces|
  {
    if |pieces| == 1 then pieces[0] else pieces[0] + [sep] + JoinWith(pieces[1..], sep)
  }

  /** Splitting and joining again gives back the original string. */
  lemma {:induction false} SplitJoin(s: string, sep: char)
    ensures JoinWith(SplitOn(s, sep), sep) == s
    decreases |s|
  {
    if s != [] {
      var rest := SplitOn(s[1..], sep);
      SplitJoin(s[1..], sep);
      if s[0] == sep {
        assert SplitOn(s, sep)[1..] == rest;
      } else {
        var r := SplitOn(s, sep);
        if |rest| == 1 {
          assert r == [[s[0]] + rest[0]];
        } else {
          assert r[1..] == rest[1..];
          assert JoinWith(rest, sep) == rest[0] + [sep] + JoinWith(rest[1..], sep);
        }
      }
    }
  }

  /** Joining pieces that do not contain the separator and splitting again
      gives back the pieces. */
  lemma {:induction false} JoinSplit(pieces: seq<string>, sep: char)
    requires |pieces| >= 1 && forall i :: 0 <= i < |pieces| ==> sep !in pieces[i]
    ensures SplitOn(JoinWith(pieces, sep), sep) == pieces
    decreases |pieces|
  {
    if |pieces| == 1 {
      SplitOnNoSep(pieces[0], sep);
    } else {
      JoinSplit(pieces[1..], sep);
      SplitOnConcat(pieces[0], JoinWith(pieces[1..], sep), sep);
      assert pieces == [pieces[0]] + pieces[1..];
    }
  }

  lemma {:induction false} SplitOnNoSep(a: string, sep: char)
    requires sep !in a
    ensures SplitOn(a, sep) == [a]
    decreases |a|
  {
    if a != [] {
      SplitOnNoSep(a[1..], sep);
      assert a == [a[0]] + a[1..];
    }
  }

  lemma {:induction false} SplitOnConcat(a: string, b: string, sep: char)
    requires sep !in a
    ensures SplitOn(a + [sep] + b, sep) == [a] + SplitOn(b, sep)
    decreases |a|
  {
    var s := a + [sep] + b;
    if a == [] {
      assert s == [sep] + b;
      assert s[1..] == b;
    } else {
      assert s[1..] == a[1..] + [sep] + b;
      SplitOnConcat(a[1..], b, sep);
      assert a == [a[0]] + a[1..];
    }
  }

  /** `s.split()`: the maximal runs of non-whitespace characters, in order. */
  function SplitWords(s: string): (r: seq<string>)
    ensures forall i :: 0 <= i < |r| ==> r[i] != [] && NoSpace(r[i])
    decreases |s|
  {
    var t := DropLeading(s);
    if t == [] then []
    else
      var w := TakeWord(t);
      var rest := SplitWords(t[|w|..]);
      AllCons(w, rest, (x: string) => x != [] && NoSpace(x));
      [w] + rest
  }

  /** The leading run of non-whitespace characters. */
  function TakeWord(s: string): (r: string)
    ensures |r| <= |s| && r == s[..|r|] && NoSpace(r)
    ensures |r| == |s| || IsSpace(s[|r|])
    ensures s != [] && !IsSpace(s[0]) ==> r != []
    decreases |s|
  {
    if s == [] || IsSpace(s[0]) then [] else [s[0]] + TakeWord(s[1..])
  }

  /** `" ".join(words)` */
  function JoinSpaced(words: seq<string>): string
    decreases |words|
  {
    if words == [] then "" else if |words| == 1 then words[0] else words[0] + " " + JoinSpaced(words[1..])
  }

  // ---------------------------------------------------------------------------
  // Numbers as text

  /** Python's `str(int)`: decimal digits, with a leading '-' when negative. */
  function IntToString(n: int): (s: string)
    ensures s != []
    ensures n >= 0 <==> s[0] != '-'
  {
    if n < 0 then "-" + NatToString(-n)
    else
      NatToString(n)
  }

  function NatToString(n: nat): (s: string)
    ensures s != [] && AllDigits(s)
    decreases n
  {
    if n < 10 then [DigitChar(n)] else NatToString(n / 10) + [DigitChar(n % 10)]
  }

  function DigitChar(d: nat): (c: char)
    requires d < 10
    ensures '0' <= c <= '9'
  {
    (48 + d) as char
  }

  predicate AllDigits(s: string) {
    forall i :: 0 <= i < |s| ==> '0' <= s[i] <= '9'
  }

  /** Python's `int()` of a string of decimal digits. */
  function DigitsValue(s: string): (n: nat)
    requires AllDigits(s)
    decreases |s|
  {
    if s == [] then 0
    else 10 * DigitsValue(s[..|s| - 1]) + (s[|s| - 1] as int - 48)
  }

  /** `str` of a number reads back as the same number. */
  lemma {:induction false} NatToStringRoundTrip(n: nat)
    ensures DigitsValue(NatToString(n)) == n
    decreases n
  {
    var s := NatToString(n);
    if n >= 10 {
      NatToStringRoundTrip(n / 10);
      assert s[..|s| - 1] == NatToString(n / 10);
    }
  }

  /** Python's `int(s)` of a decimal literal written in ASCII digits:
      surrounding whitespace allowed, an optional sign, then one or more
      digits; None for every other text. Unicode decimal digits and the `_`
      separators, which `int` also reads, are among the other texts. */
  function ParseInt(s: string): (r: Option<int>)
    ensures r.Some? ==> Strip(s) != []
  {
    var t := Strip(s);
    if t == [] then None
    else if (t[0] == '-' || t[0] == '+') && |t| > 1 && AllDigits(t[1..]) then
      var v: int := DigitsValue(t[1..]);
      Some(if t[0] == '-' then -v else v)
    else if AllDigits(t) then Some(DigitsValue(t))
    else None
  }

  /** `int(str(n)) == n` */
  lemma ParseIntToString(n: int)
    ensures ParseInt(IntToString(n)) == Some(n)
  {
    if n < 0 {
      ParseNegativeString(-n);
    } else {
      ParseNatString(n);
    }
  }

  lemma ParseNatString(m: nat)
    ensures ParseInt(IntToString(m)) == Some(m as int)
  {
    NatToStringRoundTrip(m);
    ParseDigits(NatToString(m), m);
  }

  lemma ParseNegativeString(m: nat)
    requires m > 0
    ensures ParseInt(IntToString(-(m as int))) == Some(-(m as int))
  {
    var d := NatToString(m);
    NatToStringRoundTrip(m);
    ParseNegative(d, IntToString(-(m as int)), m);
  }

  /** A bare run of digits parses as its value. */
  lemma ParseDigits(d: string, v: int)
    requires d != [] && AllDigits(d) && v == DigitsValue(d)
    ensures ParseInt(d) == Some(v)
  {
    DigitsAreNotSpace(d);
    StripFixed(d);
  }

  /** A '-' followed by a run of digits parses as minus its value. */
  lemma ParseNegative(d: string, s: string, v: int)
    requires d != [] && AllDigits(d) && s == "-" + d && v == DigitsValue(d)
    ensures ParseInt(s) == Some(-v)
  {
    DigitsAreNotSpace(d);
    assert s[0] == '-' && s[1..] == d;
    assert s[|s| - 1] == d[|d| - 1];
    StripFixed(s);
    var t := Strip(s);
    assert t[0] == '-' && |t| > 1 && t[1..] == d;
  }

  lemma DigitsAreNotSpace(s: string)
    requires AllDigits(s)
    ensures NoSpace(s)
  {
  }
}
