/**
 * The Python `str` operations the planner applies to service replies:
 * `strip`, `lower`, `upper`, `title`, `split` on one character, `join`,
 * the substring test `in`, and the conversions between integers and their
 * decimal text (`str(n)` and `int(s)`).
 */
module Text {
  import opened Wrappers

  // ---------------------------------------------------------------- whitespace

  /** Python's whitespace (`str.isspace`): the controls 9-13 and 28-31, the space and the Unicode separators. */
  predicate IsSpace(c: char) {
    || ('\t' <= c <= '\r')
    || ('\U{1C}' <= c <= ' ')
    || c == '\U{85}' || c == '\U{A0}' || c == '\U{1680}'
    || ('\U{2000}' <= c <= '\U{200A}')
    || c == '\U{2028}' || c == '\U{2029}' || c == '\U{202F}' || c == '\U{205F}' || c == '\U{3000}'
  }

  /** `s.lstrip()`: the longest suffix of `s` that does not start with whitespace. */
  function StripLeft(s: string): (r: string)
    ensures |r| <= |s| && r == s[|s| - |r|..]
    ensures forall k :: 0 <= k < |s| - |r| ==> IsSpace(s[k])
    ensures r != [] ==> !IsSpace(r[0])
  {
    if s != [] && IsSpace(s[0]) then StripLeft(s[1..]) else s
  }

  /** `s.rstrip()`: the longest prefix of `s` that does not end with whitespace. */
  function StripRight(s: string): (r: string)
    ensures |r| <= |s| && r == s[..|r|]
    ensures forall k :: |r| <= k < |s| ==> IsSpace(s[k])
    ensures r != [] ==> !IsSpace(r[|r| - 1])
  {
    if s != [] && IsSpace(s[|s| - 1]) then StripRight(s[..|s| - 1]) else s
  }

  /** `r` sits in `s` at offset `i` with nothing but whitespace around it. */
  ghost predicate Padded(s: string, r: string, i: int) {
    && 0 <= i <= |s| - |r|
    && r == s[i..i + |r|]
    && (forall k :: 0 <= k < i ==> IsSpace(s[k]))
    && (forall k :: i + |r| <= k < |s| ==> IsSpace(s[k]))
  }

  /** `s.strip()`: `s` without its leading and trailing whitespace. */
  function Strip(s: string): (r: string)
    ensures r != [] ==> !IsSpace(r[0]) && !IsSpace(r[|r| - 1])
    ensures exists i :: Padded(s, r, i)
  {
    var l := StripLeft(s);
    var r := StripRight(l);
    assert Padded(s, r, |s| - |l|);
    r
  }

  /** Stripping text that neither starts nor ends with whitespace leaves it alone. */
  lemma StripTrimmed(s: string)
    requires s == [] || (!IsSpace(s[0]) && !IsSpace(s[|s| - 1]))
    ensures Strip(s) == s
  {
  }

  /** Non-blank text with no whitespace at either end: what `strip` returns for non-blank text. */
  predicate Trimmed(p: string) {
    p != [] && !IsSpace(p[0]) && !IsSpace(p[|p| - 1])
  }

  lemma {:induction false} StripLeftSpaces(w: string, p: string)
    requires Blank(w)
    requires p == [] || !IsSpace(p[0])
    ensures StripLeft(w + p) == p
  {
    if w != [] {
      assert (w + p)[0] == w[0];
      assert (w + p)[1..] == w[1..] + p;
      StripLeftSpaces(w[1..], p);
    }
  }

  lemma {:induction false} StripRightSpaces(p: string, v: string)
    requires Blank(v)
    requires p == [] || !IsSpace(p[|p| - 1])
    ensures StripRight(p + v) == p
  {
    if v == [] {
      assert p + v == p;
    } else {
      var n := |p + v|;
      assert (p + v)[n - 1] == v[|v| - 1];
      assert (p + v)[..n - 1] == p + v[..|v| - 1];
      StripRightSpaces(p, v[..|v| - 1]);
    }
  }

  /** Stripping removes exactly the whitespace padding around trimmed text. */
  lemma StripPadded(w: string, p: string, v: string)
    requires Blank(w) && Blank(v)
    requires Trimmed(p)
    ensures Strip(w + p + v) == p
  {
    assert w + p + v == w + (p + v);
    assert (p + v)[0] == p[0];
    StripLeftSpaces(w, p + v);
    StripRightSpaces(p, v);
  }

  /** `[p.strip() for p in pieces]`. */
  function StripAll(pieces: seq<string>): (r: seq<string>)
    ensures |r| == |pieces| && forall i :: 0 <= i < |r| ==> r[i] == Strip(pieces[i])
  {
    seq(|pieces|, i requires 0 <= i < |pieces| => Strip(pieces[i]))
  }

  // ---------------------------------------------------------------- case

  /** Python changes case of every letter; this model changes only the ASCII ones. */
  predicate IsCased(c: char) {
    'A' <= c <= 'Z' || 'a' <= c <= 'z'
  }

  function LowerChar(c: char): char {
    if 'A' <= c <= 'Z' then (c as int + 32) as char else c
  }

  function UpperChar(c: char): char {
    if 'a' <= c <= 'z' then (c as int - 32) as char else c
  }

  /** `s.lower()`. */
  function Lower(s: string): string {
    seq(|s|, i requires 0 <= i < |s| => LowerChar(s[i]))
  }

  /** `s.upper()`. */
  function Upper(s: string): string {
    seq(|s|, i requires 0 <= i < |s| => UpperChar(s[i]))
  }

  /**
   * The loop of `str.title()`: every character is upper-cased unless the
   * character before it is a letter, in which case it is lower-cased.
   */
  function TitleFrom(s: string, afterCased: bool): (r: string)
    ensures |r| == |s|
  {
    if s == [] then []
    else [if afterCased then LowerChar(s[0]) else UpperChar(s[0])] + TitleFrom(s[1..], IsCased(s[0]))
  }

  /** `s.title()`. */
  function Title(s: string): string {
    TitleFrom(s, false)
  }

  lemma {:induction false} TitleFromAt(s: string, afterCased: bool, i: nat)
    requires i < |s|
    ensures TitleFrom(s, afterCased)[i]
         == if (if i == 0 then afterCased else IsCased(s[i - 1])) then LowerChar(s[i]) else UpperChar(s[i])
  {
    if i > 0 {
      TitleFromAt(s[1..], IsCased(s[0]), i - 1);
    }
  }

  /** Character `i` of `s.title()` starts a word (upper case) exactly when the character before it is not a letter. */
  lemma TitleAt(s: string, i: nat)
    requires i < |s|
    ensures |Title(s)| == |s|
    ensures Title(s)[i] == if i > 0 && IsCased(s[i - 1]) then LowerChar(s[i]) else UpperChar(s[i])
  {
    TitleFromAt(s, false, i);
  }

  /** Title-casing twice is title-casing once. */
  lemma TitleIdempotent(s: string)
    ensures Title(Title(s)) == Title(s)
  {
    var t := Title(s);
    forall i | 0 <= i < |s|
      ensures Title(t)[i] == t[i]
    {
      TitleAt(t, i);
      TitleAt(s, i);
      if i > 0 {
        TitleAt(s, i - 1);
      }
    }
  }

  /** Title-casing changes only the case of letters. */
  lemma TitleKeepsLetters(s: string)
    ensures Lower(Title(s)) == Lower(s)
  {
    forall i | 0 <= i < |s|
      ensures Lower(Title(s))[i] == Lower(s)[i]
    {
      TitleAt(s, i);
    }
  }

  // ---------------------------------------------------------------- split and join

  /** `sep.join(parts)`. */
  function Join(parts: seq<string>, sep: string): string {
    if parts == [] then []
    else if |parts| == 1 then parts[0]
    else parts[0] + sep + Join(parts[1..], sep)
  }

  /** Prefixing the first part prefixes the joined text. */
  lemma JoinPrefix(x: string, parts: seq<string>, sep: string)
    requires parts != []
    ensures Join([x + parts[0]] + parts[1..], sep) == x + Join(parts, sep)
  {
    var ps := [x + parts[0]] + parts[1..];
    assert ps[1..] == parts[1..];
  }

  /** The joined text starts with the first part. */
  lemma JoinStartsWithFirst(parts: seq<string>, sep: string)
    requires parts != []
    ensures |Join(parts, sep)| >= |parts[0]| && Join(parts, sep)[..|parts[0]|] == parts[0]
  {
  }

  lemma JoinThree(a: string, b: string, c: string, sep: string)
    ensures Join([a, b, c], sep) == a + sep + b + sep + c
  {
    assert [a, b, c][1..] == [b, c];
    assert [b, c][1..] == [c];
    assert Join([b, c], sep) == b + sep + c;
    assert a + sep + (b + sep + c) == a + sep + b + sep + c;
  }

  /** `s.split(sep)` for a one-character separator: the pieces between separators, in order. */
  function Split(s: string, sep: char): (parts: seq<string>)
    ensures |parts| == multiset(s)[sep] + 1
    ensures forall p <- parts :: sep !in p
    ensures Join(parts, [sep]) == s
  {
    if s == [] then [[]]
    else
      var rest := Split(s[1..], sep);
      assert s == [s[0]] + s[1..];
      assert multiset(s) == multiset{s[0]} + multiset(s[1..]);
      if s[0] == sep then
        assert ([[]] + rest)[1..] == rest;
        [[]] + rest
      else
        JoinPrefix([s[0]], rest, [sep]);
        [[s[0]] + rest[0]] + rest[1..]
  }

  lemma {:induction false} SplitWithoutSeparator(s: string, sep: char)
    requires sep !in s
    ensures Split(s, sep) == [s]
  {
    if s != [] {
      SplitWithoutSeparator(s[1..], sep);
    }
  }

  lemma {:induction false} SplitAfterPiece(a: string, b: string, sep: char)
    requires sep !in a
    ensures Split(a + [sep] + b, sep) == [a] + Split(b, sep)
  {
    if a == [] {
      assert ([sep] + b)[1..] == b;
    } else {
      assert (a + [sep] + b)[1..] == a[1..] + [sep] + b;
      SplitAfterPiece(a[1..], b, sep);
      assert [a[0]] + a[1..] == a;
    }
  }

  /** Splitting undoes joining, for pieces that do not hold the separator. */
  lemma {:induction false} SplitJoin(parts: seq<string>, sep: char)
    requires parts != [] && forall p <- parts :: sep !in p
    ensures Split(Join(parts, [sep]), sep) == parts
  {
    if |parts| == 1 {
      SplitWithoutSeparator(parts[0], sep);
    } else {
      SplitJoin(parts[1..], sep);
      SplitAfterPiece(parts[0], Join(parts[1..], [sep]), sep);
    }
  }

  /** Stripping a piece list one head at a time. */
  lemma StripAllCons(head: string, tail: seq<string>)
    ensures StripAll([head] + tail) == [Strip(head)] + StripAll(tail)
  {
    var pieces := [head] + tail;
    assert forall i :: 0 < i < |pieces| ==> pieces[i] == tail[i - 1];
  }

  lemma Regroup<T>(a: seq<T>, b: seq<T>, c: seq<T>, x: seq<T>, t: seq<T>, r: seq<T>)
    ensures a + (b + (c + x + t) + r) == (a + b + c) + x + (t + r)
  {
  }

  lemma NotInConcat<T>(x: T, a: seq<T>, b: seq<T>, c: seq<T>)
    requires x !in a && x !in b && x !in c
    ensures x !in a + b + c
  {
  }

  /** Splitting a joined list at its first separator. */
  lemma SplitFirstJoined(w: string, parts: seq<string>, lead: string, sep: char, trail: string)
    requires sep !in lead && sep !in trail && |parts| > 1 && sep !in w && sep !in parts[0]
    ensures Split(w + Join(parts, lead + [sep] + trail), sep)
         == [w + parts[0] + lead] + Split(trail + Join(parts[1..], lead + [sep] + trail), sep)
  {
    var d := lead + [sep] + trail;
    var rest := Join(parts[1..], d);
    var head := w + parts[0] + lead;
    assert Join(parts, d) == parts[0] + d + rest;
    Regroup(w, parts[0], lead, [sep], trail, rest);
    NotInConcat(sep, w, parts[0], lead);
    SplitAfterPiece(head, trail + rest, sep);
  }

  lemma SplitPaddedOne(w: string, p: string, sep: char)
    requires !IsSpace(sep) && Blank(w) && Trimmed(p) && sep !in p
    ensures StripAll(Split(w + p, sep)) == [p]
  {
    var none: string := [];
    assert sep !in w + p;
    SplitWithoutSeparator(w + p, sep);
    assert w + p + none == w + p;
    StripPadded(w, p, none);
  }

  /** Whitespace only. */
  predicate Blank(w: string) {
    forall c <- w :: IsSpace(c)
  }

  /** Trimmed parts none of which holds `sep`. */
  predicate SeparablePieces(parts: seq<string>, sep: char) {
    forall p <- parts :: Trimmed(p) && sep !in p
  }

  /**
   * Text joined with the separator `sep` padded by whitespace (`lead` before
   * it, `trail` after it) is read back by splitting on `sep` and stripping
   * every piece, whatever whitespace `w` precedes it, as long as the parts are
   * trimmed and do not hold `sep`.
   */
  lemma {:induction false} SplitPaddedJoin(w: string, parts: seq<string>, lead: string, sep: char, trail: string)
    requires !IsSpace(sep) && Blank(w) && Blank(lead) && Blank(trail)
    requires parts != [] && SeparablePieces(parts, sep)
    ensures StripAll(Split(w + Join(parts, lead + [sep] + trail), sep)) == parts
    decreases parts
  {
    assert parts[0] in parts;
    if |parts| == 1 {
      SplitPaddedOne(w, parts[0], sep);
    } else {
      SplitFirstJoined(w, parts, lead, sep, trail);
      assert SeparablePieces(parts[1..], sep) by {
        forall p <- parts[1..] ensures Trimmed(p) && sep !in p {
          assert p in parts;
        }
      }
      SplitPaddedJoin(trail, parts[1..], lead, sep, trail);
      StripPadded(w, parts[0], lead);
      StripAllCons(w + parts[0] + lead, Split(trail + Join(parts[1..], lead + [sep] + trail), sep));
    }
  }

  // ---------------------------------------------------------------- substrings

  /** `pat` occurs in `s` starting at index `i`. */
  predicate MatchAt(s: string, pat: string, i: nat) {
    i + |pat| <= |s| && s[i..i + |pat|] == pat
  }

  /** Dropping the first character moves every occurrence one place to the left. */
  lemma MatchAfterFirst(s: string, pat: string, j: nat)
    requires s != []
    ensures MatchAt(s, pat, j + 1) <==> MatchAt(s[1..], pat, j)
  {
    if j + 1 + |pat| <= |s| {
      assert s[j + 1..j + 1 + |pat|] == s[1..][j..j + |pat|];
    }
  }

  /** `s.find(pat)`: the first index where `pat` occurs in `s`, if any. */
  function Find(s: string, pat: string): (r: Option<nat>)
    ensures r.Some? ==> MatchAt(s, pat, r.value)
    ensures forall j: nat :: (r.None? || j < r.value) ==> !MatchAt(s, pat, j)
  {
    if MatchAt(s, pat, 0) then Some(0)
    else if s == [] then None
    else
      var rest := Find(s[1..], pat);
      assert forall j: nat :: MatchAt(s, pat, j + 1) <==> MatchAt(s[1..], pat, j) by {
        forall j: nat ensures MatchAt(s, pat, j + 1) <==> MatchAt(s[1..], pat, j) {
          MatchAfterFirst(s, pat, j);
        }
      }
      assert forall j: nat :: j > 0 ==> (MatchAt(s, pat, j) <==> MatchAt(s[1..], pat, j - 1));
      if rest.None? then None else Some(rest.value + 1)
  }

  /** `pat in s`. */
  function Contains(s: string, pat: string): (b: bool)
    ensures b <==> exists j :: MatchAt(s, pat, j)
  {
    Find(s, pat).Some?
  }

  // ---------------------------------------------------------------- integers

  predicate IsDigit(c: char) {
    '0' <= c <= '9'
  }

  function DigitChar(d: nat): char
    requires d < 10
  {
    ('0' as int + d) as char
  }

  function DigitValue(c: char): nat
    requires IsDigit(c)
  {
    c as int - '0' as int
  }

  /** `str(n)` for a natural number: its decimal digits, most significant first. */
  function NatToString(n: nat): (r: string)
    ensures r != [] && forall c <- r :: IsDigit(c)
  {
    if n < 10 then [DigitChar(n)] else NatToString(n / 10) + [DigitChar(n % 10)]
  }

  /** `str(i)` for an integer. */
  function IntToString(i: int): string {
    if i < 0 then "-" + NatToString(-i) else NatToString(i)
  }

  predicate AllDigits(s: string) {
    s != [] && forall c <- s :: IsDigit(c)
  }

  /** The number a string of decimal digits spells. */
  function DigitsValue(ds: string): nat
    requires forall c <- ds :: IsDigit(c)
  {
    if ds == [] then 0 else DigitsValue(ds[..|ds| - 1]) * 10 + DigitValue(ds[|ds| - 1])
  }

  /**
   * The whitespace `int()` skips around a number: Python's whitespace except
   * the ASCII separators 28-31, which `int()` does not skip.
   */
  predicate IntSpace(c: char) {
    IsSpace(c) && !('\U{1C}' <= c <= '\U{1F}')
  }

  /** `s` without the leading and trailing whitespace `int()` skips. */
  function IntTrim(s: string): (r: string)
    ensures r != [] ==> !IntSpace(r[0]) && !IntSpace(r[|r| - 1])
  {
    if s != [] && IntSpace(s[0]) then IntTrim(s[1..])
    else if s != [] && IntSpace(s[|s| - 1]) then IntTrim(s[..|s| - 1])
    else s
  }

  /** Text with no such whitespace at either end is left alone. */
  lemma IntTrimTrimmed(s: string)
    requires s == [] || (!IntSpace(s[0]) && !IntSpace(s[|s| - 1]))
    ensures IntTrim(s) == s
  {
  }

  /**
   * `int(s)` on text: optional surrounding whitespace, an optional sign, then
   * one or more decimal digits. Any other text makes Python raise ValueError,
   * which is None here.
   */
  function ParseInt(s: string): Option<int> {
    var t := IntTrim(s);
    if t != [] && (t[0] == '+' || t[0] == '-') then
      if AllDigits(t[1..]) then
        var magnitude: int := DigitsValue(t[1..]);
        Some(if t[0] == '-' then -magnitude else magnitude)
      else None
    else if AllDigits(t) then Some(DigitsValue(t))
    else None
  }

  lemma {:induction false} NatToStringValue(n: nat)
    ensures DigitsValue(NatToString(n)) == n
  {
    if n >= 10 {
      var s := NatToString(n);
      assert s[..|s| - 1] == NatToString(n / 10);
      NatToStringValue(n / 10);
    }
  }

  /** `int(str(i)) == i`: reading back the decimal text of any integer gives the integer. */
  lemma IntRoundTrip(i: int)
    ensures ParseInt(IntToString(i)) == Some(i)
  {
    var s := IntToString(i);
    if i < 0 {
      var ds := NatToString(-i);
      assert s == ['-'] + ds && s[1..] == ds;
      assert !IntSpace(s[|s| - 1]) by { assert s[|s| - 1] == ds[|ds| - 1]; }
      IntTrimTrimmed(s);
      NatToStringValue(-i);
    } else {
      assert IsDigit(s[0]) && IsDigit(s[|s| - 1]);
      IntTrimTrimmed(s);
      NatToStringValue(i);
    }
  }

  /** `int()` skips a tab before the number but not the ASCII file separator. */
  lemma IntSkipsOnlyItsWhitespace()
    ensures ParseInt("\t7") == Some(7)
    ensures ParseInt("\U{1C}7") == None
  {
    assert IntTrim("\t7") == "7" by {
      assert "\t7"[1..] == "7";
      IntTrimTrimmed("7");
    }
    IntTrimTrimmed("\U{1C}7");
    assert !IsDigit('\U{1C}');
  }
}
