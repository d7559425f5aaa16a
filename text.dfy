/**
  The pieces of Python's string semantics the extension relies on:
  `str.split(sep)`, `str.strip()`, `sep.join(parts)`, `str.lower()` and
  `str.isalpha()` (restricted to ASCII), `str(n)` and `int(s)` on decimal
  integers, and `html.escape(s)`.
 */
module Text {
  import opened Wrappers

  /** The characters Python's `str.isspace()` accepts (its Unicode list written out). */
  const SpaceChars: string :=
    " \t\n\U{0b}\U{0c}\r\U{1c}\U{1d}\U{1e}\U{1f}\U{85}\U{a0}\U{1680}"
    + "\U{2000}\U{2001}\U{2002}\U{2003}\U{2004}\U{2005}\U{2006}\U{2007}\U{2008}\U{2009}\U{200a}"
    + "\U{2028}\U{2029}\U{202f}\U{205f}\U{3000}"

  predicate IsSpace(c: char) {
    OneOf(c, SpaceChars)
  }

  /** `c` is one of the characters of `chars`. */
  predicate OneOf(c: char, chars: string) {
    chars != [] && (chars[0] == c || OneOf(c, chars[1..]))
  }

  lemma DigitIsNotSpace(c: char)
    requires IsDigit(c) || c == '-'
    ensures !IsSpace(c)
  {
    assert forall k :: 0 <= k < |SpaceChars| ==> SpaceChars[k] != c;
    NotOneOf(c, SpaceChars);
  }

  lemma {:induction false} NotOneOf(c: char, chars: string)
    requires forall k :: 0 <= k < |chars| ==> chars[k] != c
    ensures !OneOf(c, chars)
  {
    if chars != [] {
      NotOneOf(c, chars[1..]);
    }
  }

  /** `str.isalpha()`, restricted to ASCII letters. */
  predicate IsAlpha(c: char) {
    ('a' <= c <= 'z') || ('A' <= c <= 'Z')
  }

  predicate IsDigit(c: char) {
    '0' <= c <= '9'
  }

  /** `str.lower()` on one character, restricted to ASCII. */
  function LowerChar(c: char): (r: char)
    ensures IsAlpha(c) ==> 'a' <= r <= 'z'
    ensures !('A' <= c <= 'Z') ==> r == c
  {
    if 'A' <= c <= 'Z' then (c - 'A' + 'a') as char else c
  }

  /** `str.lower()`, restricted to ASCII. */
  function Lower(s: string): (r: string)
    ensures |r| == |s|
    ensures forall k :: 0 <= k < |s| ==> r[k] == LowerChar(s[k])
  {
    seq(|s|, k requires 0 <= k < |s| => LowerChar(s[k]))
  }

  /** The number of alphabetic characters, `sum(1 for ch in s if ch.isalpha())`. */
  function AlphaCount(s: string): (n: nat)
    ensures n <= |s|
  {
    if s == [] then 0 else (if IsAlpha(s[0]) then 1 else 0) + AlphaCount(s[1..])
  }

  lemma {:induction false} AlphaCountAppend(a: string, b: string)
    ensures AlphaCount(a + b) == AlphaCount(a) + AlphaCount(b)
  {
    if a != [] {
      assert (a + b)[1..] == a[1..] + b;
      AlphaCountAppend(a[1..], b);
    } else {
      assert a + b == b;
    }
  }

  /** `sub in s`: `sub` occurs in `s` as a contiguous piece. */
  predicate Contains(s: string, sub: string) {
    exists k :: 0 <= k <= |s| - |sub| && OccursAt(s, sub, k)
  }

  /** `sub` occurs in `s` starting at index `k`. */
  predicate OccursAt(s: string, sub: string, k: int) {
    0 <= k <= |s| - |sub| && s[k..k + |sub|] == sub
  }

  /** The number of occurrences of the character `c` in `s`. */
  function Occurrences(s: string, c: char): (n: nat)
    ensures n <= |s|
  {
    if s == [] then 0 else (if s[0] == c then 1 else 0) + Occurrences(s[1..], c)
  }

  // ---------------------------------------------------------------------------
  // str.strip()

  /** `str.lstrip()`: drop the leading whitespace. */
  function StripLeading(s: string): (r: string)
    ensures |r| <= |s| && r == s[|s| - |r|..]
  {
    if s != [] && IsSpace(s[0]) then StripLeading(s[1..]) else s
  }

  /** What `StripLeading` drops is whitespace, and what it keeps does not start with whitespace. */
  lemma {:induction false} StripLeadingSpec(s: string)
    ensures var r := StripLeading(s);
      && (forall k :: 0 <= k < |s| - |r| ==> IsSpace(s[k]))
      && (r == [] || !IsSpace(r[0]))
  {
    if s != [] && IsSpace(s[0]) {
      StripLeadingSpec(s[1..]);
      var r := StripLeading(s);
      forall k | 1 <= k < |s| - |r| ensures IsSpace(s[k]) {
        assert s[k] == s[1..][k - 1];
      }
    }
  }

  /** `str.rstrip()`: drop the trailing whitespace. */
  function StripTrailing(s: string): (r: string)
    ensures |r| <= |s| && r == s[..|r|]
  {
    if s != [] && IsSpace(s[|s| - 1]) then StripTrailing(s[..|s| - 1]) else s
  }

  /** What `StripTrailing` drops is whitespace, and what it keeps does not end with whitespace. */
  lemma {:induction false} StripTrailingSpec(s: string)
    ensures var r := StripTrailing(s);
      && (forall k :: |r| <= k < |s| ==> IsSpace(s[k]))
      && (r == [] || !IsSpace(r[|r| - 1]))
  {
    if s != [] && IsSpace(s[|s| - 1]) {
      StripTrailingSpec(s[..|s| - 1]);
      var r := StripTrailing(s);
      forall k | |r| <= k < |s| - 1 ensures IsSpace(s[k]) {
        assert s[k] == s[..|s| - 1][k];
      }
    }
  }

  /** `str.strip()`: drop whitespace at both ends. */
  function Strip(s: string): (r: string)
  {
    StripTrailing(StripLeading(s))
  }

  /** `r` is `s[i..j]`, everything outside `[i, j)` is whitespace, and `r`
      neither starts nor ends with whitespace. */
  predicate TrimmedInfix(s: string, r: string, i: int, j: int) {
    && 0 <= i <= j <= |s| && r == s[i..j]
    && (forall k :: 0 <= k < i ==> IsSpace(s[k]))
    && (forall k :: j <= k < |s| ==> IsSpace(s[k]))
    && (r == [] || (!IsSpace(r[0]) && !IsSpace(r[|r| - 1])))
  }

  /** What `Strip` keeps is the piece of `s` between two runs of whitespace. */
  lemma StripIsTrimmedInfix(s: string) returns (i: int, j: int)
    ensures TrimmedInfix(s, Strip(s), i, j)
  {
    var l := StripLeading(s);
    var r := StripTrailing(l);
    i := |s| - |l|;
    j := i + |r|;
    StripLeadingSpec(s);
    TrailingSpaceCarries(s, l, r, i);
    StripEnds(s);
    assert r == s[i..j] by {
      assert l == s[i..];
      assert r == l[..|r|];
    }
  }

  /** What `Strip` keeps neither starts nor ends with whitespace. */
  lemma StripEnds(s: string)
    ensures var r := Strip(s); r == [] || (!IsSpace(r[0]) && !IsSpace(r[|r| - 1]))
  {
    var l := StripLeading(s);
    var r := StripTrailing(l);
    StripLeadingSpec(s);
    StripTrailingSpec(l);
    if r != [] {
      assert r[0] == l[0];
    }
  }

  lemma TrailingSpaceCarries(s: string, l: string, r: string, i: int)
    requires 0 <= i <= |s| && l == s[i..] && r == StripTrailing(l)
    ensures forall k :: i + |r| <= k < |s| ==> IsSpace(s[k])
  {
    StripTrailingSpec(l);
    forall k | i + |r| <= k < |s| ensures IsSpace(s[k]) {
      assert s[k] == l[k - i];
    }
  }

  /** A string with no whitespace at either end is its own strip. */
  lemma StripOfTrimmed(s: string)
    requires s == [] || (!IsSpace(s[0]) && !IsSpace(s[|s| - 1]))
    ensures Strip(s) == s
  {
    if s != [] {
      assert StripLeading(s) == s;
      assert StripTrailing(s) == s;
    }
  }

  /** Stripping twice is stripping once. */
  lemma StripIdempotent(s: string)
    ensures Strip(Strip(s)) == Strip(s)
  {
    StripEnds(s);
    StripOfTrimmed(Strip(s));
  }

  // ---------------------------------------------------------------------------
  // sep.join(parts) and str.split(sep)

  /** `sep.join(parts)`. */
  function Join(parts: seq<string>, sep: string): (r: string)
    ensures |parts| == 1 ==> r == parts[0]
  {
    if |parts| == 0 then ""
    else if |parts| == 1 then parts[0]
    else parts[0] + sep + Join(parts[1..], sep)
  }

  /** Joining one more part adds the separator and that part at the end. */
  lemma {:induction false} JoinSnoc(parts: seq<string>, x: string, sep: string)
    requires parts != []
    ensures Join(parts + [x], sep) == Join(parts, sep) + sep + x
  {
    if |parts| > 1 {
      assert (parts + [x])[1..] == parts[1..] + [x];
      JoinSnoc(parts[1..], x, sep);
    }
  }

  /** `s.split(sep)` for a one-character separator: every maximal piece between
      separators, including empty pieces at either end. */
  function Split(s: string, sep: char): (parts: seq<string>)
    ensures |parts| >= 1
    decreases |s|
  {
    if s == [] then [""]
    else if s[0] == sep then [""] + Split(s[1..], sep)
    else
      var rest := Split(s[1..], sep);
      [[s[0]] + rest[0]] + rest[1..]
  }

  /** `split` yields one more part than there are separators. */
  lemma {:induction false} SplitLength(s: string, sep: char)
    ensures |Split(s, sep)| == Occurrences(s, sep) + 1
    decreases |s|
  {
    if s != [] {
      SplitLength(s[1..], sep);
    }
  }

  /** No part of a `split` contains the separator. */
  lemma {:induction false} SplitPartsHaveNoSeparator(s: string, sep: char)
    ensures forall p :: p in Split(s, sep) ==> sep !in p
    decreases |s|
  {
    if s != [] {
      SplitPartsHaveNoSeparator(s[1..], sep);
      if s[0] != sep {
        var rest := Split(s[1..], sep);
        assert rest[0] in rest;
        forall p | p in Split(s, sep) ensures sep !in p {
          if p != [s[0]] + rest[0] {
            assert p in rest[1..];
          }
        }
      }
    }
  }

  /** Joining the parts of a `split` with the separator gives back the string. */
  lemma {:induction false} JoinSplit(s: string, sep: char)
    ensures Join(Split(s, sep), [sep]) == s
    decreases |s|
  {
    if s != [] {
      var rest := Split(s[1..], sep);
      JoinSplit(s[1..], sep);
      if s[0] == sep {
        assert Split(s, sep) == [""] + rest;
        assert ([""] + rest)[1..] == rest;
      } else {
        var parts := Split(s, sep);
        if |rest| == 1 {
          assert parts == [[s[0]] + rest[0]];
        } else {
          assert parts[1..] == rest[1..];
          assert Join(rest, [sep]) == rest[0] + [sep] + Join(rest[1..], [sep]);
        }
      }
    }
  }

  // ---------------------------------------------------------------------------
  // str(n) and int(s) for decimal integers

  function DigitChar(d: nat): (c: char)
    requires d < 10
    ensures IsDigit(c)
  {
    ('0' as int + d) as char
  }

  function DigitValue(c: char): (d: nat)
    requires IsDigit(c)
    ensures d < 10
  {
    (c - '0') as nat
  }

  /** `str(n)` for a natural number: its decimal digits, most significant first. */
  function NatToString(n: nat): (s: string)
    ensures |s| >= 1
    ensures forall k :: 0 <= k < |s| ==> IsDigit(s[k])
    ensures n > 0 ==> s[0] != '0'
  {
    if n < 10 then [DigitChar(n)] else NatToString(n / 10) + [DigitChar(n % 10)]
  }

  /** `str(i)` for any integer. */
  function IntToString(i: int): (s: string)
    ensures |s| >= 1
  {
    if i < 0 then "-" + NatToString(-i) else NatToString(i)
  }

  predicate AllDigits(s: string) {
    forall k :: 0 <= k < |s| ==> IsDigit(s[k])
  }

  /** The value of a string of decimal digits. */
  function DigitsValue(s: string): nat
    requires AllDigits(s)
    decreases |s|
  {
    if s == [] then 0 else DigitsValue(s[..|s| - 1]) * 10 + DigitValue(s[|s| - 1])
  }

  /** The digits Python's `int()` accepts: digits, with single underscores allowed between them. */
  predicate DigitGroups(s: string) {
    && s != []
    && IsDigit(s[0]) && IsDigit(s[|s| - 1])
    && (forall k :: 0 <= k < |s| ==> IsDigit(s[k]) || s[k] == '_')
    && (forall k :: 0 <= k < |s| - 1 ==> !(s[k] == '_' && s[k + 1] == '_'))
  }

  /** `s` with the underscores removed. */
  function WithoutUnderscores(s: string): (r: string)
    ensures (forall k :: 0 <= k < |s| ==> IsDigit(s[k]) || s[k] == '_') ==> AllDigits(r)
    ensures '_' !in s ==> r == s
  {
    if s == [] then [] else (if s[0] == '_' then [] else [s[0]]) + WithoutUnderscores(s[1..])
  }

  /** `int(s)` on a string (ASCII digits only): `None` where Python raises `ValueError`. */
  function ParseInt(s: string): (r: Option<int>)
  {
    ParseSigned(Strip(s))
  }

  /** `int(t)` for a string `t` without surrounding whitespace: an optional sign, then digit groups. */
  function ParseSigned(t: string): (r: Option<int>)
  {
    if t == [] then None
    else if t[0] == '-' then
      match ParseUnsigned(t[1..])
      case Some(v) => Some(-(v as int))
      case None => None
    else if t[0] == '+' then
      match ParseUnsigned(t[1..])
      case Some(v) => Some(v as int)
      case None => None
    else
      match ParseUnsigned(t)
      case Some(v) => Some(v as int)
      case None => None
  }

  /** The unsigned part of `int(s)`: digit groups, or `None`. */
  function ParseUnsigned(body: string): (r: Option<nat>)
  {
    if DigitGroups(body) then Some(DigitsValue(WithoutUnderscores(body))) else None
  }

  lemma {:induction false} DigitsValueOfNatToString(n: nat)
    ensures DigitsValue(NatToString(n)) == n
  {
    if n >= 10 {
      var s := NatToString(n);
      assert s[..|s| - 1] == NatToString(n / 10);
      DigitsValueOfNatToString(n / 10);
    }
  }

  /** The decimal digits of a natural number read back as that number. */
  lemma DigitsReadBack(n: nat)
    ensures DigitGroups(NatToString(n))
    ensures AllDigits(WithoutUnderscores(NatToString(n)))
    ensures DigitsValue(WithoutUnderscores(NatToString(n))) == n
  {
    var d := NatToString(n);
    DigitsValueOfNatToString(n);
    assert '_' !in d;
  }

  lemma ParseNatString(n: nat)
    ensures ParseInt(NatToString(n)) == Some(n)
  {
    var d := NatToString(n);
    DigitsReadBack(n);
    assert ParseUnsigned(d) == Some(n);
    DigitIsNotSpace(d[0]);
    DigitIsNotSpace(d[|d| - 1]);
    StripOfTrimmed(d);
    assert Strip(d) == d;
    assert d[0] != '-' && d[0] != '+';
  }

  lemma ParseNegatedNatString(n: nat)
    ensures ParseInt("-" + NatToString(n)) == Some(-(n as int))
  {
    var d := NatToString(n);
    var s := "-" + d;
    DigitsReadBack(n);
    assert ParseUnsigned(d) == Some(n);
    assert s[|s| - 1] == d[|d| - 1];
    DigitIsNotSpace(s[0]);
    DigitIsNotSpace(d[|d| - 1]);
    StripOfTrimmed(s);
    assert s[0] == '-' && s[1..] == d;
    NegativeParse(s, n);
  }

  lemma NegativeParse(s: string, n: nat)
    requires s != [] && s[0] == '-' && ParseUnsigned(s[1..]) == Some(n)
    ensures ParseSigned(s) == Some(-(n as int))
  {
  }

  /** `int(str(i)) == i`: reading back the decimal form of an integer gives the integer. */
  lemma IntRoundTrip(i: int)
    ensures ParseInt(IntToString(i)) == Some(i)
  {
    var s := IntToString(i);
    if i < 0 {
      var n: nat := -i;
      assert s == "-" + NatToString(n);
      ParseNegatedNatString(n);
    } else {
      assert s == NatToString(i);
      ParseNatString(i);
    }
  }

  /** An empty or blank string is not an integer. */
  lemma ParseIntRejectsBlank(s: string)
    requires forall k :: 0 <= k < |s| ==> IsSpace(s[k])
    ensures ParseInt(s) == None
  {
    StripLeadingSpec(s);
    assert StripLeading(s) == [];
  }

  // ---------------------------------------------------------------------------
  // html.escape(s)

  /** `html.escape` on one character (with `quote=True`). */
  function EscapeChar(c: char): string {
    if c == '&' then "&amp;"
    else if c == '<' then "&lt;"
    else if c == '>' then "&gt;"
    else if c == '"' then "&quot;"
    else if c == '\'' then "&#x27;"
    else [c]
  }

  /** `html.escape(s)`: the five markup characters become entities. */
  function Escape(s: string): (r: string)
    ensures '<' !in r && '>' !in r && '"' !in r && '\'' !in r
    ensures |r| >= |s|
  {
    if s == [] then "" else EscapeChar(s[0]) + Escape(s[1..])
  }

  /** Text without markup characters is left as it is. */
  lemma {:induction false} EscapePlainText(s: string)
    requires forall k :: 0 <= k < |s| ==> s[k] !in "&<>\"'"
    ensures Escape(s) == s
  {
    if s != [] {
      assert s[0] !in "&<>\"'";
      EscapePlainText(s[1..]);
    }
  }
}
