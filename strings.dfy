/**
 * The few JavaScript string operations the console relies on, written out over
 * `seq<char>`: `includes`, `trim`, `padStart`, decimal `toString` of integers,
 * `length` (which counts UTF-16 code units), and a separator split with the
 * decimal parser that inverts `toString`.
 */
module Strings {

  import opened Types

  /** `p` is a prefix of `s`. */
  predicate IsPrefix(p: string, s: string) {
    |p| <= |s| && s[..|p|] == p
  }

  /** `t` occurs in `s` starting at index `i`. */
  predicate OccursAt(s: string, t: string, i: int) {
    0 <= i && i + |t| <= |s| && s[i..i + |t|] == t
  }

  /** `s.includes(t)`. */
  predicate Contains(s: string, t: string)
    decreases |s|
  {
    IsPrefix(t, s) || (|s| > 0 && Contains(s[1..], t))
  }

  /** An occurrence at an index is found by `includes`. */
  lemma {:induction false} OccursContains(s: string, t: string, i: int)
    requires OccursAt(s, t, i)
    ensures Contains(s, t)
    decreases i
  {
    if i > 0 {
      assert s[1..][i - 1..i - 1 + |t|] == s[i..i + |t|];
      OccursContains(s[1..], t, i - 1);
    }
  }

  lemma {:induction false} ContainsIffOccurs(s: string, t: string)
    ensures Contains(s, t) <==> exists i :: OccursAt(s, t, i)
    decreases |s|
  {
    if IsPrefix(t, s) {
      assert OccursAt(s, t, 0);
    } else if |s| > 0 && Contains(s[1..], t) {
      ContainsIffOccurs(s[1..], t);
      var i :| OccursAt(s[1..], t, i);
      assert s[1..][i..i + |t|] == s[i + 1..i + 1 + |t|];
      assert OccursAt(s, t, i + 1);
    }
    if exists i :: OccursAt(s, t, i) {
      var i :| OccursAt(s, t, i);
      OccursContains(s, t, i);
    }
  }

  /** A string occurs in any string that ends with it. */
  lemma ContainsSuffix(a: string, t: string)
    ensures Contains(a + t, t)
  {
    assert (a + t)[|a|..|a| + |t|] == t;
    assert OccursAt(a + t, t, |a|);
    ContainsIffOccurs(a + t, t);
  }

  /** A string occurs in any string it starts. */
  lemma ContainsPrefix(t: string, b: string)
    ensures Contains(t + b, t)
  {
    assert (t + b)[..|t|] == t;
  }

  // ---- decimal digits

  predicate IsDigit(c: char) {
    '0' <= c <= '9'
  }

  predicate AllDigits(s: string) {
    forall k :: 0 <= k < |s| ==> IsDigit(s[k])
  }

  function DigitChar(d: nat): (c: char)
    requires d < 10
    ensures IsDigit(c) && (c as int) - ('0' as int) == d
  {
    ('0' as int + d) as char
  }

  function DigitValue(c: char): (d: nat)
    requires IsDigit(c)
    ensures d < 10 && DigitChar(d) == c
  {
    (c as int) - ('0' as int)
  }

  /**
   * The shortest decimal notation of a natural number: what JavaScript prints
   * for an integer Number below 1e21 that is exactly representable.
   */
  function NatToString(n: nat): (r: string)
    ensures |r| > 0 && AllDigits(r)
    ensures |r| > 1 ==> r[0] != '0'
    ensures n < 10 ==> |r| == 1
    ensures 10 <= n < 100 ==> |r| == 2
  {
    if n < 10 then [DigitChar(n)] else NatToString(n / 10) + [DigitChar(n % 10)]
  }

  /** The value of a string of decimal digits (0 for the empty string). */
  function ParseNat(s: string): nat
    requires AllDigits(s)
  {
    if s == [] then 0 else ParseNat(s[..|s| - 1]) * 10 + DigitValue(s[|s| - 1])
  }

  lemma {:induction false} ParseNatToString(n: nat)
    ensures ParseNat(NatToString(n)) == n
  {
    if n >= 10 {
      var r := NatToString(n);
      assert r[..|r| - 1] == NatToString(n / 10);
      ParseNatToString(n / 10);
    }
  }

  /** The plain decimal notation of an integer, with a leading `-` when negative (JavaScript's `${i}` for an exactly representable integer of magnitude below 1e21). */
  function IntToString(i: int): (r: string)
    ensures |r| > 0
    ensures i >= 0 ==> AllDigits(r)
    ensures i < 0 ==> r[0] == '-' && AllDigits(r[1..])
  {
    if i < 0 then "-" + NatToString(-i) else NatToString(i)
  }

  /** Reads back a string that `IntToString` can produce. */
  function ParseInt(s: string): Option<int> {
    if |s| > 0 && s[0] == '-' && AllDigits(s[1..]) then Some(-(ParseNat(s[1..]) as int))
    else if AllDigits(s) then Some(ParseNat(s))
    else None
  }

  /** A non-empty digit string reads back as its value. */
  lemma ParseIntDigits(d: string, n: nat)
    requires d != [] && AllDigits(d) && ParseNat(d) == n
    ensures ParseInt(d) == Some(n)
  {
    assert IsDigit(d[0]);
  }

  /** A minus sign before a digit string reads back as the negated value. */
  lemma ParseIntMinus(d: string, n: nat)
    requires AllDigits(d) && ParseNat(d) == n
    ensures ParseInt("-" + d) == Some(-(n as int))
  {
    assert ("-" + d)[1..] == d;
  }

  lemma IntToStringRoundTrip(i: int)
    ensures ParseInt(IntToString(i)) == Some(i)
  {
    if i < 0 {
      var n: nat := -i;
      ParseNatToString(n);
      ParseIntMinus(NatToString(n), n);
    } else {
      ParseNatToString(i);
      ParseIntDigits(NatToString(i), i);
    }
  }

  /** `s.padStart(2, '0')`. */
  function PadStart2(s: string): (r: string)
    ensures |s| >= 2 ==> r == s
    ensures |s| < 2 ==> |r| == 2 && r[2 - |s|..] == s && forall k :: 0 <= k < 2 - |s| ==> r[k] == '0'
  {
    if |s| >= 2 then s else if |s| == 1 then "0" + s else "00"
  }

  lemma PadStart2Digits(n: nat)
    requires n < 100
    ensures |PadStart2(NatToString(n))| == 2
    ensures AllDigits(PadStart2(NatToString(n)))
    ensures ParseNat(PadStart2(NatToString(n))) == n
  {
    var r := NatToString(n);
    ParseNatToString(n);
    if |r| == 1 {
      assert PadStart2(r) == "0" + r;
      assert PadStart2(r)[..1] == "0";
    }
  }

  // ---- splitting at a separator

  /** The first index of `c` in `s`, or `|s|` when there is none. */
  function IndexOf(s: string, c: char): (i: nat)
    ensures i <= |s|
    ensures i < |s| <==> c in s
    ensures i < |s| ==> s[i] == c
    ensures c !in s[..i]
  {
    if s == [] then 0
    else if s[0] == c then 0
    else
      assert s[..1 + IndexOf(s[1..], c)] == [s[0]] + s[1..][..IndexOf(s[1..], c)];
      1 + IndexOf(s[1..], c)
  }

  /** `s.split(sep)` for a one-character separator. */
  function Split(s: string, sep: char): (r: seq<string>)
    ensures |r| > 0
    decreases |s|
  {
    if sep !in s then [s]
    else
      var i := IndexOf(s, sep);
      [s[..i]] + Split(s[i + 1..], sep)
  }

  lemma SplitNoSep(a: string, sep: char)
    requires sep !in a
    ensures Split(a, sep) == [a]
  {
  }

  lemma SplitAt(a: string, sep: char, b: string)
    requires sep !in a
    ensures Split(a + [sep] + b, sep) == [a] + Split(b, sep)
  {
    var s := a + [sep] + b;
    assert s[|a|] == sep;
    assert s[..|a|] == a;
    var i := IndexOf(s, sep);
    assert i == |a|;
    assert s[i + 1..] == b;
  }

  // ---- whitespace and trim

  /**
   * The characters JavaScript's `trim` removes: the ECMAScript WhiteSpace and
   * LineTerminator code points.
   */
  predicate IsWhitespace(c: char) {
    || c == '\t' || c == '\n' || c == '\U{000B}' || c == '\U{000C}' || c == '\r'
    || c == ' ' || c == '\U{00A0}' || c == '\U{1680}'
    || ('\U{2000}' <= c <= '\U{200A}')
    || c == '\U{2028}' || c == '\U{2029}' || c == '\U{202F}' || c == '\U{205F}'
    || c == '\U{3000}' || c == '\U{FEFF}'
  }

  predicate AllWhitespace(s: string) {
    forall k :: 0 <= k < |s| ==> IsWhitespace(s[k])
  }

  /** The number of whitespace characters `s` starts with. */
  function LeadingWhitespace(s: string): (k: nat)
    ensures k <= |s|
    ensures forall j :: 0 <= j < k ==> IsWhitespace(s[j])
    ensures k == |s| || !IsWhitespace(s[k])
  {
    if s != [] && IsWhitespace(s[0]) then 1 + LeadingWhitespace(s[1..]) else 0
  }

  /** The length of `s` without the whitespace it ends with. */
  function TrailingStart(s: string): (k: nat)
    ensures k <= |s|
    ensures forall j :: k <= j < |s| ==> IsWhitespace(s[j])
    ensures k == 0 || !IsWhitespace(s[k - 1])
  {
    if s != [] && IsWhitespace(s[|s| - 1]) then TrailingStart(s[..|s| - 1]) else |s|
  }

  /** `s.trimStart()`. */
  function TrimStart(s: string): (r: string)
    ensures r == [] || !IsWhitespace(r[0])
  {
    s[LeadingWhitespace(s)..]
  }

  /** `s.trimEnd()`. */
  function TrimEnd(s: string): (r: string)
    ensures r == [] || !IsWhitespace(r[|r| - 1])
  {
    s[..TrailingStart(s)]
  }

  /** `s.trim()`: strips leading and trailing whitespace. */
  function Trim(s: string): string {
    TrimEnd(TrimStart(s))
  }

  /** `s.trim()` is empty exactly when every character of `s` is whitespace. */
  lemma TrimEmptyIff(s: string)
    ensures Trim(s) == [] <==> AllWhitespace(s)
  {
    var a := LeadingWhitespace(s);
    var t := s[a..];
    var b := TrailingStart(t);
    if Trim(s) == [] {
      assert a == |s|;
    }
  }

  // ---- length

  /** `s.length`: JavaScript counts a code point above U+FFFF as two UTF-16 code units. */
  function Utf16Length(s: string): (n: nat)
    ensures |s| <= n <= 2 * |s|
    ensures n == 0 <==> s == []
  {
    if s == [] then 0 else (if s[0] as int > 0xFFFF then 2 else 1) + Utf16Length(s[1..])
  }

  lemma {:induction false} Utf16LengthBmp(s: string)
    requires forall k :: 0 <= k < |s| ==> s[k] as int <= 0xFFFF
    ensures Utf16Length(s) == |s|
  {
    if s != [] {
      Utf16LengthBmp(s[1..]);
    }
  }
}
