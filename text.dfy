/**
 * String helpers that stand in for the Python built-ins the core relies on:
 * decimal digits, `str.replace`, ASCII `lower`/`upper`, `str.strip` and `int(str)`.
 */
module Text {
  import opened Wrappers

  // ---------------------------------------------------------------------------
  // Decimal digits

  predicate IsDigit(c: char) {
    '0' <= c <= '9'
  }

  predicate AllDigits(s: string) {
    forall i :: 0 <= i < |s| ==> IsDigit(s[i])
  }

  function DigitValue(c: char): nat
    requires IsDigit(c)
  {
    c as int - '0' as int
  }

  function DigitChar(d: nat): char
    requires d < 10
  {
    (d + '0' as int) as char
  }

  function Pow10(n: nat): (r: nat)
    ensures r >= 1
  {
    if n == 0 then 1 else 10 * Pow10(n - 1)
  }

  /** The number a string of decimal digits denotes, most significant digit first. */
  function Value(s: string): nat
    requires AllDigits(s)
  {
    if s == [] then 0 else 10 * Value(s[..|s| - 1]) + DigitValue(s[|s| - 1])
  }

  /** The last w decimal digits of v, zero-padded to width w (`%0wd` when v < 10^w). */
  function Pad(v: nat, w: nat): (r: string)
    ensures |r| == w && AllDigits(r)
  {
    if w == 0 then [] else Pad(v / 10, w - 1) + [DigitChar(v % 10)]
  }

  /** `str(n)` for a non-negative int: no padding, no sign. */
  function Decimal(n: nat): (r: string)
    ensures |r| > 0 && AllDigits(r)
    ensures IsDigit(r[0]) && IsDigit(r[|r| - 1])
  {
    if n < 10 then [DigitChar(n)] else Decimal(n / 10) + [DigitChar(n % 10)]
  }

  lemma ValueSnoc(s: string, c: char)
    requires AllDigits(s) && IsDigit(c)
    ensures AllDigits(s + [c]) && Value(s + [c]) == 10 * Value(s) + DigitValue(c)
  {
    assert (s + [c])[..|s|] == s;
  }

  /** Reading back a padded field gives the number that was written, when it fits. */
  lemma {:induction false} PadValue(v: nat, w: nat)
    requires v < Pow10(w)
    ensures Value(Pad(v, w)) == v
  {
    if w > 0 {
      assert v / 10 < Pow10(w - 1) by {
        assert v < 10 * Pow10(w - 1);
      }
      PadValue(v / 10, w - 1);
      ValueSnoc(Pad(v / 10, w - 1), DigitChar(v % 10));
    }
  }

  /** Reading back `str(n)` gives n. */
  lemma {:induction false} DecimalValue(n: nat)
    ensures Value(Decimal(n)) == n
  {
    if n >= 10 {
      DecimalValue(n / 10);
      ValueSnoc(Decimal(n / 10), DigitChar(n % 10));
    }
  }

  // ---------------------------------------------------------------------------
  // str.replace

  predicate NoChar(s: string, c: char) {
    forall i :: 0 <= i < |s| ==> s[i] != c
  }

  /**
   * `s.replace(pat, sub)`: every occurrence of pat, scanning left to right and
   * without overlaps, is replaced by `sub`. Only non-empty patterns are used.
   */
  function Replace(s: string, pat: string, sub: string): string
    requires |pat| > 0
    decreases |s|
  {
    if |pat| <= |s| && s[..|pat|] == pat then sub + Replace(s[|pat|..], pat, sub)
    else if s == [] then []
    else [s[0]] + Replace(s[1..], pat, sub)
  }

  /** A string in which the pattern's first character never occurs is left alone. */
  lemma {:induction false} ReplaceAbsent(s: string, pat: string, sub: string)
    requires |pat| > 0 && NoChar(s, pat[0])
    ensures Replace(s, pat, sub) == s
    decreases |s|
  {
    if s != [] {
      assert !(|pat| <= |s| && s[..|pat|] == pat) by {
        if |pat| <= |s| { assert s[..|pat|][0] == s[0]; }
      }
      ReplaceAbsent(s[1..], pat, sub);
    }
  }

  /** A prefix free of the pattern's first character passes through unchanged. */
  lemma {:induction false} ReplaceAppend(a: string, b: string, pat: string, sub: string)
    requires |pat| > 0 && NoChar(a, pat[0])
    ensures Replace(a + b, pat, sub) == a + Replace(b, pat, sub)
    decreases |a|
  {
    if a != [] {
      var s := a + b;
      assert !(|pat| <= |s| && s[..|pat|] == pat) by {
        if |pat| <= |s| { assert s[..|pat|][0] == a[0]; }
      }
      assert s[1..] == a[1..] + b;
      ReplaceAppend(a[1..], b, pat, sub);
      assert s == [a[0]] + (a[1..] + b);
    } else {
      assert a + b == b;
    }
  }

  /** Replacing one character by another keeps the length and changes exactly those positions. */
  lemma {:induction false} ReplaceChar(s: string, c: char, d: char)
    ensures |Replace(s, [c], [d])| == |s|
    ensures forall i :: 0 <= i < |s| ==>
      Replace(s, [c], [d])[i] == (if s[i] == c then d else s[i])
    decreases |s|
  {
    if s != [] {
      ReplaceChar(s[1..], c, d);
      var r := Replace(s[1..], [c], [d]);
      assert Replace(s, [c], [d]) == [if s[0] == c then d else s[0]] + r by {
        if s[0] == c { assert s[..1] == [c]; } else { assert s[..1] != [c]; }
      }
    }
  }

  // ---------------------------------------------------------------------------
  // ASCII case mapping

  function LowerChar(c: char): char {
    if 'A' <= c <= 'Z' then (c as int + 32) as char else c
  }

  function UpperChar(c: char): char {
    if 'a' <= c <= 'z' then (c as int - 32) as char else c
  }

  /** `s.lower()` on ASCII letters. */
  function Lower(s: string): (r: string)
    ensures |r| == |s| && forall i :: 0 <= i < |s| ==> r[i] == LowerChar(s[i])
  {
    seq(|s|, i requires 0 <= i < |s| => LowerChar(s[i]))
  }

  /** `s.upper()` on ASCII letters. */
  function Upper(s: string): (r: string)
    ensures |r| == |s| && forall i :: 0 <= i < |s| ==> r[i] == UpperChar(s[i])
  {
    seq(|s|, i requires 0 <= i < |s| => UpperChar(s[i]))
  }

  // ---------------------------------------------------------------------------
  // str.strip and int(str)

  /** The ASCII characters Python's `str.isspace` accepts. */
  predicate IsSpace(c: char) {
    c == ' ' || '\t' <= c <= '\r' || '\U{1c}' <= c <= '\U{1f}'
  }

  function TrimStart(s: string): (r: string)
    ensures |r| <= |s| && (r == [] || !IsSpace(r[0]))
    ensures r == s[|s| - |r|..]
  {
    if |s| > 0 && IsSpace(s[0]) then TrimStart(s[1..]) else s
  }

  function TrimEnd(s: string): (r: string)
    ensures |r| <= |s| && (r == [] || !IsSpace(r[|r| - 1]))
    ensures r == s[..|r|]
  {
    if |s| > 0 && IsSpace(s[|s| - 1]) then TrimEnd(s[..|s| - 1]) else s
  }

  /** `s.strip()`: leading and trailing whitespace removed. */
  function Strip(s: string): string {
    TrimEnd(TrimStart(s))
  }

  /** Digits with single underscores between them, as Python's `int` accepts. */
  predicate IntBody(s: string) {
    && |s| > 0 && IsDigit(s[0]) && IsDigit(s[|s| - 1])
    && (forall i :: 0 <= i < |s| ==> IsDigit(s[i]) || s[i] == '_')
    && (forall i, j :: 0 <= i < |s| && 0 <= j < |s| && j == i + 1 ==> s[i] != '_' || s[j] != '_')
  }

  /** The number a digit string with underscores denotes, the underscores being skipped. */
  function Magnitude(s: string): nat
    requires forall i :: 0 <= i < |s| ==> IsDigit(s[i]) || s[i] == '_'
  {
    if s == [] then 0
    else if s[|s| - 1] == '_' then Magnitude(s[..|s| - 1])
    else 10 * Magnitude(s[..|s| - 1]) + DigitValue(s[|s| - 1])
  }

  /** `int(s)` in base 10; None where Python raises ValueError. */
  function ParseInt(s: string): Option<int> {
    var t := Strip(s);
    if |t| > 0 && (t[0] == '-' || t[0] == '+') then Signed(t[0] == '-', t[1..]) else Signed(false, t)
  }

  /** The digits after an optional sign, negated when the sign was `-`. */
  function Signed(negative: bool, body: string): Option<int> {
    if IntBody(body) then
      var magnitude: int := Magnitude(body);
      Some(if negative then -magnitude else magnitude)
    else None
  }

  /** `str(n)` for any int. */
  function IntText(n: int): string {
    if n < 0 then "-" + Decimal(-n) else Decimal(n)
  }

  /** Without underscores, the magnitude is the plain value. */
  lemma {:induction false} MagnitudeOfDigits(s: string)
    requires AllDigits(s)
    ensures Magnitude(s) == Value(s)
  {
    if s != [] {
      MagnitudeOfDigits(s[..|s| - 1]);
    }
  }

  lemma StripUnpadded(s: string)
    requires |s| > 0 && !IsSpace(s[0]) && !IsSpace(s[|s| - 1])
    ensures Strip(s) == s
  {
  }

  /** A signed digit string with no surrounding whitespace reads as its value. */
  lemma ParseSigned(d: string, negative: bool)
    requires |d| > 0 && AllDigits(d)
    ensures ParseInt(if negative then "-" + d else d)
         == Some(if negative then -(Value(d) as int) else Value(d))
  {
    SignedDigits(negative, d);
    if negative {
      var t := "-" + d;
      assert t[0] == '-' && t[|t| - 1] == d[|d| - 1];
      StripUnpadded(t);
      assert t[1..] == d;
      assert ParseInt(t) == Signed(true, d);
    } else {
      assert IsDigit(d[0]) && IsDigit(d[|d| - 1]);
      StripUnpadded(d);
      assert ParseInt(d) == Signed(false, d);
    }
  }

  lemma SignedDigits(negative: bool, d: string)
    requires |d| > 0 && AllDigits(d)
    ensures Signed(negative, d) == Some(if negative then -(Value(d) as int) else Value(d))
  {
    MagnitudeOfDigits(d);
    assert IntBody(d);
  }

  /** `int(str(n)) == n`. */
  lemma IntTextRoundTrip(n: int)
    ensures ParseInt(IntText(n)) == Some(n)
  {
    var m: nat := if n < 0 then -n else n;
    DecimalValue(m);
    ParseSigned(Decimal(m), n < 0);
  }
}
