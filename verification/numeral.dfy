/**
 * The day-count group every line shape captures, `\d+(?:\.\d+)?`, and the
 * `parseFloat` reading of it, over exact rationals.
 */
module Numeral {
  import opened Wrappers
  import opened Text

  predicate AllDigits(t: string) {
    forall k | 0 <= k < |t| :: IsDigit(t[k])
  }

  predicate Digits(t: string) {
    |t| > 0 && AllDigits(t)
  }

  /** Every character of `s` at an index in `[a, b)` is a digit. */
  predicate DigitsIn(s: string, a: nat, b: nat) {
    forall m | a <= m < b && m < |s| :: IsDigit(s[m])
  }

  /**
   * The characters of `s` from `j` up to `e` spell `\d+` or `\d+\.\d+`, read
   * through the first dot at or after `j`: without one before `e` they are
   * all digits, with one the digits on both sides of it are non-empty.
   */
  predicate NumeralSpan(s: string, j: nat, e: nat)
    requires j <= e <= |s|
  {
    match IndexOf(s, '.', j)
    case Some(d) =>
      if d < e then j < d && d + 1 < e && DigitsIn(s, j, d) && DigitsIn(s, d + 1, e)
      else j < e && DigitsIn(s, j, e)
    case None =>
      j < e && DigitsIn(s, j, e)
  }

  /** A whole string of the form `\d+(?:\.\d+)?`. */
  predicate IsNumeral(t: string) {
    NumeralSpan(t, 0, |t|)
  }

  /** The same set of strings, written as the regular expression reads. */
  predicate IsNumeralPattern(t: string) {
    || Digits(t)
    || exists k | 0 < k < |t| :: t[k] == '.' && Digits(t[..k]) && Digits(t[k + 1..])
  }

  lemma NumeralIff(t: string)
    ensures IsNumeral(t) <==> IsNumeralPattern(t)
  {
    match IndexOf(t, '.', 0)
    case None =>
      assert forall j | 0 <= j < |t| :: t[j] != '.';
    case Some(k) =>
      assert t[k] == '.';
      forall k' | 0 < k' < |t| && t[k'] == '.' && Digits(t[..k'])
        ensures k' == k
      {
        assert t[k'] in t[..k' + 1];
      }
      assert DigitsIn(t, 0, k) <==> AllDigits(t[..k]) by {
        assert forall m | 0 <= m < k :: t[..k][m] == t[m];
      }
      assert DigitsIn(t, k + 1, |t|) <==> AllDigits(t[k + 1..]) by {
        assert forall m | k + 1 <= m < |t| :: t[k + 1..][m - k - 1] == t[m];
      }
  }

  /** Reading a span in place and reading the text cut out of it agree. */
  lemma NumeralSpanSlice(s: string, j: nat, e: nat)
    requires j <= e <= |s|
    ensures NumeralSpan(s, j, e) <==> IsNumeral(s[j..e])
  {
    var t := s[j..e];
    assert forall m | 0 <= m < |t| :: t[m] == s[j + m];
    match IndexOf(t, '.', 0)
    case None =>
      assert Absent(s, '.', j, e) by {
        forall m | j <= m < e
          ensures s[m] != '.'
        {
          assert t[m - j] == s[m];
        }
      }
      assert DigitsIn(t, 0, |t|) <==> DigitsIn(s, j, e) by {
        forall m | j <= m < e
          ensures t[m - j] == s[m]
        {
        }
      }
    case Some(k) =>
      IndexOfUnique(s, '.', j, j + k);
      assert DigitsIn(t, 0, k) <==> DigitsIn(s, j, j + k) by {
        forall m | j <= m < j + k
          ensures t[m - j] == s[m]
        {
        }
      }
      assert DigitsIn(t, k + 1, |t|) <==> DigitsIn(s, j + k + 1, e) by {
        forall m | j + k + 1 <= m < e
          ensures t[m - j] == s[m]
        {
        }
      }
  }

  /** `s[j..e]` is a numeral and no longer numeral starts at `j`. */
  predicate LongestNumeral(s: string, j: nat, e: nat) {
    && j <= e <= |s|
    && NumeralSpan(s, j, e)
    && forall e' | e < e' <= |s| :: !NumeralSpan(s, j, e')
  }

  /** Index just past the run of digits starting at `i`. */
  function SkipDigits(s: string, i: nat): (j: nat)
    requires i <= |s|
    ensures i <= j <= |s|
    ensures j < |s| ==> !IsDigit(s[j])
    decreases |s| - i
  {
    if i < |s| && IsDigit(s[i]) then SkipDigits(s, i + 1) else i
  }

  /** Everything `SkipDigits` steps over is a digit. */
  lemma {:induction false} SkipDigitsSpan(s: string, i: nat)
    requires i <= |s|
    ensures DigitsIn(s, i, SkipDigits(s, i))
    decreases |s| - i
  {
    if i < |s| && IsDigit(s[i]) {
      SkipDigitsSpan(s, i + 1);
    }
  }

  /**
   * The greedy match of `\d+(?:\.\d+)?` starting exactly at `j`: the end of
   * the digits, extended over a dot when a digit follows it, or None when
   * `s[j]` is no digit.
   */
  function ScanNumber(s: string, j: nat): (r: Option<nat>)
    requires j <= |s|
    ensures r.None? <==> j == |s| || !IsDigit(s[j])
    ensures r.Some? ==> j < r.value <= |s|
  {
    if j < |s| && IsDigit(s[j]) then
      var e1 := SkipDigits(s, j);
      if e1 + 1 < |s| && s[e1] == '.' && IsDigit(s[e1 + 1]) then Some(SkipDigits(s, e1 + 1))
      else Some(e1)
    else
      None
  }

  /** What the scan returns is the longest numeral starting at `j`. */
  lemma ScanNumberLongest(s: string, j: nat)
    requires j <= |s|
    ensures ScanNumber(s, j).Some? ==> LongestNumeral(s, j, ScanNumber(s, j).value)
  {
    if j < |s| && IsDigit(s[j]) {
      var e1 := SkipDigits(s, j);
      SkipDigitsSpan(s, j);
      if e1 + 1 < |s| && s[e1] == '.' && IsDigit(s[e1 + 1]) {
        SkipDigitsSpan(s, e1 + 1);
        FractionLongest(s, j, e1, SkipDigits(s, e1 + 1));
      } else {
        IntegerLongest(s, j, e1);
      }
    }
  }

  /** Digits and no dot-digit after them: the digits are the longest numeral. */
  lemma IntegerLongest(s: string, j: nat, e1: nat)
    requires j < e1 <= |s| && DigitsIn(s, j, e1) && (e1 < |s| ==> !IsDigit(s[e1]))
    requires !(e1 + 1 < |s| && s[e1] == '.' && IsDigit(s[e1 + 1]))
    ensures LongestNumeral(s, j, e1)
  {
    var d := IndexOf(s, '.', j);
    assert d.Some? ==> d.value >= e1;
    forall e | e1 < e <= |s|
      ensures !NumeralSpan(s, j, e)
    {
      assert j <= e1 < e;
    }
  }

  /** Digits, a dot and digits: nothing longer is a numeral. */
  lemma FractionLongest(s: string, j: nat, e1: nat, e2: nat)
    requires j < e1 && e1 + 1 < e2 <= |s| && DigitsIn(s, j, e1) && s[e1] == '.'
    requires DigitsIn(s, e1 + 1, e2) && (e2 < |s| ==> !IsDigit(s[e2]))
    ensures LongestNumeral(s, j, e2)
  {
    IndexOfUnique(s, '.', j, e1);
    forall e | e2 < e <= |s|
      ensures !NumeralSpan(s, j, e)
    {
      assert e1 + 1 <= e2 < e;
    }
  }

  /** At most one longest numeral starts at a given index. */
  lemma LongestUnique(s: string, j: nat, e1: nat, e2: nat)
    requires LongestNumeral(s, j, e1) && LongestNumeral(s, j, e2)
    ensures e1 == e2
  {
  }

  /** A numeral span starts with a digit and holds only digits and dots. */
  lemma NumeralSpanChars(s: string, j: nat, e: nat)
    requires j <= e <= |s|
    ensures NumeralSpan(s, j, e) ==> j < e && IsDigit(s[j])
    ensures NumeralSpan(s, j, e) ==> forall m | j <= m < e :: IsDigit(s[m]) || s[m] == '.'
  {
  }

  /** A numeral followed by a character that is neither digit nor dot is the longest one there. */
  lemma EndsLongest(s: string, j: nat, e: nat)
    requires j <= e < |s| && NumeralSpan(s, j, e)
    requires !IsDigit(s[e]) && s[e] != '.'
    ensures LongestNumeral(s, j, e)
  {
    forall e' | e < e' <= |s|
      ensures !NumeralSpan(s, j, e')
    {
      NumeralSpanChars(s, j, e');
      assert j <= e < e';
    }
  }

  function DigitValue(c: char): nat
    requires IsDigit(c)
  {
    c as int - '0' as int
  }

  /** Decimal value of a run of digits, most significant first. */
  function DigitsValue(t: string): nat
    requires AllDigits(t)
  {
    if |t| == 0 then 0 else DigitsValue(t[..|t| - 1]) * 10 + DigitValue(t[|t| - 1])
  }

  function Pow10(n: nat): (p: nat)
    ensures p > 0
  {
    if n == 0 then 1 else 10 * Pow10(n - 1)
  }

  /** `parseFloat` of a numeral: the integer part plus the fraction digits over a power of ten. */
  function Value(t: string): (v: real)
    requires IsNumeral(t)
    ensures v >= 0.0
  {
    match IndexOf(t, '.', 0)
    case None =>
      DigitsValue(t) as real
    case Some(k) =>
      assert forall m | 0 <= m < k :: t[..k][m] == t[m];
      assert forall m | k + 1 <= m < |t| :: t[k + 1..][m - k - 1] == t[m];
      DigitsValue(t[..k]) as real + DigitsValue(t[k + 1..]) as real / Pow10(|t| - k - 1) as real
  }

  function DigitChar(d: nat): (c: char)
    requires d < 10
    ensures IsDigit(c) && DigitValue(c) == d
  {
    ('0' as int + d) as char
  }

  /** The decimal text of a natural number, as `String(n)` prints it. */
  function NatText(n: nat): (t: string)
    ensures Digits(t)
  {
    if n < 10 then [DigitChar(n)] else NatText(n / 10) + [DigitChar(n % 10)]
  }

  /** Printing a whole day count and reading it back gives the same number. */
  lemma {:induction false} NatTextValue(n: nat)
    ensures IsNumeral(NatText(n))
    ensures Value(NatText(n)) == n as real
  {
    NatTextNumeral(n);
    DigitsValueOfNatText(n);
  }

  /** The decimal text of a number has no dot, so it is a numeral of digits only. */
  lemma NatTextNumeral(n: nat)
    ensures IsNumeral(NatText(n))
    ensures IndexOf(NatText(n), '.', 0).None?
  {
    var t := NatText(n);
    assert forall m | 0 <= m < |t| :: t[m] != '.';
  }

  lemma {:induction false} DigitsValueOfNatText(n: nat)
    ensures DigitsValue(NatText(n)) == n
  {
    var t := NatText(n);
    if n >= 10 {
      assert t[..|t| - 1] == NatText(n / 10);
      DigitsValueOfNatText(n / 10);
    }
  }
}
