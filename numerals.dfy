/**
 * Decimal text as the C library produces and reads it: printf's `%lu`, `%0Nd`
 * and `%Nd` conversions of non-negative numbers, and `strtoul(s, &end, 10)`.
 */
module Numerals {

  /** ULONG_MAX on an LP64 system: unsigned long is 64 bits wide. */
  const ULONG_MAX: nat := 0xFFFF_FFFF_FFFF_FFFF

  predicate IsDigit(c: char) { '0' <= c <= '9' }

  predicate AllDigits(s: string) { forall k | 0 <= k < |s| :: IsDigit(s[k]) }

  /** isspace() in the C locale: space, \t, \n, \v, \f, \r. */
  predicate IsSpace(c: char) { c == ' ' || 9 <= c as int <= 13 }

  function DigitChar(d: nat): (c: char)
    requires d < 10
    ensures IsDigit(c)
  {
    ('0' as int + d) as char
  }

  function DigitValue(c: char): (d: nat)
    requires IsDigit(c)
    ensures d < 10
  {
    c as int - '0' as int
  }

  function Pow10(k: nat): (r: nat)
    ensures r >= 1
  {
    if k == 0 then 1 else 10 * Pow10(k - 1)
  }

  /** The digits of n, most significant first, with no leading zero (`%lu`). */
  function Decimal(n: nat): (s: string)
    ensures |s| >= 1 && AllDigits(s)
  {
    if n < 10 then [DigitChar(n)] else Decimal(n / 10) + [DigitChar(n % 10)]
  }

  /** The number a run of decimal digits denotes. */
  function DigitsValue(s: string): nat
    requires AllDigits(s)
  {
    if s == [] then 0 else 10 * DigitsValue(s[..|s| - 1]) + DigitValue(s[|s| - 1])
  }

  /** `Decimal` denotes its argument: reading the printed digits back gives n. */
  lemma {:induction false} DecimalValue(n: nat)
    ensures DigitsValue(Decimal(n)) == n
  {
    if n >= 10 {
      DecimalValue(n / 10);
      var s := Decimal(n);
      assert s[..|s| - 1] == Decimal(n / 10);
    }
  }

  /** A number below 10^k takes at most k digits. */
  lemma {:induction false} DecimalLength(n: nat, k: nat)
    requires k >= 1 && n < Pow10(k)
    ensures |Decimal(n)| <= k
  {
    if n >= 10 {
      assert k >= 2;
      DecimalLength(n / 10, k - 1);
    }
  }

  /** A number below 10^w fills a field of width w exactly. */
  lemma PaddedWidth(n: nat, w: nat)
    requires w >= 1 && n < Pow10(w)
    ensures |ZeroPadded(n, w)| == w && |SpacePadded(n, w)| == w
  {
    DecimalLength(n, w);
  }

  /** Padding on the left to a minimum field width, as printf does with a width. */
  function PadLeft(s: string, width: nat, fill: char): (r: string)
    ensures |r| == if |s| < width then width else |s|
    ensures r[|r| - |s|..] == s
    ensures forall k | 0 <= k < |r| - |s| :: r[k] == fill
  {
    if |s| < width then seq(width - |s|, _ => fill) + s else s
  }

  /** printf `%0<width>lu` / `%0<width>d` of a non-negative number. */
  function ZeroPadded(n: nat, width: nat): string
  {
    PadLeft(Decimal(n), width, '0')
  }

  /** printf `%<width>d` of a non-negative number. */
  function SpacePadded(n: nat, width: nat): string
  {
    PadLeft(Decimal(n), width, ' ')
  }

  /** Leading zeros do not change the number a digit run denotes. */
  lemma {:induction false} LeadingZeros(z: string, s: string)
    requires forall k | 0 <= k < |z| :: z[k] == '0'
    requires AllDigits(s)
    ensures AllDigits(z + s) && DigitsValue(z + s) == DigitsValue(s)
  {
    if s == [] {
      assert z + s == z;
      AllZeros(z);
    } else {
      var t := z + s;
      assert t[..|t| - 1] == z + s[..|s| - 1];
      LeadingZeros(z, s[..|s| - 1]);
    }
  }

  lemma {:induction false} AllZeros(z: string)
    requires forall k | 0 <= k < |z| :: z[k] == '0'
    ensures AllDigits(z) && DigitsValue(z) == 0
  {
    if z != [] {
      AllZeros(z[..|z| - 1]);
    }
  }

  /**
   * A zero-padded field of width w holds exactly w digits when n < 10^w, and
   * reading it back gives n.
   */
  lemma ZeroPaddedExact(n: nat, w: nat)
    requires w >= 1 && n < Pow10(w)
    ensures |ZeroPadded(n, w)| == w
    ensures AllDigits(ZeroPadded(n, w)) && DigitsValue(ZeroPadded(n, w)) == n
  {
    DecimalLength(n, w);
    DecimalValue(n);
    var d := Decimal(n);
    var r := ZeroPadded(n, w);
    var z := r[..|r| - |d|];
    assert r == z + d;
    LeadingZeros(z, d);
  }

  /** Index of the first position at or after i that is not white space. */
  function SkipSpace(s: string, i: nat): (j: nat)
    requires i <= |s|
    ensures i <= j <= |s|
    ensures forall k | i <= k < j :: IsSpace(s[k])
    ensures j < |s| ==> !IsSpace(s[j])
    decreases |s| - i
  {
    if i < |s| && IsSpace(s[i]) then SkipSpace(s, i + 1) else i
  }

  /** Index of the first position at or after i that is not a decimal digit. */
  function DigitRun(s: string, i: nat): (j: nat)
    requires i <= |s|
    ensures i <= j <= |s|
    ensures forall k | i <= k < j :: IsDigit(s[k])
    ensures j < |s| ==> !IsDigit(s[j])
    decreases |s| - i
  {
    if i < |s| && IsDigit(s[i]) then DigitRun(s, i + 1) else i
  }

  /** What strtoul returns (`value`) and where it leaves `*endptr` (`end`). */
  datatype Conversion = Conversion(value: nat, end: nat)

  /**
   * strtoul(s, &end, 10): skips white space, takes an optional sign and the
   * longest run of digits; a magnitude over ULONG_MAX saturates, a minus sign
   * negates modulo 2^64, and with no digits the end is the start of s.
   */
  function StrToUl(s: string): (r: Conversion)
    ensures r.value <= ULONG_MAX && r.end <= |s|
    ensures r.end > 0 ==> IsDigit(s[r.end - 1])
    ensures r.end == 0 ==> r.value == 0
  {
    var i := SkipSpace(s, 0);
    var signed := i < |s| && (s[i] == '+' || s[i] == '-');
    var j := if signed then i + 1 else i;
    var k := DigitRun(s, j);
    if k == j then Conversion(0, 0)
    else
      var magnitude := DigitsValue(s[j..k]);
      if magnitude > ULONG_MAX then Conversion(ULONG_MAX, k)
      else if signed && s[i] == '-' then Conversion((ULONG_MAX + 1 - magnitude) % (ULONG_MAX + 1), k)
      else Conversion(magnitude, k)
  }

  /** strtoul reads back what %lu printed, stopping at the first non-digit. */
  lemma StrToUlDecimal(n: nat, rest: string)
    requires n <= ULONG_MAX
    requires rest != [] && !IsDigit(rest[0])
    ensures StrToUl(Decimal(n) + rest) == Conversion(n, |Decimal(n)|)
  {
    var d := Decimal(n);
    var s := d + rest;
    assert SkipSpace(s, 0) == 0 by { assert IsDigit(s[0]); }
    assert DigitRun(s, 0) == |d| by { DigitRunStops(s, 0, |d|); }
    assert s[0..|d|] == d;
    DecimalValue(n);
  }

  lemma {:induction false} DigitRunStops(s: string, i: nat, j: nat)
    requires i <= j < |s|
    requires forall k | i <= k < j :: IsDigit(s[k])
    requires !IsDigit(s[j])
    ensures DigitRun(s, i) == j
    decreases j - i
  {
    if i < j {
      DigitRunStops(s, i + 1, j);
    }
  }
}
