/**
 * Decimal rendering of integers as .NET's "D<n>" format specifier produces it
 * (zero-padded to at least n digits, a leading '-' for negative values), its
 * inverse, and the integer ceiling of log10 used to choose a pad width.
 */
module Decimal {
  import opened Wrappers

  predicate IsDigit(c: char) { '0' <= c <= '9' }

  predicate AllDigits(s: string) { forall i :: 0 <= i < |s| ==> IsDigit(s[i]) }

  function DigitChar(d: nat): (c: char)
    requires d < 10
    ensures IsDigit(c) && c as int - '0' as int == d
  {
    ('0' as int + d) as char
  }

  function DigitValue(c: char): nat
    requires IsDigit(c)
  {
    c as int - '0' as int
  }

  /** The value of a string of decimal digits, most significant digit first. */
  function Value(s: string): nat
    requires AllDigits(s)
  {
    if s == [] then 0 else Value(s[..|s| - 1]) * 10 + DigitValue(s[|s| - 1])
  }

  /** The shortest decimal text of `n`: "0" for zero, otherwise no leading zero. */
  function Digits(n: nat): (s: string)
    ensures |s| >= 1
    decreases n
  {
    if n < 10 then [DigitChar(n)] else Digits(n / 10) + [DigitChar(n % 10)]
  }

  /** Digits(n) is a digit string without a leading zero whose value is n. */
  lemma {:induction false} DigitsReadBack(n: nat)
    ensures AllDigits(Digits(n)) && Value(Digits(n)) == n
    ensures n > 0 ==> Digits(n)[0] != '0'
    decreases n
  {
    if n >= 10 {
      DigitsReadBack(n / 10);
      var p := Digits(n / 10);
      var s := p + [DigitChar(n % 10)];
      assert s[..|s| - 1] == p;
    }
  }

  function Pow10(k: nat): (p: nat)
    ensures p >= 1
  {
    if k == 0 then 1 else 10 * Pow10(k - 1)
  }

  /** A number below 10^k has at most k digits (and always at least one). */
  lemma {:induction false} DigitsBelowPow10(n: nat, k: nat)
    requires n < Pow10(k)
    ensures |Digits(n)| <= if k == 0 then 1 else k
  {
    if n >= 10 {
      assert Pow10(0) == 1 && Pow10(1) == 10;
      assert k >= 2;
      assert n / 10 < Pow10(k - 1);
      DigitsBelowPow10(n / 10, k - 1);
    }
  }

  function Zeros(k: nat): (s: string)
    ensures |s| == k
  {
    seq(k, _ => '0')
  }

  /** Leading zeros do not change the value of a digit string. */
  lemma {:induction false} ValueIgnoresLeadingZeros(k: nat, s: string)
    requires AllDigits(s)
    ensures AllDigits(Zeros(k) + s) && Value(Zeros(k) + s) == Value(s)
  {
    var z := Zeros(k) + s;
    if s == [] {
      assert z == Zeros(k);
      ZerosHaveValueZero(k);
    } else {
      var s' := s[..|s| - 1];
      assert z[..|z| - 1] == Zeros(k) + s';
      ValueIgnoresLeadingZeros(k, s');
    }
  }

  lemma {:induction false} ZerosHaveValueZero(k: nat)
    ensures AllDigits(Zeros(k)) && Value(Zeros(k)) == 0
  {
    if k > 0 {
      assert Zeros(k)[..k - 1] == Zeros(k - 1);
      ZerosHaveValueZero(k - 1);
    }
  }

  /** `n.ToString("D" + width)` for a non-negative `n`: at least `width` characters, zero-padded on the left. */
  function ZeroPad(n: nat, width: nat): (s: string)
    ensures |s| == if |Digits(n)| < width then width else |Digits(n)|
  {
    var d := Digits(n);
    Zeros(if |d| < width then width - |d| else 0) + d
  }

  /** The padding is harmless: ZeroPad(n, width) is a digit string whose value is n. */
  lemma ZeroPadReadsBack(n: nat, width: nat)
    ensures AllDigits(ZeroPad(n, width)) && Value(ZeroPad(n, width)) == n
  {
    var d := Digits(n);
    DigitsReadBack(n);
    ValueIgnoresLeadingZeros(if |d| < width then width - |d| else 0, d);
  }

  /** `n.ToString("D" + width)` for any `n`, and `n.ToString()` when `width` is 0. */
  function FormatD(n: int, width: nat): (s: string)
    ensures |s| >= 1
  {
    if n < 0 then "-" + ZeroPad(-n, width) else ZeroPad(n, width)
  }

  /** Reads back what FormatD writes: an optional '-' followed by one or more digits. */
  function ParseInt(s: string): Option<int>
  {
    if |s| >= 2 && s[0] == '-' && AllDigits(s[1..]) then Some(0 - Value(s[1..]) as int)
    else if |s| >= 1 && AllDigits(s) then Some(Value(s))
    else None
  }

  /** ParseInt inverts FormatD for every width, and FormatD never writes a comma. */
  lemma FormatDReadsBack(n: int, width: nat)
    ensures ParseInt(FormatD(n, width)) == Some(n)
    ensures ',' !in FormatD(n, width)
  {
    var s := FormatD(n, width);
    if n < 0 {
      ZeroPadReadsBack(-n, width);
      assert s[1..] == ZeroPad(-n, width);
    } else {
      ZeroPadReadsBack(n, width);
    }
    assert forall i :: 0 <= i < |s| ==> s[i] == '-' || IsDigit(s[i]);
  }

  /** The integer ceiling of log10 e: the least k with e <= 10^k. */
  function CeilLog10(e: nat): (k: nat)
    requires e >= 1
    ensures e <= Pow10(k)
    ensures k == 0 || Pow10(k - 1) < e
    decreases e
  {
    if e == 1 then 0 else 1 + CeilLog10((e + 9) / 10)
  }
}
