/** Decimal rendering of non-negative integers as JavaScript's
    `Number.prototype.toString()` produces it, `padStart(2, "0")`, and the
    parser that inverts both. */
module Numerals {

  predicate IsDigit(c: char) {
    '0' <= c <= '9'
  }

  predicate AllDigits(s: string) {
    forall i :: 0 <= i < |s| ==> IsDigit(s[i])
  }

  function DigitChar(d: nat): (c: char)
    requires d < 10
    ensures IsDigit(c)
  {
    ('0' as int + d) as char
  }

  function DigitValue(c: char): (d: nat)
    requires IsDigit(c)
    ensures d < 10
  {
    c as int - '0' as int
  }

  /** `n.toString()`: shortest decimal numeral, no leading zero. */
  function Decimal(n: nat): (r: string)
    ensures AllDigits(r)
    ensures |r| >= 1
    ensures |r| == 1 <==> n < 10
    ensures |r| == 2 <==> 10 <= n < 100
    ensures |r| > 1 ==> r[0] != '0'
    decreases n
  {
    if n < 10 then [DigitChar(n)] else Decimal(n / 10) + [DigitChar(n % 10)]
  }

  /** Value of a string of decimal digits (leading zeros allowed). */
  function ParseDigits(s: string): nat
    requires AllDigits(s)
  {
    if |s| == 0 then 0 else ParseDigits(s[..|s| - 1]) * 10 + DigitValue(s[|s| - 1])
  }

  /** Reading a rendered numeral back gives the number. */
  lemma {:induction false} ParseDecimal(n: nat)
    ensures ParseDigits(Decimal(n)) == n
  {
    if n >= 10 {
      var r := Decimal(n);
      assert r[..|r| - 1] == Decimal(n / 10);
      ParseDecimal(n / 10);
    }
  }

  /** A leading zero does not change a parsed value. */
  lemma {:induction false} ParseLeadingZero(s: string)
    requires AllDigits(s)
    ensures AllDigits("0" + s)
    ensures ParseDigits("0" + s) == ParseDigits(s)
  {
    var t := "0" + s;
    if |s| > 0 {
      assert t[..|t| - 1] == "0" + s[..|s| - 1];
      ParseLeadingZero(s[..|s| - 1]);
    }
  }

  /** `n.toString().padStart(2, "0")`. */
  function Pad2(n: nat): (r: string)
    ensures AllDigits(r)
    ensures ParseDigits(r) == n
    ensures |r| >= 2
    ensures n < 100 ==> |r| == 2
    ensures n >= 10 ==> r == Decimal(n)
  {
    var d := Decimal(n);
    ParseDecimal(n);
    if |d| < 2 then ParseLeadingZero(d); "0" + d else d
  }

  /** A string of digits contains no character that is not a digit, such as
      a field separator or a line break. */
  lemma DigitsExclude(f: string, c: char)
    requires AllDigits(f) && !IsDigit(c)
    ensures c !in f
  {
  }
}
