/** Decimal numerals. */
module Decimals {

  predicate IsDigit(c: char) {
    '0' <= c <= '9'
  }

  predicate AllDigits(s: string) {
    forall i :: 0 <= i < |s| ==> IsDigit(s[i])
  }

  function Digit(n: nat): (c: char)
    requires n < 10
    ensures IsDigit(c) && DigitValue(c) == n
  {
    '0' + n as char
  }

  function DigitValue(c: char): (n: nat)
    requires IsDigit(c)
    ensures n < 10
  {
    c as int - '0' as int
  }

  /** The numeral without leading zeros. */
  function Decimal(n: nat): (s: string)
    ensures |s| > 0 && AllDigits(s)
  {
    (if n < 10 then "" else Decimal(n / 10)) + [Digit(n % 10)]
  }

  /** The value of a numeral, leading zeros allowed. */
  function Parse(s: string): nat
    requires AllDigits(s)
  {
    if s == "" then 0 else 10 * Parse(s[..|s| - 1]) + DigitValue(s[|s| - 1])
  }

  lemma ParseAppend(s: string, c: char)
    requires AllDigits(s) && IsDigit(c)
    ensures Parse(s + [c]) == 10 * Parse(s) + DigitValue(c)
  {
    assert (s + [c])[..|s|] == s;
  }

  lemma {:induction false} ParseOfDecimal(n: nat)
    ensures Parse(Decimal(n)) == n
  {
    var high := if n < 10 then "" else Decimal(n / 10);
    ParseAppend(high, Digit(n % 10));
    if n < 10 {
    } else {
      ParseOfDecimal(n / 10);
    }
  }

  lemma {:induction false} ParseIgnoresLeadingZero(s: string)
    requires AllDigits(s)
    ensures Parse("0" + s) == Parse(s)
  {
    var z := "0" + s;
    if s != "" {
      ParseIgnoresLeadingZero(s[..|s| - 1]);
      assert z[..|s|] == "0" + s[..|s| - 1];
    } else {
      assert z[..0] == "";
    }
  }
}
