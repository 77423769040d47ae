/** Decimal numerals, as numbers are printed into rows and messages. */
module Decimals {

  predicate IsDigit(c: char) {
    '0' <= c <= '9'
  }

  function DigitChar(d: nat): (c: char)
    requires d < 10
    ensures IsDigit(c)
  {
    '0' + d as char
  }

  function DigitValue(c: char): (d: nat)
    requires IsDigit(c)
    ensures d < 10
  {
    (c - '0') as nat
  }

  /** The numeral of `n`, without leading zeros. */
  function Numeral(n: nat): (s: string)
    ensures |s| > 0 && forall c :: c in s ==> IsDigit(c)
  {
    if n < 10 then [DigitChar(n)] else Numeral(n / 10) + [DigitChar(n % 10)]
  }

  predicate IsNumeral(s: string) {
    |s| > 0 && forall c :: c in s ==> IsDigit(c)
  }

  function NumeralValue(s: string): nat
    requires forall c :: c in s ==> IsDigit(c)
  {
    if s == "" then 0 else 10 * NumeralValue(s[..|s| - 1]) + DigitValue(s[|s| - 1])
  }

  /** A printed number has no leading zero, and each of its digits counts ten times the one behind it. */
  lemma {:induction false} NumeralExactly(n: nat)
    ensures IsNumeral(Numeral(n)) && (Numeral(n)[0] == '0' <==> n == 0)
    ensures n < 10 ==> Numeral(n) == ["0123456789"[n]]
    ensures n >= 10 ==> Numeral(n) == Numeral(n / 10) + ["0123456789"[n % 10]]
  {
    if n >= 10 {
      NumeralExactly(n / 10);
    }
    assert forall d :: 0 <= d < 10 ==> DigitChar(d) == "0123456789"[d];
  }

  /** Reading a printed number gives the number back. */
  lemma {:induction false} NumeralRoundTrip(n: nat)
    ensures NumeralValue(Numeral(n)) == n
  {
    var s := Numeral(n);
    if n >= 10 {
      NumeralRoundTrip(n / 10);
      assert s[..|s| - 1] == Numeral(n / 10);
    } else {
      assert s[..0] == "";
    }
  }
}
