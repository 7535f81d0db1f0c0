/**
 Decimal numerals: `std::to_string` on naturals, and the value of a string of digits.
 */
module Decimals {

  predicate IsDigit(c: char) { '0' <= c <= '9' }

  predicate AllDigits(s: string) { forall i :: 0 <= i < |s| ==> IsDigit(s[i]) }

  function DigitOf(d: nat): char
    requires d < 10
  {
    ('0' as int + d) as char
  }

  function Digits(n: nat): string {
    if n < 10 then [DigitOf(n)] else Digits(n / 10) + [DigitOf(n % 10)]
  }

  function ValueOf(s: string): nat
    requires AllDigits(s)
  {
    if s == "" then 0 else 10 * ValueOf(s[..|s| - 1]) + (s[|s| - 1] as int - '0' as int)
  }

  /** A numeral is nonempty, all digits, without a leading zero unless it is "0", and has its value. */
  lemma {:induction false} DigitsRoundTrip(n: nat)
    ensures Digits(n) != "" && AllDigits(Digits(n)) && ValueOf(Digits(n)) == n
    ensures |Digits(n)| > 1 ==> Digits(n)[0] != '0'
    ensures n > 0 ==> Digits(n)[0] != '0'
  {
    if n >= 10 {
      DigitsRoundTrip(n / 10);
      assert Digits(n)[..|Digits(n)| - 1] == Digits(n / 10);
    } else {
      assert Digits(n)[..0] == "";
    }
  }

  /** The only numeral of a value is the one without a leading zero. */
  lemma {:induction false} ValueRoundTrip(s: string)
    requires s != "" && AllDigits(s) && (|s| > 1 ==> s[0] != '0')
    ensures Digits(ValueOf(s)) == s
    decreases |s|
  {
    var n, front := |s| - 1, s[..|s| - 1];
    assert ValueOf(front) >= 0 && IsDigit(s[n]);
    if front == "" {
      assert ValueOf(s) < 10;
    } else {
      ValueRoundTrip(front);
      assert Digits(0) == "0";
      assert front[0] == s[0] != '0';
      assert ValueOf(front) > 0;
    }
  }
}
