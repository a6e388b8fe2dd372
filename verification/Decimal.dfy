/** Decimal numerals: how an integer is written down, and how a run of digits is read back. */
module Decimal {

  predicate IsDigit(c: char) { '0' <= c <= '9' }

  predicate AllDigits(s: string) { forall i :: 0 <= i < |s| ==> IsDigit(s[i]) }

  function Digit(d: nat): (c: char)
    requires d < 10
    ensures IsDigit(c) && DigitValue(c) == d
  {
    ('0' as int + d) as char
  }

  function DigitValue(c: char): nat
    requires IsDigit(c)
  {
    c as int - '0' as int
  }

  // The shortest numeral of n: no leading zero, except for zero itself.
  function OfNat(n: nat): (s: string)
    ensures s != [] && AllDigits(s)
    ensures s[0] == '0' ==> n == 0 && s == "0"
  {
    if n < 10 then [Digit(n)] else OfNat(n / 10) + [Digit(n % 10)]
  }

  function ToNat(s: string): nat
    requires AllDigits(s)
  {
    if s == [] then 0 else 10 * ToNat(s[..|s| - 1]) + DigitValue(s[|s| - 1])
  }

  lemma {:induction false} ToNatOfNat(n: nat)
    ensures ToNat(OfNat(n)) == n
  {
    if n >= 10 {
      var front := OfNat(n / 10);
      assert OfNat(n)[..|OfNat(n)| - 1] == front;
      ToNatOfNat(n / 10);
    }
  }

  // The first digit of the numeral of n, as a number.
  function LeadingDigit(n: nat): (d: nat)
    ensures d < 10 && OfNat(n)[0] == Digit(d)
  {
    if n < 10 then n else LeadingDigit(n / 10)
  }

  function OfInt(n: int): string {
    if n < 0 then "-" + OfNat(-n) else OfNat(n)
  }

  // How many digits s starts with.
  function DigitsAhead(s: string): (n: nat)
    ensures n <= |s| && AllDigits(s[..n])
    ensures n < |s| ==> !IsDigit(s[n])
  {
    if s == [] || !IsDigit(s[0]) then 0
    else
      var n := 1 + DigitsAhead(s[1..]);
      assert s[..n] == [s[0]] + s[1..][..n - 1];
      n
  }

  lemma {:induction false} DigitsAheadStopsAfter(digits: string, rest: string)
    requires AllDigits(digits)
    requires rest == [] || !IsDigit(rest[0])
    ensures DigitsAhead(digits + rest) == |digits|
  {
    if digits == [] {
      assert digits + rest == rest;
    } else {
      assert (digits + rest)[1..] == digits[1..] + rest;
      DigitsAheadStopsAfter(digits[1..], rest);
    }
  }

  // The digits in their order, and the place values.
  lemma {:induction false} NumeralExample()
    ensures OfNat(1234567890) == "1234567890" && OfInt(-7) == "-7"
  {
    assert OfNat(1) == "1";
    assert OfNat(12) == "12";
    assert OfNat(123) == "123";
    assert OfNat(1234) == "1234";
    assert OfNat(12345) == "12345";
    assert OfNat(123456) == "123456";
    assert OfNat(1234567) == "1234567";
    assert OfNat(12345678) == "12345678";
    assert OfNat(123456789) == "123456789";
  }
}
