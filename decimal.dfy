/**
 * Integer#to_s: the base-10 numeral Ruby prints for an integer. Failure.new turns a
 * non-nil message argument into a string with `to_s`, so an integer message becomes
 * its numeral.
 */
module Decimal {

  function DigitChar(d: nat): (c: char)
    requires d < 10
    ensures '0' <= c <= '9'
  {
    ('0' as int + d) as char
  }

  function DigitValue(c: char): (d: nat)
    requires '0' <= c <= '9'
    ensures d < 10
  {
    c as int - '0' as int
  }

  predicate IsDigits(s: string) {
    forall i :: 0 <= i < |s| ==> '0' <= s[i] <= '9'
  }

  /** The numeral of a non-negative integer: non-empty, digits only, no leading zero. */
  function NatToS(n: nat): (s: string)
    ensures |s| >= 1 && IsDigits(s)
    ensures s[0] == '0' ==> n == 0
    decreases n
  {
    if n < 10 then [DigitChar(n)] else NatToS(n / 10) + [DigitChar(n % 10)]
  }

  /** The numeral of any integer: a minus sign exactly for negative numbers. */
  function IntToS(i: int): (s: string)
    ensures |s| >= 1
    ensures s[0] == '-' <==> i < 0
  {
    if i < 0 then "-" + NatToS(-i) else NatToS(i)
  }

  /** Reads a string of digits back as a number (the inverse of NatToS). */
  function ParseNat(s: string): nat
    requires IsDigits(s)
  {
    if s == [] then 0 else ParseNat(s[..|s| - 1]) * 10 + DigitValue(s[|s| - 1])
  }

  predicate IsNumeral(s: string) {
    IsDigits(s) || (|s| >= 1 && s[0] == '-' && IsDigits(s[1..]))
  }

  function ParseInt(s: string): int
    requires IsNumeral(s)
  {
    if |s| >= 1 && s[0] == '-' then 0 - ParseNat(s[1..]) else ParseNat(s) as int
  }

  lemma {:induction false} ParseNatToS(n: nat)
    ensures ParseNat(NatToS(n)) == n
  {
    if n >= 10 {
      var s := NatToS(n);
      assert s[..|s| - 1] == NatToS(n / 10);
      ParseNatToS(n / 10);
    }
  }

  /** Integer#to_s loses nothing: the numeral reads back as the same integer. */
  lemma ParseIntToS(i: int)
    ensures IsNumeral(IntToS(i)) && ParseInt(IntToS(i)) == i
  {
    if i < 0 {
      assert IntToS(i)[1..] == NatToS(-i);
      ParseNatToS(-i);
    } else {
      ParseNatToS(i);
    }
  }

  /** Distinct integers print as distinct numerals. */
  lemma IntToSInjective(i: int, j: int)
    ensures IntToS(i) == IntToS(j) ==> i == j
  {
    ParseIntToS(i);
    ParseIntToS(j);
  }
}
