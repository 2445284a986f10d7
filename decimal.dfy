/** The plain decimal numeral of an integer, as a string concatenation
    such as `"$" + min` writes a whole number below 10^21 in magnitude,
    and its inverse. Integers are unbounded here. */
module Decimal {

  function DigitChar(d: int): (c: char)
    requires 0 <= d < 10
    ensures '0' <= c <= '9' && c as int - '0' as int == d
  {
    ('0' as int + d) as char
  }

  function DigitValue(c: char): int {
    c as int - '0' as int
  }

  predicate IsDigit(c: char) {
    '0' <= c <= '9'
  }

  /** The shortest decimal numeral of `n`: digits only, no leading zero. */
  function NatToString(n: nat): (s: string)
    ensures |s| > 0
    ensures forall i :: 0 <= i < |s| ==> IsDigit(s[i])
    ensures s[0] == '0' <==> n == 0
    decreases n
  {
    if n < 10 then [DigitChar(n)] else NatToString(n / 10) + [DigitChar(n % 10)]
  }

  /** The numeral of an integer `x`: a minus sign before the magnitude
      when negative. */
  function Show(x: int): (s: string)
    ensures |s| > 0
    ensures s[0] == '-' <==> x < 0
    ensures forall i :: (if x < 0 then 1 else 0) <= i < |s| ==> IsDigit(s[i])
  {
    if x < 0 then "-" + NatToString(-x) else NatToString(x)
  }

  /** Reads a numeral back, most significant digit first. */
  function ParseNat(s: string): int {
    if s == [] then 0 else ParseNat(s[..|s| - 1]) * 10 + DigitValue(s[|s| - 1])
  }

  function Parse(s: string): int {
    if |s| > 0 && s[0] == '-' then -ParseNat(s[1..]) else ParseNat(s)
  }

  lemma {:induction false} NatRoundTrip(n: nat)
    ensures ParseNat(NatToString(n)) == n
    decreases n
  {
    var s := NatToString(n);
    if n >= 10 {
      NatRoundTrip(n / 10);
      assert s[..|s| - 1] == NatToString(n / 10);
    }
  }

  /** The number shown in a title can be read back exactly. */
  lemma ShowRoundTrip(x: int)
    ensures Parse(Show(x)) == x
  {
    if x < 0 {
      NatRoundTrip(-x);
      assert Show(x)[1..] == NatToString(-x);
    } else {
      NatRoundTrip(x);
    }
  }

  /** Distinct numbers are shown as distinct strings. */
  lemma ShowInjective(x: int, y: int)
    requires Show(x) == Show(y)
    ensures x == y
  {
    ShowRoundTrip(x);
    ShowRoundTrip(y);
  }
}
