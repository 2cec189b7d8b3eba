/** Swift's string interpolation of an integer (`"\(n)"`): base-10 digits, most significant
    first, no leading zeros, a leading '-' for negative values. A parser is its inverse. */
module Decimal {
  import opened SwiftTypes

  predicate IsDigit(c: char)
  {
    '0' <= c <= '9'
  }

  predicate AllDigits(s: string)
  {
    forall k :: 0 <= k < |s| ==> IsDigit(s[k])
  }

  function DigitChar(d: nat): (c: char)
    requires d < 10
    ensures IsDigit(c)
  {
    ('0' as int + d) as char
  }

  function DigitValue(c: char): (d: nat)
    requires IsDigit(c)
    ensures d < 10
  {
    c as int - '0' as int
  }

  /** The decimal digits of `n`: never empty, only digits, and a leading zero only for 0. */
  function NatString(n: nat): (s: string)
    ensures |s| > 0 && AllDigits(s)
    ensures s[0] == '0' ==> n == 0
  {
    if n < 10 then [DigitChar(n)] else NatString(n / 10) + [DigitChar(n % 10)]
  }

  /** `"\(n)"` for a Swift integer: the digits of a non-negative value without leading
      zeros, and a '-' before the digits of a negative one. */
  function IntString(n: int): (s: string)
    ensures n >= 0 ==> |s| > 0 && AllDigits(s) && (s[0] == '0' ==> n == 0)
    ensures n < 0 ==> |s| > 1 && s[0] == '-' && AllDigits(s[1..]) && s[1] != '0'
  {
    if n < 0 then "-" + NatString(-n) else NatString(n)
  }

  /** The value of a non-empty run of decimal digits. */
  function ParseNat(s: string): nat
    requires |s| > 0 && AllDigits(s)
  {
    if |s| == 1 then DigitValue(s[0]) else ParseNat(s[..|s| - 1]) * 10 + DigitValue(s[|s| - 1])
  }

  /** The integer a string written as `"\(n)"` stands for, if any. */
  function ParseInt(s: string): Option<int>
  {
    if |s| > 1 && s[0] == '-' && AllDigits(s[1..]) then
      var magnitude: int := ParseNat(s[1..]);
      Some(-magnitude)
    else if |s| > 0 && AllDigits(s) then Some(ParseNat(s))
    else None
  }

  lemma {:induction false} NatStringRoundTrip(n: nat)
    ensures ParseNat(NatString(n)) == n
  {
    if n >= 10 {
      var s := NatString(n);
      assert s[..|s| - 1] == NatString(n / 10);
      NatStringRoundTrip(n / 10);
    }
  }

  /** Parsing undoes the interpolation, so distinct integers render distinctly. */
  lemma IntStringRoundTrip(n: int)
    ensures ParseInt(IntString(n)) == Some(n)
  {
    if n < 0 {
      var s := IntString(n);
      assert s[1..] == NatString(-n);
      NatStringRoundTrip(-n);
    } else {
      NatStringRoundTrip(n);
    }
  }

  /** Every character of `"\(n)"` is a digit or the minus sign. */
  lemma IntStringCharacters(n: int)
    ensures forall k :: 0 <= k < |IntString(n)| ==> IsDigit(IntString(n)[k]) || IntString(n)[k] == '-'
  {
    if n < 0 {
      assert forall k :: 1 <= k < |IntString(n)| ==> IntString(n)[k] == NatString(-n)[k - 1];
    }
  }
}
