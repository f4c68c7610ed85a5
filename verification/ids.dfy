/**
  Identifiers the application builds from the clock, such as `item-${Date.now()}-${i}`:
  the decimal rendering of a natural number and the fact that it is injective, so two
  identifiers built from different numbers differ.
*/
module Ids {

  /** The decimal digit character for `d`. */
  function Digit(d: nat): (c: char)
    requires d < 10
    ensures '0' <= c <= '9'
  {
    ['0', '1', '2', '3', '4', '5', '6', '7', '8', '9'][d]
  }

  /** `String(n)` for a non-negative integer `n`: its decimal digits, without leading zeros. */
  function NatToString(n: nat): (s: string)
    ensures |s| >= 1
    ensures forall i :: 0 <= i < |s| ==> '0' <= s[i] <= '9'
    ensures n < 10 <==> |s| == 1
  {
    if n < 10 then [Digit(n)] else NatToString(n / 10) + [Digit(n % 10)]
  }

  lemma DigitInjective(a: nat, b: nat)
    requires a < 10 && b < 10 && Digit(a) == Digit(b)
    ensures a == b
  {
  }

  /** Different numbers render to different strings. */
  lemma {:induction false} NatToStringInjective(n: nat, m: nat)
    requires NatToString(n) == NatToString(m)
    ensures n == m
  {
    var s, t := NatToString(n), NatToString(m);
    if n < 10 {
      assert |t| == 1;
      DigitInjective(n, m);
    } else {
      assert m >= 10;
      assert s[..|s| - 1] == NatToString(n / 10);
      assert t[..|t| - 1] == NatToString(m / 10);
      DigitInjective(n % 10, m % 10);
      NatToStringInjective(n / 10, m / 10);
    }
  }

  /** Two strings that agree after the same prefix agree. */
  lemma SamePrefixSameSuffix(p: string, a: string, b: string)
    requires p + a == p + b
    ensures a == b
  {
    assert a == (p + a)[|p|..];
    assert b == (p + b)[|p|..];
  }

  /** `${prefix}${n}`: identifiers with the same prefix and different numbers are different. */
  function Tagged(prefix: string, n: nat): (s: string)
    ensures |s| > |prefix| && s[..|prefix|] == prefix
  {
    prefix + NatToString(n)
  }

  lemma TaggedInjective(prefix: string, n: nat, m: nat)
    requires Tagged(prefix, n) == Tagged(prefix, m)
    ensures n == m
  {
    SamePrefixSameSuffix(prefix, NatToString(n), NatToString(m));
    NatToStringInjective(n, m);
  }
}
