/** The decimal rendering of counters inside record IDs. */
module Decimals {
  predicate IsDigit(c: char) {
    '0' <= c <= '9'
  }

  function Digit(d: nat): (c: char)
    requires d < 10
    ensures IsDigit(c)
  {
    ('0' as int + d) as char
  }

  function Decimal(n: nat): (s: string)
    ensures |s| >= 1 && forall i :: 0 <= i < |s| ==> IsDigit(s[i])
  {
    if n < 10 then [Digit(n)] else Decimal(n / 10) + [Digit(n % 10)]
  }

  function SignedDecimal(i: int): string {
    if i < 0 then "-" + Decimal(-i) else Decimal(i)
  }

  lemma DigitInjective(a: nat, b: nat)
    requires a < 10 && b < 10 && Digit(a) == Digit(b)
    ensures a == b
  {
    assert Digit(a) as int == '0' as int + a;
    assert Digit(b) as int == '0' as int + b;
  }

  /** Different counters render differently. */
  lemma {:induction false} DecimalInjective(a: nat, b: nat)
    requires Decimal(a) == Decimal(b)
    ensures a == b
  {
    var s, t := Decimal(a), Decimal(b);
    if a < 10 && b < 10 {
      assert s[0] == t[0];
      DigitInjective(a, b);
    } else if a >= 10 && b >= 10 {
      assert s[|s| - 1] == t[|t| - 1];
      DigitInjective(a % 10, b % 10);
      assert s[..|s| - 1] == Decimal(a / 10) && t[..|t| - 1] == Decimal(b / 10);
      DecimalInjective(a / 10, b / 10);
    }
  }

  /** A counter after a fixed prefix is recoverable. */
  lemma SuffixInjective(prefix: string, a: nat, b: nat)
    requires prefix + Decimal(a) == prefix + Decimal(b)
    ensures a == b
  {
    assert (prefix + Decimal(a))[|prefix|..] == Decimal(a);
    assert (prefix + Decimal(b))[|prefix|..] == Decimal(b);
    DecimalInjective(a, b);
  }
}
