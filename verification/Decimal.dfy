/** Decimal rendering of integers, as a template literal renders them. */
module Decimal {

  import opened Characters

  function DigitChar(d: nat): char
    requires d < 10
  {
    "0123456789"[d]
  }

  function NatToString(n: nat): (s: string)
    ensures s != [] && forall c | c in s :: IsDigit(c)
  {
    if n < 10 then [DigitChar(n)] else NatToString(n / 10) + [DigitChar(n % 10)]
  }

  function ToString(n: int): (s: string)
    ensures forall c | c in s :: IsDigit(c) || c == '-'
  {
    if n < 0 then "-" + NatToString(-n) else NatToString(n)
  }

  lemma DigitInjective(a: nat, b: nat)
    requires a < 10 && b < 10 && DigitChar(a) == DigitChar(b)
    ensures a == b
  {
  }

  lemma {:induction false} NatInjective(a: nat, b: nat)
    requires NatToString(a) == NatToString(b)
    ensures a == b
  {
    var s, t := NatToString(a), NatToString(b);
    assert s[|s| - 1] == DigitChar(a % 10) && t[|t| - 1] == DigitChar(b % 10);
    DigitInjective(a % 10, b % 10);
    if a >= 10 && b >= 10 {
      assert s[..|s| - 1] == NatToString(a / 10) && t[..|t| - 1] == NatToString(b / 10);
      NatInjective(a / 10, b / 10);
    }
  }

  lemma FirstIsDigit(n: nat)
    ensures NatToString(n)[0] != '-'
  {
    assert NatToString(n)[0] in NatToString(n);
  }

  lemma ToStringInjective(a: int, b: int)
    requires ToString(a) == ToString(b)
    ensures a == b
  {
    if a < 0 && b < 0 {
      assert NatToString(-a) == ToString(a)[1..] && NatToString(-b) == ToString(b)[1..];
      NatInjective(-a, -b);
    } else if a >= 0 && b >= 0 {
      NatInjective(a, b);
    } else {
      FirstIsDigit(if a < 0 then b else a);
    }
  }
}
