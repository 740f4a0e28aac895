/** Numbers in decimal. */
module Decimals {
  function Digit(d: nat): char
    requires d < 10
  {
    '0' + d as char
  }

  predicate IsDigit(c: char) { '0' <= c <= '9' }

  /** A number in decimal; zero is one digit. */
  function Decimal(v: nat): (r: string)
    ensures r != "" && forall i :: 0 <= i < |r| ==> IsDigit(r[i])
  {
    if v < 10 then [Digit(v)] else Decimal(v / 10) + [Digit(v % 10)]
  }

  function Power10(k: nat): nat
  {
    if k == 0 then 1 else 10 * Power10(k - 1)
  }

  lemma {:induction false} DecimalLength(v: nat, k: nat)
    requires k >= 1 && v < Power10(k)
    ensures |Decimal(v)| <= k
  {
    if v >= 10 {
      DecimalLength(v / 10, k - 1);
    }
  }

  function Value(s: string): nat
    requires forall i :: 0 <= i < |s| ==> IsDigit(s[i])
  {
    if s == "" then 0
    else
      assert IsDigit(s[|s| - 1]);
      10 * Value(s[..|s| - 1]) + (s[|s| - 1] as int - '0' as int)
  }

  lemma {:induction false} ValueOfDecimal(v: nat)
    ensures Value(Decimal(v)) == v
  {
    if v >= 10 {
      ValueOfDecimal(v / 10);
      var d := Decimal(v);
      assert d[..|d| - 1] == Decimal(v / 10);
    } else {
      assert [Digit(v)][..0] == "";
    }
  }
}
