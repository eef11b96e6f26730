/** Decimal notation of natural numbers. */
module Decimal {
  function Digits(n: nat): (ds: seq<nat>)
    ensures ds != [] && forall i | 0 <= i < |ds| :: ds[i] < 10
  {
    if n < 10 then [n] else Digits(n / 10) + [n % 10]
  }

  function Value(ds: seq<nat>): nat {
    if ds == [] then 0 else Value(ds[..|ds| - 1]) * 10 + ds[|ds| - 1]
  }

  /** Reading a number back gives the number. */
  lemma {:induction false} ValueOfDigits(n: nat)
    ensures Value(Digits(n)) == n
  {
    if n >= 10 {
      ValueOfDigits(n / 10);
      assert Digits(n)[..|Digits(n)| - 1] == Digits(n / 10);
    }
  }

  function ToText(n: nat): string { seq(|Digits(n)|, i requires 0 <= i < |Digits(n)| => '0' + Digits(n)[i] as char) }

  /** Different numbers have different texts. */
  lemma ToTextIsInjective(a: nat, b: nat)
    requires ToText(a) == ToText(b)
    ensures a == b
  {
    forall i | 0 <= i < |Digits(a)|
      ensures Digits(a)[i] == Digits(b)[i]
    {
      assert ToText(a)[i] == ToText(b)[i];
      assert (ToText(a)[i] - '0') as int == Digits(a)[i];
      assert (ToText(b)[i] - '0') as int == Digits(b)[i];
    }
    assert Digits(a) == Digits(b);
    ValueOfDigits(a);
    ValueOfDigits(b);
  }
}
