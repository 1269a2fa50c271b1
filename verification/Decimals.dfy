/**
 Decimal numerals, as the version texts and the signed checkpoints write them.
 */
module Decimals {
  predicate IsDigit(c: char) {
    '0' <= c <= '9'
  }

  predicate AllDigits(s: string) {
    forall i | 0 <= i < |s| :: IsDigit(s[i])
  }

  function Digit(n: nat): char
    requires n < 10
  {
    '0' + n as char
  }

  /** The decimal numeral without leading zeros. */
  function Shown(n: nat): string {
    if n < 10 then [Digit(n)] else Shown(n / 10) + [Digit(n % 10)]
  }

  function Value(s: string): nat
    requires AllDigits(s)
  {
    if s == [] then 0 else 10 * Value(s[..|s| - 1]) + (s[|s| - 1] as int - '0' as int)
  }

  lemma {:induction false} ShownReads(n: nat)
    ensures Shown(n) != [] && AllDigits(Shown(n)) && Value(Shown(n)) == n
  {
    if n >= 10 {
      ShownReads(n / 10);
      assert Shown(n)[..|Shown(n)| - 1] == Shown(n / 10);
    } else {
      assert Shown(n)[..0] == [];
    }
  }

  lemma {:induction false} NumeralIsShown(s: string)
    requires s != [] && AllDigits(s) && (s[0] != '0' || |s| == 1)
    ensures Shown(Value(s)) == s && (|s| > 1 ==> Value(s) >= 10)
  {
    var init, last := s[..|s| - 1], s[|s| - 1];
    if init != [] {
      NumeralIsShown(init);
      assert Shown(0) == ['0'] && init[0] == s[0] != '0';
      assert Value(s) / 10 == Value(init) && Value(s) % 10 == last as int - '0' as int;
    } else {
      assert Value(init) == 0;
    }
  }

  lemma ShownInjective(m: nat, n: nat)
    requires Shown(m) == Shown(n)
    ensures m == n
  {
    ShownReads(m);
    ShownReads(n);
  }
}
