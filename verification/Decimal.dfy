/** Decimal numerals, as printed by the %d verb and read by the TSV parser. */
module Decimal {
  predicate IsDigit(c: char) {
    '0' <= c <= '9'
  }

  predicate AllDigits(s: string) {
    forall c | c in s :: IsDigit(c)
  }

  function DigitValue(c: char): nat
    requires IsDigit(c)
  {
    (c as int) - ('0' as int)
  }

  // The number a digit string denotes.
  function Value(s: string): nat
    requires AllDigits(s)
  {
    if s == [] then 0 else 10 * Value(s[..|s| - 1]) + DigitValue(s[|s| - 1])
  }

  // The numeral of n without leading zeros.
  function Numeral(n: nat): (s: string)
    ensures s != [] && AllDigits(s)
  {
    var last := ('0' as int + n % 10) as char;
    if n < 10 then [last] else Numeral(n / 10) + [last]
  }

  lemma {:induction false} NumeralValue(n: nat)
    ensures Value(Numeral(n)) == n
  {
    var s := Numeral(n);
    if n < 10 {
      assert s[..|s| - 1] == [];
    } else {
      assert s[..|s| - 1] == Numeral(n / 10);
      NumeralValue(n / 10);
    }
  }

  // Different numbers print differently.
  lemma NumeralInjective(m: nat, n: nat)
    requires Numeral(m) == Numeral(n)
    ensures m == n
  {
    NumeralValue(m);
    NumeralValue(n);
  }
}
