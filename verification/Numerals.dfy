/** Positional numerals: most significant digit first, without leading zeros. */
module Numerals {
  type base = b: nat | b >= 2 witness 2

  // v followed by one more digit.
  function Shift(v: nat, d: nat, b: base): nat {
    v * b + d
  }

  function Quotient(n: nat, b: base): (q: nat)
    ensures n > 0 ==> q < n
    ensures n == 0 ==> q == 0
  {
    QuotientSmaller(n, b);
    n / b
  }

  function Remainder(n: nat, b: base): (r: nat)
    ensures r < b
  {
    n % b
  }

  lemma MultiplyOrder(x: int, y: int, c: nat)
    ensures x <= y ==> x * c <= y * c
  {
  }

  lemma QuotientSmaller(n: nat, b: base)
    ensures n > 0 ==> n / b < n
  {
    assert n == b * (n / b) + n % b;
    MultiplyOrder(2, b, n / b);
  }

  lemma ShiftQuotient(n: nat, b: base)
    ensures Shift(Quotient(n, b), Remainder(n, b), b) == n
  {
  }

  lemma ShiftInjective(v: nat, d: nat, w: nat, e: nat, b: base)
    requires Shift(v, d, b) == Shift(w, e, b) && d < b && e < b
    ensures v == w && d == e
  {
    ShiftOrder(v, d, w, e, b);
    ShiftOrder(w, e, v, d, b);
  }

  lemma ShiftOrder(v: nat, d: nat, w: nat, e: nat, b: base)
    requires d < b
    ensures v < w ==> Shift(v, d, b) < Shift(w, e, b)
    ensures v == w ==> (Shift(v, d, b) < Shift(w, e, b) <==> d < e)
    ensures v > 0 ==> Shift(v, d, b) > 0
  {
    MultiplyOrder(v + 1, w, b);
    MultiplyOrder(1, v, b);
    assert (v + 1) * b == v * b + b;
  }

  lemma QuotientOfShift(v: nat, d: nat, b: base)
    requires d < b
    ensures Quotient(Shift(v, d, b), b) == v && Remainder(Shift(v, d, b), b) == d
  {
    hide Shift, Quotient, Remainder;
    var n := Shift(v, d, b);
    ShiftQuotient(n, b);
    ShiftInjective(Quotient(n, b), Remainder(n, b), v, d, b);
  }

  predicate IsNumeral(ds: seq<nat>, b: base) {
    forall i | 0 <= i < |ds| :: ds[i] < b
  }

  // The number that a digit sequence denotes.
  function FromDigits(ds: seq<nat>, b: base): nat {
    if ds == [] then 0 else Shift(FromDigits(ds[..|ds| - 1], b), ds[|ds| - 1], b)
  }

  // Its shortest digit sequence; nothing at all for zero.
  function Digits(n: nat, b: base): seq<nat> {
    if n == 0 then [] else Digits(Quotient(n, b), b) + [Remainder(n, b)]
  }

  lemma FromDigitsAppend(front: seq<nat>, d: nat, b: base)
    ensures FromDigits(front + [d], b) == Shift(FromDigits(front, b), d, b)
  {
    hide Shift;
    assert (front + [d])[..|front|] == front;
  }

  lemma {:induction false} FromDigitsOfDigits(n: nat, b: base)
    ensures FromDigits(Digits(n, b), b) == n
    ensures IsNumeral(Digits(n, b), b)
    ensures n > 0 ==> Digits(n, b) != [] && Digits(n, b)[0] > 0
  {
    hide Shift, Quotient, Remainder, FromDigits;
    if n == 0 {
      NoDigits(b);
    } else {
      var q, r := Quotient(n, b), Remainder(n, b);
      FromDigitsOfDigits(q, b);
      FromDigitsAppend(Digits(q, b), r, b);
      ShiftQuotient(n, b);
      if q == 0 {
        ZeroShift(r, b);
      }
    }
  }

  lemma NoDigits(b: base)
    ensures FromDigits([], b) == 0
  {
  }

  lemma ZeroShift(d: nat, b: base)
    ensures Shift(0, d, b) == d
  {
  }

  lemma {:induction false} DigitsOfFromDigits(ds: seq<nat>, b: base)
    requires IsNumeral(ds, b) && (ds == [] || ds[0] > 0)
    ensures Digits(FromDigits(ds, b), b) == ds
    ensures ds != [] ==> FromDigits(ds, b) > 0
  {
    hide Shift, Quotient, Remainder;
    if ds == [] {
    } else {
      var front, d := ds[..|ds| - 1], ds[|ds| - 1];
      DigitsOfFromDigits(front, b);
      QuotientOfShift(FromDigits(front, b), d, b);
      if front == [] {
        ZeroShift(d, b);
      } else {
        ShiftOrder(FromDigits(front, b), d, 0, 0, b);
      }
      assert ds == front + [d];
    }
  }

  lemma {:induction false} LeadingZerosIgnored(z: nat, ds: seq<nat>, b: base)
    ensures FromDigits(seq(z, _ => 0) + ds, b) == FromDigits(ds, b)
  {
    var zs := seq(z, _ => 0);
    if ds == [] {
      assert zs + ds == zs;
      AllZeros(z, b);
    } else {
      assert (zs + ds)[..|zs + ds| - 1] == zs + ds[..|ds| - 1];
      LeadingZerosIgnored(z, ds[..|ds| - 1], b);
    }
  }

  lemma {:induction false} AllZeros(z: nat, b: base)
    ensures FromDigits(seq(z, _ => 0), b) == 0
  {
    if z == 0 {
    } else {
      var zs := seq(z, _ => 0);
      assert zs[..z - 1] == seq(z - 1, _ => 0);
      AllZeros(z - 1, b);
    }
  }

  // d followed by k zeros: d * b^k.
  function Scaled(d: nat, b: base, k: nat): nat {
    if k == 0 then d else Shift(Scaled(d, b, k - 1), 0, b)
  }

  // A number from d * b^k up to, but excluding, (d + 1) * b^k has k + 1 digits, the first of them d.
  lemma {:induction false} LeadingDigit(n: nat, b: base, d: nat, k: nat)
    requires 0 < d < b
    requires Scaled(d, b, k) <= n < Scaled(d + 1, b, k)
    ensures |Digits(n, b)| == k + 1 && Digits(n, b)[0] == d
  {
    hide Shift, Quotient, Remainder;
    if k == 0 {
      ZeroShift(d, b);
      QuotientOfShift(0, d, b);
      assert Digits(0, b) == [];
      assert Digits(n, b) == [] + [d];
    } else {
      var q, r := Quotient(n, b), Remainder(n, b);
      ShiftQuotient(n, b);
      ShiftOrder(q, r, Scaled(d, b, k - 1), 0, b);
      ShiftOrder(Scaled(d + 1, b, k - 1), 0, q, r, b);
      LeadingDigit(q, b, d, k - 1);
    }
  }

  // A digit sequence that starts with d denotes a number from d * b^k up to (d + 1) * b^k.
  lemma {:induction false} ValueRange(ds: seq<nat>, b: base)
    requires ds != [] && IsNumeral(ds, b)
    ensures Scaled(ds[0], b, |ds| - 1) <= FromDigits(ds, b) < Scaled(ds[0] + 1, b, |ds| - 1)
  {
    hide Shift;
    var front, last := ds[..|ds| - 1], ds[|ds| - 1];
    if front == [] {
      ZeroShift(last, b);
    } else {
      ValueRange(front, b);
      var v := FromDigits(front, b);
      ShiftOrder(v, last, Scaled(ds[0] + 1, b, |front| - 1), 0, b);
      ShiftOrder(Scaled(ds[0], b, |front| - 1), 0, v, last, b);
    }
  }

  lemma {:induction false} ScaledTwice(d: nat, b: base, j: nat, k: nat)
    ensures Scaled(Scaled(d, b, j), b, k) == Scaled(d, b, j + k)
  {
    if k == 0 {
    } else {
      ScaledTwice(d, b, j, k - 1);
    }
  }
}
