/** Rounding to multiples (core/align.hh). */
module Align {
  /** The least multiple of a that is not below x. */
  function AlignUp(x: nat, a: nat): (r: nat)
    requires a > 0
    ensures x <= r < x + a && r % a == 0
  {
    RoundingUp(x, a);
    (x + a - 1) / a * a
  }

  lemma RoundingUp(x: nat, a: nat)
    requires a > 0
    ensures var r := (x + a - 1) / a * a; x <= r < x + a && r % a == 0
  {
    var q := (x + a - 1) / a;
    assert x + a - 1 == a * q + (x + a - 1) % a;
    MultipleOf(a, q);
    assert q * a == a * q;
  }

  lemma MultipleOf(a: nat, q: nat)
    requires a > 0
    ensures (a * q) % a == 0
  {
    var r, d := (a * q) % a, q - (a * q) / a;
    assert a * q == a * ((a * q) / a) + r;
    assert a * d == r;
    assert d >= 1 ==> a * d >= a;
  }

  function AlignDown(x: nat, a: nat): (r: nat)
    requires a > 0
    ensures r <= x < r + a && r % a == 0
  {
    MultipleOf(a, x / a);
    assert x == a * (x / a) + x % a;
    x - x % a
  }

  /** No multiple lies strictly between x and its rounding. */
  lemma AlignUpLeast(x: nat, a: nat, m: nat)
    requires a > 0 && m % a == 0 && x <= m
    ensures AlignUp(x, a) <= m
  {
    var r := AlignUp(x, a);
    var i, j := r / a, m / a;
    assert r == a * i && m == a * j;
    // r - m < a, so i - j < 1
    var d := i - j;
    assert a * i == a * j + a * d;
    assert d >= 1 ==> a * d >= a;
    var e := j - i;
    assert a * j == a * i + a * e;
    assert e >= 0 ==> a * e >= 0;
  }

  lemma AlignUpPositive(x: nat, a: nat)
    requires a > 0 && x > 0
    ensures AlignUp(x, a) >= a
  {
    var q := AlignUp(x, a) / a;
    assert AlignUp(x, a) == a * q;
    assert q >= 1 ==> a * q >= a;
  }

  /** Rounding commutes with a shift by a multiple. */
  lemma AlignUpShift(x: nat, a: nat, m: nat)
    requires a > 0 && m % a == 0
    ensures AlignUp(x + m, a) == AlignUp(x, a) + m
  {
    var r := AlignUp(x, a);
    SumOfMultiples(r, m, a);
    AlignUpLeast(x + m, a, r + m);
    var s := AlignUp(x + m, a);
    assert s >= m;
    DifferenceOfMultiples(s, m, a);
    AlignUpLeast(x, a, s - m);
  }

  lemma SumOfMultiples(x: nat, y: nat, a: nat)
    requires a > 0 && x % a == 0 && y % a == 0
    ensures (x + y) % a == 0
  {
    MultipleOf(a, x / a + y / a);
    assert x == a * (x / a) && y == a * (y / a);
    assert a * (x / a + y / a) == a * (x / a) + a * (y / a);
  }

  lemma DifferenceOfMultiples(x: nat, y: nat, a: nat)
    requires a > 0 && y <= x && x % a == 0 && y % a == 0
    ensures (x - y) % a == 0
  {
    var i, j := x / a, y / a;
    assert x == a * i && y == a * j;
    var d := i - j;
    assert a * i == a * j + a * d;
    assert d <= -1 ==> a * d < 0;
    MultipleOf(a, d);
  }
}
