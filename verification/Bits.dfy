/** Powers of two and the bit-counting helpers of core/bitops.hh, on unbounded naturals. */
module Bits {

  function Pow2(k: nat): (r: nat)
    ensures r >= 1
  {
    if k == 0 then 1 else 2 * Pow2(k - 1)
  }

  /** Number of significant bits; 32 - BitLength(x) is the count of leading zeros of a 32-bit x. */
  function BitLength(x: nat): nat {
    if x == 0 then 0 else 1 + BitLength(x / 2)
  }

  function CountLeadingZeros(x: nat): int {
    32 - BitLength(x)
  }

  function CountTrailingZeros(x: nat): nat
    requires x > 0
  {
    if x % 2 == 1 then 0 else 1 + CountTrailingZeros(x / 2)
  }

  function Log2Floor(x: nat): nat
    requires x > 0
  {
    BitLength(x) - 1
  }

  ghost predicate Aligned(a: int, k: nat) {
    a % Pow2(k) == 0
  }

  /** The bit of weight 2^k. */
  function Bit(a: int, k: nat): int {
    (a / Pow2(k)) % 2
  }

  /** a with the bit of weight 2^k inverted, i.e. a ^ (1 << k). */
  function FlipBit(a: int, k: nat): int {
    if Bit(a, k) == 1 then a - Pow2(k) else a + Pow2(k)
  }

  /** a with the bit of weight 2^k cleared, i.e. a & ~(1 << k). */
  function ClearBit(a: int, k: nat): int {
    if Bit(a, k) == 1 then a - Pow2(k) else a
  }

  lemma {:induction false} Pow2Add(i: nat, j: nat)
    ensures Pow2(i + j) == Pow2(i) * Pow2(j)
  {
    if i > 0 {
      Pow2Add(i - 1, j);
      assert Pow2(i + j) == 2 * Pow2(i - 1 + j);
    }
  }

  lemma {:induction false} Pow2Mono(i: nat, j: nat)
    requires i <= j
    ensures Pow2(i) <= Pow2(j)
    ensures i < j ==> 2 * Pow2(i) <= Pow2(j)
    decreases j
  {
    if i < j {
      Pow2Mono(i, j - 1);
    }
  }

  lemma Pow2Injective(i: nat, j: nat)
    requires Pow2(i) == Pow2(j)
    ensures i == j
  {
    Pow2Mono(if i < j then i else j, if i < j then j else i);
  }

  lemma {:induction false} BitLengthBounds(x: nat)
    requires x > 0
    ensures BitLength(x) >= 1
    ensures Pow2(BitLength(x) - 1) <= x < Pow2(BitLength(x))
  {
    if x > 1 {
      BitLengthBounds(x / 2);
    }
  }

  lemma BitLengthUnique(x: nat, k: nat)
    requires k >= 1 && Pow2(k - 1) <= x < Pow2(k)
    ensures BitLength(x) == k
  {
    BitLengthBounds(x);
    var b := BitLength(x);
    if b < k { Pow2Mono(b, k - 1); }
    if k < b { Pow2Mono(k, b - 1); }
  }

  lemma {:induction false} TrailingZeros(x: nat)
    requires x > 0
    ensures Aligned(x, CountTrailingZeros(x))
    ensures Bit(x, CountTrailingZeros(x)) == 1
    ensures Pow2(CountTrailingZeros(x)) <= x
  {
    if x % 2 == 0 {
      TrailingZeros(x / 2);
      var k := CountTrailingZeros(x / 2);
      var m := Pow2(k);
      var q := x / 2 / m;
      assert x / 2 == m * q;
      assert x == (2 * m) * q;
      MultipleFacts(2 * m, q);
    }
  }

  // ---- small facts about multiples ----

  lemma MultipleFacts(m: nat, q: nat)
    requires m > 0
    ensures (m * q) % m == 0
    ensures (m * q) / m == q
  {
    DivUnique(m * q, m, q, 0);
  }

  lemma DivUnique(x: int, m: int, q: int, r: int)
    requires m > 0 && 0 <= r < m && x == m * q + r
    ensures x / m == q && x % m == r
  {
    assert x == m * (x / m) + x % m;
    var d := q - x / m;
    assert m * d == x % m - r;
    assert d >= 1 ==> m * d >= m;
    assert d <= -1 ==> m * d <= -m;
  }

  lemma ModOfSum(a: int, b: int, m: int)
    requires m > 0 && a % m == 0 && b % m == 0
    ensures (a + b) % m == 0 && (a - b) % m == 0
  {
    var x, y := a / m, b / m;
    assert a + b == m * (x + y) + 0;
    assert a - b == m * (x - y) + 0;
    DivUnique(a + b, m, x + y, 0);
    DivUnique(a - b, m, x - y, 0);
  }

  /** Two multiples of m that are less than m apart are ordered the other way round. */
  lemma MultiplesOrdered(u: int, v: int, m: int)
    requires m > 0 && u % m == 0 && v % m == 0 && u < v + m
    ensures u <= v
  {
    ModOfSum(u, v, m);
    if u > v {
      DivUnique(u - v, m, 0, u - v);
    }
  }

  lemma AlignedWeaken(a: int, i: nat, j: nat)
    requires i <= j && Aligned(a, j)
    ensures Aligned(a, i)
  {
    Pow2Add(i, j - i);
    var q := a / Pow2(j);
    assert a == Pow2(i) * (Pow2(j - i) * q) + 0 by {
      assert a == Pow2(j) * q;
    }
    DivUnique(a, Pow2(i), Pow2(j - i) * q, 0);
  }

  lemma AlignedStep(a: int, i: nat, j: nat)
    requires i <= j && Aligned(a, i)
    ensures Aligned(a + Pow2(j), i) && Aligned(a - Pow2(j), i)
  {
    Pow2Add(i, j - i);
    MultipleFacts(Pow2(i), Pow2(j - i));
    ModOfSum(a, Pow2(j), Pow2(i));
  }

  /** Two naturally aligned power-of-two blocks are nested or disjoint. */
  lemma NestedOrDisjoint(a: int, i: nat, b: int, j: nat)
    requires i <= j && Aligned(a, i) && Aligned(b, j)
    ensures a + Pow2(i) <= b || b + Pow2(j) <= a || (b <= a && a + Pow2(i) <= b + Pow2(j))
  {
    AlignedWeaken(b, i, j);
    AlignedStep(b, i, j);
    if b < a + Pow2(i) && a < b + Pow2(j) {
      MultiplesOrdered(b, a, Pow2(i));
      MultiplesOrdered(a, b + Pow2(j) - Pow2(i), Pow2(i)) by {
        AlignedStep(b + Pow2(j), i, i);
      }
    }
  }

  lemma BitMeaning(a: nat, k: nat)
    requires Aligned(a, k)
    ensures Bit(a, k) == 0 <==> Aligned(a, k + 1)
    ensures Bit(a, k) == 1 ==> a >= Pow2(k) && Aligned(a - Pow2(k), k + 1)
  {
    var m := Pow2(k);
    var q := a / m;
    assert a == m * q;
    var h := q / 2;
    if q % 2 == 0 {
      assert a == (2 * m) * h + 0;
      DivUnique(a, 2 * m, h, 0);
    } else {
      assert a == (2 * m) * h + m by {
        assert q == 2 * h + 1;
        assert m * (2 * h + 1) == (2 * m) * h + m;
      }
      DivUnique(a, 2 * m, h, m);
      DivUnique(a - m, 2 * m, h, 0);
      assert h >= 0 && (2 * m) * h >= 0;
    }
  }

  lemma AlignedUpperBit(a: nat, k: nat)
    requires Aligned(a, k + 1)
    ensures Aligned(a, k) && Aligned(a + Pow2(k), k)
    ensures Bit(a, k) == 0 && Bit(a + Pow2(k), k) == 1
  {
    AlignedWeaken(a, k, k + 1);
    AlignedStep(a, k, k);
    BitMeaning(a, k);
    BitMeaning(a + Pow2(k), k);
    if Aligned(a + Pow2(k), k + 1) {
      MultiplesOrdered(a + Pow2(k), a, Pow2(k + 1));
    }
  }

  /** What the bit of weight 2^k says about an aligned address: which half of its parent it is. */
  lemma BuddyFacts(a: nat, k: nat)
    requires Aligned(a, k)
    ensures ClearBit(a, k) >= 0 && Aligned(ClearBit(a, k), k + 1)
    ensures FlipBit(a, k) >= 0 && Aligned(FlipBit(a, k), k)
    ensures ClearBit(a, k) <= a && ClearBit(a, k) <= FlipBit(a, k)
    ensures Bit(FlipBit(a, k), k) == 1 - Bit(a, k)
    ensures FlipBit(FlipBit(a, k), k) == a
  {
    BitMeaning(a, k);
    AlignedUpperBit(ClearBit(a, k), k);
  }
}
