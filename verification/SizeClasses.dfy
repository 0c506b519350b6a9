/** The size classes of the small-object pools of core/memory.cc, in 32-bit arithmetic. */
module SizeClasses {
  import opened Bits

  const IDX_FRAC_BITS: nat := 2
  const WORD_SIZE: nat := 0x1_0000_0000

  /** (((1 << 2) | (idx & 3)) << (idx >> 2)) >> 2, where the left shift drops bits above 32. */
  function IdxToSize(idx: nat): nat {
    Shifted(4 + idx % 4, idx / 4)
  }

  /** (c << e) >> 2 on 32-bit words. */
  function Shifted(c: nat, e: nat): nat {
    (c * Pow2(e) % WORD_SIZE) / 4
  }

  /** ((log2floor(size) << 2) - 3) + ((size - 1) >> (log2floor(size) - 2)); needs size >= 4. */
  function SizeToIdx(size: nat): int
    requires size >= 4 && Log2Floor(size) >= IDX_FRAC_BITS
  {
    (Log2Floor(size) * 4 - 3) + (size - 1) / Pow2(Log2Floor(size) - IDX_FRAC_BITS)
  }

  const NR_SMALL_POOLS: nat := 57
  const MAX_SMALL_ALLOCATION: nat := 16384

  lemma LargePowers()
    ensures Pow2(27) == 0x800_0000 && Pow2(29) == 0x2000_0000 && Pow2(30) == 0x4000_0000 && Pow2(32) == WORD_SIZE
  {
    assert Pow2(8) == 256;
    Pow2Add(8, 8);
    Pow2Add(16, 8);
    assert Pow2(25) == 2 * Pow2(24) && Pow2(26) == 2 * Pow2(25) && Pow2(27) == 2 * Pow2(26);
    assert Pow2(28) == 2 * Pow2(27) && Pow2(29) == 2 * Pow2(28) && Pow2(30) == 2 * Pow2(29);
    assert Pow2(31) == 2 * Pow2(30) && Pow2(32) == 2 * Pow2(31);
  }

  lemma FloorFacts(s: nat)
    requires s >= 4
    ensures Log2Floor(s) >= 2 && Pow2(Log2Floor(s)) == 4 * Pow2(Log2Floor(s) - 2)
    ensures 4 * Pow2(Log2Floor(s) - 2) <= s < 8 * Pow2(Log2Floor(s) - 2)
  {
    BitLengthBounds(s);
    if BitLength(s) < 3 {
      Pow2Mono(BitLength(s), 2);
    }
    var l := Log2Floor(s);
    assert Pow2(l) == 2 * Pow2(l - 1) && Pow2(l - 1) == 2 * Pow2(l - 2);
  }

  lemma DividesByFour(x: nat)
    requires 4 * x < WORD_SIZE
    ensures (4 * x % WORD_SIZE) / 4 == x
  {
  }

  lemma ShiftedBy(c: nat, p: nat, m: nat)
    requires 4 <= c < 8 && p == 4 * m && 7 * p < WORD_SIZE
    ensures (c * p % WORD_SIZE) / 4 == c * m
  {
    if c == 4 { DividesByFour(4 * m); }
    else if c == 5 { DividesByFour(5 * m); }
    else if c == 6 { DividesByFour(6 * m); }
    else { DividesByFour(7 * m); }
  }

  lemma SmallPower(l: nat)
    requires 2 <= l <= 29
    ensures Pow2(l) == 4 * Pow2(l - 2) && 7 * Pow2(l) < WORD_SIZE
  {
    assert Pow2(l) == 2 * Pow2(l - 1);
    Pow2Mono(l, 29);
    LargePowers();
  }

  /** The class with fraction bits c - 4 and exponent l, as long as the shift drops no bit: c * 2^(l-2). */
  lemma ClassValue(l: nat, c: nat)
    requires 2 <= l <= 29 && 4 <= c < 8
    ensures IdxToSize(4 * l + c - 4) == c * Pow2(l - 2)
  {
    DivUnique(4 * l + c - 4, 4, l, c - 4);
    SmallPower(l);
    ShiftedBy(c, Pow2(l), Pow2(l - 2));
  }

  /** The part of (s - 1) that the shift keeps. */
  lemma ShiftedPart(s: nat, m: nat)
    requires m > 0 && 4 * m <= s < 8 * m
    ensures 3 <= (s - 1) / m <= 7
    ensures (s - 1) / m * m <= s - 1 < ((s - 1) / m + 1) * m
  {
    var q := (s - 1) / m;
    assert s - 1 == m * q + (s - 1) % m;
    assert q <= 2 ==> m * q <= 2 * m;
    assert q >= 8 ==> m * q >= 8 * m;
  }

  /** The class that the fraction q of s - 1 picks, and the one before it. */
  lemma PickedClass(l: nat, q: nat)
    requires 2 <= l <= 29 && 3 <= q <= 7 && (l == 29 ==> q < 7)
    ensures IdxToSize(4 * l + q - 3) == (q + 1) * Pow2(l - 2)
    ensures q > 3 ==> IdxToSize(4 * l + q - 4) == q * Pow2(l - 2)
    ensures q == 3 && l > 2 ==> IdxToSize(4 * l + q - 4) < 4 * Pow2(l - 2)
  {
    if q == 3 {
      ClassValue(l, 4);
      if l > 2 { ClassValue(l - 1, 7); }
    } else if q == 4 {
      ClassValue(l, 4);
      ClassValue(l, 5);
    } else if q == 5 {
      ClassValue(l, 5);
      ClassValue(l, 6);
    } else if q == 6 {
      ClassValue(l, 6);
      ClassValue(l, 7);
    } else {
      ClassValue(l, 7);
      ClassValue(l + 1, 4);
    }
  }

  /** size_to_idx picks the class (q + 1) * m, where s - 1 lies in [q * m, (q + 1) * m). */
  lemma ChosenClass(s: nat) returns (m: nat, q: nat)
    requires 4 <= s <= 0x3800_0000
    ensures Log2Floor(s) >= 2 && 8 <= SizeToIdx(s) <= 4 * 29 + 3
    ensures 4 * m <= s && q * m <= s - 1 < (q + 1) * m
    ensures IdxToSize(SizeToIdx(s)) == (q + 1) * m
    ensures SizeToIdx(s) > 8 ==> IdxToSize(SizeToIdx(s) - 1) < s
  {
    FloorFacts(s);
    var l := Log2Floor(s);
    m := Pow2(l - 2);
    q := (s - 1) / m;
    ShiftedPart(s, m);
    ExponentBound(s, l, q);
    assert SizeToIdx(s) == 4 * l + q - 3;
    PickedClass(l, q);
  }

  lemma ExponentBound(s: nat, l: nat, q: nat)
    requires 2 <= l && s <= 0x3800_0000 && Pow2(l) <= s && q * Pow2(l - 2) <= s - 1 && q <= 7
    ensures l <= 29 && (l == 29 ==> q < 7)
  {
    LargePowers();
    if l >= 30 { Pow2Mono(30, l); }
  }

  lemma NextInOctave(l: nat, c: nat)
    requires 2 <= l <= 29 && 4 <= c < 7
    ensures IdxToSize(4 * l + c - 4) < IdxToSize(4 * l + c - 3)
  {
    var m := Pow2(l - 2);
    ClassValue(l, c);
    ClassValue(l, c + 1);
    assert (c + 1) * m == c * m + m;
  }

  lemma NextOctave(l: nat)
    requires 2 <= l < 29
    ensures IdxToSize(4 * l + 3) < IdxToSize(4 * l + 4)
  {
    ClassValue(l, 7);
    ClassValue(l + 1, 4);
    assert Pow2(l - 1) == 2 * Pow2(l - 2);
  }

  lemma NextClassAt(l: nat, c: nat)
    requires 2 <= l <= 29 && 4 <= c < 8 && (l == 29 ==> c < 7)
    ensures IdxToSize(4 * l + c - 4) < IdxToSize(4 * l + c - 3)
  {
    if c < 7 {
      NextInOctave(l, c);
    } else {
      NextOctave(l);
    }
  }

  lemma NextClass(j: nat)
    requires 8 < j <= 4 * 29 + 3
    ensures IdxToSize(j - 1) < IdxToSize(j)
  {
    NextClassAt((j - 1) / 4, 4 + (j - 1) % 4);
  }

  lemma {:induction false} ClassesIncrease(i: nat, j: nat)
    requires 8 <= i < j <= 4 * 29 + 3
    ensures IdxToSize(i) < IdxToSize(j)
    decreases j
  {
    NextClass(j);
    if i < j - 1 { ClassesIncrease(i, j - 1); }
  }

  /** The classes below index 8 are all smaller than 4. */
  lemma FirstClasses(i: nat)
    requires i < 8
    ensures IdxToSize(i) < 4
  {
    assert Pow2(0) == 1 && Pow2(1) == 2;
  }

  /**
   * For every size the class chosen holds it, wastes less than a quarter of it, and no class that
   * holds it is smaller.
   */
  lemma SizeClassFits(s: nat)
    requires 4 <= s <= 0x3800_0000
    ensures Log2Floor(s) >= 2 && SizeToIdx(s) >= 0
    ensures var c := IdxToSize(SizeToIdx(s));
            && s <= c && 4 * (c - s) < s
            && forall i: nat :: i <= 4 * 29 + 3 && s <= IdxToSize(i) ==> c <= IdxToSize(i)
  {
    var m, q := ChosenClass(s);
    var k := SizeToIdx(s);
    assert (q + 1) * m == q * m + m;
    forall i: nat | i <= 4 * 29 + 3 && s <= IdxToSize(i) ensures IdxToSize(k) <= IdxToSize(i) {
      if i < 8 { FirstClasses(i); }
      if i < k {
        if i < k - 1 { ClassesIncrease(i, k - 1); }
      } else if k < i {
        ClassesIncrease(k, i);
      }
    }
  }

  /** Above 7 * 2^27 the left shift drops the leading bit and the class no longer holds the size. */
  lemma SizeClassHoldsIff(s: nat)
    requires 4 <= s < WORD_SIZE
    ensures Log2Floor(s) >= 2 && SizeToIdx(s) >= 0
    ensures s <= IdxToSize(SizeToIdx(s)) <==> s <= 0x3800_0000
  {
    if s <= 0x3800_0000 {
      SizeClassFits(s);
    } else {
      FloorFacts(s);
      LargePowers();
      var l := Log2Floor(s);
      if l < 29 { Pow2Mono(l + 1, 29); }
      var m := Pow2(l - 2);
      ShiftedPart(s, m);
      var q := (s - 1) / m;
      assert l == 29 ==> m == Pow2(27) && q == 7;
      var idx := SizeToIdx(s);
      assert idx == 4 * l + (q - 3);
      assert idx / 4 >= 30;
      OverflownClass(idx);
    }
  }

  /** From index 120 on the class value has lost its leading bit. */
  lemma OverflownClass(idx: nat)
    requires idx >= 120
    ensures IdxToSize(idx) < 0x3000_0000 + 1
  {
    var e := idx / 4 - 30;
    LargePowers();
    Pow2Add(30, e);
    var x := (4 + idx % 4) * Pow2(e);
    assert (4 + idx % 4) * Pow2(idx / 4) == 0x4000_0000 * x;
    WrapsToQuarter(x);
  }

  lemma WrapsToQuarter(x: nat)
    ensures (0x4000_0000 * x % WORD_SIZE) / 4 <= 0x3000_0000
  {
    var q, r := x / 4, x % 4;
    assert 0x4000_0000 * x == WORD_SIZE * q + 0x4000_0000 * r;
    DivUnique(0x4000_0000 * x, WORD_SIZE, q, 0x4000_0000 * r);
  }

  /** The number of pools and the largest pooled size, as the formulas give them. */
  lemma PoolTable()
    ensures Log2Floor(4 * 4096) >= 2 && SizeToIdx(4 * 4096) + 1 == NR_SMALL_POOLS
    ensures IdxToSize(NR_SMALL_POOLS - 1) == MAX_SMALL_ALLOCATION
  {
    assert Pow2(8) == 256 && Pow2(4) == 16 && Pow2(6) == 64 && Pow2(7) == 128;
    Pow2Add(8, 4);
    Pow2Add(8, 6);
    Pow2Add(8, 7);
    BitLengthUnique(16384, 15);
  }
}
