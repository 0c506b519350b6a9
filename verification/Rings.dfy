/**
 * Ring storage of a power-of-two size (core/circular_buffer.hh, core/chunked_fifo.hh): positions are
 * masked when a slot is accessed. Positions here are unbounded; that they wrap around in a machine
 * word of a multiple of the size makes no difference.
 */
module Rings {
  import opened Bits

  /** idx & (capacity - 1) for a capacity of 2^k. */
  function Mask(idx: int, k: nat): (r: nat)
    ensures r < Pow2(k)
  {
    idx % Pow2(k)
  }

  lemma ModShift(x: int, m: int, q: int)
    requires m > 0
    ensures (x + m * q) % m == x % m
  {
    var d, r := x / m, x % m;
    assert x == m * d + r;
    assert x + m * q == m * (d + q) + r;
    DivUnique(x + m * q, m, d + q, r);
  }

  lemma ModBack(x: int, m: int, w: int)
    requires m > 0 && w % m == 0
    ensures (x + w) % m == x % m && (x - w) % m == x % m
  {
    assert w == m * (w / m);
    ModShift(x, m, w / m);
    ModShift(x, m, -(w / m));
  }

  lemma ModDiffer(i: int, j: int, m: int)
    requires m > 0 && i < j < i + m
    ensures i % m != j % m
  {
    var q, r, d := i / m, i % m, j - i;
    assert i == m * q + r;
    if r + d < m {
      DivUnique(j, m, q, r + d);
    } else {
      assert j == m * (q + 1) + (r + d - m);
      DivUnique(j, m, q + 1, r + d - m);
    }
  }

  /** The slot of the element at offset j from position b. */
  function Slot(b: int, j: int, k: nat): (r: nat)
    ensures r < Pow2(k)
  {
    Mask(b + j, k)
  }

  /** Offsets less than the capacity apart have different slots. */
  lemma SlotsDiffer(b: int, i: int, j: int, k: nat)
    requires i < j < i + Pow2(k)
    ensures Slot(b, i, k) != Slot(b, j, k)
  {
    ModDiffer(b + i, b + j, Pow2(k));
  }

  /** Slots do not see a position that is off by a multiple of the storage size. */
  lemma SlotShift(b: int, j: int, k: nat, w: int)
    requires w % Pow2(k) == 0
    ensures Slot(b + w, j, k) == Slot(b, j, k) && Slot(b - w, j, k) == Slot(b, j, k)
  {
    ModBack(b + j, Pow2(k), w);
    assert b + w + j == b + j + w && b - w + j == b + j - w;
  }

  /** A power of two is a multiple of the smaller ones. */
  lemma Pow2Divides(k: nat, n: nat)
    requires k <= n
    ensures Pow2(n) % Pow2(k) == 0
  {
    Pow2Add(k, n - k);
    MultipleFacts(Pow2(k), Pow2(n - k));
  }

  // ---- positions in a machine word ----

  lemma WordSizes()
    ensures Pow2(32) == 0x1_0000_0000 && Pow2(64) == 0x1_0000_0000_0000_0000
  {
    var a: nat := 8;
    assert Pow2(a) == 256;
    Pow2Add(a, a);
    Pow2Add(2 * a, 2 * a);
    Pow2Add(4 * a, 4 * a);
  }

  /** Powers of two divide the range of a word they fit in. */
  lemma DividesWord(k: nat)
    requires k <= 64
    ensures 0x1_0000_0000_0000_0000 % Pow2(k) == 0 && (k <= 32 ==> 0x1_0000_0000 % Pow2(k) == 0)
  {
    WordSizes();
    Pow2Divides(k, 64);
    if k <= 32 {
      Pow2Divides(k, 32);
    }
  }

  /** A sum or difference of two numbers below range, as one of them. */
  function Wrap(i: int, range: int): (r: int)
    requires range > 0 && -range <= i < 2 * range
    ensures 0 <= r < range
  {
    if i < 0 then i + range else if i < range then i else i - range
  }

  /** Wrapping once or on the way makes no difference. */
  lemma WrapAgain(i: int, d: int, range: int)
    requires range > 0 && -range <= i < 2 * range && -range <= i + d < 2 * range && -range <= d <= range
    ensures -range <= Wrap(i, range) + d < 2 * range && Wrap(Wrap(i, range) + d, range) == Wrap(i + d, range)
  {
  }

  /** Slots do not see that the position wrapped around. */
  lemma SlotOfWrap(b: int, j: int, k: nat, range: int)
    requires range > 0 && range % Pow2(k) == 0 && -range <= b < 2 * range
    ensures Slot(Wrap(b, range), j, k) == Slot(b, j, k)
  {
    SlotShift(b, j, k, range);
  }

  /** How many positions there are from begin up to end. */
  function Distance(begin: int, end: int, range: int): (n: nat)
    requires 0 <= begin < range && 0 <= end < range
    ensures n < range && end == Wrap(begin + n, range)
  {
    Wrap(end - begin, range)
  }

  lemma DistanceShift(b: int, x: nat, y: nat, range: int)
    requires 0 <= b < range && x <= y < range
    ensures Distance(Wrap(b + x, range), Wrap(b + y, range), range) == y - x
  {
  }

  /** Two indices and their distances from b; a start that moves as far as they are apart. */
  lemma GapEnds(b: int, first: int, last: int, range: int)
    requires 0 <= b < range && 0 <= first < range && 0 <= last < range
             && Distance(b, first, range) <= Distance(b, last, range)
    ensures var i, j := Distance(b, first, range), Distance(b, last, range);
            && Wrap(b + i, range) == first && Wrap(b + j, range) == last
            && Distance(Wrap(b + (j - i), range), last, range) == i
  {
    var i, j := Distance(b, first, range), Distance(b, last, range);
    DistanceShift(b, j - i, j, range);
  }

  // ---- what the storage means, on sequences ----

  /** The n elements from position b on. */
  ghost function View<T>(s: seq<T>, b: int, n: nat, k: nat): (v: seq<T>)
    requires |s| == Pow2(k)
    ensures |v| == n && forall j {:trigger v[j]} {:trigger Slot(b, j, k)} :: 0 <= j < n ==> v[j] == s[Slot(b, j, k)]
  {
    seq(n, j requires 0 <= j < n => s[Slot(b, j, k)])
  }

  lemma ViewShift<T>(s: seq<T>, b: int, n: nat, k: nat, w: int)
    requires |s| == Pow2(k) && w % Pow2(k) == 0
    ensures View(s, b + w, n, k) == View(s, b, n, k) && View(s, b - w, n, k) == View(s, b, n, k)
  {
    forall j | 0 <= j < n ensures View(s, b + w, n, k)[j] == View(s, b, n, k)[j]
      && View(s, b - w, n, k)[j] == View(s, b, n, k)[j] {
      SlotShift(b, j, k, w);
    }
  }

  /** Writing the element at offset j. */
  lemma ViewUpdate<T>(s: seq<T>, b: int, n: nat, k: nat, j: nat, x: T)
    requires |s| == Pow2(k) && j < n <= Pow2(k)
    ensures View(s[Slot(b, j, k) := x], b, n, k) == View(s, b, n, k)[j := x]
  {
    var v, w := View(s, b, n, k), View(s[Slot(b, j, k) := x], b, n, k);
    forall i | 0 <= i < n ensures w[i] == v[j := x][i] {
      if i < j { SlotsDiffer(b, i, j, k); }
      if j < i { SlotsDiffer(b, j, i, k); }
    }
  }

  lemma ViewParts<T>(s: seq<T>, b: int, n: nat, k: nat, i: nat)
    requires |s| == Pow2(k) && i <= n
    ensures View(s, b, n, k)[i..] == View(s, b + i, n - i, k) && View(s, b, n, k)[..i] == View(s, b, i, k)
  {
    var v, w := View(s, b, n, k), View(s, b + i, n - i, k);
    forall j | 0 <= j < n - i ensures v[i..][j] == w[j] {
      assert Slot(b, i + j, k) == Slot(b + i, j, k);
    }
  }

  /** A new element behind the last one. */
  lemma ViewPushBack<T>(s: seq<T>, b: int, n: nat, k: nat, x: T)
    requires |s| == Pow2(k) && n < Pow2(k)
    ensures View(s[Slot(b, n, k) := x], b, n + 1, k) == View(s, b, n, k) + [x]
  {
    ViewUpdate(s, b, n + 1, k, n, x);
    ViewParts(s, b, n + 1, k, n);
    var v := View(s, b, n + 1, k);
    assert v[n := x] == v[..n] + [x];
  }

  /** A new element in front of the first one. */
  lemma ViewPushFront<T>(s: seq<T>, b: int, n: nat, k: nat, x: T)
    requires |s| == Pow2(k) && n < Pow2(k)
    ensures View(s[Slot(b - 1, 0, k) := x], b - 1, n + 1, k) == [x] + View(s, b, n, k)
  {
    ViewUpdate(s, b - 1, n + 1, k, 0, x);
    ViewParts(s, b - 1, n + 1, k, 1);
    var v := View(s, b - 1, n + 1, k);
    assert v[0 := x] == [x] + v[1..];
  }

  /** From position 0 on, the elements are at the front of the storage. */
  lemma ViewFromZero<T>(s: seq<T>, n: nat, k: nat)
    requires |s| == Pow2(k) && n <= Pow2(k)
    ensures View(s, 0, n, k) == s[..n]
  {
    forall j | 0 <= j < n ensures View(s, 0, n, k)[j] == s[..n][j] {
      DivUnique(j, Pow2(k), 0, j);
      assert Slot(0, j, k) == j;
    }
  }
}
