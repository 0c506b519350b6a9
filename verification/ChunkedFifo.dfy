/**
 * The chunked queue (core/chunked_fifo.hh): a linked list of fixed-size rings, of which only the first
 * and the last may have room, and a list of spare chunks. The memory the chunks are in is a map from
 * addresses to chunks.
 */
module ChunkedFifos {
  import opened Bits
  import opened Options
  import opened Rings

  /** The range of the 32-bit begin and end of a chunk. */
  const RANGE_BITS: nat := 32
  const RANGE: int := 0x1_0000_0000

  type Index = i: int | 0 <= i < RANGE

  /** The largest chunk for which the sum of two chunk sizes fits in 32 bits. */
  const MAX_BITS: nat := 30

  type Address = Option<nat>

  datatype Chunk<T> = Chunk(items: seq<T>, begin: Index, end: Index, next: Address)

  function Size<T>(c: Chunk<T>): nat {
    Distance(c.begin, c.end, RANGE)
  }

  ghost predicate Ok<T>(c: Chunk<T>, bits: nat) {
    |c.items| == Pow2(bits) && Size(c) <= Pow2(bits)
  }

  ghost function Elements<T>(c: Chunk<T>, bits: nat): (v: seq<T>)
    requires Ok(c, bits)
    ensures |v| == Size(c)
  {
    View(c.items, c.begin, Size(c), bits)
  }

  lemma Capacity(bits: nat)
    requires bits <= MAX_BITS
    ensures 0 < Pow2(bits) <= 0x4000_0000
  {
    Pow2Mono(bits, MAX_BITS);
    WordSizes();
    Pow2Add(2, MAX_BITS);
  }

  /** A new item in the slot of end. */
  function Added<T>(c: Chunk<T>, x: T, bits: nat): Chunk<T>
    requires |c.items| == Pow2(bits)
  {
    c.(items := c.items[Mask(c.end, bits) := x], end := Wrap(c.end + 1, RANGE))
  }

  lemma AddedOk<T>(c: Chunk<T>, x: T, bits: nat)
    requires Ok(c, bits) && bits <= MAX_BITS && Size(c) < Pow2(bits)
    ensures Ok(Added(c, x, bits), bits) && Size(Added(c, x, bits)) == Size(c) + 1
    ensures Elements(Added(c, x, bits), bits) == Elements(c, bits) + [x]
  {
    Capacity(bits);
    DividesWord(bits);
    SlotOfWrap(c.begin + Size(c), 0, bits, RANGE);
    assert Slot(c.begin + Size(c), 0, bits) == Slot(c.begin, Size(c), bits);
    ViewPushBack(c.items, c.begin, Size(c), bits, x);
  }

  /** The item in the slot of begin goes. */
  function Removed<T>(c: Chunk<T>): Chunk<T> {
    c.(begin := Wrap(c.begin + 1, RANGE))
  }

  lemma NextDistance(begin: Index, end: Index)
    requires Distance(begin, end, RANGE) > 0
    ensures Distance(Wrap(begin + 1, RANGE), end, RANGE) == Distance(begin, end, RANGE) - 1
  {
  }

  lemma RemovedOk<T>(c: Chunk<T>, bits: nat)
    requires Ok(c, bits) && bits <= MAX_BITS && Size(c) > 0
    ensures Ok(Removed(c), bits) && Size(Removed(c)) == Size(c) - 1
    ensures c.items[Mask(c.begin, bits)] == Elements(c, bits)[0] && Elements(Removed(c), bits) == Elements(c, bits)[1..]
  {
    Capacity(bits);
    NextDistance(c.begin, c.end);
    assert Slot(c.begin, 0, bits) == Mask(c.begin, bits);
    ViewParts(c.items, c.begin, Size(c), bits, 1);
    WordSizes();
    Pow2Divides(bits, RANGE_BITS);
    ViewShift(c.items, c.begin + 1, Size(c) - 1, bits, RANGE);
  }

  // ---- lists of chunks ----

  /** The memory without c. */
  function Without<T>(m: Memory<T>, c: nat): Memory<T> {
    map a | a in m && a != c :: m[a]
  }

  lemma OneLess<T>(m: Memory<T>, c: nat)
    requires c in m
    ensures |Without(m, c)| == |m| - 1
  {
    assert m == Without(m, c)[c := m[c]];
  }

  type Memory<T> = map<nat, Chunk<T>>

  /** cs are different chunks of the right size. */
  ghost predicate AllOk<T>(m: Memory<T>, cs: seq<nat>, bits: nat) {
    && (forall i {:trigger cs[i]} :: 0 <= i < |cs| ==> cs[i] in m && Ok(m[cs[i]], bits))
    && (forall i, j {:trigger cs[i], cs[j]} :: 0 <= i < j < |cs| ==> cs[i] != cs[j])
  }

  /** From first on, the chunks are linked in the order of cs. */
  ghost predicate Linked<T>(m: Memory<T>, cs: seq<nat>, first: Address)
    decreases |cs|
  {
    if cs == [] then first == None
    else first == Some(cs[0]) && cs[0] in m && Linked(m, cs[1..], m[cs[0]].next)
  }

  /** The elements of the chunks, in order. */
  ghost function Flat<T>(m: Memory<T>, cs: seq<nat>, bits: nat): (v: seq<T>)
    requires AllOk(m, cs, bits)
    decreases |cs|
  {
    if cs == [] then [] else
      assert forall i :: 0 <= i < |cs[1..]| ==> cs[1..][i] == cs[i + 1];
      Elements(m[cs[0]], bits) + Flat(m, cs[1..], bits)
  }

  lemma AllOkTail<T>(m: Memory<T>, cs: seq<nat>, bits: nat)
    requires AllOk(m, cs, bits) && cs != []
    ensures AllOk(m, cs[1..], bits) && cs[0] !in cs[1..]
  {
    assert forall i :: 0 <= i < |cs[1..]| ==> cs[1..][i] == cs[i + 1];
  }

  lemma {:induction false} FlatAppend<T>(m: Memory<T>, cs: seq<nat>, c: nat, bits: nat)
    requires AllOk(m, cs, bits) && c in m && Ok(m[c], bits) && c !in cs
    ensures AllOk(m, cs + [c], bits) && Flat(m, cs + [c], bits) == Flat(m, cs, bits) + Elements(m[c], bits)
    decreases |cs|
  {
    if cs == [] {
      assert (cs + [c])[1..] == [];
    } else {
      AllOkTail(m, cs, bits);
      assert (cs + [c])[1..] == cs[1..] + [c];
      FlatAppend(m, cs[1..], c, bits);
    }
  }

  /** Changes to other chunks, and to links, do not change the elements. */
  lemma {:induction false} FlatSame<T>(m: Memory<T>, m2: Memory<T>, cs: seq<nat>, bits: nat)
    requires AllOk(m, cs, bits)
    requires forall i {:trigger cs[i]} :: 0 <= i < |cs| ==>
             cs[i] in m2 && m2[cs[i]] == m[cs[i]].(next := m2[cs[i]].next)
    ensures AllOk(m2, cs, bits) && Flat(m2, cs, bits) == Flat(m, cs, bits)
    decreases |cs|
  {
    if cs != [] {
      AllOkTail(m, cs, bits);
      assert forall i :: 0 <= i < |cs[1..]| ==> cs[1..][i] == cs[i + 1];
      FlatSame(m, m2, cs[1..], bits);
    }
  }

  lemma {:induction false} LinkedSame<T>(m: Memory<T>, m2: Memory<T>, cs: seq<nat>, first: Address)
    requires Linked(m, cs, first) && forall i {:trigger cs[i]} :: 0 <= i < |cs| && cs[i] in m ==>
             cs[i] in m2 && m2[cs[i]].next == m[cs[i]].next
    ensures Linked(m2, cs, first)
    decreases |cs|
  {
    if cs != [] {
      assert forall i :: 0 <= i < |cs[1..]| ==> cs[1..][i] == cs[i + 1];
      LinkedSame(m, m2, cs[1..], m[cs[0]].next);
    }
  }

  /** A change to a chunk that is not in the list does not matter to it. */
  lemma Elsewhere<T>(m: Memory<T>, c: nat, r: Chunk<T>, cs: seq<nat>, first: Address, bits: nat)
    requires AllOk(m, cs, bits) && Linked(m, cs, first) && c !in cs
    ensures AllOk(m[c := r], cs, bits) && Linked(m[c := r], cs, first) && Flat(m[c := r], cs, bits) == Flat(m, cs, bits)
  {
    assert forall i {:trigger cs[i]} :: 0 <= i < |cs| ==> cs[i] in m && cs[i] != c;
    FlatSame(m, m[c := r], cs, bits);
    LinkedSame(m, m[c := r], cs, first);
  }

  /** The last chunk of a list is linked to a new one. */
  lemma {:induction false} LinkedAppend<T>(m: Memory<T>, m2: Memory<T>, cs: seq<nat>, c: nat, first: Address)
    requires Linked(m, cs, first) && cs != [] && c !in cs && c in m2 && m2[c].next == None
    requires forall i, j {:trigger cs[i], cs[j]} :: 0 <= i < j < |cs| ==> cs[i] != cs[j]
    requires forall i {:trigger cs[i]} :: 0 <= i < |cs| && cs[i] in m ==>
               cs[i] in m2 && m2[cs[i]].next == if i == |cs| - 1 then Some(c) else m[cs[i]].next
    ensures Linked(m2, cs + [c], first)
    decreases |cs|
  {
    assert (cs + [c])[1..] == cs[1..] + [c];
    if |cs| == 1 {
      assert cs[1..] == [] && [c][1..] == [];
      assert cs[0] in m2 && m2[cs[0]].next == Some(c);
      assert Linked(m2, [c], Some(c));
    } else {
      assert forall i :: 0 <= i < |cs[1..]| ==> cs[1..][i] == cs[i + 1];
      assert cs[0] in m2 && m2[cs[0]].next == m[cs[0]].next;
      LinkedAppend(m, m2, cs[1..], c, m[cs[0]].next);
    }
  }

  /** The list without its last chunk, once the chunk before that is not linked to it any more. */
  lemma {:induction false} LinkedCut<T>(m: Memory<T>, m2: Memory<T>, cs: seq<nat>, first: Address)
    requires Linked(m, cs, first) && |cs| > 1
    requires forall i {:trigger cs[i]} :: 0 <= i < |cs| - 1 && cs[i] in m ==>
               cs[i] in m2 && m2[cs[i]].next == if i == |cs| - 2 then None else m[cs[i]].next
    ensures Linked(m2, cs[..|cs| - 1], first)
    decreases |cs|
  {
    var front := cs[..|cs| - 1];
    assert cs[0] in m2;
    if |cs| == 2 {
      assert front[1..] == [];
    } else {
      assert forall i :: 0 <= i < |cs[1..]| ==> cs[1..][i] == cs[i + 1];
      assert front[1..] == cs[1..][..|cs[1..]| - 1];
      LinkedCut(m, m2, cs[1..], m[cs[0]].next);
    }
  }

  lemma {:induction false} LinkAt<T>(m: Memory<T>, cs: seq<nat>, first: Address, i: nat)
    requires Linked(m, cs, first) && i < |cs|
    ensures cs[i] in m && m[cs[i]].next == if i + 1 < |cs| then Some(cs[i + 1]) else None
    decreases i
  {
    if i > 0 {
      LinkAt(m, cs[1..], m[cs[0]].next, i - 1);
    } else if |cs| > 1 {
      assert Linked(m, cs[1..], m[cs[0]].next);
    } else {
      assert cs[1..] == [];
    }
  }

  /** The elements of n full chunks. */
  ghost function InFull(n: nat, bits: nat): nat {
    if n == 0 then 0 else InFull(n - 1, bits) + Pow2(bits)
  }

  lemma {:induction false} MoreInFull(i: nat, j: nat, bits: nat)
    requires i <= j
    ensures InFull(i, bits) <= InFull(j, bits)
    decreases j
  {
    if i < j {
      MoreInFull(i, j - 1, bits);
    }
  }

  function Times(n: nat, m: nat): nat {
    n * m
  }

  lemma {:induction false} InFullIsProduct(n: nat, bits: nat)
    ensures InFull(n, bits) == Times(n, Pow2(bits))
  {
    if n > 0 {
      InFullIsProduct(n - 1, bits);
    }
  }

  lemma {:induction false} FlatLength<T>(m: Memory<T>, cs: seq<nat>, bits: nat)
    requires AllOk(m, cs, bits) && forall i {:trigger cs[i]} :: 0 <= i < |cs| ==> Size(m[cs[i]]) == Pow2(bits)
    ensures |Flat(m, cs, bits)| == InFull(|cs|, bits)
    decreases |cs|
  {
    if cs != [] {
      AllOkTail(m, cs, bits);
      assert forall i :: 0 <= i < |cs[1..]| ==> cs[1..][i] == cs[i + 1];
      FlatLength(m, cs[1..], bits);
    }
  }

  lemma EmptyChunk<T>(r: Chunk<T>, bits: nat)
    requires Ok(r, bits) && r.begin == r.end
    ensures Elements(r, bits) == []
  {
  }

  lemma SplitLast<T>(m: Memory<T>, cs: seq<nat>, bits: nat)
    requires AllOk(m, cs, bits) && cs != []
    ensures var init, last := cs[..|cs| - 1], cs[|cs| - 1];
            && AllOk(m, init, bits) && last !in init
              && Flat(m, cs, bits) == Flat(m, init, bits) + Elements(m[last], bits)
  {
    var init, last := cs[..|cs| - 1], cs[|cs| - 1];
    assert cs == init + [last];
    assert forall i :: 0 <= i < |init| ==> init[i] == cs[i];
    FlatAppend(m, init, last, bits);
  }

  /** A chunk goes to the front of a list it is not in. */
  lemma PushFirst<T>(m: Memory<T>, c: nat, cs: seq<nat>, first: Address, bits: nat)
    requires AllOk(m, cs, bits) && Linked(m, cs, first) && c in m && Ok(m[c], bits) && c !in cs
    ensures var m2 := m[c := m[c].(next := first)];
            AllOk(m2, [c] + cs, bits) && Linked(m2, [c] + cs, Some(c))
  {
    Elsewhere(m, c, m[c].(next := first), cs, first, bits);
    assert ([c] + cs)[1..] == cs;
    assert forall i :: 0 < i < |[c] + cs| ==> ([c] + cs)[i] == cs[i - 1] && cs[i - 1] in cs;
  }

  /** The first chunk is replaced by one with the same link. */
  lemma FirstReplaced<T>(m: Memory<T>, cs: seq<nat>, first: Address, r: Chunk<T>, bits: nat)
    requires AllOk(m, cs, bits) && Linked(m, cs, first) && cs != [] && Ok(r, bits) && r.next == m[cs[0]].next
    ensures AllOk(m, cs[1..], bits) && cs[0] !in cs[1..]
    ensures AllOk(m[cs[0] := r], cs, bits) && Linked(m[cs[0] := r], cs, first)
    ensures Flat(m, cs, bits) == Elements(m[cs[0]], bits) + Flat(m, cs[1..], bits)
    ensures Flat(m[cs[0] := r], cs, bits) == Elements(r, bits) + Flat(m, cs[1..], bits)
  {
    var m2 := m[cs[0] := r];
    AllOkTail(m, cs, bits);
    Elsewhere(m, cs[0], r, cs[1..], m[cs[0]].next, bits);
    assert forall i {:trigger cs[i]} :: 0 < i < |cs| ==> cs[i] == cs[1..][i - 1] && cs[i] in m && cs[i] != cs[0];
    LinkedSame(m, m2, cs, first);
  }

  /** The last chunk is replaced by one with the same link. */
  lemma LastReplaced<T>(m: Memory<T>, cs: seq<nat>, first: Address, r: Chunk<T>, bits: nat)
    requires AllOk(m, cs, bits) && Linked(m, cs, first) && cs != [] && Ok(r, bits) && r.next == m[cs[|cs| - 1]].next
    ensures var init, last := cs[..|cs| - 1], cs[|cs| - 1];
            && AllOk(m[last := r], cs, bits) && Linked(m[last := r], cs, first) && AllOk(m, init, bits)
            && Flat(m, cs, bits) == Flat(m, init, bits) + Elements(m[last], bits)
            && Flat(m[last := r], cs, bits) == Flat(m, init, bits) + Elements(r, bits)
  {
    var init, last := cs[..|cs| - 1], cs[|cs| - 1];
    SplitLast(m, cs, bits);
    LinkedSame(m, m[last := r], cs, first);
    assert forall i {:trigger init[i]} :: 0 <= i < |init| ==> init[i] in init && init[i] != last;
    FlatSame(m, m[last := r], init, bits);
    SplitLast(m[last := r], cs, bits);
  }

  /** The memory without c, when p is not linked to it any more. */
  function Cut<T>(m: Memory<T>, c: nat, p: nat): Memory<T>
    requires p in m
  {
    map a | a in m && a != c :: if a == p then m[a].(next := None) else m[a]
  }

  lemma CutSize<T>(m: Memory<T>, c: nat, p: nat)
    requires c in m && p in m && p != c
    ensures |Cut(m, c, p)| == |m| - 1
  {
    OneLess(m, c);
    assert Cut(m, c, p) == Without(m, c)[p := m[p].(next := None)];
  }

  /** An empty last chunk is cut off. */
  lemma CutLast<T>(m: Memory<T>, cs: seq<nat>, first: Address, bits: nat)
    requires AllOk(m, cs, bits) && Linked(m, cs, first) && |cs| > 1 && m[cs[|cs| - 1]].begin == m[cs[|cs| - 1]].end
    ensures var init, last, p := cs[..|cs| - 1], cs[|cs| - 1], cs[|cs| - 2];
            var m2 := Cut(m, last, p);
            && AllOk(m2, init, bits) && Linked(m2, init, first) && Flat(m2, init, bits) == Flat(m, cs, bits)
            && (forall i {:trigger init[i]} :: 0 <= i < |init| ==>
              init[i] in m2 && Size(m2[init[i]]) == Size(m[init[i]]))
  {
    var init, last, p := cs[..|cs| - 1], cs[|cs| - 1], cs[|cs| - 2];
    var m2 := Cut(m, last, p);
    SplitLast(m, cs, bits);
    EmptyChunk(m[last], bits);
    assert forall i {:trigger init[i]} :: 0 <= i < |init| ==> init[i] == cs[i] && init[i] != last && init[i] in m2;
    LinkedCut(m, m2, cs, first);
    FlatSame(m, m2, init, bits);
  }

  const SIZE_RANGE: int := 0x1_0000_0000_0000_0000

  /** The need as it is divided. */
  function Rounded(need: int, m: nat): (r: nat)
    requires m > 0
  {
    (need % SIZE_RANGE + m - 1) % SIZE_RANGE
  }

  /** How many chunks reserve() wants for n elements, in size_t arithmetic; room is what the last chunk still holds. */
  function NeededChunks(n: nat, size: nat, room: nat, bits: nat): nat {
    Quotient(Rounded(n - size - room, Pow2(bits)), Pow2(bits))
  }

  function Quotient(x: nat, m: nat): nat
    requires m > 0
  {
    x / m
  }

  /** A caller can check this: what is needed neither wraps around below a chunk nor close to the end of size_t. */
  predicate NeedInRange(n: nat, size: nat, room: nat, bits: nat) {
    0 - Pow2(bits) < n - size - room <= SIZE_RANGE - Pow2(bits)
  }

  /** k chunks of m are the fewest that hold what is needed. */
  predicate Fewest(k: nat, need: int, m: nat) {
    Times(k, m) >= need && (k > 0 ==> Times(k - 1, m) < need)
  }

  /** What wraps around when the need is rounded up to chunks. */
  lemma Rounding(need: int, m: nat)
    requires 0 - SIZE_RANGE / 2 - m < need < SIZE_RANGE && 0 < m <= 0x4000_0000
    ensures Rounded(need, m) == need + m - 1
            + if need <= 0 - m then SIZE_RANGE else if need > SIZE_RANGE - m then 0 - SIZE_RANGE else 0
  {
    assert need % SIZE_RANGE == if need < 0 then need + SIZE_RANGE else need;
  }

  lemma CeilDivision(need: int, m: nat)
    requires m > 0 && 0 - m < need
    ensures Fewest(Quotient(need + m - 1, m), need, m) && (need <= 0 ==> Quotient(need + m - 1, m) == 0)
  {
    var x := need + m - 1;
    assert x == m * (x / m) + x % m;
    if need <= 0 {
      DivUnique(x, m, 0, x);
    } else {
      assert m * (x / m - 1) == m * (x / m) - m;
    }
  }

  lemma LargeQuotient(x: nat, m: nat)
    requires m > 0
    ensures x - m < Times(Quotient(x, m), m) <= x
  {
    assert x == m * (x / m) + x % m;
  }

  lemma FarBelow(need: int, m: nat)
    requires 0 - SIZE_RANGE / 2 - m < need <= 0 - m && 0 < m <= 0x4000_0000
    ensures var k := Quotient(Rounded(need, m), m);
            Times(k, m) > SIZE_RANGE / 4 && !Fewest(k, need, m)
  {
    Rounding(need, m);
    LargeQuotient(need + m - 1 + SIZE_RANGE, m);
    assert 0 * m == 0;
  }

  lemma FarAbove(need: int, m: nat)
    requires SIZE_RANGE - m < need < SIZE_RANGE && 0 < m <= 0x4000_0000
    ensures Quotient(Rounded(need, m), m) == 0 && !Fewest(0, need, m)
  {
    Rounding(need, m);
    DivUnique(need + m - 1 - SIZE_RANGE, m, 0, need + m - 1 - SIZE_RANGE);
  }

  lemma InReach(need: int, m: nat)
    requires 0 - m < need <= SIZE_RANGE - m && 0 < m <= 0x4000_0000
    ensures var k := Quotient(Rounded(need, m), m);
            Fewest(k, need, m) && (need <= 0 ==> k == 0)
  {
    Rounding(need, m);
    CeilDivision(need, m);
  }

  /**
   * The chunks are the fewest that do if and only if the need is in range; for fewer elements than there
   * are, whether the need wraps around decides between none and about 2^64 elements' worth of chunks.
   */
  lemma NeededChunksExact(n: nat, size: nat, room: nat, bits: nat)
    requires n < SIZE_RANGE && size < SIZE_RANGE / 2 && room <= Pow2(bits) && bits <= MAX_BITS
    ensures var k := NeededChunks(n, size, room, bits);
            && (NeedInRange(n, size, room, bits) <==> Fewest(k, n - size - room, Pow2(bits)))
            && (n <= size ==>
                  if size - n + room < Pow2(bits) then k == 0 else Times(k, Pow2(bits)) > SIZE_RANGE / 4)
            && (n - size - room > SIZE_RANGE - Pow2(bits) ==> k == 0)
  {
    var m, need := Pow2(bits), n - size - room;
    Capacity(bits);
    if need <= 0 - m {
      FarBelow(need, m);
    } else if need > SIZE_RANGE - m {
      FarAbove(need, m);
    } else {
      InReach(need, m);
    }
  }

  /** reserve(10) on a queue of 300 elements, with 128 to a chunk, asks for more than 2^55 chunks. */
  lemma ReserveBelowSize(room: nat)
    requires room < 128
    ensures !NeedInRange(10, 300, room, 7) && NeededChunks(10, 300, room, 7) > 0x80_0000_0000_0000
  {
    assert Pow2(7) == 128 by {
      Pow2Add(3, 4);
    }
    NeededChunksExact(10, 300, room, 7);
  }

  class ChunkedFifo<T(0)> {
    const bits: nat
    var memory: Memory<T>
    /** Addresses from here on were never used: how often memory was allocated. */
    var unused: nat
    var front: Address
    var back: Address
    var nchunks: nat
    var free: Address
    var nfree: nat
    /** The chunks of the queue and the spare ones, in the order of their links. */
    ghost var chain: seq<nat>
    ghost var spare: seq<nat>

    /** All but that the first and the last chunk have an element. */
    ghost predicate Loose()
      reads this
    {
      && bits <= MAX_BITS
      && AllOk(memory, chain, bits) && Linked(memory, chain, front) && nchunks == |chain|
      && AllOk(memory, spare, bits) && Linked(memory, spare, free) && nfree == |spare|
      && (forall c :: c in memory ==> c < unused) && (forall c :: c in chain ==> c !in spare)
      && back == (if chain == [] then None else Some(chain[|chain| - 1]))
      && (forall i {:trigger chain[i]} :: 0 < i < |chain| - 1 ==> Size(memory[chain[i]]) == Pow2(bits))
    }

    /** All but that the last chunk has an element. */
    ghost predicate Good()
      reads this
    {
      Loose() && (|chain| > 1 ==> Size(memory[chain[0]]) > 0)
    }

    ghost predicate Valid()
      reads this
    {
      Good() && AllBut(0) && (chain != [] ==> Size(memory[chain[|chain| - 1]]) > 0)
    }

    /** All chunks in memory are in one of the lists, but for so many. */
    ghost predicate AllBut(others: nat)
      reads this
    {
      |memory| == |chain| + |spare| + others
    }

    /** The queue. */
    ghost function Contents(): seq<T>
      requires AllOk(memory, chain, bits)
      reads this
    {
      Flat(memory, chain, bits)
    }

    constructor (bits: nat)
      requires bits <= MAX_BITS
      ensures Valid() && Contents() == [] && unused == 0 && this.bits == bits
    {
      this.bits := bits;
      memory, unused, front, back, nchunks, free, nfree := map[], 0, None, None, 0, None, 0;
      chain, spare := [], [];
    }

    /** size(), in a 32-bit sum of the 32-bit sizes of the first and the last chunk. */
    method Length() returns (n: nat)
      requires Valid()
      ensures n == |Contents()|
    {
      if front == None {
        n := 0;
      } else if back == front {
        OneChunk();
        n := Size(memory[front.value]);
      } else {
        OneChunk();
        Capacity(bits);
        n := Wrap(Size(memory[front.value]) + Size(memory[back.value]), RANGE) + Times(nchunks - 2, Pow2(bits));
        InFullIsProduct(nchunks - 2, bits);
        SizeFormula();
      }
    }

    lemma OneChunk()
      requires Good() && chain != []
      ensures front == Some(chain[0]) && (back == front <==> |chain| == 1)
      ensures |chain| == 1 ==> |Contents()| == Size(memory[chain[0]])
    {
      if |chain| == 1 {
        AllOkTail(memory, chain, bits);
        assert chain[1..] == [];
        assert Contents() == Elements(memory[chain[0]], bits) + Flat(memory, chain[1..], bits);
      } else {
        assert chain[0] != chain[|chain| - 1];
      }
    }

    lemma SizeFormula()
      requires Good() && |chain| >= 2
      ensures |Contents()| == Wrap(Size(memory[chain[0]]) + Size(memory[chain[|chain| - 1]]), RANGE)
              + InFull(|chain| - 2, bits)
    {
      Capacity(bits);
      AllOkTail(memory, chain, bits);
      var mid := chain[1..|chain| - 1];
      assert forall i :: 0 <= i < |mid| ==> mid[i] == chain[i + 1];
      assert chain[1..] == mid + [chain[|chain| - 1]];
      FlatAppend(memory, mid, chain[|chain| - 1], bits);
      FlatLength(memory, mid, bits);
    }

    method RecycleChunk() returns (c: nat)
      requires Good() && spare != []
      modifies `memory, `free, `nfree, `spare
      ensures Good() && c == old(spare)[0] && spare == old(spare)[1..] && c !in chain && c !in spare
              && Contents() == old(Contents())
      ensures c in memory && memory == old(memory)[c := memory[c]] && |memory[c].items| == Pow2(bits)
      ensures |memory| == |old(memory)| && memory[c].begin == 0 && memory[c].end == 0 && memory[c].next == None
    {
      c := TakeSpare();
      Reset(c);
    }

    /** The first spare chunk leaves the list. */
    method TakeSpare() returns (c: nat)
      requires Good() && spare != []
      modifies `free, `nfree, `spare
      ensures Good() && c == old(spare)[0] && spare == old(spare)[1..] && c !in chain && c !in spare && c in memory
              && Ok(memory[c], bits)
    {
      c := free.value;
      AllOkTail(memory, spare, bits);
      assert c in spare;
      free, nfree, spare := memory[c].next, nfree - 1, spare[1..];
    }

    /** A chunk that is in no list becomes empty. */
    method Reset(c: nat)
      requires Good() && c in memory && c !in chain && c !in spare
      modifies `memory
      ensures Good() && memory == old(memory)[c := old(memory)[c].(next := None, begin := 0, end := 0)]
              && Contents() == old(Contents())
    {
      ghost var r := memory[c].(next := None, begin := 0, end := 0);
      Elsewhere(memory, c, r, chain, front, bits);
      Elsewhere(memory, c, r, spare, free, bits);
      memory := memory[c := memory[c].(next := None, begin := 0, end := 0)];
    }

    /** A new chunk, with whatever its memory holds. */
    method NewChunk() returns (c: nat)
      requires Good()
      modifies `memory, `unused
      ensures Good() && c == old(unused) == unused - 1 && c !in chain && c !in spare && Contents() == old(Contents())
      ensures c in memory && memory == old(memory)[c := memory[c]] && |memory[c].items| == Pow2(bits)
      ensures |memory| == |old(memory)| + 1 && memory[c].begin == 0 && memory[c].end == 0 && memory[c].next == None
    {
      c := unused;
      var junk: T := *;
      var r := Chunk(seq(Pow2(bits), i => junk), 0, 0, None);
      Elsewhere(memory, c, r, chain, front, bits);
      Elsewhere(memory, c, r, spare, free, bits);
      memory, unused := memory[c := r], unused + 1;
    }

    ghost predicate LastFull()
      requires Good()
      reads this
    {
      chain != [] ==> Size(memory[chain[|chain| - 1]]) == Pow2(bits)
    }

    /** c becomes the last chunk. */
    method AppendChunk(c: nat)
      requires Good() && LastFull() && AllBut(1)
      requires c in memory && c !in chain && c !in spare && |memory[c].items| == Pow2(bits)
      requires memory[c].begin == 0 && memory[c].end == 0 && memory[c].next == None
      modifies `memory, `front, `back, `nchunks, `chain
      ensures Good() && chain == old(chain) + [c] && Size(memory[c]) == 0 && Contents() == old(Contents())
      ensures AllBut(0)
    {
      Capacity(bits);
      if back.Some? {
        LinkLast(c);
      } else {
        LinkFirst(c);
      }
      Extend(c);
    }

    /** c is linked; it is the last chunk from now on. */
    method Extend(c: nat)
      requires bits <= MAX_BITS && nchunks == |chain| && nfree == |spare| && c !in spare && c !in chain
      requires AllOk(memory, chain + [c], bits) && Linked(memory, chain + [c], front)
      requires AllOk(memory, spare, bits) && Linked(memory, spare, free)
      requires (forall a :: a in memory ==> a < unused) && (forall a :: a in chain ==> a !in spare)
      requires chain != [] ==> chain[0] in memory && Size(memory[chain[0]]) > 0
      requires forall i {:trigger chain[i]} :: 0 <= i < |chain| ==> chain[i] in memory
      requires forall i {:trigger chain[i]} :: 0 < i < |chain| ==> Size(memory[chain[i]]) == Pow2(bits)
      modifies `back, `nchunks, `chain
      ensures Good() && chain == old(chain) + [c]
    {
      back, nchunks := Some(c), nchunks + 1;
      chain := chain + [c];
    }

    /** c is the first chunk. */
    method LinkFirst(c: nat)
      requires Good() && chain == [] && c in memory && Ok(memory[c], bits)
      requires memory[c].begin == 0 && memory[c].end == 0 && memory[c].next == None
      modifies `front
      ensures AllOk(memory, chain + [c], bits) && Flat(memory, chain + [c], bits) == Flat(memory, chain, bits)
      ensures Linked(memory, chain + [c], front)
    {
      front := Some(c);
      assert (chain + [c])[1..] == [];
      assert Linked(memory, [], memory[c].next);
      FlatAppend(memory, chain, c, bits);
      EmptyChunk(memory[c], bits);
    }

    /** The last chunk is linked to c. */
    method LinkLast(c: nat)
      requires Good() && chain != [] && c in memory && c !in chain && c !in spare && Ok(memory[c], bits)
      requires memory[c].begin == 0 && memory[c].end == 0 && memory[c].next == None
      modifies `memory
      ensures var last := chain[|chain| - 1];
              last in old(memory) && memory == old(memory)[last := old(memory)[last].(next := Some(c))]
      ensures AllOk(memory, chain, bits) && AllOk(memory, chain + [c], bits)
              && Flat(memory, chain + [c], bits) == old(Contents())
      ensures Linked(memory, chain + [c], front)
      ensures AllOk(memory, spare, bits) && Linked(memory, spare, free)
    {
      ghost var m := memory;
      ghost var last := chain[|chain| - 1];
      assert last in chain;
      Elsewhere(m, last, m[last].(next := Some(c)), spare, free, bits);
      memory := memory[back.value := memory[back.value].(next := Some(c))];
      LinkedAppend(m, memory, chain, c, front);
      FlatSame(m, memory, chain, bits);
      FlatAppend(memory, chain, c, bits);
      EmptyChunk(memory[c], bits);
    }

    /** A spare chunk or a new one. */
    method SpareOrNew() returns (c: nat)
      requires Good() && LastFull() && AllBut(0)
      modifies `memory, `unused, `free, `nfree, `spare
      ensures Good() && AllBut(1) && LastFull() && Contents() == old(Contents())
      ensures c in memory && c !in chain && c !in spare
      ensures |memory[c].items| == Pow2(bits) && memory[c].begin == 0 && memory[c].end == 0 && memory[c].next == None
      ensures if old(spare) == [] then spare == [] && unused == old(unused) + 1
              else spare == old(spare)[1..] && unused == old(unused)
    {
      assert chain != [] ==> chain[|chain| - 1] in chain;
      if free.Some? {
        c := RecycleChunk();
      } else {
        c := NewChunk();
      }
    }

    /** back_chunk_new(): a spare chunk or a new one, at the end. */
    method BackChunkNew()
      requires Good() && LastFull() && AllBut(0)
      modifies this
      ensures Good() && AllBut(0) && Contents() == old(Contents())
      ensures chain != [] && Size(memory[chain[|chain| - 1]]) == 0
      ensures if old(spare) == [] then spare == [] && unused == old(unused) + 1
              else spare == old(spare)[1..] && unused == old(unused)
    {
      var c := SpareOrNew();
      AppendChunk(c);
    }

    /** ensure_room_back(): a new chunk if there is none or the last one is full. */
    method EnsureRoomBack()
      requires Valid()
      modifies this
      ensures Good() && AllBut(0) && Contents() == old(Contents())
      ensures chain != [] && Size(memory[chain[|chain| - 1]]) < Pow2(bits)
      ensures old(Room()) > 0 ==> Room() == old(Room()) && unused == old(unused)
      ensures OneChunkAtMost(old(LastRoom()), old(spare), old(unused))
    {
      Capacity(bits);
      if back == None || Size(memory[back.value]) == Pow2(bits) {
        BackChunkNew();
      }
    }

    /** A chunk was needed if there was no room: a spare one if there was any, else a new one. */
    ghost predicate OneChunkAtMost(room: nat, spares: seq<nat>, wasUnused: nat)
      reads this
    {
      if room > 0 then spare == spares && unused == wasUnused
      else if spares == [] then spare == [] && unused == wasUnused + 1
      else spare == spares[1..] && unused == wasUnused
    }

    /** What the last chunk still holds. */
    ghost function LastRoom(): (room: nat)
      requires Good()
      reads this
      ensures room <= Pow2(bits)
    {
      if chain == [] then 0 else Pow2(bits) - Size(memory[chain[|chain| - 1]])
    }

    /** How many elements can be pushed before memory is allocated again, if none is popped. */
    ghost function Room(): nat
      requires Good()
      reads this
    {
      InFull(|spare|, bits) + LastRoom()
    }

    /** The last chunk is changed in its elements only. */
    lemma LastChanged(r: Chunk<T>)
      requires Good() && chain != [] && Ok(r, bits) && r.next == memory[chain[|chain| - 1]].next
      ensures var last := chain[|chain| - 1];
              last in memory &&
              var m2 := memory[last := r];
              && AllOk(m2, chain, bits) && Linked(m2, chain, front)
              && AllOk(m2, spare, bits) && Linked(m2, spare, free)
              && AllOk(memory, chain[..|chain| - 1], bits)
              && Flat(memory, chain, bits) == Flat(memory, chain[..|chain| - 1], bits) + Elements(memory[last], bits)
              && Flat(m2, chain, bits) == Flat(memory, chain[..|chain| - 1], bits) + Elements(r, bits)
    {
      var last := chain[|chain| - 1];
      assert last in chain;
      Elsewhere(memory, last, r, spare, free, bits);
      LastReplaced(memory, chain, front, r, bits);
    }

    method AddToLast(x: T)
      requires Good() && AllBut(0) && chain != [] && Size(memory[chain[|chain| - 1]]) < Pow2(bits)
      modifies `memory
      ensures Valid() && Contents() == old(Contents()) + [x] && Room() == old(Room()) - 1
    {
      ghost var last := chain[|chain| - 1];
      AddedOk(memory[last], x, bits);
      ReplaceLast(Added(memory[back.value], x, bits));
    }

    method ReplaceLast(r: Chunk<T>)
      requires Good() && AllBut(0) && chain != []
      requires Ok(r, bits) && Size(r) > 0 && r.next == memory[chain[|chain| - 1]].next
      modifies `memory
      ensures var last := chain[|chain| - 1]; last in old(memory) && memory == old(memory)[last := r]
      ensures Valid() && AllOk(old(memory), chain[..|chain| - 1], bits)
      ensures Contents() == Flat(old(memory), chain[..|chain| - 1], bits) + Elements(r, bits)
      ensures old(Contents()) == Flat(old(memory), chain[..|chain| - 1], bits)
              + Elements(old(memory)[chain[|chain| - 1]], bits)
    {
      LastChanged(r);
      assert forall i {:trigger chain[i]} :: 0 <= i < |chain| - 1 ==> chain[i] != chain[|chain| - 1];
      memory := memory[back.value := r];
    }

    /**
     * push_back(). fails is whether the construction of the new element throws; then the queue is as
     * it was.
     */
    method PushBack(x: T, fails: bool)
      requires Valid()
      modifies this
      ensures Valid() && Contents() == if fails then old(Contents()) else old(Contents()) + [x]
      ensures !fails && old(Room()) > 0 ==> unused == old(unused) && Room() == old(Room()) - 1
      ensures OneChunkAtMost(old(LastRoom()), old(spare), old(unused))
    {
      EnsureRoomBack();
      if fails {
        UndoRoomBack();
      } else {
        AddToLast(x);
      }
    }

    /** undo_room_back(): an empty last chunk is deleted; the one before it is searched from the front. */
    method UndoRoomBack()
      requires Good() && AllBut(0) && chain != []
      modifies this
      ensures Valid() && Contents() == old(Contents()) && spare == old(spare) && unused == old(unused)
    {
      if memory[back.value].begin == memory[back.value].end {
        if nchunks == 1 {
          DropOnly();
        } else {
          DropLast();
        }
      }
    }

    method DropOnly()
      requires Good() && AllBut(0) && |chain| == 1 && memory[chain[0]].begin == memory[chain[0]].end
      modifies this
      ensures Valid() && Contents() == old(Contents()) && spare == old(spare) && unused == old(unused)
    {
      OneChunk();
      ghost var c, m := chain[0], memory;
      assert c in chain;
      Deleted(c, spare, free);
      OneLess(memory, c);
      memory := Without(memory, back.value);
      nchunks, back, front := nchunks - 1, None, None;
      chain := [];
    }

    /** A list does not miss a chunk that was not in it. */
    lemma Deleted(c: nat, cs: seq<nat>, first: Address)
      requires AllOk(memory, cs, bits) && Linked(memory, cs, first) && c !in cs
      ensures var m2 := Without(memory, c);
              AllOk(m2, cs, bits) && Linked(m2, cs, first) && Flat(m2, cs, bits) == Flat(memory, cs, bits)
    {
      var m2 := Without(memory, c);
      assert forall i {:trigger cs[i]} :: 0 <= i < |cs| ==> cs[i] in m2 && m2[cs[i]] == memory[cs[i]];
      FlatSame(memory, m2, cs, bits);
      LinkedSame(memory, m2, cs, first);
    }

    /** The chunk before the last one, found by going through the list. */
    method BeforeLast() returns (p: nat)
      requires Good() && |chain| > 1
      ensures p == chain[|chain| - 2]
    {
      p := front.value;
      ghost var i: nat := 0;
      LinkAt(memory, chain, front, 0);
      while memory[p].next != back
        invariant i < |chain| - 1 && p == chain[i] && p in memory && memory[p].next == Some(chain[i + 1])
        decreases |chain| - i
      {
        assert i + 1 != |chain| - 1;
        p, i := memory[p].next.value, i + 1;
        LinkAt(memory, chain, front, i);
      }
      assert i + 1 == |chain| - 1;
    }

    method DropLast()
      requires Good() && AllBut(0) && |chain| > 1 && memory[chain[|chain| - 1]].begin == memory[chain[|chain| - 1]].end
      modifies this
      ensures Valid() && Contents() == old(Contents()) && spare == old(spare) && unused == old(unused)
    {
      var p := BeforeLast();
      var c := back.value;
      LastCut();
      CutSize(memory, c, p);
      memory := Cut(memory, c, p);
      back, nchunks := Some(p), nchunks - 1;
      chain := chain[..|chain| - 1];
    }

    lemma LastCut()
      requires Good() && |chain| > 1 && memory[chain[|chain| - 1]].begin == memory[chain[|chain| - 1]].end
      ensures var last, p, init := chain[|chain| - 1], chain[|chain| - 2], chain[..|chain| - 1];
              p in memory &&
              var m2 := Cut(memory, last, p);
              && AllOk(m2, init, bits) && Linked(m2, init, front) && Flat(m2, init, bits) == Contents()
              && (forall i {:trigger init[i]} :: 0 <= i < |init| ==>
                init[i] in m2 && Size(m2[init[i]]) == Size(memory[init[i]]))
              && AllOk(m2, spare, bits) && Linked(m2, spare, free)
    {
      assert chain[|chain| - 1] in chain && chain[|chain| - 2] in chain;
      CutLast(memory, chain, front, bits);
      SpareUncut(chain[|chain| - 1], chain[|chain| - 2]);
    }

    lemma SpareUncut(last: nat, p: nat)
      requires Good() && last in chain && p in chain
      ensures p in memory && AllOk(Cut(memory, last, p), spare, bits) && Linked(Cut(memory, last, p), spare, free)
    {
      var m2 := Cut(memory, last, p);
      assert forall i {:trigger spare[i]} :: 0 <= i < |spare| ==>
             spare[i] in spare && spare[i] != last && spare[i] != p;
      FlatSame(memory, m2, spare, bits);
      LinkedSame(memory, m2, spare, free);
    }

    /** front(). */
    method Front() returns (x: T)
      requires Valid() && chain != []
      ensures Contents() != [] && x == Contents()[0]
    {
      OneChunk();
      AllOkTail(memory, chain, bits);
      assert chain[0] in chain;
      RemovedOk(memory[front.value], bits);
      x := memory[front.value].items[Mask(memory[front.value].begin, bits)];
    }

    /** pop_front(): an empty first chunk goes, to the spare ones if there is none. */
    method PopFront()
      requires Valid() && chain != []
      modifies this
      ensures Valid() && old(Contents()) != [] && Contents() == old(Contents())[1..] && unused == old(unused)
      ensures old(chain[0]) in old(memory) &&
              if old(Size(memory[chain[0]])) > 1 then chain == old(chain) && spare == old(spare)
              else chain == old(chain)[1..] && spare == if old(spare) == [] then [old(chain[0])] else old(spare)
    {
      AllOkTail(memory, chain, bits);
      RemoveFirst();
      if memory[front.value].begin == memory[front.value].end {
        FrontChunkDelete();
      }
    }

    lemma FirstRemoved()
      requires Valid() && chain != []
      ensures var c := chain[0];
              c in memory &&
              var m2 := memory[c := Removed(memory[c])];
              && AllOk(m2, chain, bits) && Linked(m2, chain, front)
              && AllOk(m2, spare, bits) && Linked(m2, spare, free)
              && Contents() != [] && Flat(m2, chain, bits) == Contents()[1..]
    {
      var c := chain[0];
      assert c in chain;
      assert Size(memory[c]) > 0;
      RemovedOk(memory[c], bits);
      FirstReplaced(memory, chain, front, Removed(memory[c]), bits);
      Elsewhere(memory, c, Removed(memory[c]), spare, free, bits);
    }

    method RemoveFirst()
      requires Valid() && chain != []
      modifies `memory
      ensures Loose() && AllBut(0) && old(Contents()) != [] && Contents() == old(Contents())[1..]
      ensures chain[0] in old(memory) && chain[0] in memory && memory[chain[0]] == Removed(old(memory)[chain[0]])
      ensures |chain| > 1 ==> Size(memory[chain[|chain| - 1]]) > 0
    {
      FirstRemoved();
      assert forall i {:trigger chain[i]} :: 0 < i < |chain| ==> chain[i] != chain[0];
      memory := memory[front.value := Removed(memory[front.value])];
    }

    /** front_chunk_delete(). */
    method FrontChunkDelete()
      requires Loose() && AllBut(0) && chain != [] && memory[chain[0]].begin == memory[chain[0]].end
      requires |chain| > 1 ==> Size(memory[chain[|chain| - 1]]) > 0
      modifies this
      ensures Valid() && Contents() == old(Contents()) && unused == old(unused)
      ensures chain == old(chain)[1..] && spare == if old(spare) == [] then [old(chain[0])] else old(spare)
    {
      var next := memory[front.value].next;
      TakeFirst();
      Unchain(next);
    }

    /** At most one chunk is saved. */
    method FreeFirst()
      requires Loose() && AllBut(0) && chain != [] && chain[0] !in chain[1..] && chain[0] !in spare
      requires AllOk(memory, chain[1..], bits) && Linked(memory, chain[1..], memory[chain[0]].next)
      modifies `memory, `free, `nfree, `spare
      ensures Freed(old(memory)) && spare == if old(spare) == [] then [chain[0]] else old(spare)
    {
      if nfree < 1 {
        SaveFirst();
      } else {
        DeleteFirst();
      }
    }

    /** The first chunk becomes a spare one. */
    method SaveFirst()
      requires Loose() && AllBut(0) && chain != [] && chain[0] !in chain[1..] && chain[0] !in spare
      requires AllOk(memory, chain[1..], bits) && Linked(memory, chain[1..], memory[chain[0]].next)
      modifies `memory, `free, `nfree, `spare
      ensures Freed(old(memory)) && spare == [chain[0]] + old(spare)
    {
      ghost var c := chain[0];
      assert c in chain;
      PushFirst(memory, c, spare, free, bits);
      Elsewhere(memory, c, memory[c].(next := free), chain[1..], memory[c].next, bits);
      memory := memory[front.value := memory[front.value].(next := free)];
      free, nfree := front, nfree + 1;
      spare := [c] + spare;
    }

    /** The first chunk is given back. */
    method DeleteFirst()
      requires Loose() && AllBut(0) && chain != [] && chain[0] !in chain[1..] && chain[0] !in spare
      requires AllOk(memory, chain[1..], bits) && Linked(memory, chain[1..], memory[chain[0]].next)
      modifies `memory
      ensures Freed(old(memory))
    {
      ghost var c := chain[0];
      assert c in chain;
      Deleted(c, chain[1..], memory[c].next);
      Deleted(c, spare, free);
      OneLess(memory, c);
      memory := Without(memory, front.value);
    }

    /** The first chunk is out of the way: the others, in the memory m before, are as they were. */
    ghost predicate Freed(m: Memory<T>)
      requires chain != [] && chain[0] in m && AllOk(m, chain[1..], bits)
      reads this
    {
      && |memory| + 1 == |chain| + |spare|
      && AllOk(memory, chain[1..], bits) && Linked(memory, chain[1..], m[chain[0]].next)
      && Flat(memory, chain[1..], bits) == Flat(m, chain[1..], bits)
      && AllOk(memory, spare, bits) && Linked(memory, spare, free) && nfree == |spare|
      && (forall a :: a in memory ==> a < unused) && (forall a :: a in chain[1..] ==> a !in spare)
      && (forall i {:trigger chain[i]} :: 0 < i < |chain| ==>
        chain[i] in memory && chain[i] in m && Size(memory[chain[i]]) == Size(m[chain[i]]))
    }

    /** But for the first chunk, which is out of the way, all is as it should be, with next as the first one. */
    ghost predicate MayUnchain(next: Address)
      reads this
    {
      && |memory| + 1 == |chain| + |spare|
      && bits <= MAX_BITS && chain != [] && nchunks == |chain| && front == Some(chain[0])
      && back == Some(chain[|chain| - 1])
      && (forall i, j {:trigger chain[i], chain[j]} :: 0 <= i < j < |chain| ==> chain[i] != chain[j])
      && AllOk(memory, chain[1..], bits) && Linked(memory, chain[1..], next)
      && AllOk(memory, spare, bits) && Linked(memory, spare, free) && nfree == |spare|
      && (forall a :: a in memory ==> a < unused) && (forall a :: a in chain[1..] ==> a !in spare)
      && (forall i {:trigger chain[i]} :: 0 < i < |chain| - 1 ==>
        chain[i] in memory && Size(memory[chain[i]]) == Pow2(bits))
      && (|chain| > 1 ==> chain[|chain| - 1] in memory && Size(memory[chain[|chain| - 1]]) > 0)
    }

    /** What the lists are like without the first chunk, in the memory m, is what is needed to unlink it. */
    lemma FreedMayUnchain(m: Memory<T>)
      requires bits <= MAX_BITS && AllOk(m, chain, bits) && Linked(m, chain, front) && nchunks == |chain| && chain != []
      requires back == Some(chain[|chain| - 1]) && AllOk(m, chain[1..], bits) && Freed(m)
      requires forall i {:trigger chain[i]} :: 0 < i < |chain| - 1 ==> Size(m[chain[i]]) == Pow2(bits)
      requires |chain| > 1 ==> Size(m[chain[|chain| - 1]]) > 0
      ensures MayUnchain(m[chain[0]].next)
    {
    }

    /** The first chunk is freed. */
    method TakeFirst()
      requires Loose() && AllBut(0) && chain != [] && memory[chain[0]].begin == memory[chain[0]].end
      requires |chain| > 1 ==> Size(memory[chain[|chain| - 1]]) > 0
      modifies `memory, `free, `nfree, `spare
      ensures MayUnchain(old(memory[chain[0]].next)) && Flat(memory, chain[1..], bits) == old(Contents())
      ensures spare == if old(spare) == [] then [chain[0]] else old(spare)
    {
      ghost var m := memory;
      Capacity(bits);
      FirstGoes();
      FreeFirst();
      FreedMayUnchain(m);
    }

    /** And leaves the list. */
    method Unchain(next: Address)
      requires MayUnchain(next)
      modifies `back, `front, `nchunks, `chain
      ensures Valid() && chain == old(chain)[1..]
    {
      assert forall i :: 0 <= i < |chain| - 1 ==> chain[1..][i] == chain[i + 1];
      if back == front {
        back := None;
      }
      front, nchunks := next, nchunks - 1;
      chain := chain[1..];
    }

    lemma FirstGoes()
      requires Loose() && chain != [] && memory[chain[0]].begin == memory[chain[0]].end
      ensures front == Some(chain[0]) && AllOk(memory, chain[1..], bits)
              && Linked(memory, chain[1..], memory[chain[0]].next)
      ensures Flat(memory, chain[1..], bits) == Contents() && chain[0] !in chain[1..] && chain[0] !in spare
    {
      AllOkTail(memory, chain, bits);
      assert chain[0] in chain;
      EmptyChunk(memory[chain[0]], bits);
      assert Contents() == Elements(memory[chain[0]], bits) + Flat(memory, chain[1..], bits);
    }

    /** back(). */
    method Back() returns (x: T)
      requires Valid() && chain != []
      ensures Contents() != [] && x == Contents()[|Contents()| - 1]
    {
      SplitLast(memory, chain, bits);
      assert chain[|chain| - 1] in chain;
      var c := memory[back.value];
      Capacity(bits);
      DividesWord(bits);
      SlotOfWrap(c.begin + (Size(c) - 1), 0, bits, RANGE);
      assert Slot(c.begin + (Size(c) - 1), 0, bits) == Slot(c.begin, Size(c) - 1, bits);
      assert Elements(c, bits)[Size(c) - 1] == c.items[Slot(c.begin, Size(c) - 1, bits)];
      x := c.items[Mask(Wrap(c.end - 1, RANGE), bits)];
    }

    /** One more spare chunk. */
    method NewSpare()
      requires Valid()
      modifies `memory, `unused, `free, `nfree, `spare
      ensures Valid() && Contents() == old(Contents()) && |spare| == |old(spare)| + 1 && LastSame(old(memory))
      ensures unused == old(unused) + 1
    {
      var c := NewChunk();
      assert chain != [] ==> chain[|chain| - 1] in chain;
      PushFirst(memory, c, spare, free, bits);
      Elsewhere(memory, c, memory[c].(next := free), chain, front, bits);
      memory := memory[c := memory[c].(next := free)];
      free, nfree, spare := Some(c), nfree + 1, [c] + spare;
    }

    /** The last chunk is as it was in the memory m. */
    ghost predicate LastSame(m: Memory<T>)
      reads this
    {
      chain != [] ==> chain[|chain| - 1] in m && chain[|chain| - 1] in memory
                      && Size(memory[chain[|chain| - 1]]) == Size(m[chain[|chain| - 1]])
    }

    /** Chunks are allocated until this many are spare. */
    method AddSpares(needed: nat)
      requires Valid()
      modifies `memory, `unused, `free, `nfree, `spare
      ensures Valid() && Contents() == old(Contents()) && LastSame(old(memory))
      ensures |spare| == (if needed <= |old(spare)| then |old(spare)| else needed)
      ensures unused == old(unused) + |spare| - |old(spare)|
    {
      while nfree < needed
        invariant Valid() && Contents() == old(Contents()) && LastSame(old(memory))
        invariant |spare| == |old(spare)| || |old(spare)| < |spare| <= needed
        invariant unused == old(unused) + |spare| - |old(spare)|
        decreases needed - nfree
      {
        NewSpare();
      }
    }

    /**
     * reserve(n): the next n - size() pushes will not allocate memory. No more chunks than that takes are
     * allocated if and only if the need is in range.
     */
    method Reserve(n: nat)
      requires Valid() && |Contents()| < SIZE_RANGE / 2 && n < SIZE_RANGE
      modifies `memory, `unused, `free, `nfree, `spare
      ensures Valid() && Contents() == old(Contents()) && LastRoom() == old(LastRoom())
      ensures var k := NeededChunks(n, |Contents()|, LastRoom(), bits);
              && |spare| == (if k <= |old(spare)| then |old(spare)| else k)
              && unused == old(unused) + |spare| - |old(spare)|
              && (NeedInRange(n, |Contents()|, LastRoom(), bits)
                  <==> Fewest(k, n - |Contents()| - LastRoom(), Pow2(bits)))
      ensures NeedInRange(n, |Contents()|, LastRoom(), bits) ==> Room() >= n - |Contents()|
    {
      var size := Length();
      var room := RoomInLast();
      var needed := NeededChunks(n, size, room, bits);
      NeededChunksExact(n, size, room, bits);
      AddSpares(needed);
      MoreInFull(needed, |spare|, bits);
      InFullIsProduct(needed, bits);
    }

    /** What the last chunk still holds. */
    method RoomInLast() returns (room: nat)
      requires Valid()
      ensures room == LastRoom() < Pow2(bits)
    {
      room := if back.Some? then Pow2(bits) - Size(memory[back.value]) else 0;
    }

    lemma FirstThenRest(v: seq<T>, xs: seq<T>)
      requires xs != []
      ensures v + [xs[0]] + xs[1..] == v + xs
    {
    }

    /** As long as there is room, pushing allocates nothing. */
    method PushAll(xs: seq<T>)
      requires Valid() && |xs| <= Room()
      modifies this
      ensures Valid() && Contents() == old(Contents()) + xs && unused == old(unused)
      decreases |xs|
    {
      if xs != [] {
        FirstThenRest(Contents(), xs);
        PushBack(xs[0], false);
        PushAll(xs[1..]);
      }
    }
  }
}
