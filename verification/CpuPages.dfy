/** The page allocator of core/memory.cc: cpu_pages with its page array and its span lists. */
module PageAllocator {
  import opened Options
  import opened Bits
  import opened PageLists
  import opened Buddy
  import opened Sequences

  const NR_SPAN_LISTS: nat := 32
  /** A shard owns a 2^36 byte slice of the address space and a page is 2^12 bytes. */
  const MAX_PAGES: nat := 0x100_0000
  const PAGE_SIZE: nat := 4096

  /** Smallest index such that every span stored under it has at least `pages` pages. */
  function IndexOf(pages: nat): int
    requires pages > 0
  {
    if pages == 1 then 0 else 32 - CountLeadingZeros(pages - 1)
  }

  lemma IndexOfIsCeilLog2(pages: nat)
    requires pages > 0
    ensures IndexOf(pages) >= 0
    ensures pages <= Pow2(IndexOf(pages)) < 2 * pages
  {
    if pages > 1 {
      BitLengthBounds(pages - 1);
    }
  }

  lemma IndexOfPow2(k: nat)
    ensures IndexOf(Pow2(k)) == k
  {
    IndexOfIsCeilLog2(Pow2(k));
    var i := IndexOf(Pow2(k));
    if i < k { Pow2Mono(i, k); }
    if k < i { Pow2Mono(k, i); }
  }

  lemma SizeIsIndexOf(n: nat, j: nat)
    requires 0 < n <= Pow2(j) < 2 * n
    ensures IndexOf(n) == j
  {
    IndexOfIsCeilLog2(n);
    var i := IndexOf(n);
    if i < j { Pow2Mono(i, j); }
    if j < i { Pow2Mono(j, i); }
  }

  /** The metadata of a span is right at its first and last page; nothing is said of its inner pages. */
  ghost predicate MetaAt(ps: seq<Page>, h: Heap, s: int)
    requires s in h.spans
  {
    var e := End(h, s) - 1;
    && 0 <= s <= e < |ps|
    && (ps[s].free <==> h.spans[s].kind.Free?) && (ps[e].free <==> h.spans[s].kind.Free?)
    && (!h.spans[s].kind.Reserved? ==> ps[s].spanSize == ps[e].spanSize == Pow2(h.spans[s].order))
  }

  ghost predicate MetaOk(ps: seq<Page>, h: Heap) {
    && |ps| == h.size + 1 && !ps[h.size].free
    && forall s {:trigger MetaAt(ps, h, s)} :: s in h.spans ==> MetaAt(ps, h, s)
  }

  lemma MetaDetach(ps: seq<Page>, h: Heap, s: int)
    requires Partitioned(h) && MetaOk(ps, h) && s in h.spans
    ensures MetaOk(ps, Detach(h, s))
  {
    forall t | t in Detach(h, s).spans ensures MetaAt(ps, Detach(h, s), t) {
      assert MetaAt(ps, h, t);
    }
  }

  lemma MetaLinks(ps: seq<Page>, qs: seq<Page>, touched: seq<nat>, h: Heap)
    requires MetaOk(ps, h) && OnlyLinks(ps, qs, touched)
    ensures MetaOk(qs, h)
  {
    forall t | t in h.spans ensures MetaAt(qs, h, t) {
      assert MetaAt(ps, h, t);
    }
  }

  lemma MetaSameFlags(ps: seq<Page>, qs: seq<Page>, h: Heap)
    requires MetaOk(ps, h) && |ps| == |qs|
    requires forall p :: 0 <= p < |ps| ==> qs[p].free == ps[p].free && qs[p].spanSize == ps[p].spanSize
    ensures MetaOk(qs, h)
  {
    forall t | t in h.spans ensures MetaAt(qs, h, t) {
      assert MetaAt(ps, h, t);
    }
  }

  /** qs is ps with the flags of a span of n pages written at its first and last page. */
  ghost predicate Marked(ps: seq<Page>, qs: seq<Page>, s: int, n: nat, isFree: bool) {
    && |ps| == |qs| && 0 <= s && 0 < n && s + n <= |ps|
    && (forall p :: 0 <= p < |ps| && p != s && p != s + n - 1 ==> qs[p] == ps[p])
    && qs[s] == ps[s].(free := isFree, spanSize := n)
    && qs[s + n - 1] == ps[s + n - 1].(free := isFree, spanSize := n)
  }

  /** Writing the metadata of a new span at its first and last page leaves every other span's alone. */
  lemma MetaAttach(ps: seq<Page>, qs: seq<Page>, h: Heap, s: int, sp: Span)
    requires Partitioned(h) && MetaOk(ps, h) && BlockInHole(h, s, sp.order)
    requires Marked(ps, qs, s, Pow2(sp.order), sp.kind.Free?)
    ensures MetaOk(qs, Attach(h, s, sp))
  {
    var g := Attach(h, s, sp);
    assert InHole(h, s) && InHole(h, s + Pow2(sp.order) - 1);
    forall t | t in g.spans ensures MetaAt(qs, g, t) {
      if t != s {
        assert MetaAt(ps, h, t) && SpanOk(h, t);
      }
    }
  }

  /** The pages outside s are untouched. */
  ghost predicate SameOutside(ps: seq<Page>, qs: seq<Page>, s: set<int>) {
    |ps| == |qs| && forall p :: 0 <= p < |ps| && p !in s ==> qs[p] == ps[p]
  }

  /** Only pages in the set and those from lo up to hi changed. */
  ghost predicate SameOutsideTwo(ps: seq<Page>, qs: seq<Page>, s: set<int>, lo: int, hi: int) {
    |ps| == |qs| && forall p :: 0 <= p < |ps| && p !in s && !(lo <= p < hi) ==> qs[p] == ps[p]
  }

  lemma OrderBound(h: Heap, s: int, k: nat)
    requires Aligned(s, k) && 0 <= s && s + Pow2(k) <= h.size <= MAX_PAGES
    ensures k < NR_SPAN_LISTS
  {
    assert Pow2(8) == 256;
    Pow2Add(8, 8);
    Pow2Add(16, 8);
    if k > 24 { Pow2Mono(25, k); }
  }

  /** Everything that attaching a span to the hole and marking it comes to. */
  lemma AttachStep(ps: seq<Page>, qs: seq<Page>, h: Heap, s: int, sp: Span)
    requires Partitioned(h) && Canonical(h) && MetaOk(ps, h) && h.size <= MAX_PAGES
    requires BlockInHole(h, s, sp.order) && Marked(ps, qs, s, Pow2(sp.order), sp.kind.Free?)
    requires sp.kind.Free? ==> !IsFree(h, FlipBit(s, sp.order), sp.order)
    ensures var g := Attach(h, s, sp); Partitioned(g) && Canonical(g) && MetaOk(qs, g)
    ensures s !in h.spans && sp.order < NR_SPAN_LISTS && IndexOf(Pow2(sp.order)) == sp.order
    ensures |FreePages(Attach(h, s, sp))| == |FreePages(h)| + if sp.kind.Free? then Pow2(sp.order) else 0
    ensures sp.kind.Free? ==> SameOutside(ps, qs, FreePages(Attach(h, s, sp)))
    ensures SameOutside(ps, qs, Range(s, s + Pow2(sp.order)))
  {
    AttachValid(h, s, sp);
    AttachCanonical(h, s, sp);
    AttachCount(h, s, sp);
    if sp.kind.Free? {
      FreeSpanIsFreeBlock(Attach(h, s, sp), s);
    }
    OrderBound(h, s, sp.order);
    MetaAttach(ps, qs, h, s, sp);
    IndexOfPow2(sp.order);
  }

  /** The page that is looked at to see whether the buddy of the block [a, a + 2^k) is free. */
  function Inspected(a: int, k: nat): int {
    if Bit(a, k) == 1 then a - 1 else a + Pow2(k)
  }

  /** The same page as grow_span computes it: in 32-bit arithmetic that wraps around. */
  function BuddyPage(spanStart: nat, idx: nat): nat {
    var which := Bit(spanStart, idx);
    var delta := if which == 1 then 0xFFFF_FFFF else Pow2(idx);
    (spanStart + delta) % 0x1_0000_0000
  }

  lemma BuddyPageIsInspected(spanStart: nat, idx: nat)
    requires Aligned(spanStart, idx) && spanStart + Pow2(idx) < 0x1_0000_0000
    ensures BuddyPage(spanStart, idx) == Inspected(spanStart, idx)
  {
    BitMeaning(spanStart, idx);
  }

  /** No stale flag is in the way: the inspected page, if it is in the hole, is not marked free. */
  ghost predicate Inspectable(ps: seq<Page>, h: Heap, a: int, k: nat) {
    InHole(h, Inspected(a, k)) && Inspected(a, k) < |ps| ==> !ps[Inspected(a, k)].free
  }

  /** Apart from the block itself, the hole has no page that is marked free. */
  ghost predicate CleanAround(ps: seq<Page>, h: Heap, a: int, k: nat) {
    forall p :: 0 <= p < |ps| && InHole(h, p) && !(a <= p < a + Pow2(k)) ==> !ps[p].free
  }

  /** The one-page test of grow_span is right, whatever stale flags inner pages carry. */
  lemma InspectionIsExact(ps: seq<Page>, h: Heap, a: int, k: nat)
    requires Partitioned(h) && MetaOk(ps, h) && BlockInHole(h, a, k) && Inspectable(ps, h, a, k)
    ensures 0 <= Inspected(a, k) < |ps|
    ensures ps[Inspected(a, k)].free && ps[Inspected(a, k)].spanSize == Pow2(k) <==> IsFree(h, FlipBit(a, k), k)
  {
    var p := Inspected(a, k);
    BitMeaning(a, k);
    if IsFree(h, FlipBit(a, k), k) {
      assert SpanOk(h, FlipBit(a, k));
      assert MetaAt(ps, h, FlipBit(a, k));
    } else if p < h.size && !InHole(h, p) {
      InspectedPage(h, a, k, p);
      assert MetaAt(ps, h, h.owner[p]);
      if Pow2(h.spans[h.owner[p]].order) == Pow2(k) {
        Pow2Injective(h.spans[h.owner[p]].order, k);
      }
    }
  }

  /** The hole after the buddy was taken out. */
  lemma MergedHoleIsClean(ps: seq<Page>, h: Heap, a: int, k: nat)
    requires Partitioned(h) && BlockInHole(h, a, k) && IsFree(h, FlipBit(a, k), k)
    ensures var g := Detach(h, FlipBit(a, k)); var c := ClearBit(a, k);
            && BlockInHole(g, c, k + 1)
            && (CleanAround(ps, h, a, k) ==> CleanAround(ps, g, c, k + 1))
            && (forall p :: InHole(g, p) && !(c <= p < c + Pow2(k + 1)) <==> InHole(h, p) && !(a <= p < a + Pow2(k)))
  {
    var b, c := FlipBit(a, k), ClearBit(a, k);
    var g := Detach(h, b);
    DetachValid(h, b);
    MergedHole(h, a, k);
    assert SpanOk(h, b) && End(h, b) == b + Pow2(k);
    forall p ensures InHole(g, p) && !(c <= p < c + Pow2(k + 1)) <==> InHole(h, p) && !(a <= p < a + Pow2(k)) {
      assert b <= p < b + Pow2(k) ==> h.owner[p] == b;
    }
  }

  /** What is free once the merged block is put back. */
  lemma MergedPages(h: Heap, a: int, k: nat)
    requires Partitioned(h) && BlockInHole(h, a, k) && IsFree(h, FlipBit(a, k), k)
    ensures forall p :: (p in FreePages(Detach(h, FlipBit(a, k))) || ClearBit(a, k) <= p < ClearBit(a, k) + Pow2(k + 1))
                   <==> (p in FreePages(h) || a <= p < a + Pow2(k))
  {
    var b := FlipBit(a, k);
    DetachPages(h, b);
  }

  lemma DetachFreeHeld(h: Heap, s: int)
    requires s in h.spans && h.spans[s].kind.Free?
    ensures Held(Detach(h, s)) == Held(h)
  {
  }

  /** The buddy can be inspected and will not merge. */
  ghost predicate NoMerge(ps: seq<Page>, h: Heap, a: int, k: nat) {
    Inspectable(ps, h, a, k) && !IsFree(h, FlipBit(a, k), k)
  }

  lemma CleanStep(ps: seq<Page>, qs: seq<Page>, h: Heap, a: int, k: nat)
    requires Partitioned(h) && BlockInHole(h, a, k) && IsFree(h, FlipBit(a, k), k)
    requires CleanAround(ps, h, a, k) && SameOutside(ps, qs, FreePages(h))
    ensures CleanAround(qs, Detach(h, FlipBit(a, k)), ClearBit(a, k), k + 1)
  {
    forall p | 0 <= p < |ps| && InHole(h, p) ensures p !in FreePages(h) { }
    MergedHoleIsClean(qs, h, a, k);
  }

  lemma SameOutsideTrans(ps: seq<Page>, qs: seq<Page>, rs: seq<Page>, s: set<int>, t: set<int>)
    requires SameOutside(ps, qs, s) && SameOutside(qs, rs, t)
    ensures s <= t ==> SameOutside(ps, rs, t)
    ensures t <= s ==> SameOutside(ps, rs, s)
  {
  }

  /** What freeing the block [a, b) of the hole does to the heap, whether or not it merges. */
  ghost predicate Freed(h: Heap, g: Heap, a: int, b: int) {
    && g.size == h.size
    && (forall p :: p in FreePages(g) <==> p in FreePages(h) || a <= p < b)
    && Held(g) == Held(h)
    && forall p :: InHole(g, p) <==> InHole(h, p) && !(a <= p < b)
  }

  /** h, with the block [a, a + 2^k) still in its hole, has come from h0 by merging into that block. */
  ghost predicate Coalescing(h0: Heap, a0: int, k0: nat, h: Heap, a: int, k: nat) {
    && Partitioned(h) && BlockInHole(h, a, k) && h.size == h0.size && Held(h) == Held(h0)
    && FreePages(h) <= FreePages(h0)
    && (forall p :: (p in FreePages(h) || a <= p < a + Pow2(k)) <==> (p in FreePages(h0) || a0 <= p < a0 + Pow2(k0)))
    && forall p :: InHole(h, p) && !(a <= p < a + Pow2(k)) <==> InHole(h0, p) && !(a0 <= p < a0 + Pow2(k0))
  }

  lemma CoalesceStart(h: Heap, a: int, k: nat)
    requires Partitioned(h) && BlockInHole(h, a, k)
    ensures Coalescing(h, a, k, h, a, k)
  {
  }

  lemma CoalesceStep(h0: Heap, a0: int, k0: nat, h: Heap, a: int, k: nat)
    requires Coalescing(h0, a0, k0, h, a, k) && IsFree(h, FlipBit(a, k), k)
    ensures Coalescing(h0, a0, k0, Detach(h, FlipBit(a, k)), ClearBit(a, k), k + 1)
  {
    DetachValid(h, FlipBit(a, k));
    DetachFreeHeld(h, FlipBit(a, k));
    MergedPages(h, a, k);
    DetachPages(h, FlipBit(a, k));
    MergedHoleIsClean([], h, a, k);
  }

  /** The loop of free_span, from the heap h0 and pages ps0 it was called with. */
  ghost predicate GrowLoop(h0: Heap, ps0: seq<Page>, a0: int, k0: nat, h: Heap, ps: seq<Page>, a: int, k: nat) {
    && Coalescing(h0, a0, k0, h, a, k)
    && (IsFree(h0, FlipBit(a0, k0), k0) || (h == h0 && a == a0 && k == k0))
    && (CleanAround(ps, h, a, k) || NoMerge(ps, h, a, k))
    && SameOutside(ps0, ps, FreePages(h0))
  }

  lemma GrowLoopStep(h0: Heap, ps0: seq<Page>, a0: int, k0: nat, h: Heap, ps: seq<Page>, a: int, k: nat, qs: seq<Page>)
    requires GrowLoop(h0, ps0, a0, k0, h, ps, a, k) && IsFree(h, FlipBit(a, k), k)
    requires SameOutside(ps, qs, FreePages(h))
    ensures GrowLoop(h0, ps0, a0, k0, Detach(h, FlipBit(a, k)), qs, ClearBit(a, k), k + 1)
  {
    CoalesceStep(h0, a0, k0, h, a, k);
    CleanStep(ps, qs, h, a, k);
    SameOutsideTrans(ps0, ps, qs, FreePages(h0), FreePages(h));
  }

  lemma CoalesceEnd(h0: Heap, a0: int, k0: nat, h: Heap, a: int, k: nat)
    requires Coalescing(h0, a0, k0, h, a, k)
    ensures Freed(h0, Attach(h, a, Span(k, Free)), a0, a0 + Pow2(k0))
  {
    var g := Attach(h, a, Span(k, Free));
    AttachValid(h, a, Span(k, Free));
    AttachHeld(h, a, Span(k, Free));
    AttachPages(h, a, Span(k, Free));
  }

  lemma FreedTrans(h: Heap, g: Heap, f: Heap, a: int, b: int, c: int)
    requires a <= b <= c && Freed(h, g, a, b) && Freed(g, f, b, c)
    ensures Freed(h, f, a, c)
  {
  }

  /** Of the range [a0, b) of the hole, [a0, a) has been freed. */
  ghost predicate Progress(h0: Heap, ps0: seq<Page>, h: Heap, ps: seq<Page>, a0: int, a: int, b: int) {
    && a0 <= a <= b && Freed(h0, h, a0, a) && SameOutside(ps0, ps, FreePages(h))
    && forall p :: a <= p < b ==> InHole(h, p)
  }

  lemma ProgressStep(h0: Heap, ps0: seq<Page>, h: Heap, ps: seq<Page>, g: Heap, qs: seq<Page>, a0: int, a: int,
        c: int, b: int)
    requires Progress(h0, ps0, h, ps, a0, a, b) && a <= c <= b
    requires Freed(h, g, a, c) && SameOutside(ps, qs, FreePages(g))
    ensures Progress(h0, ps0, g, qs, a0, c, b)
  {
    FreedTrans(h0, h, g, a0, a, c);
    SameOutsideTrans(ps0, ps, qs, FreePages(h), FreePages(g));
  }

  ghost predicate HoleClean(ps: seq<Page>, h: Heap) {
    forall p :: 0 <= p < |ps| && InHole(h, p) ==> !ps[p].free
  }

  /**
   * The tail that shrink cuts off: it ends on a multiple of 2^m, it starts 2^j above the previous
   * one, and the span just below it cannot be a free buddy of its first piece.
   */
  ghost predicate Staircase(h: Heap, a: int, n: int, j: nat, m: nat) {
    && j <= m && n == Pow2(m) - Pow2(j) && a >= Pow2(j) && Aligned(a - Pow2(j), m)
    && a <= |h.owner| && h.owner[a - 1] in h.spans
    && (h.spans[h.owner[a - 1]].kind.Free? ==> h.spans[h.owner[a - 1]].order < j)
  }

  lemma TrailingZerosUnique(x: nat, k: nat)
    requires x > 0 && Aligned(x, k) && Bit(x, k) == 1
    ensures CountTrailingZeros(x) == k
  {
    var c := CountTrailingZeros(x);
    TrailingZeros(x);
    BitMeaning(x, k);
    BitMeaning(x, c);
    if c < k { AlignedWeaken(x, c + 1, k); }
    if k < c { AlignedWeaken(x, k + 1, c); }
  }

  lemma PowerGap(j: nat, m: nat)
    requires j < m
    ensures Pow2(j) <= Pow2(m) - Pow2(j)
    ensures CountTrailingZeros(Pow2(m) - Pow2(j)) == j
  {
    Pow2Mono(j, m);
    Pow2Mono(j + 1, m);
    MultipleFacts(Pow2(m), 1);
    AlignedWeaken(Pow2(m), j + 1, m);
    MultipleFacts(Pow2(j + 1), 1);
    ModOfSum(Pow2(m), Pow2(j + 1), Pow2(j + 1));
    AlignedUpperBit(Pow2(m) - Pow2(j + 1), j);
    TrailingZerosUnique(Pow2(m) - Pow2(j), j);
  }

  lemma StaircaseStep(h: Heap, a: int, n: int, j: nat, m: nat)
    requires Staircase(h, a, n, j, m) && n > 0
    ensures j < m && Pow2(j) <= n && Aligned(a, j) && Bit(a, j) == 1
    ensures CountTrailingZeros(a) == j && CountTrailingZeros(n) == j
  {
    assert j < m;
    PowerGap(j, m);
    AlignedWeaken(a - Pow2(j), j + 1, m);
    AlignedUpperBit(a - Pow2(j), j);
    TrailingZerosUnique(a, j);
  }

  lemma FreeSpanOwns(h: Heap, s: int, k: nat, p: int)
    requires Partitioned(h) && 0 <= p < h.size
    ensures IsFree(h, s, k) && s <= p < s + Pow2(k) ==> h.owner[p] == s
  {
    if IsFree(h, s, k) {
      assert SpanOk(h, s);
    }
  }

  lemma StaircaseNoMerge(ps: seq<Page>, h: Heap, a: int, n: int, j: nat, m: nat)
    requires Partitioned(h) && Staircase(h, a, n, j, m) && n > 0 && Bit(a, j) == 1
    ensures NoMerge(ps, h, a, j)
  {
    assert OwnerOk(h, a - 1);
    assert SpanOk(h, h.owner[a - 1]);
    FreeSpanOwns(h, a - Pow2(j), j, a - 1);
  }

  lemma StaircaseNext(h: Heap, a: int, n: int, j: nat, m: nat)
    requires Partitioned(h) && Staircase(h, a, n, j, m) && j < m && BlockInHole(h, a, j)
    ensures Staircase(Attach(h, a, Span(j, Free)), a + Pow2(j), n - Pow2(j), j + 1, m)
  {
    var g := Attach(h, a, Span(j, Free));
    assert g.owner[a + Pow2(j) - 1] == a;
  }

  /** Size and position of the next piece. */
  lemma PieceFacts(h: Heap, a: nat, n: nat, bits: nat)
    requires 0 < a && 0 < n && forall p :: a <= p < a + n ==> InHole(h, p)
    requires bits <= CountTrailingZeros(a) && bits <= CountTrailingZeros(n)
    ensures BlockInHole(h, a, bits) && Pow2(bits) <= n
  {
    TrailingZeros(a);
    TrailingZeros(n);
    AlignedWeaken(a, bits, CountTrailingZeros(a));
    Pow2Mono(bits, CountTrailingZeros(n));
    SubBlockInHole(h, a, a + n, bits);
  }

  ghost predicate CanFreePieces(ps: seq<Page>, h: Heap, a: int, n: int, j: nat, m: nat) {
    HoleClean(ps, h) || Staircase(h, a, n, j, m)
  }

  lemma PieceCanBeFreed(ps: seq<Page>, h: Heap, a: nat, n: nat, j: nat, m: nat, bits: nat)
    requires Partitioned(h) && CanFreePieces(ps, h, a, n, j, m) && 0 < a && 0 < n && BlockInHole(h, a, bits)
    requires bits == if CountTrailingZeros(a) < CountTrailingZeros(n) then CountTrailingZeros(a)
             else CountTrailingZeros(n)
    ensures CleanAround(ps, h, a, bits) || (bits == j && NoMerge(ps, h, a, j) && Staircase(h, a, n, j, m))
  {
    if !HoleClean(ps, h) {
      StaircaseStep(h, a, n, j, m);
      StaircaseNoMerge(ps, h, a, n, j, m);
    }
  }

  lemma CleanPieceFreed(ps: seq<Page>, qs: seq<Page>, h: Heap, g: Heap, a: int, b: int)
    requires HoleClean(ps, h) && Freed(h, g, a, b) && SameOutside(ps, qs, FreePages(g))
    ensures HoleClean(qs, g)
  {
    forall p | 0 <= p < |qs| && InHole(g, p) ensures !qs[p].free {
      assert p !in FreePages(g);
    }
  }

  lemma StairWasFreed(ps: seq<Page>, h: Heap, g: Heap, a: nat, n: nat, j: nat, m: nat, bits: nat)
    requires Partitioned(h) && Staircase(h, a, n, j, m) && 0 < n && BlockInHole(h, a, bits)
    requires bits == if CountTrailingZeros(a) < CountTrailingZeros(n) then CountTrailingZeros(a)
             else CountTrailingZeros(n)
    requires !IsFree(h, FlipBit(a, bits), bits) ==> g == Attach(h, a, Span(bits, Free))
    ensures Staircase(g, a + Pow2(bits), n - Pow2(bits), j + 1, m)
  {
    StaircaseStep(h, a, n, j, m);
    StaircaseNoMerge(ps, h, a, n, j, m);
    StaircaseNext(h, a, n, j, m);
  }

  lemma PieceWasFreed(ps: seq<Page>, qs: seq<Page>, h: Heap, g: Heap, a: nat, n: nat, j: nat, m: nat, bits: nat)
    requires Partitioned(h) && CanFreePieces(ps, h, a, n, j, m) && 0 < a && 0 < n && BlockInHole(h, a, bits)
    requires bits == if CountTrailingZeros(a) < CountTrailingZeros(n) then CountTrailingZeros(a)
             else CountTrailingZeros(n)
    requires Freed(h, g, a, a + Pow2(bits)) && SameOutside(ps, qs, FreePages(g))
    requires !IsFree(h, FlipBit(a, bits), bits) ==> g == Attach(h, a, Span(bits, Free))
    ensures CanFreePieces(qs, g, a + Pow2(bits), n - Pow2(bits), j + 1, m)
  {
    if HoleClean(ps, h) {
      CleanPieceFreed(ps, qs, h, g, a, a + Pow2(bits));
    } else {
      StairWasFreed(ps, h, g, a, n, j, m, bits);
    }
  }

  lemma SubBlockInHole(h: Heap, a: int, b: int, k: nat)
    requires forall p :: a <= p < b ==> InHole(h, p)
    requires 0 <= a && Aligned(a, k) && a + Pow2(k) <= b
    ensures BlockInHole(h, a, k)
  {
    assert InHole(h, a + Pow2(k) - 1);
  }

  /** No page is between spans. */
  ghost predicate NoHole(h: Heap) {
    forall p :: !InHole(h, p)
  }

  /**
   * The block [s, s + 2^j), taken from a free span of h0, is the whole hole of h; everything else
   * of the span is free again.
   */
  ghost predicate Trimming(h0: Heap, h: Heap, s: int, j: nat) {
    && h.size == h0.size && Held(h) == Held(h0)
    && BlockInHole(h, s, j)
    && (forall p :: InHole(h, p) <==> s <= p < s + Pow2(j))
    && (forall p :: p in FreePages(h0) <==> p in FreePages(h) || s <= p < s + Pow2(j))
  }

  lemma TrimStart(h0: Heap, s: int)
    requires Partitioned(h0) && NoHole(h0) && s in h0.spans && h0.spans[s].kind.Free?
    ensures Trimming(h0, Detach(h0, s), s, h0.spans[s].order)
  {
    DetachValid(h0, s);
    DetachPages(h0, s);
    DetachFreeHeld(h0, s);
  }

  lemma TrimHalfBlock(h: Heap, s: int, j: nat)
    requires Partitioned(h) && BlockInHole(h, s, j + 1)
    ensures Pow2(j + 1) / 2 == Pow2(j)
    ensures BlockInHole(h, s, j) && BlockInHole(h, s + Pow2(j), j)
    ensures !IsFree(h, FlipBit(s + Pow2(j), j), j)
  {
    AlignedUpperBit(s, j);
    SubBlockInHole(h, s, s + Pow2(j + 1), j);
    SubBlockInHole(h, s + Pow2(j), s + Pow2(j + 1), j);
    AttachValid(h, s, Span(j, Free));
  }

  /** Halving: the upper half of the block can go back to the lists. */
  lemma TrimHalf(h0: Heap, h: Heap, s: int, j: nat)
    requires Partitioned(h) && Trimming(h0, h, s, j + 1)
    ensures Pow2(j + 1) / 2 == Pow2(j)
    ensures BlockInHole(h, s + Pow2(j), j) && !IsFree(h, FlipBit(s + Pow2(j), j), j)
    ensures Trimming(h0, Attach(h, s + Pow2(j), Span(j, Free)), s, j)
  {
    TrimHalfBlock(h, s, j);
    AttachValid(h, s + Pow2(j), Span(j, Free));
    AttachPages(h, s + Pow2(j), Span(j, Free));
    AttachHeld(h, s + Pow2(j), Span(j, Free));
    var g := Attach(h, s + Pow2(j), Span(j, Free));
    SubBlockInHole(g, s, s + Pow2(j), j);
  }

  lemma TrimFrame(ps0: seq<Page>, ps: seq<Page>, qs: seq<Page>, h0: Heap, g: Heap, s: int, j: nat)
    requires SameOutside(ps0, ps, FreePages(h0)) && SameOutside(ps, qs, FreePages(g)) && Trimming(h0, g, s, j)
    ensures SameOutside(ps0, qs, FreePages(h0))
  {
    assert FreePages(g) <= FreePages(h0);
    SameOutsideTrans(ps0, ps, qs, FreePages(h0), FreePages(g));
  }

  /** Some naturally aligned block of the least power of two of pages that holds n is entirely free. */
  ghost predicate FreeBlockExists(h: Heap, n: nat)
    requires 0 < n
  {
    exists a :: BlockFree(h, a, IndexOf(n))
  }

  lemma FreeBlockNeedsFreeSpan(h: Heap, a: int, k: nat)
    requires Partitioned(h) && Canonical(h)
    ensures BlockFree(h, a, k) ==> exists s, j: nat :: IsFree(h, s, j) && j >= k
  {
    if BlockFree(h, a, k) {
      var s := FreeBlockInSpan(h, a, k);
      assert IsFree(h, s, h.spans[s].order);
    }
  }

  lemma EmptyListsMeanNoBlock(h: Heap, n: nat)
    requires Partitioned(h) && Canonical(h) && 0 < n && IndexOf(n) >= 0
    requires forall s, k: nat :: IsFree(h, s, k) ==> k < IndexOf(n)
    ensures !FreeBlockExists(h, n)
  {
    forall a ensures !BlockFree(h, a, IndexOf(n)) {
      FreeBlockNeedsFreeSpan(h, a, IndexOf(n));
    }
  }

  lemma NoBlockAsLargeAsMemory(h: Heap, n: nat)
    requires Partitioned(h) && 0 in h.spans && h.spans[0].kind.Reserved? && 0 < n && h.size <= n
    ensures !FreeBlockExists(h, n)
  {
    IndexOfIsCeilLog2(n);
    assert SpanOk(h, 0) && 0 !in FreePages(h);
  }

  /** A block of the order index_of(n) was taken from the free pages of h and is now held. */
  ghost predicate Allocated(h: Heap, g: Heap, a: int, k: nat) {
    && NoHole(g) && Held(g) == Held(h)[a := Span(k, Used)] && BlockFree(h, a, k)
    && (forall p :: p in FreePages(g) <==> p in FreePages(h) && !(a <= p < a + Pow2(k)))
  }

  /** What is left of the block is handed out. */
  lemma TrimEnd(h0: Heap, h: Heap, s: int, j: nat)
    requires Partitioned(h0) && Partitioned(h) && Trimming(h0, h, s, j)
    ensures Allocated(h0, Attach(h, s, Span(j, Used)), s, j)
  {
    AttachValid(h, s, Span(j, Used));
    AttachPages(h, s, Span(j, Used));
    AttachHeld(h, s, Span(j, Used));
    forall p | s <= p < s + Pow2(j) ensures p !in FreePages(h) {
      assert InHole(h, p);
    }
  }

  // ---- which span an allocation is taken from ----

  /** s is a free span of at least order i, and none of these is smaller. */
  ghost predicate Tightest(h: Heap, s: int, i: nat) {
    && s in h.spans && h.spans[s].kind.Free? && h.spans[s].order >= i
    && forall t, k: nat :: IsFree(h, t, k) && k >= i ==> h.spans[s].order <= k
  }

  /** Free blocks that are larger than the span a block is taken from are still free. */
  lemma LargerBlocksStay(h: Heap, g: Heap, s: int, i: nat, a: int, k: nat)
    requires Partitioned(h) && Canonical(h) && g.size == h.size && Partitioned(g)
    requires s in h.spans && h.spans[s].kind.Free? && i <= h.spans[s].order && Allocated(h, g, s, i)
    requires BlockFree(h, a, k)
    ensures k > h.spans[s].order ==> BlockFree(g, a, k)
  {
    if k > h.spans[s].order {
      var t := FreeBlockInSpan(h, a, k);
      BlockOutside(h, g, s, i, t, a, k);
    }
  }

  /** So are those in another span. */
  lemma BlockOutside(h: Heap, g: Heap, s: int, i: nat, t: int, a: int, k: nat)
    requires Partitioned(h) && g.size == h.size && Partitioned(g)
    requires s in h.spans && i <= h.spans[s].order && Allocated(h, g, s, i)
    requires t in h.spans && t != s && BlockFree(h, a, k) && t <= a && a + Pow2(k) <= End(h, t)
    ensures BlockFree(g, a, k)
  {
    Pow2Mono(i, h.spans[s].order);
    SpansDisjoint(h, s, t);
  }

  /**
   * Taking the block from the least span that will do is never worse than taking it from another: every
   * size that can still be met then can be met now.
   */
  lemma TightestIsBest(h: Heap, g: Heap, s: int, g': Heap, t: int, i: nat, n: nat)
    requires Partitioned(h) && Canonical(h) && 0 < n
    requires Partitioned(g) && g.size == h.size && Partitioned(g') && g'.size == h.size
    requires Tightest(h, s, i) && Allocated(h, g, s, i)
    requires t in h.spans && h.spans[t].kind.Free? && h.spans[t].order >= i && Allocated(h, g', t, i)
    ensures FreeBlockExists(g', n) ==> FreeBlockExists(g, n)
  {
    if FreeBlockExists(g', n) {
      var k := IndexOf(n);
      var a :| BlockFree(g', a, k);
      assert BlockFree(h, a, k);
      var u := FreeBlockInSpan(h, a, k);
      if u != s {
        BlockOutside(h, g, s, i, u, a, k);
      } else if t != s {
        assert IsFree(h, t, h.spans[t].order);
        StartOfSpan(h, t, k);
        Pow2Mono(k, h.spans[t].order);
        BlockOutside(h, g, s, i, t, t, k);
      } else {
        assert forall p :: p in FreePages(g) <==> p in FreePages(g');
        assert BlockFree(g, a, k);
      }
    }
  }

  lemma StartOfSpan(h: Heap, t: int, k: nat)
    requires Partitioned(h) && t in h.spans && h.spans[t].kind.Free? && k <= h.spans[t].order
    ensures BlockFree(h, t, k)
  {
    FreeSpanIsFreeBlock(h, t);
    assert SpanOk(h, t);
    AlignedWeaken(t, k, h.spans[t].order);
    Pow2Mono(k, h.spans[t].order);
  }

  /** The order shrink leaves a span of order k with, for newSize bytes. */
  function ShrunkOrder(k: nat, newSize: nat): (j: nat)
    ensures j <= k
    ensures newSize <= Pow2(k) * PAGE_SIZE ==> newSize <= Pow2(j) * PAGE_SIZE
    ensures j > 0 ==> Pow2(j - 1) * PAGE_SIZE < newSize
  {
    if k > 0 && Pow2(k - 1) * PAGE_SIZE >= newSize then ShrunkOrder(k - 1, newSize) else k
  }

  lemma HalfOfPow2(j: nat)
    ensures Pow2(j) / 2 == if j == 0 then 0 else Pow2(j - 1)
  {
  }

  lemma HeldSame(h: Heap, s: int)
    requires s in h.spans && !h.spans[s].kind.Free?
    ensures Held(h) == Held(h)[s := h.spans[s]]
  {
  }

  /** Taking a held span out: the hole is that span and nothing else changes. */
  lemma DetachHeldSpan(ps: seq<Page>, h: Heap, s: int)
    requires Partitioned(h) && Canonical(h) && MetaOk(ps, h) && NoHole(h) && s in h.spans && !h.spans[s].kind.Free?
    ensures var g := Detach(h, s);
            && Partitioned(g) && Canonical(g) && MetaOk(ps, g)
            && BlockInHole(g, s, h.spans[s].order) && CleanAround(ps, g, s, h.spans[s].order)
            && (forall p :: InHole(g, p) <==> s <= p < End(h, s))
            && FreePages(g) == FreePages(h) && Held(g) == Held(h) - {s}
  {
    DetachValid(h, s);
    DetachPages(h, s);
    DetachHeld(h, s);
    MetaDetach(ps, h, s);
  }

  /** A held span of order k cut down to order j: the rest is the hole, and it is a staircase. */
  lemma CutHeldSpan(ps: seq<Page>, qs: seq<Page>, h: Heap, s: int, j: nat)
    requires Partitioned(h) && Canonical(h) && MetaOk(ps, h) && h.size <= MAX_PAGES && NoHole(h)
    requires s in h.spans && h.spans[s].kind.Used? && j < h.spans[s].order
    requires Marked(ps, qs, s, Pow2(j), false)
    ensures var g := Attach(Detach(h, s), s, Span(j, Used)); var k := h.spans[s].order;
            && Partitioned(g) && Canonical(g) && MetaOk(qs, g)
            && (forall p :: InHole(g, p) <==> s + Pow2(j) <= p < s + Pow2(k))
            && (forall p :: p in FreePages(g) <==> p in FreePages(h))
            && Held(g) == Held(h)[s := Span(j, Used)]
            && Staircase(g, s + Pow2(j), Pow2(k) - Pow2(j), j, k)
            && |FreePages(g)| == |FreePages(h)|
  {
    var k, d := h.spans[s].order, Detach(h, s);
    assert SpanOk(h, s);
    DetachHeldSpan(ps, h, s);
    AlignedWeaken(s, j, k);
    Pow2Mono(j, k);
    SubBlockInHole(d, s, s + Pow2(k), j);
    AttachStep(ps, qs, d, s, Span(j, Used));
    AttachHeld(d, s, Span(j, Used));
    AttachPages(d, s, Span(j, Used));
    AttachValid(d, s, Span(j, Used));
    HeldReplaced(Held(h), s, Span(j, Used));
    assert Attach(d, s, Span(j, Used)).owner[s + Pow2(j) - 1] == s;
  }

  lemma HeldReplaced(m: map<int, Span>, s: int, sp: Span)
    ensures (m - {s})[s := sp] == m[s := sp]
  {
  }

  /** Memory with its first 2^r pages reserved and nothing else in any span yet. */
  ghost function FreshHeap(n: nat, r: nat): Heap {
    Heap(n, map[0 := Span(r, Reserved)], seq(n, p => if p < Pow2(r) then 0 else -1))
  }

  lemma FreshHeapFacts(ps: seq<Page>, n: nat, r: nat)
    requires Pow2(r) <= n && |ps| == n + 1 && forall p :: 0 <= p <= n ==> !ps[p].free
    ensures var h := FreshHeap(n, r);
            && Partitioned(h) && Canonical(h) && MetaOk(ps, h) && HoleClean(ps, h)
            && FreePages(h) == {} && Held(h) == map[0 := Span(r, Reserved)]
            && (forall p :: InHole(h, p) <==> Pow2(r) <= p < n)
  {
    var h := FreshHeap(n, r);
    MultipleFacts(Pow2(r), 0);
    assert SpanOk(h, 0);
    forall p | 0 <= p < n ensures OwnerOk(h, p) && !PageFree(h, p) { }
    assert MetaAt(ps, h, 0);
  }

  /** Freeing what was just allocated brings back the very same partition, whatever was split and merged. */
  lemma AllocateFreeRoundTrip(h: Heap, g: Heap, f: Heap, a: int, k: nat)
    requires Partitioned(h) && Canonical(h) && Partitioned(f) && Canonical(f) && f.size == h.size
    requires Allocated(h, g, a, k)
    requires Held(f) == Held(g) - {a}
    requires forall p :: p in FreePages(f) <==> p in FreePages(g) || a <= p < a + Pow2(k)
    ensures f.spans == h.spans
  {
    assert a in FreePages(h);
    assert a !in Held(h) by {
      if a in h.spans { assert SpanOk(h, a); }
    }
    HeldRestored(Held(h), a, Span(k, Used));
    assert forall p :: p in FreePages(f) <==> p in FreePages(h);
    assert FreePages(f) == FreePages(h);
    HeapDetermined(h, f);
  }

  lemma HeldRestored(m: map<int, Span>, a: int, sp: Span)
    requires a !in m
    ensures m[a := sp] - {a} == m
  {
  }

  lemma FreeBlockOwner(h: Heap, a: int, k: nat, p: int)
    requires Partitioned(h) && Canonical(h) && a <= p < a + Pow2(k)
    ensures BlockFree(h, a, k) ==> h.owner[p] in h.spans && h.spans[h.owner[p]].order >= k
  {
    if BlockFree(h, a, k) {
      var t := FreeBlockInSpan(h, a, k);
      assert SpanOk(h, t);
    }
  }

  /** A block is a free span exactly if it is entirely free and the block twice its size is not. */
  lemma FreeSpansAreMaximalBlocks(h: Heap, s: int, k: nat)
    requires Partitioned(h) && Canonical(h)
    ensures IsFree(h, s, k) <==> BlockFree(h, s, k) && !BlockFree(h, ClearBit(s, k), k + 1)
  {
    if IsFree(h, s, k) {
      FreeSpanIsFreeBlock(h, s);
      assert SpanOk(h, s);
      BuddyFacts(s, k);
      FreeBlockOwner(h, ClearBit(s, k), k + 1, s);
    } else if BlockFree(h, s, k) {
      var t := FreeBlockInSpan(h, s, k);
      if h.spans[t].order > k {
        BuddyFacts(s, k);
        SpanCoversParent(h, t, ClearBit(s, k), k + 1, s);
        FreeSpanIsFreeBlock(h, t);
      }
    }
  }

  class CpuPages {
    const nrPages: nat
    var nrFreePages: int
    const pages: array<Page>
    const freeSpans: seq<PageList>
    ghost var heap: Heap

    /**
     * What initialize() leaves: zeroed page structures, the first 2^r pages reserved for them, and
     * everything above free.
     */
    constructor (nPages: nat, r: nat)
      requires Pow2(r) < nPages <= MAX_PAGES
      ensures Valid() && nrPages == nPages && fresh(pages) && forall l :: l in freeSpans ==> fresh(l)
      ensures Held(heap) == map[0 := Span(r, Reserved)]
      ensures forall p :: p in FreePages(heap) <==> Pow2(r) <= p < nPages
    {
      var lists: seq<PageList> := [];
      while |lists| < NR_SPAN_LISTS
        invariant |lists| <= NR_SPAN_LISTS
        invariant forall i :: 0 <= i < |lists| ==> fresh(lists[i])
        invariant forall i :: 0 <= i < |lists| ==> lists[i].contents == [] && lists[i].front == 0 && lists[i].back == 0
        invariant forall j, k :: 0 <= j < k < |lists| ==> lists[j] != lists[k]
      {
        var l := new PageList();
        lists := lists + [l];
      }
      freeSpans := lists;
      nrPages := nPages;
      nrFreePages := 0;
      pages := new Page[nPages + 1](_ => Page(false, 0, 0, 0, None, 0, 0, []));
      heap := FreshHeap(nPages, r);
      new;
      assert freeSpans == lists;
      FreshHeapFacts(pages[..], nPages, r);
      FreeSpanUnaligned(Pow2(r), nPages - Pow2(r), 0, 0);
    }

    /** The span lists are well linked and no page is on two of them. */
    ghost predicate Linked()
      reads this, pages, freeSpans
    {
      && |freeSpans| == NR_SPAN_LISTS
      && (forall j, k :: 0 <= j < k < NR_SPAN_LISTS ==> freeSpans[j] != freeSpans[k])
      && (forall k :: 0 <= k < NR_SPAN_LISTS ==> freeSpans[k].Valid(pages))
    }

    ghost predicate Listed(s: int, k: nat)
      requires |freeSpans| == NR_SPAN_LISTS
      reads freeSpans
    {
      k < NR_SPAN_LISTS && s >= 0 && s in freeSpans[k].contents
    }

    /** List k holds exactly the free spans of 2^k pages. */
    ghost predicate ListsMatch(h: Heap)
      requires |freeSpans| == NR_SPAN_LISTS
      reads this, freeSpans
    {
      forall s, k :: Listed(s, k) <==> IsFree(h, s, k)
    }

    ghost predicate Structured()
      reads this, pages, freeSpans
    {
      && nrPages == heap.size && 1 <= nrPages <= MAX_PAGES && pages.Length == nrPages + 1
      && Partitioned(heap) && Canonical(heap)
      && MetaOk(pages[..], heap)
      && Linked() && ListsMatch(heap)
      && 0 in heap.spans && heap.spans[0].kind.Reserved?
    }

    ghost predicate Consistent()
      reads this, pages, freeSpans
    {
      Structured() && nrFreePages == |FreePages(heap)|
    }

    /** The free span s is the first on its list. */
    ghost predicate Frontmost(s: nat)
      reads this, freeSpans
    {
      && s in heap.spans && heap.spans[s].order < |freeSpans|
      && freeSpans[heap.spans[s].order].contents != [] && freeSpans[heap.spans[s].order].contents[0] == s
    }

    method EraseFrom(k: nat, span: nat)
      requires Linked() && ListsMatch(heap) && IsFree(heap, span, k)
      modifies pages, freeSpans
      ensures Linked()
      ensures forall s, j :: Listed(s, j) <==> old(Listed(s, j)) && s != span
      ensures OnlyLinks(old(pages[..]), pages[..], old(freeSpans[k].contents))
    {
      assert Listed(span, k);
      ghost var ps := pages[..];
      ghost var touched := freeSpans[k].contents;
      freeSpans[k].Erase(pages, span);
      forall j | 0 <= j < NR_SPAN_LISTS && j != k ensures freeSpans[j].Valid(pages) {
        forall x | x in freeSpans[j].contents ensures x !in touched {
          assert old(Listed(x, j));
          assert !old(Listed(x, k));
        }
        UntouchedStaysLinked(ps, pages[..], touched, freeSpans[j].contents);
      }
    }

    lemma FreeSpanInFreePages(s: int, k: nat)
      requires Partitioned(heap) && IsFree(heap, s, k)
      ensures s in FreePages(heap) && s + Pow2(k) - 1 in FreePages(heap)
    {
      FreeSpanIsFreeBlock(heap, s);
    }

    method Unlink(k: nat, span: nat)
      requires Structured() && IsFree(heap, span, k) && span < pages.Length
      modifies this`heap, pages, freeSpans
      ensures heap == Detach(old(heap), span)
      ensures Structured()
      ensures SameOutside(old(pages[..]), pages[..], FreePages(old(heap)))
      ensures pages[span].spanSize == old(pages[span].spanSize)
    {
      ghost var touched := freeSpans[k].contents;
      EraseFrom(k, span);
      forall x | x in touched ensures x in FreePages(heap) {
        assert old(Listed(x, k));
        FreeSpanInFreePages(x, k);
      }
      MetaLinks(old(pages[..]), pages[..], touched, heap);
      MetaDetach(pages[..], heap, span);
      DetachValid(heap, span);
      heap := Detach(heap, span);
    }

    method LinkFront(k: nat, span: nat)
      requires Linked() && k < NR_SPAN_LISTS && 0 < span < pages.Length
      requires forall j :: !Listed(span, j)
      requires forall s, i, j :: Listed(s, i) && Listed(s, j) ==> i == j
      modifies pages, freeSpans
      ensures Linked() && freeSpans[k].contents == [span] + old(freeSpans[k].contents)
      ensures forall s, j :: Listed(s, j) <==> old(Listed(s, j)) || (s == span && j == k)
      ensures OnlyLinks(old(pages[..]), pages[..], [span] + old(freeSpans[k].contents))
    {
      ghost var ps := pages[..];
      assert !Listed(span, k);
      freeSpans[k].PushFront(pages, span);
      ghost var touched := freeSpans[k].contents;
      forall j | 0 <= j < NR_SPAN_LISTS && j != k ensures freeSpans[j].Valid(pages) {
        forall x | x in freeSpans[j].contents ensures x !in touched {
          assert old(Listed(x, j));
          assert x == span || !old(Listed(x, k));
        }
        UntouchedStaysLinked(ps, pages[..], touched, freeSpans[j].contents);
      }
    }

    /** Writes the flags of a span at its first and last page. */
    method MarkSpan(spanStart: nat, nPages: nat, isFree: bool)
      requires 0 < nPages && spanStart + nPages <= pages.Length && Linked()
      modifies pages
      ensures Linked()
      ensures Marked(old(pages[..]), pages[..], spanStart, nPages, isFree)
    {
      var spanEnd := spanStart + nPages - 1;
      pages[spanStart] := pages[spanStart].(free := isFree, spanSize := nPages);
      pages[spanEnd] := pages[spanEnd].(free := isFree, spanSize := nPages);
      forall k | 0 <= k < NR_SPAN_LISTS ensures freeSpans[k].Valid(pages) {
        SameLinksStayLinked(old(pages[..]), pages[..], freeSpans[k].contents);
      }
    }

    /** Puts a free span that is not on any list on the list of its order. */
    method Link(k: nat, span: nat, ghost h: Heap)
      requires Linked() && ListsMatch(heap) && k < NR_SPAN_LISTS && 0 < span < pages.Length
      requires Partitioned(h) && MetaOk(pages[..], h) && span !in heap.spans
      requires h == Attach(heap, span, Span(k, Free))
      modifies this`heap, pages, freeSpans
      ensures heap == h && Linked() && ListsMatch(heap) && MetaOk(pages[..], heap)
      ensures freeSpans[k].contents == [span] + old(freeSpans[k].contents)
      ensures SameOutside(old(pages[..]), pages[..], FreePages(heap))
    {
      forall j ensures !Listed(span, j) {
        assert !IsFree(heap, span, j);
      }
      forall s, i, j | Listed(s, i) && Listed(s, j) ensures i == j {
        assert IsFree(heap, s, i) && IsFree(heap, s, j);
      }
      ghost var touched := [span] + freeSpans[k].contents;
      LinkFront(k, span);
      MetaLinks(old(pages[..]), pages[..], touched, h);
      forall s, j ensures Listed(s, j) <==> IsFree(h, s, j) {
        assert old(Listed(s, j)) <==> IsFree(heap, s, j);
      }
      heap := h;
      forall x | x in touched ensures x in FreePages(heap) {
        assert x == span || old(Listed(x, k));
        assert Listed(x, k);
        FreeSpanInFreePages(x, k);
      }
    }

    /** Puts a block of the hole on its span list, without looking at its buddy. */
    method FreeSpanNoMerge(spanStart: nat, nPages: nat, ghost k: nat)
      requires Consistent()
      requires nPages == Pow2(k) && 0 < spanStart && BlockInHole(heap, spanStart, k)
      requires !IsFree(heap, FlipBit(spanStart, k), k)
      modifies this, pages, freeSpans
      ensures Consistent() && Frontmost(spanStart)
      ensures heap == Attach(old(heap), spanStart, Span(k, Free))
      ensures SameOutside(old(pages[..]), pages[..], FreePages(heap))
    {
      nrFreePages := nrFreePages + nPages;
      MarkSpan(spanStart, nPages, true);
      AttachStep(old(pages[..]), pages[..], heap, spanStart, Span(k, Free));
      var idx := IndexOf(nPages);
      Link(idx, spanStart, Attach(heap, spanStart, Span(k, Free)));
    }

    /**
     * Merges the block with its buddy if that is a free span of the same size. The three results are
     * the answer and the updated reference parameters.
     */
    method GrowSpan(spanStart: nat, nPages: nat, idx: nat) returns (grown: bool, start': nat, nPages': nat)
      requires Consistent()
      requires nPages == Pow2(idx) && 0 < spanStart && BlockInHole(heap, spanStart, idx)
      requires Inspectable(pages[..], heap, spanStart, idx)
      modifies this, pages, freeSpans
      ensures Consistent()
      ensures grown <==> IsFree(old(heap), FlipBit(spanStart, idx), idx)
      ensures !grown ==> heap == old(heap) && start' == spanStart && nPages' == nPages && pages[..] == old(pages[..])
      ensures grown ==> heap == Detach(old(heap), FlipBit(spanStart, idx))
                        && start' == ClearBit(spanStart, idx) && nPages' == Pow2(idx + 1)
      ensures 0 < start'
      ensures SameOutside(old(pages[..]), pages[..], FreePages(old(heap)))
    {
      grown, start', nPages' := false, spanStart, nPages;
      InspectionIsExact(pages[..], heap, spanStart, idx);
      var buddy := BuddyPage(spanStart, idx);
      BuddyPageIsInspected(spanStart, idx);
      if pages[buddy].free && pages[buddy].spanSize == nPages {
        assert SpanOk(heap, FlipBit(spanStart, idx));
        DetachCount(heap, FlipBit(spanStart, idx));
        Unlink(idx, FlipBit(spanStart, idx));
        nrFreePages := nrFreePages - nPages;
        start' := ClearBit(spanStart, idx);
        nPages' := nPages * 2;
        grown := true;
      }
    }

    /** Frees an aligned block, merging it with free buddies as far as that goes. */
    method FreeSpan(spanStart: nat, nPages: nat, ghost k: nat)
      requires Consistent()
      requires nPages == Pow2(k) && 0 < spanStart && BlockInHole(heap, spanStart, k)
      requires CleanAround(pages[..], heap, spanStart, k) || NoMerge(pages[..], heap, spanStart, k)
      modifies this, pages, freeSpans
      ensures Consistent()
      ensures Freed(old(heap), heap, spanStart, spanStart + nPages)
      ensures !IsFree(old(heap), FlipBit(spanStart, k), k) ==> heap == Attach(old(heap), spanStart, Span(k, Free))
      ensures SameOutside(old(pages[..]), pages[..], FreePages(heap))
    {
      IndexOfPow2(k);
      var idx, start, n := IndexOf(nPages), spanStart, nPages;
      CoalesceStart(heap, start, k);
      var grown := true;
      while grown
        invariant Consistent() && 0 <= idx && n == Pow2(idx) && 0 < start
        invariant GrowLoop(old(heap), old(pages[..]), spanStart, k, heap, pages[..], start, idx)
        invariant !grown ==> !IsFree(heap, FlipBit(start, idx), idx)
        decreases grown, heap.size - n
      {
        ghost var ps, h, a, j := pages[..], heap, start, idx;
        grown, start, n := GrowSpan(start, n, idx);
        if grown {
          idx := idx + 1;
          GrowLoopStep(old(heap), old(pages[..]), spanStart, k, h, ps, a, j, pages[..]);
        }
      }
      ghost var ps := pages[..];
      CoalesceEnd(old(heap), spanStart, k, heap, start, idx);
      FreeSpanNoMerge(start, n, idx);
      SameOutsideTrans(old(pages[..]), ps, pages[..], FreePages(old(heap)), FreePages(heap));
    }

    /** Frees the next piece of an unaligned range; the result is its size. */
    method FreePiece(start: nat, n: nat, ghost j: nat, ghost m: nat) returns (now: nat)
      requires Consistent() && 0 < start && 0 < n
      requires forall p :: start <= p < start + n ==> InHole(heap, p)
      requires CanFreePieces(pages[..], heap, start, n, j, m)
      modifies this, pages, freeSpans
      ensures Consistent()
      ensures 0 < now <= n && Freed(old(heap), heap, start, start + now)
      ensures CanFreePieces(pages[..], heap, start + now, n - now, j + 1, m)
      ensures SameOutside(old(pages[..]), pages[..], FreePages(heap))
    {
      var startNrBits := if start != 0 then CountTrailingZeros(start) else 32;
      var sizeNrBits := CountTrailingZeros(n);
      var bits := if startNrBits < sizeNrBits then startNrBits else sizeNrBits;
      now := Pow2(bits);
      PieceFacts(heap, start, n, bits);
      PieceCanBeFreed(pages[..], heap, start, n, j, m, bits);
      FreeSpan(start, now, bits);
      PieceWasFreed(old(pages[..]), pages[..], old(heap), heap, start, n, j, m, bits);
    }

    /**
     * Frees the pages [spanStart, spanStart + nPages) of the hole in aligned pieces. Either the hole
     * carries no stale free flags, or the range is the staircase that shrink leaves, whose pieces
     * never look above themselves.
     */
    method FreeSpanUnaligned(spanStart: nat, nPages: nat, ghost j0: nat, ghost m: nat)
      requires Consistent() && 0 < spanStart
      requires forall p :: spanStart <= p < spanStart + nPages ==> InHole(heap, p)
      requires CanFreePieces(pages[..], heap, spanStart, nPages, j0, m)
      modifies this, pages, freeSpans
      ensures Consistent()
      ensures Freed(old(heap), heap, spanStart, spanStart + nPages)
      ensures SameOutside(old(pages[..]), pages[..], FreePages(heap))
    {
      var start, n := spanStart, nPages;
      ghost var j, end := j0, spanStart + nPages;
      while n > 0
        invariant Consistent() && 0 < start && start + n == end
        invariant CanFreePieces(pages[..], heap, start, n, j, m)
        invariant Progress(old(heap), old(pages[..]), heap, pages[..], spanStart, start, end)
        decreases n
      {
        ghost var ps, h := pages[..], heap;
        var now := FreePiece(start, n, j, m);
        ProgressStep(old(heap), old(pages[..]), h, ps, heap, pages[..], spanStart, start, start + now, end);
        start := start + now;
        n := n - now;
        j := j + 1;
      }
    }

    ghost predicate Valid()
      reads this, pages, freeSpans
    {
      Consistent() && NoHole(heap)
    }

    /** The loop of find_and_unlink_span: the first list from index_of(n) up that is not empty. */
    method FirstNonEmpty(n: nat) returns (idx: nat, span: nat)
      requires Structured() && 0 < n < nrPages
      ensures idx >= NR_SPAN_LISTS ==> forall s, k: nat :: IsFree(heap, s, k) ==> k < IndexOf(n)
      ensures idx < NR_SPAN_LISTS ==> IsFree(heap, span, idx) && n <= Pow2(idx) && Frontmost(span)
      ensures idx >= IndexOf(n)
      ensures forall s, k: nat :: IsFree(heap, s, k) && k < idx ==> k < IndexOf(n)
    {
      IndexOfIsCeilLog2(n);
      idx, span := IndexOf(n), 0;
      forall k | 0 <= k < NR_SPAN_LISTS
        ensures freeSpans[k].Empty() <==> freeSpans[k].contents == []
        ensures freeSpans[k].contents != [] ==> freeSpans[k].front == freeSpans[k].contents[0]
      {
        freeSpans[k].FrontFacts(pages);
      }
      while idx < NR_SPAN_LISTS && freeSpans[idx].Empty()
        invariant IndexOf(n) <= idx
        invariant forall s, k: nat :: IsFree(heap, s, k) && k < idx ==> k < IndexOf(n)
      {
        forall s ensures !IsFree(heap, s, idx) {
          assert !Listed(s, idx);
        }
        idx := idx + 1;
      }
      if idx < NR_SPAN_LISTS {
        span := freeSpans[idx].front;
        assert Listed(span, idx);
        Pow2Mono(IndexOf(n), idx);
      } else {
        forall s, k: nat | IsFree(heap, s, k) ensures k < IndexOf(n) {
          assert Listed(s, k);
        }
      }
    }

    /** Takes the first span off the first non-empty list whose spans have at least n pages. */
    method FindAndUnlinkSpan(n: nat) returns (r: Option<nat>)
      requires Valid() && 0 < n < nrPages
      modifies this`heap, pages, freeSpans
      ensures Structured()
      ensures r.None? ==> heap == old(heap) && pages[..] == old(pages[..])
                          && forall s, k: nat :: IsFree(heap, s, k) ==> k < IndexOf(n)
      ensures r.Some? ==> r.value in old(heap).spans && old(heap).spans[r.value].kind.Free?
                          && heap == Detach(old(heap), r.value)
                          && Pow2(old(heap).spans[r.value].order) >= n
                          && r.value < pages.Length
                          && pages[r.value].spanSize == Pow2(old(heap).spans[r.value].order)
      ensures r.Some? ==> Tightest(old(heap), r.value, IndexOf(n)) && old(Frontmost(r.value))
      ensures SameOutside(old(pages[..]), pages[..], FreePages(old(heap)))
    {
      IndexOfIsCeilLog2(n);
      // The size test in front of the search never succeeds.
      assert n < 2 * Pow2(IndexOf(n));
      var idx, span := FirstNonEmpty(n);
      if idx >= NR_SPAN_LISTS {
        return None;
      }
      assert span in heap.spans && MetaAt(pages[..], heap, span);
      Unlink(idx, span);
      r := Some(span);
    }

    /** The halving loop of allocate_large_and_trim: gives back upper halves while n pages still fit. */
    method TrimSpan(spanIdx: nat, size0: nat, n: nat, ghost h0: Heap, ghost j0: nat)
        returns (spanSize: nat, ghost j: nat)
      requires Consistent() && Partitioned(h0) && 0 < n <= size0 == Pow2(j0) && 0 < spanIdx
      requires Trimming(h0, heap, spanIdx, j0)
      modifies this, pages, freeSpans
      ensures Consistent()
      ensures spanSize == Pow2(j) && n <= spanSize < 2 * n
      ensures Trimming(h0, heap, spanIdx, j)
      ensures SameOutside(old(pages[..]), pages[..], FreePages(h0))
    {
      spanSize, j := size0, j0;
      while spanSize >= n * 2
        invariant Consistent() && n <= spanSize == Pow2(j) && Trimming(h0, heap, spanIdx, j)
        invariant SameOutside(old(pages[..]), pages[..], FreePages(h0))
        decreases spanSize
      {
        j := j - 1;
        ghost var ps, h := pages[..], heap;
        TrimHalf(h0, heap, spanIdx, j);
        spanSize := spanSize / 2;
        FreeSpanNoMerge(spanIdx + spanSize, spanSize, j);
        TrimFrame(old(pages[..]), ps, pages[..], h0, heap, spanIdx, j);
      }
    }

    /** Marks the span as used; the result is what allocate_large_and_trim returns. */
    method HandOut(spanIdx: nat, spanSize: nat, ghost h0: Heap, ghost j: nat)
      requires Consistent() && Partitioned(h0) && spanSize == Pow2(j) && 0 < spanIdx
      requires Trimming(h0, heap, spanIdx, j)
      modifies this`heap, pages
      ensures Valid()
      ensures Allocated(h0, heap, spanIdx, j)
      ensures spanIdx < pages.Length && pages[spanIdx].pool == None
      ensures SameOutside(old(pages[..]), pages[..], FreePages(h0))
    {
      pages[spanIdx] := pages[spanIdx].(pool := None);
      forall k | 0 <= k < NR_SPAN_LISTS ensures freeSpans[k].Valid(pages) {
        SameLinksStayLinked(old(pages[..]), pages[..], freeSpans[k].contents);
      }
      MetaSameFlags(old(pages[..]), pages[..], heap);
      ghost var ps := pages[..];
      MarkSpan(spanIdx, spanSize, false);
      AttachStep(ps, pages[..], heap, spanIdx, Span(j, Used));
      TrimEnd(h0, heap, spanIdx, j);
      forall s, k ensures IsFree(heap, s, k) <==> IsFree(Attach(heap, spanIdx, Span(j, Used)), s, k) { }
      heap := Attach(heap, spanIdx, Span(j, Used));
    }

    /**
     * Hands out an aligned run of the least power of two of pages that holds n, or null. It fails
     * exactly when memory has no such run that is entirely free.
     */
    method AllocateLargeAndTrim(n: nat) returns (r: Option<nat>)
      requires Valid() && 0 < n
      modifies this, pages, freeSpans
      ensures Valid()
      ensures r.Some? <==> FreeBlockExists(old(heap), n)
      ensures r.None? ==> heap == old(heap)
      ensures r.Some? ==> Allocated(old(heap), heap, r.value, IndexOf(n))
                          && r.value < pages.Length && pages[r.value].pool == None
      ensures r.Some? ==> Tightest(old(heap), r.value, IndexOf(n)) && old(Frontmost(r.value))
      ensures SameOutside(old(pages[..]), pages[..], FreePages(old(heap)))
    {
      IndexOfIsCeilLog2(n);
      ghost var h0 := heap;
      if n >= nrPages {
        NoBlockAsLargeAsMemory(h0, n);
        return None;
      }
      var span := FindAndUnlinkSpan(n);
      if span.None? {
        EmptyListsMeanNoBlock(h0, n);
        return None;
      }
      var spanIdx := span.value;
      var spanSize := pages[spanIdx].spanSize;
      ghost var j := h0.spans[spanIdx].order;
      DetachCount(h0, spanIdx);
      TrimStart(h0, spanIdx);
      nrFreePages := nrFreePages - spanSize;
      ghost var ps := pages[..];
      spanSize, j := TrimSpan(spanIdx, spanSize, n, h0, j);
      SameOutsideTrans(old(pages[..]), ps, pages[..], FreePages(h0), FreePages(h0));
      ps := pages[..];
      HandOut(spanIdx, spanSize, h0, j);
      SameOutsideTrans(old(pages[..]), ps, pages[..], FreePages(h0), FreePages(h0));
      SizeIsIndexOf(n, j);
      r := Some(spanIdx);
    }

    /** Takes back a span that was handed out. */
    method FreeLarge(ptr: nat)
      requires Valid() && ptr in heap.spans && heap.spans[ptr].kind.Used?
      modifies this, pages, freeSpans
      ensures Valid()
      ensures Held(heap) == Held(old(heap)) - {ptr}
      ensures forall p :: p in FreePages(heap) <==> p in FreePages(old(heap)) || ptr <= p < old(End(heap, ptr))
      ensures SameOutside(old(pages[..]), pages[..], FreePages(heap))
    {
      ghost var k := heap.spans[ptr].order;
      assert MetaAt(pages[..], heap, ptr) && SpanOk(heap, ptr);
      DetachHeldSpan(pages[..], heap, ptr);
      ListsIgnoreHeld(ptr);
      heap := Detach(heap, ptr);
      FreeSpan(ptr, pages[ptr].spanSize, k);
    }

    lemma ListsIgnoreHeld(s: int)
      requires |freeSpans| == NR_SPAN_LISTS && ListsMatch(heap) && s in heap.spans && !heap.spans[s].kind.Free?
      ensures ListsMatch(Detach(heap, s))
    {
      forall t, k ensures IsFree(Detach(heap, s), t, k) <==> IsFree(heap, t, k) { }
    }

    /** The halving loop of shrink. */
    static method ShrunkSize(oldSizePages: nat, newSize: nat, ghost k: nat) returns (newSizePages: nat, ghost j: nat)
      requires oldSizePages == Pow2(k) && 0 < newSize
      ensures j == ShrunkOrder(k, newSize) && newSizePages == Pow2(j)
    {
      newSizePages, j := oldSizePages, k;
      HalfOfPow2(j);
      while newSizePages / 2 * PAGE_SIZE >= newSize
        invariant j <= k && newSizePages == Pow2(j) && ShrunkOrder(j, newSize) == ShrunkOrder(k, newSize)
        invariant newSizePages / 2 == if j == 0 then 0 else Pow2(j - 1)
        decreases j
      {
        HalfOfPow2(j - 1);
        newSizePages := newSizePages / 2;
        j := j - 1;
      }
    }

    /** The flag writes of shrink; the head's free flag, cleared already, is written again. */
    method CutSpan(ptr: nat, newSizePages: nat, ghost j: nat)
      requires Valid() && ptr in heap.spans && heap.spans[ptr].kind.Used?
      requires newSizePages == Pow2(j) && j < heap.spans[ptr].order && ptr > 0
      modifies this`heap, pages
      ensures Consistent()
      ensures heap == Attach(Detach(old(heap), ptr), ptr, Span(j, Used))
      ensures Held(heap) == Held(old(heap))[ptr := Span(j, Used)]
      ensures forall p :: p in FreePages(heap) <==> p in FreePages(old(heap))
      ensures forall p :: InHole(heap, p) <==> ptr + Pow2(j) <= p < old(End(heap, ptr))
      ensures Staircase(heap, ptr
              + newSizePages, old(End(heap, ptr)) - ptr - newSizePages, j, old(heap.spans[ptr].order))
      ensures ptr < pages.Length && pages[ptr].pool == old(pages[ptr].pool)
      ensures SameOutside(old(pages[..]), pages[..], Range(ptr, old(End(heap, ptr))))
    {
      assert SpanOk(heap, ptr);
      Pow2Mono(j, heap.spans[ptr].order);
      MarkSpan(ptr, newSizePages, false);
      CutHeldSpan(old(pages[..]), pages[..], heap, ptr, j);
      ghost var g := Attach(Detach(heap, ptr), ptr, Span(j, Used));
      forall t, k ensures IsFree(g, t, k) <==> IsFree(heap, t, k) { }
      heap := g;
    }

    /** The end of shrink: the span is cut, and what is behind it is freed. */
    method CutAndFree(ptr: nat, oldSizePages: nat, newSizePages: nat, ghost j: nat, ghost k: nat)
      requires Valid() && ptr in heap.spans && heap.spans[ptr] == Span(k, Used) && j < k && 0 < ptr < pages.Length
      requires oldSizePages == Pow2(k) && newSizePages == Pow2(j)
      modifies this, pages, freeSpans
      ensures Valid() && Held(heap) == Held(old(heap))[ptr := Span(j, Used)]
      ensures forall p :: p in FreePages(heap) <==>
                p in FreePages(old(heap)) || ptr + Pow2(j) <= p < ptr + Pow2(k)
      ensures SameOutsideTwo(old(pages[..]), pages[..], FreePages(heap), ptr, old(End(heap, ptr)))
      ensures pages[ptr].pool == old(pages[ptr].pool)
    {
      Pow2Mono(j, k);
      CutSpan(ptr, newSizePages, j);
      ghost var ps := pages[..];
      FreeSpanUnaligned(ptr + newSizePages, oldSizePages - newSizePages, j, k);
      assert SameOutside(ps, pages[..], FreePages(heap));
    }

    /**
     * Cuts a handed-out span down to the least power of two of pages that holds newSize bytes, if
     * that is at most half of it, and frees the rest.
     */
    method Shrink(ptr: nat, newSize: nat)
      requires Valid() && ptr in heap.spans && heap.spans[ptr].kind.Used?
      requires 0 < newSize && ptr < pages.Length
      modifies this, pages, freeSpans
      ensures Valid()
      ensures old(pages[ptr].pool.Some?) ==> heap == old(heap)
      ensures old(pages[ptr].pool.None?) ==>
                var k := old(heap.spans[ptr].order); var j := ShrunkOrder(k, newSize);
                && Held(heap) == Held(old(heap))[ptr := Span(j, Used)]
                && (forall p :: p in FreePages(heap) <==>
                  p in FreePages(old(heap)) || ptr + Pow2(j) <= p < ptr + Pow2(k))
      ensures SameOutsideTwo(old(pages[..]), pages[..], FreePages(heap), ptr, old(End(heap, ptr)))
      ensures pages[ptr].pool == old(pages[ptr].pool)
    {
      if pages[ptr].pool.Some? {
        return;
      }
      assert MetaAt(pages[..], heap, ptr) && SpanOk(heap, ptr);
      var oldSizePages := pages[ptr].spanSize;
      ghost var k := heap.spans[ptr].order;
      var newSizePages, j := ShrunkSize(oldSizePages, newSize, k);
      if newSizePages == oldSizePages {
        Pow2Injective(j, k);
        HeldSame(heap, ptr);
        return;
      }
      CutAndFree(ptr, oldSizePages, newSizePages, j, k);
    }

    // ---- access for the small pools, which keep their own data in the pages of held spans ----

    /** A list of held spans, linked through the same page array as the free lists. */
    ghost predicate HeldList(list: PageList)
      reads this, pages, freeSpans, list
    {
      && list !in freeSpans && list.Valid(pages)
      && forall x :: x in list.contents ==> x !in FreePages(heap)
    }

    /** Replaces what a pool keeps in a page. */
    method SetPoolData(list: PageList, p: nat, pool: Option<nat>, offset: nat, nr: nat, freelist: seq<nat>)
      requires Valid() && HeldList(list) && p < pages.Length
      modifies pages
      ensures Valid() && HeldList(list)
      ensures pages[..] == old(pages[..])[p := old(pages[p]).(pool := pool, offsetInSpan := offset,
                                                              nrSmallAlloc := nr, freelist := freelist)]
    {
      pages[p] := pages[p].(pool := pool, offsetInSpan := offset, nrSmallAlloc := nr, freelist := freelist);
      forall k | 0 <= k < NR_SPAN_LISTS ensures freeSpans[k].Valid(pages) {
        SameLinksStayLinked(old(pages[..]), pages[..], freeSpans[k].contents);
      }
      SameLinksStayLinked(old(pages[..]), pages[..], list.contents);
      MetaSameFlags(old(pages[..]), pages[..], heap);
    }

    lemma FreeListsApart(touched: seq<nat>)
      requires Structured() && forall x :: x in touched ==> x !in FreePages(heap)
      ensures forall k, x :: 0 <= k < NR_SPAN_LISTS && x in freeSpans[k].contents ==> x !in touched
    {
      forall k, x | 0 <= k < NR_SPAN_LISTS && x in freeSpans[k].contents ensures x !in touched {
        assert Listed(x, k);
        FreeSpanInFreePages(x, k);
      }
    }

    method HeldPushFront(list: PageList, span: nat)
      requires Valid() && HeldList(list) && 0 < span < nrPages && span !in FreePages(heap) && span !in list.contents
      modifies list, pages
      ensures Valid() && HeldList(list) && list.contents == [span] + old(list.contents)
      ensures OnlyLinks(old(pages[..]), pages[..], list.contents)
    {
      FreeListsApart([span] + list.contents);
      list.PushFront(pages, span);
      forall k | 0 <= k < NR_SPAN_LISTS ensures freeSpans[k].Valid(pages) {
        UntouchedStaysLinked(old(pages[..]), pages[..], list.contents, freeSpans[k].contents);
      }
      MetaLinks(old(pages[..]), pages[..], list.contents, heap);
    }

    method HeldPopFront(list: PageList)
      requires Valid() && HeldList(list) && list.contents != []
      modifies list, pages
      ensures Valid() && HeldList(list) && list.contents == old(list.contents)[1..]
      ensures OnlyLinks(old(pages[..]), pages[..], old(list.contents))
    {
      FreeListsApart(list.contents);
      ghost var touched := list.contents;
      list.PopFront(pages);
      forall k | 0 <= k < NR_SPAN_LISTS ensures freeSpans[k].Valid(pages) {
        UntouchedStaysLinked(old(pages[..]), pages[..], touched, freeSpans[k].contents);
      }
      MetaLinks(old(pages[..]), pages[..], touched, heap);
    }

    method HeldErase(list: PageList, span: nat)
      requires Valid() && HeldList(list) && span in list.contents
      modifies list, pages
      ensures Valid() && HeldList(list)
      ensures list.contents == Cut(old(list.contents), Position(old(list.contents), span))
      ensures forall x :: x in list.contents <==> x in old(list.contents) && x != span
      ensures OnlyLinks(old(pages[..]), pages[..], old(list.contents))
    {
      FreeListsApart(list.contents);
      ghost var touched := list.contents;
      list.Erase(pages, span);
      forall k | 0 <= k < NR_SPAN_LISTS ensures freeSpans[k].Valid(pages) {
        UntouchedStaysLinked(old(pages[..]), pages[..], touched, freeSpans[k].contents);
      }
      MetaLinks(old(pages[..]), pages[..], touched, heap);
    }
  }
}
