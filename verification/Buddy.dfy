/**
 * The partition of memory into naturally aligned power-of-two spans that core/memory.cc keeps,
 * without its page metadata: what splitting, merging, taking and returning spans do to it.
 */
module Buddy {
  import opened Bits

  datatype Kind = Free | Used | Reserved

  datatype Span = Span(order: nat, kind: Kind)

  /** owner[p] is the start of the span page p lies in, or -1 while p lies in no span. */
  datatype Heap = Heap(size: nat, spans: map<int, Span>, owner: seq<int>)

  ghost function End(h: Heap, s: int): int
    requires s in h.spans
  {
    s + Pow2(h.spans[s].order)
  }

  /** The span starting at s is aligned, inside memory, and owns exactly its own pages. */
  ghost predicate SpanOk(h: Heap, s: int)
    requires s in h.spans
  {
    && 0 <= s && Aligned(s, h.spans[s].order) && End(h, s) <= h.size <= |h.owner|
    && forall p :: s <= p < End(h, s) ==> h.owner[p] == s
  }

  ghost predicate OwnerOk(h: Heap, p: nat)
    requires p < |h.owner|
  {
    h.owner[p] == -1 || (h.owner[p] in h.spans && h.owner[p] <= p < End(h, h.owner[p]))
  }

  ghost predicate Partitioned(h: Heap) {
    && |h.owner| == h.size
    && (forall s {:trigger SpanOk(h, s)} :: s in h.spans ==> SpanOk(h, s))
    && (forall p {:trigger OwnerOk(h, p)} :: 0 <= p < h.size ==> OwnerOk(h, p))
  }

  ghost predicate IsFree(h: Heap, s: int, k: nat) {
    s in h.spans && h.spans[s] == Span(k, Free)
  }

  /** No span and its buddy of the same size are both free. */
  ghost predicate Canonical(h: Heap) {
    forall s, t, k :: IsFree(h, s, k) && IsFree(h, t, k) ==> t != FlipBit(s, k)
  }

  ghost predicate InHole(h: Heap, p: int) {
    0 <= p < |h.owner| && h.owner[p] == -1
  }

  /** The pages of [a, b). */
  ghost function Range(a: int, b: int): (r: set<int>)
    ensures forall p :: p in r <==> a <= p < b
  {
    set p {:trigger Within(p, a, b)} | a <= p < b && Within(p, a, b)
  }

  ghost predicate Within(p: int, a: int, b: int) {
    a <= p < b
  }

  lemma {:induction false} RangeSize(a: int, b: int)
    requires a <= b
    ensures |Range(a, b)| == b - a
    decreases b - a
  {
    if a < b {
      RangeSize(a + 1, b);
      assert Range(a, b) == {a} + Range(a + 1, b);
    } else {
      assert Range(a, b) == {};
    }
  }

  /** The pages that lie in free spans. */
  ghost function FreePages(h: Heap): set<int> {
    set p | 0 <= p < |h.owner| && PageFree(h, p)
  }

  ghost predicate PageFree(h: Heap, p: nat)
    requires p < |h.owner|
  {
    h.owner[p] >= 0 && h.owner[p] in h.spans && h.spans[h.owner[p]].kind.Free?
  }

  /** The spans that are not free: handed out to a caller, or reserved. */
  ghost function Held(h: Heap): map<int, Span> {
    map s | s in h.spans && !h.spans[s].kind.Free? :: h.spans[s]
  }

  ghost predicate BlockInHole(h: Heap, a: int, k: nat) {
    0 <= a && Aligned(a, k) && a + Pow2(k) <= |h.owner| && forall p :: a <= p < a + Pow2(k) ==> InHole(h, p)
  }

  ghost function Detach(h: Heap, s: int): Heap
    requires s in h.spans
  {
    Heap(h.size, map t | t in h.spans && t != s :: h.spans[t],
         seq(|h.owner|, p requires 0 <= p < |h.owner| => if s <= p < End(h, s) then -1 else h.owner[p]))
  }

  ghost function Attach(h: Heap, s: int, sp: Span): Heap {
    Heap(h.size, h.spans[s := sp],
         seq(|h.owner|, p requires 0 <= p < |h.owner| => if s <= p < s + Pow2(sp.order) then s else h.owner[p]))
  }

  lemma DetachValid(h: Heap, s: int)
    requires Partitioned(h) && s in h.spans
    ensures Partitioned(Detach(h, s))
    ensures BlockInHole(Detach(h, s), s, h.spans[s].order)
    ensures forall p :: InHole(Detach(h, s), p) <==> InHole(h, p) || s <= p < End(h, s)
    ensures Canonical(h) ==> Canonical(Detach(h, s))
  {
    var d := Detach(h, s);
    assert SpanOk(h, s);
    forall t | t in d.spans ensures SpanOk(d, t) {
      assert SpanOk(h, t);
      assert End(d, t) == End(h, t);
    }
    forall p | 0 <= p < d.size ensures OwnerOk(d, p) {
      assert OwnerOk(h, p);
    }
    forall a, b, k | Canonical(h) && IsFree(d, a, k) && IsFree(d, b, k) ensures b != FlipBit(a, k) {
      assert IsFree(h, a, k) && IsFree(h, b, k);
    }
  }

  lemma AttachValid(h: Heap, s: int, sp: Span)
    requires Partitioned(h) && BlockInHole(h, s, sp.order)
    ensures Partitioned(Attach(h, s, sp)) && s !in h.spans
    ensures forall p :: InHole(Attach(h, s, sp), p) <==> InHole(h, p) && !(s <= p < s + Pow2(sp.order))
  {
    var d := Attach(h, s, sp);
    assert InHole(h, s);
    assert s in h.spans ==> SpanOk(h, s);
    forall t | t in d.spans ensures SpanOk(d, t) {
      if t != s {
        assert SpanOk(h, t);
        assert End(d, t) == End(h, t);
        forall p | t <= p < End(h, t) ensures d.owner[p] == t {
          assert h.owner[p] == t;
          assert !InHole(h, p);
        }
      }
    }
    forall p | 0 <= p < d.size ensures OwnerOk(d, p) {
      assert OwnerOk(h, p);
    }
  }

  lemma AttachCanonical(h: Heap, s: int, sp: Span)
    requires Canonical(h) && s !in h.spans && Aligned(s, sp.order)
    requires sp.kind.Free? ==> !IsFree(h, FlipBit(s, sp.order), sp.order)
    ensures Canonical(Attach(h, s, sp))
  {
    var d := Attach(h, s, sp);
    forall a, b, k | IsFree(d, a, k) && IsFree(d, b, k) ensures b != FlipBit(a, k) {
      FlipTwice(a, k);
      assert a != s ==> IsFree(h, a, k);
      assert b != s ==> IsFree(h, b, k);
    }
  }

  lemma NextQuotient(a: int, m: nat)
    requires m > 0
    ensures (a + m) / m == a / m + 1
  {
    assert a == m * (a / m) + a % m;
    assert m * (a / m + 1) == m * (a / m) + m;
    DivUnique(a + m, m, a / m + 1, a % m);
  }

  lemma FlipTwice(a: int, k: nat)
    ensures FlipBit(FlipBit(a, k), k) == a
  {
    NextQuotient(a, Pow2(k));
    NextQuotient(a - Pow2(k), Pow2(k));
  }

  lemma DetachPages(h: Heap, s: int)
    requires Partitioned(h) && s in h.spans
    ensures forall p :: p in FreePages(Detach(h, s)) <==> p in FreePages(h) && !(s <= p < End(h, s))
    ensures forall p :: s <= p < End(h, s) ==> (p in FreePages(h) <==> h.spans[s].kind.Free?)
  {
    var d := Detach(h, s);
    assert SpanOk(h, s);
    forall p | 0 <= p < h.size
      ensures PageFree(d, p) <==> PageFree(h, p) && !(s <= p < End(h, s))
      ensures s <= p < End(h, s) ==> (PageFree(h, p) <==> h.spans[s].kind.Free?)
    {
      assert OwnerOk(h, p);
    }
  }

  lemma AddedBlock(small: set<int>, large: set<int>, block: set<int>)
    requires forall p :: p in large <==> p in small || p in block
    requires forall p :: p in block ==> p !in small
    ensures |large| == |small| + |block|
  {
    assert forall p :: p !in small * block;
    assert small * block == {};
    assert forall p :: p in large <==> p in small + block;
    assert large == small + block;
  }

  lemma DetachCount(h: Heap, s: int)
    requires Partitioned(h) && s in h.spans
    ensures |FreePages(Detach(h, s))| == |FreePages(h)| - if h.spans[s].kind.Free? then Pow2(h.spans[s].order) else 0
  {
    DetachPages(h, s);
    RangeSize(s, End(h, s));
    AddedBlock(FreePages(Detach(h, s)), FreePages(h), if h.spans[s].kind.Free? then Range(s, End(h, s)) else {});
  }

  lemma DetachHeld(h: Heap, s: int)
    requires s in h.spans
    ensures Held(Detach(h, s)) == Held(h) - {s}
  {
  }

  lemma AttachPages(h: Heap, s: int, sp: Span)
    requires Partitioned(h) && BlockInHole(h, s, sp.order)
    ensures forall p :: p in FreePages(Attach(h, s, sp)) <==>
              p in FreePages(h) || (sp.kind.Free? && s <= p < s + Pow2(sp.order))
    ensures forall p :: s <= p < s + Pow2(sp.order) ==> p !in FreePages(h)
  {
    var d := Attach(h, s, sp);
    AttachValid(h, s, sp);
    forall p | 0 <= p < h.size
      ensures PageFree(d, p) <==> if s <= p < s + Pow2(sp.order) then sp.kind.Free? else PageFree(h, p)
      ensures s <= p < s + Pow2(sp.order) ==> !PageFree(h, p)
    {
      assert OwnerOk(h, p);
      assert s <= p < s + Pow2(sp.order) ==> InHole(h, p);
    }
  }

  lemma AttachCount(h: Heap, s: int, sp: Span)
    requires Partitioned(h) && BlockInHole(h, s, sp.order)
    ensures |FreePages(Attach(h, s, sp))| == |FreePages(h)| + if sp.kind.Free? then Pow2(sp.order) else 0
  {
    AttachPages(h, s, sp);
    RangeSize(s, s + Pow2(sp.order));
    AddedBlock(FreePages(h), FreePages(Attach(h, s, sp)), if sp.kind.Free? then Range(s, s + Pow2(sp.order)) else {});
  }

  lemma AttachHeld(h: Heap, s: int, sp: Span)
    requires s !in h.spans
    ensures Held(Attach(h, s, sp)) == if sp.kind.Free? then Held(h) else Held(h)[s := sp]
  {
  }

  /** A span that overlaps the parent of an aligned hole but not the hole itself lies in the other half. */
  lemma SpanBesideHole(h: Heap, a: int, k: nat, s: int)
    requires Partitioned(h) && BlockInHole(h, a, k) && s in h.spans
    requires var c := ClearBit(a, k); c < End(h, s) && s < c + Pow2(k + 1)
    ensures h.spans[s].order <= k
    ensures FlipBit(a, k) <= s && End(h, s) <= FlipBit(a, k) + Pow2(k)
  {
    var j := h.spans[s].order;
    BuddyFacts(a, k);
    assert SpanOk(h, s);
    var c := ClearBit(a, k);
    assert InHole(h, a);
    if j > k {
      NestedOrDisjoint(c, k + 1, s, j);
      assert false;
    }
    NestedOrDisjoint(s, j, a, k);
    NestedOrDisjoint(s, j, FlipBit(a, k), k);
    assert a <= s < a + Pow2(k) ==> InHole(h, s);
  }

  /**
   * The one page that is looked at to decide on a merge is the first page of the upper buddy or the
   * last page of the lower one; whatever span owns it really starts, respectively ends, there.
   */
  lemma InspectedPage(h: Heap, a: int, k: nat, p: int)
    requires Partitioned(h) && BlockInHole(h, a, k)
    requires p == if Bit(a, k) == 1 then a - 1 else a + Pow2(k)
    requires 0 <= p < h.size && !InHole(h, p)
    ensures var s := h.owner[p];
            && s in h.spans && h.spans[s].order <= k
            && p == (if Bit(a, k) == 1 then End(h, s) - 1 else s)
            && (h.spans[s].order == k <==> s == FlipBit(a, k) && End(h, s) == s + Pow2(k))
  {
    assert OwnerOk(h, p);
    var s := h.owner[p];
    BuddyFacts(a, k);
    SpanBesideHole(h, a, k, s);
    Pow2Mono(h.spans[s].order, k);
  }

  /** Taking the buddy out as well leaves the parent block in the hole. */
  lemma MergedHole(h: Heap, a: int, k: nat)
    requires Partitioned(h) && BlockInHole(h, a, k)
    requires FlipBit(a, k) in h.spans && h.spans[FlipBit(a, k)].order == k
    ensures BlockInHole(Detach(h, FlipBit(a, k)), ClearBit(a, k), k + 1)
  {
    var b := FlipBit(a, k);
    BuddyFacts(a, k);
    DetachValid(h, b);
    var d := Detach(h, b);
    forall p | ClearBit(a, k) <= p < ClearBit(a, k) + Pow2(k + 1) ensures InHole(d, p) {
      assert a <= p < a + Pow2(k) ==> InHole(h, p);
    }
    assert SpanOk(h, b);
  }

  ghost predicate BlockFree(h: Heap, a: int, k: nat) {
    0 <= a && Aligned(a, k) && a + Pow2(k) <= |h.owner| && forall p :: a <= p < a + Pow2(k) ==> p in FreePages(h)
  }

  lemma FreeSpanIsFreeBlock(h: Heap, s: int)
    requires Partitioned(h) && s in h.spans && h.spans[s].kind.Free?
    ensures BlockFree(h, s, h.spans[s].order)
  {
    DetachPages(h, s);
    assert SpanOk(h, s);
  }

  lemma SpanCoversParent(h: Heap, s: int, a: int, k: nat, p: int)
    requires Partitioned(h) && s in h.spans && h.spans[s].order >= k && Aligned(a, k)
    requires s <= p < End(h, s) && a <= p < a + Pow2(k)
    ensures s <= a && a + Pow2(k) <= End(h, s)
  {
    assert SpanOk(h, s);
    NestedOrDisjoint(a, k, s, h.spans[s].order);
  }

  lemma BlockHalves(h: Heap, a: int, k: nat)
    requires BlockFree(h, a, k + 1)
    ensures BlockFree(h, a, k) && BlockFree(h, a + Pow2(k), k)
    ensures FlipBit(a, k) == a + Pow2(k)
  {
    AlignedUpperBit(a, k);
  }

  /** In a canonical heap an aligned block that is entirely free lies inside one single free span. */
  lemma {:induction false} FreeBlockInSpan(h: Heap, a: int, k: nat) returns (s: int)
    requires Partitioned(h) && Canonical(h) && BlockFree(h, a, k)
    ensures s in h.spans && h.spans[s].kind.Free? && h.spans[s].order >= k
    ensures s <= a && a + Pow2(k) <= End(h, s)
    decreases k
  {
    if k == 0 {
      assert a in FreePages(h);
      s := h.owner[a];
      assert OwnerOk(h, a);
    } else {
      BlockHalves(h, a, k - 1);
      s := FreeBlockInSpan(h, a, k - 1);
      var t := FreeBlockInSpan(h, a + Pow2(k - 1), k - 1);
      assert h.spans[s].order == k - 1 && h.spans[t].order == k - 1 ==> IsFree(h, s, k - 1) && IsFree(h, t, k - 1);
      if h.spans[s].order >= k {
        SpanCoversParent(h, s, a, k, a);
      } else {
        SpanCoversParent(h, t, a, k, a + Pow2(k - 1));
        s := t;
      }
    }
  }

  lemma SpansApart(h: Heap, s: int, t: int)
    requires Partitioned(h) && s in h.spans && t in h.spans && s < t
    ensures End(h, s) <= t
  {
    assert SpanOk(h, s) && SpanOk(h, t);
    assert h.owner[t] == t;
  }

  lemma SpansDisjoint(h: Heap, s: int, t: int)
    requires Partitioned(h) && s in h.spans && t in h.spans && s != t
    ensures End(h, s) <= t || End(h, t) <= s
  {
    if s < t {
      SpansApart(h, s, t);
    } else {
      SpansApart(h, t, s);
    }
  }

  /** The free spans are determined by which pages are free. */
  lemma CanonicalUnique(h: Heap, g: Heap, s: int, k: nat)
    requires Partitioned(h) && Canonical(h) && Partitioned(g) && Canonical(g)
    requires h.size == g.size && FreePages(h) == FreePages(g)
    requires IsFree(h, s, k)
    ensures IsFree(g, s, k)
  {
    FreeSpanIsFreeBlock(h, s);
    var t := FreeBlockInSpan(g, s, k);
    FreeSpanIsFreeBlock(g, t);
    var u := FreeBlockInSpan(h, t, g.spans[t].order);
    assert SpanOk(h, s) && SpanOk(h, u);
    assert h.owner[s] == s && h.owner[s] == u;
    Pow2Mono(k, g.spans[t].order);
  }

  /** Free pages and held spans together determine the whole partition. */
  lemma HeapDetermined(h: Heap, g: Heap)
    requires Partitioned(h) && Canonical(h) && Partitioned(g) && Canonical(g)
    requires h.size == g.size && FreePages(h) == FreePages(g) && Held(h) == Held(g)
    ensures h.spans == g.spans
  {
    forall s ensures s in h.spans <==> s in g.spans
             ensures s in h.spans && s in g.spans ==> h.spans[s] == g.spans[s]
    {
      if s in h.spans {
        if h.spans[s].kind.Free? {
          assert IsFree(h, s, h.spans[s].order);
          CanonicalUnique(h, g, s, h.spans[s].order);
        } else {
          assert s in Held(h);
        }
      }
      if s in g.spans {
        if g.spans[s].kind.Free? {
          assert IsFree(g, s, g.spans[s].order);
          CanonicalUnique(g, h, s, g.spans[s].order);
        } else {
          assert s in Held(g);
        }
      }
    }
  }
}
