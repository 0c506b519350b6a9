/**
 * The allocator as a whole (core/memory.cc): one array of pages, a pool for every size class, and
 * large allocations beside them.
 */
module Allocators {
  import opened Options
  import opened Bits
  import opened PageLists
  import opened Buddy
  import opened PageAllocator
  import opened SizeClasses
  import opened SmallPools

  // ---- large allocations ----

  /** The spans of every pool. */
  type Carvings = seq<map<nat, Carved>>

  /** A span that was handed out, and not to a pool. */
  ghost predicate IsLarge(h: Heap, cs: Carvings, s: nat) {
    s in Held(h) && Held(h)[s].kind.Used? && forall i {:trigger cs[i]} :: 0 <= i < |cs| ==> s !in cs[i]
  }

  ghost function LargesOf(h: Heap, cs: Carvings): map<nat, Span> {
    map s: nat | s in Held(h) && IsLarge(h, cs, s) :: Held(h)[s]
  }

  /** The first page of a large allocation does not name a pool. */
  ghost predicate HeadsPlain(ps: seq<Page>, h: Heap, cs: Carvings) {
    forall s: nat {:trigger IsLarge(h, cs, s)} :: IsLarge(h, cs, s) && s < |ps| ==> ps[s].pool == None
  }

  /** What one pool does is nothing to the large allocations. */
  lemma KeptLarges(a: Snapshot, b: Snapshot, cs: Carvings, ds: Carvings, i: nat)
    requires Partitioned(a.heap) && Kept(a, b) && i < |cs| && cs[i] == a.carved && ds == cs[i := b.carved]
    ensures LargesOf(b.heap, ds) == LargesOf(a.heap, cs)
    ensures HeadsPlain(a.pages, a.heap, cs) ==> HeadsPlain(b.pages, b.heap, ds)
  {
    forall s: nat
      ensures IsLarge(a.heap, cs, s) <==> IsLarge(b.heap, ds, s)
      ensures IsLarge(a.heap, cs, s) ==> Held(b.heap)[s] == Held(a.heap)[s] && PagesSame(a.pages, b.pages, a.heap, s)
    {
      assert SpanKept(a, b, s);
      assert s !in cs[i] <==> s !in a.carved;
      assert s !in ds[i] <==> s !in b.carved;
      assert forall j :: 0 <= j < |cs| && j != i ==> ds[j] == cs[j];
    }
    forall s: nat | IsLarge(b.heap, ds, s) && s < |b.pages| && HeadsPlain(a.pages, a.heap, cs)
      ensures b.pages[s].pool == None
    {
      assert IsLarge(a.heap, cs, s) && s < End(a.heap, s);
    }
  }

  /** The pools' spans are spans of pages that say so. */
  ghost predicate Tags(ps: seq<Page>, h: Heap, cs: Carvings) {
    forall i, s {:trigger s in cs[i]} :: 0 <= i < |cs| && s in cs[i] ==>
      s < |ps| && s in Held(h) && ps[s].pool == Some(i)
  }

  lemma CarvingsDisjoint(ps: seq<Page>, h: Heap, cs: Carvings, i: nat, j: nat)
    requires Tags(ps, h, cs) && i < |cs| && j < |cs| && i != j
    ensures forall s :: s in cs[i] ==> s !in cs[j]
  {
  }

  lemma AllocatedLarge(ps: seq<Page>, qs: seq<Page>, h: Heap, g: Heap, cs: Carvings, r: nat, k: nat)
    requires Partitioned(h) && Partitioned(g) && Tags(ps, h, cs) && HeadsPlain(ps, h, cs)
    requires SameOutside(ps, qs, FreePages(h)) && Allocated(h, g, r, k) && r < |qs| && qs[r].pool == None
    ensures LargesOf(g, cs) == LargesOf(h, cs)[r := Span(k, Used)] && r !in LargesOf(h, cs)
    ensures HeadsPlain(qs, g, cs)
  {
    assert r in FreePages(h);
    assert r !in Held(h) by {
      if r in h.spans { assert SpanOk(h, r); }
    }
    forall s: nat | s != r
      ensures IsLarge(g, cs, s) <==> IsLarge(h, cs, s)
      ensures IsLarge(h, cs, s) ==> Held(g)[s] == Held(h)[s] && (s < |ps| ==> qs[s] == ps[s])
    {
      if s in Held(h) {
        HeldIsNotFree(h, s);
        assert s in Held(g);
      }
    }
    assert IsLarge(g, cs, r);
  }

  lemma FreedLarge(ps: seq<Page>, qs: seq<Page>, h: Heap, g: Heap, cs: Carvings, r: nat)
    requires Partitioned(h) && HeadsPlain(ps, h, cs) && IsLarge(h, cs, r)
    requires SameOutside(ps, qs, FreePages(g)) && Held(g) == Held(h) - {r}
    requires forall p :: p in FreePages(g) <==> p in FreePages(h) || r <= p < End(h, r)
    ensures LargesOf(g, cs) == LargesOf(h, cs) - {r} && HeadsPlain(qs, g, cs)
  {
    forall s: nat | s != r
      ensures IsLarge(g, cs, s) <==> IsLarge(h, cs, s)
      ensures IsLarge(h, cs, s) ==> Held(g)[s] == Held(h)[s] && (s < |ps| ==> qs[s] == ps[s])
    {
      if s in Held(h) {
        HeldIsNotFree(h, s);
        SpansDisjoint(h, s, r);
        assert s in Held(g) && s < End(h, s);
      }
    }
  }

  lemma ShrunkLarge(ps: seq<Page>, qs: seq<Page>, h: Heap, g: Heap, cs: Carvings, r: nat, j: nat)
    requires Partitioned(h) && Partitioned(g) && HeadsPlain(ps, h, cs) && IsLarge(h, cs, r) && j <= h.spans[r].order
    requires SameOutsideTwo(ps, qs, FreePages(g), r, End(h, r)) && Held(g) == Held(h)[r := Span(j, Used)]
    requires forall p :: p in FreePages(g) <==> p in FreePages(h) || r + Pow2(j) <= p < End(h, r)
    requires r < |qs| ==> qs[r].pool == ps[r].pool
    ensures LargesOf(g, cs) == LargesOf(h, cs)[r := Span(j, Used)] && HeadsPlain(qs, g, cs)
  {
    forall s: nat | s != r
      ensures IsLarge(g, cs, s) <==> IsLarge(h, cs, s)
      ensures IsLarge(h, cs, s) ==> Held(g)[s] == Held(h)[s] && (s < |ps| ==> qs[s] == ps[s])
    {
      if s in Held(h) {
        HeldIsNotFree(h, s);
        SpansDisjoint(h, s, r);
        assert s in Held(g) && s < End(h, s);
      }
    }
    assert IsLarge(g, cs, r);
  }

  /** A shrunk span is nothing to the pools. */
  lemma ShrinkingIsElsewhere(ps: seq<Page>, qs: seq<Page>, h: Heap, g: Heap, st: Stock, r: nat, j: nat)
    requires Partitioned(h) && r in h.spans && r !in st.carved && StockOk(ps, h, st)
    requires SameOutsideTwo(ps, qs, FreePages(g), r, End(h, r)) && Held(g) == Held(h)[r := Span(j, Used)]
    requires forall p :: p in FreePages(g) <==> p in FreePages(h) || r + Pow2(j) <= p < End(h, r)
    ensures SpansUntouched(ps, qs, h, g, st)
  {
    forall s: nat | s in st.carved
      ensures s in g.spans && s in h.spans && g.spans[s] == h.spans[s]
      ensures PagesSame(ps, qs, h, s)
    {
      assert SpanCarved(ps, h, st, s);
      HeldIsNotFree(h, s);
      SpansDisjoint(h, s, r);
      assert s in Held(h) && s in Held(g) && Held(g)[s] == Held(h)[s];
    }
  }

  /** The page an object starts in names its pool. */
  lemma PoolOfObject(ps: seq<Page>, h: Heap, st: Stock, x: nat)
    requires StockOk(ps, h, st) && x in st.loc
    ensures x / PAGE_SIZE < |ps| && ps[x / PAGE_SIZE].pool == Some(st.id) && st.loc[x].span in st.carved
  {
    assert ObjOk(st, x);
    var i := LocatedIndex(st, x);
    var s := st.loc[x].span;
    assert SpanCarved(ps, h, st, s);
    ObjectFits(st.size, st.carved[s].objs, st.carved[s].pages, i);
    SpanOfObject(ps, h, st, s, i);
  }

  lemma ObjectsApart(ps: seq<Page>, h: Heap, st: Stock, x: nat, y: nat)
    requires Partitioned(h) && StockOk(ps, h, st) && x in st.loc && y in st.loc && x != y
    ensures x + st.size <= y || y + st.size <= x
  {
    if x < y {
      ObjectsDisjoint(ps, h, st, x, y);
    } else {
      ObjectsDisjoint(ps, h, st, y, x);
    }
  }

  // ---- size classes ----

  /** Pools are for sizes from 1 to 16384. */
  lemma PoolSizes(idx: nat)
    requires idx < NR_SMALL_POOLS
    ensures 0 < IdxToSize(idx) <= MAX_SMALL_ALLOCATION
  {
    PoolTable();
    Pow2Mono(idx / 4, 14);
    assert Pow2(14) == 16384 by {
      assert Pow2(8) == 256 && Pow2(6) == 64;
      Pow2Add(8, 6);
    }
    SmallProduct(4 + idx % 4, Pow2(idx / 4));
    if idx < 8 {
      FirstClasses(idx);
    } else if idx < NR_SMALL_POOLS - 1 {
      ClassesIncrease(idx, NR_SMALL_POOLS - 1);
    }
  }

  lemma SmallProduct(c: nat, p: nat)
    requires 4 <= c <= 7 && 1 <= p <= 16384
    ensures 0 < (c * p % WORD_SIZE) / 4
  {
    assert 4 <= c * p <= 7 * 16384;
  }

  /** The class chosen for a small size is one of the pools', and large enough. */
  lemma PoolFor(size: nat)
    requires 8 <= size <= MAX_SMALL_ALLOCATION
    ensures Log2Floor(size) >= IDX_FRAC_BITS && 0 <= SizeToIdx(size) < NR_SMALL_POOLS
            && size <= IdxToSize(SizeToIdx(size))
  {
    SizeClassFits(size);
    PoolTable();
    if SizeToIdx(size) >= NR_SMALL_POOLS {
      IndexBound(size);
      ClassesIncrease(NR_SMALL_POOLS - 1, SizeToIdx(size));
    }
  }

  /** Sizes below that of a pointer are not asked for. */
  function AtLeastWord(size: nat): nat {
    if size <= 8 then 8 else size
  }

  function PoolIndex(size: nat): nat
    requires AtLeastWord(size) <= MAX_SMALL_ALLOCATION
  {
    PoolFor(AtLeastWord(size));
    SizeToIdx(AtLeastWord(size))
  }

  /** The number of pages, as a 32-bit word. */
  function PagesFor(size: nat): nat {
    ((size + PAGE_SIZE - 1) / PAGE_SIZE) % WORD_SIZE
  }

  lemma PageOfAddress(s: nat)
    ensures s * PAGE_SIZE / PAGE_SIZE == s && s * PAGE_SIZE % PAGE_SIZE == 0
  {
  }

  lemma IndexBound(size: nat)
    requires 8 <= size <= MAX_SMALL_ALLOCATION
    ensures Log2Floor(size) >= IDX_FRAC_BITS && SizeToIdx(size) <= 4 * 29 + 3
  {
    var m, q := ChosenClass(size);
  }

  class Allocator {
    const cpu: CpuPages
    const pools: seq<SmallPool>

    /** The pools' objects, apart from the one of the pool itself. */
    ghost function Lists(): set<PageList> {
      set p | p in pools :: p.spanList
    }

    /** Different pools are different objects, with span lists of their own. */
    ghost predicate Separate() {
      forall i, j {:trigger pools[i], pools[j]} :: 0 <= i < j < |pools| ==>
        pools[i] != pools[j] && pools[i].spanList != pools[j].spanList
    }

    /** Pool i is right, for the pages ps divided as h says. */
    ghost predicate PoolOk(i: nat, ps: seq<Page>, h: Heap)
      requires i < |pools|
      reads pools[i], pools[i].spanList
    {
      && pools[i].cpu == cpu && pools[i].id == i && pools[i].objectSize == IdxToSize(i)
      && pools[i].spanList !in cpu.freeSpans && pools[i].RestOn(ps, h)
    }

    /** All pools but pool i are. */
    ghost predicate OthersOk(i: int, ps: seq<Page>, h: Heap)
      reads pools, Lists()
    {
      forall j {:trigger PoolOk(j, ps, h)} :: 0 <= j < |pools| && j != i ==> PoolOk(j, ps, h)
    }

    ghost function Carvings(): Carvings
      reads pools
    {
      seq(|pools|, i requires 0 <= i < |pools| reads pools => pools[i].stock.carved)
    }

    /** The large allocations in use. */
    ghost function Larges(): map<nat, Span>
      reads cpu, pools
    {
      LargesOf(cpu.heap, Carvings())
    }

    ghost predicate Valid()
      reads this, cpu, cpu.pages, cpu.freeSpans, pools, Lists()
    {
      && cpu.Valid() && |pools| == NR_SMALL_POOLS && Separate() && OthersOk(-1, cpu.pages[..], cpu.heap)
      && HeadsPlain(cpu.pages[..], cpu.heap, Carvings())
    }

    lemma PoolIsValid(i: nat)
      requires Valid() && i < |pools|
      ensures pools[i].AtRest() && PoolOk(i, cpu.pages[..], cpu.heap)
    {
      assert PoolOk(i, cpu.pages[..], cpu.heap);
      pools[i].AtRestIsOn();
    }

    /** In every span of every pool, the 16 bits of the counter and the 8 bits of the page offsets are enough. */
    lemma CountersNeverWrap(i: nat, s: nat)
      requires Valid() && i < |pools| && s in pools[i].stock.carved
      ensures s < cpu.pages.Length && cpu.pages[s].nrSmallAlloc <= 4096
      ensures s + pools[i].stock.carved[s].pages <= cpu.pages.Length && pools[i].stock.carved[s].pages <= 32
      ensures forall p :: s <= p < s + pools[i].stock.carved[s].pages ==> cpu.pages[p].offsetInSpan < 32
    {
      PoolIsValid(i);
      PoolSizes(i);
      pools[i].CountersFit(s);
    }

    lemma Tagged(ps: seq<Page>, h: Heap)
      requires OthersOk(-1, ps, h)
      ensures Tags(ps, h, Carvings())
    {
      var cs := Carvings();
      forall i, s {:trigger s in cs[i]} | 0 <= i < |cs| && s in cs[i]
        ensures s < |ps| && s in Held(h) && ps[s].pool == Some(i)
      {
        assert PoolOk(i, ps, h) && SpanCarved(ps, h, pools[i].stock, s);
        assert s < End(h, s);
      }
      assert Tags(ps, h, cs);
    }

    /** Pool i did something: everything is in order again, and the large allocations are as they were. */
    lemma Rejoined(i: nat, a: Snapshot, cs: Carvings)
      requires |pools| == NR_SMALL_POOLS && i < |pools| && Separate() && pools[i].AtRest()
      requires pools[i].cpu == cpu && pools[i].id == i && pools[i].objectSize == IdxToSize(i)
      requires OthersOk(i, a.pages, a.heap) && Partitioned(a.heap) && Kept(a, pools[i].Snap())
      requires |cs| == |pools| && cs[i] == a.carved && Carvings() == cs[i := pools[i].stock.carved]
      requires Tags(a.pages, a.heap, cs) && HeadsPlain(a.pages, a.heap, cs)
      ensures Valid() && Larges() == LargesOf(a.heap, cs)
    {
      var b := pools[i].Snap();
      pools[i].AtRestIsOn();
      KeptLarges(a, b, cs, Carvings(), i);
      forall j: nat | j < |pools| && j != i
        ensures PoolOk(j, b.pages, b.heap)
      {
        assert Carvings()[j] == cs[j];
        OtherStays(i, j, a, cs);
      }
    }

    lemma OtherStays(i: nat, j: nat, a: Snapshot, cs: Carvings)
      requires i < |pools| && j < |pools| && i != j && PoolOk(j, a.pages, a.heap) && pools[i].AtRest()
               && pools[i].cpu == cpu
      requires Kept(a, pools[i].Snap()) && |cs| == |pools| && cs[i] == a.carved && Tags(a.pages, a.heap, cs)
      requires cs[j] == pools[j].stock.carved
      ensures PoolOk(j, cpu.pages[..], cpu.heap)
    {
      CarvingsDisjoint(a.pages, a.heap, cs, j, i);
      KeptIsElsewhere(a, pools[i].Snap(), pools[j].stock);
      pools[j].StaysAtRest(a.pages, cpu.pages[..], a.heap, cpu.heap);
    }

    /** The pools ps are new, one for each of the first size classes, and apart from each other. */
    static ghost predicate NewPools(cpu: CpuPages, ps: seq<SmallPool>)
      reads ps, set p | p in ps :: p.spanList, cpu, cpu.pages, cpu.freeSpans
    {
      && |ps| <= NR_SMALL_POOLS
      && (forall i {:trigger ps[i]} :: 0 <= i < |ps| ==>
            && ps[i].cpu == cpu && ps[i].id == i && ps[i].objectSize == IdxToSize(i)
            && ps[i].AtRest() && ps[i].InUse() == {} && ps[i].stock.carved == map[])
      && (forall i, j {:trigger ps[i], ps[j]} :: 0 <= i < j < |ps| ==>
            ps[i] != ps[j] && ps[i].spanList != ps[j].spanList)
    }

    static method AddPool(cpu: CpuPages, ps: seq<SmallPool>) returns (p: SmallPool)
      requires cpu.Valid() && NewPools(cpu, ps) && |ps| < NR_SMALL_POOLS
      ensures NewPools(cpu, ps + [p]) && fresh(p) && fresh(p.spanList)
    {
      PoolSizes(|ps|);
      p := new SmallPool(cpu, |ps|, IdxToSize(|ps|));
      assert forall i {:trigger ps[i]} :: 0 <= i < |ps| ==>
             ps[i].AtRest() && ps[i] != p && ps[i].spanList != p.spanList;
    }

    static method MakePools(cpu: CpuPages) returns (ps: seq<SmallPool>)
      requires cpu.Valid()
      ensures NewPools(cpu, ps) && |ps| == NR_SMALL_POOLS && fresh(ps)
    {
      ps := [];
      while |ps| < NR_SMALL_POOLS
        invariant NewPools(cpu, ps) && fresh(ps)
      {
        var p := AddPool(cpu, ps);
        ps := ps + [p];
      }
    }

    /** A pool for every size class, with nothing in use. */
    constructor (cpu: CpuPages)
      requires cpu.Valid() && forall s :: s in Held(cpu.heap) ==> Held(cpu.heap)[s].kind.Reserved?
      ensures Valid() && this.cpu == cpu && Larges() == map[] && fresh(pools)
      ensures forall i :: 0 <= i < |pools| ==> pools[i].InUse() == {}
    {
      var ps := MakePools(cpu);
      this.cpu, pools := cpu, ps;
      new;
      forall i: nat | i < |pools|
        ensures PoolOk(i, cpu.pages[..], cpu.heap)
      {
        pools[i].AtRestIsOn();
      }
      assert forall s: nat :: !IsLarge(cpu.heap, Carvings(), s);
    }

    /** allocate_small(), once the pool is chosen. */
    method AllocateFrom(i: nat) returns (r: Option<nat>)
      requires Valid() && i < |pools|
      modifies cpu, cpu.pages, cpu.freeSpans, pools[i], pools[i].spanList
      ensures Valid() && Larges() == old(Larges())
      ensures forall j :: 0 <= j < |pools| && j != i ==> pools[j].InUse() == old(pools[j].InUse())
      ensures r.None? ==> pools[i].InUse() == old(pools[i].InUse()) && pools[i].cpu == cpu && pools[i].Exhausted()
      ensures r.Some? ==> r.value !in old(pools[i].InUse()) && pools[i].InUse() == old(pools[i].InUse()) + {r.value}
    {
      ghost var a, cs := pools[i].Snap(), Carvings();
      PoolIsValid(i);
      Tagged(a.pages, a.heap);
      r := pools[i].Allocate();
      forall j: nat | j < |pools| && j != i
        ensures PoolOk(j, a.pages, a.heap) { assert old(PoolOk(j, a.pages, a.heap)); }
      assert Carvings() == cs[i := pools[i].stock.carved];
      Rejoined(i, a, cs);
    }

    /** What matters to the other pools. */
    static method DeallocateIn(p: SmallPool, obj: nat)
      requires p.AtRest() && obj in p.InUse()
      modifies p`free, p`freeCount, p`stock, p.cpu, p.cpu.pages, p.cpu.freeSpans, p.spanList
      ensures p.AtRest() && p.InUse() == old(p.InUse()) - {obj} && Kept(old(p.Snap()), p.Snap())
    {
      p.Deallocate(obj);
    }

    /** deallocate() of an object of a pool. */
    method DeallocateTo(i: nat, obj: nat)
      requires Valid() && i < |pools| && obj in pools[i].InUse()
      modifies cpu, cpu.pages, cpu.freeSpans, pools[i], pools[i].spanList
      ensures Valid() && Larges() == old(Larges())
      ensures forall j :: 0 <= j < |pools| && j != i ==> pools[j].InUse() == old(pools[j].InUse())
      ensures pools[i].InUse() == old(pools[i].InUse()) - {obj}
    {
      ghost var a, cs := pools[i].Snap(), Carvings();
      PoolIsValid(i);
      Tagged(a.pages, a.heap);
      DeallocateIn(pools[i], obj);
      forall j: nat | j < |pools| && j != i
        ensures PoolOk(j, a.pages, a.heap) { assert old(PoolOk(j, a.pages, a.heap)); }
      assert Carvings() == cs[i := pools[i].stock.carved];
      Rejoined(i, a, cs);
    }

    method AllocatePages(n: nat) returns (r: Option<nat>)
      requires Valid() && 0 < n
      modifies cpu, cpu.pages, cpu.freeSpans
      ensures Valid() && (r.Some? <==> FreeBlockExists(old(cpu.heap), n))
      ensures forall j :: 0 <= j < |pools| ==> pools[j].InUse() == old(pools[j].InUse())
      ensures r.None? ==> Larges() == old(Larges())
      ensures r.Some? ==>
              IndexOf(n) >= 0 && r.value !in old(Larges())
                && Larges() == old(Larges())[r.value := Span(IndexOf(n), Used)]
    {
      ghost var ps, h, cs := cpu.pages[..], cpu.heap, Carvings();
      Tagged(ps, h);
      IndexOfIsCeilLog2(n);
      r := cpu.AllocateLargeAndTrim(n);
      forall j: nat | j < |pools| ensures PoolOk(j, ps, h) { assert old(PoolOk(j, ps, h)); }
      if r.None? {
        OthersAfterFailure(ps, h);
      } else {
        AllocatedLarge(ps, cpu.pages[..], h, cpu.heap, cs, r.value, IndexOf(n));
        OthersAfterAllocation(ps, h, r.value, IndexOf(n));
      }
    }

    lemma OthersAfterFailure(ps: seq<Page>, h: Heap)
      requires cpu.Valid() && cpu.heap == h && SameOutside(ps, cpu.pages[..], FreePages(h)) && OthersOk(-1, ps, h)
      requires HeadsPlain(ps, h, Carvings())
      ensures OthersOk(-1, cpu.pages[..], cpu.heap) && HeadsPlain(cpu.pages[..], cpu.heap, Carvings())
    {
      forall j: nat | j < |pools|
        ensures PoolOk(j, cpu.pages[..], h)
      {
        assert PoolOk(j, ps, h);
        SameOutsideFree(ps, cpu.pages[..], h, pools[j].stock);
        pools[j].StaysAtRest(ps, cpu.pages[..], h, h);
      }
      forall s: nat | IsLarge(h, Carvings(), s) && s < cpu.pages.Length
        ensures cpu.pages[..][s].pool == None
      {
        HeldIsNotFree(h, s);
        assert s < End(h, s);
      }
    }

    lemma OthersAfterAllocation(ps: seq<Page>, h: Heap, r: nat, k: nat)
      requires cpu.Valid() && Partitioned(h) && SameOutside(ps, cpu.pages[..], FreePages(h)) && OthersOk(-1, ps, h)
      requires Allocated(h, cpu.heap, r, k)
      ensures OthersOk(-1, cpu.pages[..], cpu.heap)
    {
      forall j: nat | j < |pools|
        ensures PoolOk(j, cpu.pages[..], cpu.heap)
      {
        assert PoolOk(j, ps, h);
        AllocationIsElsewhere(ps, cpu.pages[..], h, cpu.heap, pools[j].stock, r, k);
        pools[j].StaysAtRest(ps, cpu.pages[..], h, cpu.heap);
      }
    }

    /** free_large(). */
    method FreePagesOf(s: nat)
      requires Valid() && s in Larges()
      modifies cpu, cpu.pages, cpu.freeSpans
      ensures Valid() && Larges() == old(Larges()) - {s}
      ensures forall j :: 0 <= j < |pools| ==> pools[j].InUse() == old(pools[j].InUse())
    {
      ghost var ps, h, cs := cpu.pages[..], cpu.heap, Carvings();
      assert IsLarge(h, cs, s);
      cpu.FreeLarge(s);
      forall j: nat | j < |pools| ensures PoolOk(j, ps, h) { assert old(PoolOk(j, ps, h)); }
      FreedLarge(ps, cpu.pages[..], h, cpu.heap, cs, s);
      OthersAfterFreeing(ps, h, s);
    }

    lemma OthersAfterFreeing(ps: seq<Page>, h: Heap, r: nat)
      requires cpu.Valid() && Partitioned(h) && OthersOk(-1, ps, h) && IsLarge(h, Carvings(), r)
      requires SameOutside(ps, cpu.pages[..], FreePages(cpu.heap)) && Held(cpu.heap) == Held(h) - {r}
      requires forall p :: p in FreePages(cpu.heap) <==> p in FreePages(h) || r <= p < End(h, r)
      ensures OthersOk(-1, cpu.pages[..], cpu.heap)
    {
      forall j: nat | j < |pools|
        ensures PoolOk(j, cpu.pages[..], cpu.heap)
      {
        assert PoolOk(j, ps, h) && r !in Carvings()[j];
        FreeingIsElsewhere(ps, cpu.pages[..], h, cpu.heap, pools[j].stock, r);
        pools[j].StaysAtRest(ps, cpu.pages[..], h, cpu.heap);
      }
    }

    /** shrink() of a large allocation. */
    method ShrinkPages(s: nat, newSize: nat)
      requires Valid() && s in Larges() && 0 < newSize
      modifies cpu, cpu.pages, cpu.freeSpans
      ensures Valid() && Larges() == old(Larges())[s := Span(ShrunkOrder(old(Larges())[s].order, newSize), Used)]
      ensures forall j :: 0 <= j < |pools| ==> pools[j].InUse() == old(pools[j].InUse())
    {
      ghost var ps, h, cs := cpu.pages[..], cpu.heap, Carvings();
      assert IsLarge(h, cs, s) && SpanOk(h, s);
      ghost var j := ShrunkOrder(h.spans[s].order, newSize);
      cpu.Shrink(s, newSize);
      forall j: nat | j < |pools| ensures PoolOk(j, ps, h) { assert old(PoolOk(j, ps, h)); }
      ShrunkLarge(ps, cpu.pages[..], h, cpu.heap, cs, s, j);
      OthersAfterShrinking(ps, h, s, j);
    }

    lemma OthersAfterShrinking(ps: seq<Page>, h: Heap, r: nat, k: nat)
      requires cpu.Valid() && Partitioned(h) && OthersOk(-1, ps, h) && IsLarge(h, Carvings(), r)
      requires SameOutsideTwo(ps, cpu.pages[..], FreePages(cpu.heap), r, End(h, r))
               && Held(cpu.heap) == Held(h)[r := Span(k, Used)]
      requires forall p :: p in FreePages(cpu.heap) <==> p in FreePages(h) || r + Pow2(k) <= p < End(h, r)
      ensures OthersOk(-1, cpu.pages[..], cpu.heap)
    {
      forall j: nat | j < |pools|
        ensures PoolOk(j, cpu.pages[..], cpu.heap)
      {
        assert PoolOk(j, ps, h) && r !in Carvings()[j];
        ShrinkingIsElsewhere(ps, cpu.pages[..], h, cpu.heap, pools[j].stock, r, k);
        pools[j].StaysAtRest(ps, cpu.pages[..], h, cpu.heap);
      }
    }

    // ---- addresses ----

    /** n bytes at address a are an object in use, or a large allocation. */
    ghost predicate Small(a: nat, n: nat, i: nat)
      reads pools
    {
      i < |pools| && a in pools[i].InUse() && n == pools[i].objectSize
    }

    ghost predicate Large(a: nat, n: nat)
      reads cpu, pools
    {
      a % PAGE_SIZE == 0 && a / PAGE_SIZE in Larges() && n == Pow2(Larges()[a / PAGE_SIZE].order) * PAGE_SIZE
    }

    ghost predicate Live(a: nat, n: nat)
      reads cpu, pools
    {
      Large(a, n) || exists i :: Small(a, n, i)
    }

    /** A small object is inside a span of its pool. */
    lemma SmallInside(a: nat, n: nat, i: nat) returns (s: nat)
      requires Valid() && Small(a, n, i)
      ensures s in pools[i].stock.carved && s in Held(cpu.heap) && s * PAGE_SIZE <= a
              && a + n <= End(cpu.heap, s) * PAGE_SIZE
      ensures n > 0 && a / PAGE_SIZE < cpu.pages.Length && cpu.pages[a / PAGE_SIZE].pool == Some(i)
    {
      PoolIsValid(i);
      s := pools[i].stock.loc[a].span;
      ObjectInSpan(cpu.pages[..], cpu.heap, pools[i].stock, a);
      PoolOfObject(cpu.pages[..], cpu.heap, pools[i].stock, a);
    }

    lemma LargeInside(a: nat, n: nat)
      requires Valid() && Large(a, n)
      ensures var s := a / PAGE_SIZE;
              && IsLarge(cpu.heap, Carvings(), s) && s * PAGE_SIZE == a && a + n == End(cpu.heap, s) * PAGE_SIZE
              && n > 0 && s < cpu.pages.Length && cpu.pages[s].pool == None
    {
      var s := a / PAGE_SIZE;
      assert IsLarge(cpu.heap, Carvings(), s);
      assert SpanOk(cpu.heap, s) && s < End(cpu.heap, s);
      assert cpu.pages[..][s].pool == None;
    }

    lemma SpansOfBlocks(a: nat, n: nat, s: nat, b: nat, m: nat, t: nat)
      requires cpu.Valid() && s in cpu.heap.spans && t in cpu.heap.spans && s != t && n > 0 && m > 0
      requires s * PAGE_SIZE <= a && a + n <= End(cpu.heap, s) * PAGE_SIZE
      requires t * PAGE_SIZE <= b && b + m <= End(cpu.heap, t) * PAGE_SIZE
      ensures a + n <= b || b + m <= a
    {
      SpansDisjoint(cpu.heap, s, t);
    }

    lemma SmallApart(a: nat, n: nat, i: nat, b: nat, m: nat, j: nat)
      requires Valid() && Small(a, n, i) && Small(b, m, j) && (i != j || a != b)
      ensures a + n <= b || b + m <= a
    {
      var s := SmallInside(a, n, i);
      var t := SmallInside(b, m, j);
      PoolIsValid(i);
      if i == j {
        ObjectsApart(cpu.pages[..], cpu.heap, pools[i].stock, a, b);
      } else {
        Tagged(cpu.pages[..], cpu.heap);
        CarvingsDisjoint(cpu.pages[..], cpu.heap, Carvings(), i, j);
        assert s in Carvings()[i] && t in Carvings()[j];
        SpansOfBlocks(a, n, s, b, m, t);
      }
    }

    lemma SmallBesideLarge(a: nat, n: nat, i: nat, b: nat, m: nat)
      requires Valid() && Small(a, n, i) && Large(b, m)
      ensures a + n <= b || b + m <= a
    {
      var s := SmallInside(a, n, i);
      LargeInside(b, m);
      assert s in Carvings()[i];
      SpansOfBlocks(a, n, s, b, m, b / PAGE_SIZE);
    }

    /** What is in use does not overlap, whatever pools and sizes it is from. */
    lemma LiveBlocksDisjoint(a: nat, n: nat, b: nat, m: nat)
      requires Valid() && Live(a, n) && Live(b, m)
      ensures if a == b then n == m else a + n <= b || b + m <= a
    {
      if Large(a, n) && Large(b, m) {
        LargeInside(a, n);
        LargeInside(b, m);
        if a != b {
          SpansOfBlocks(a, n, a / PAGE_SIZE, b, m, b / PAGE_SIZE);
        }
      } else if Large(a, n) {
        var j :| Small(b, m, j);
        LargeInside(a, n);
        var _ := SmallInside(b, m, j);
        SmallBesideLarge(b, m, j, a, n);
      } else if Large(b, m) {
        var i :| Small(a, n, i);
        LargeInside(b, m);
        var _ := SmallInside(a, n, i);
        SmallBesideLarge(a, n, i, b, m);
      } else {
        var i :| Small(a, n, i);
        var j :| Small(b, m, j);
        var _ := SmallInside(a, n, i);
        if i != j || a != b {
          var _ := SmallInside(b, m, j);
          SmallApart(a, n, i, b, m, j);
        }
      }
    }

    // ---- the interface ----

    /** From the pool of the size class. */
    method AllocateSmall(size: nat) returns (r: Option<nat>)
      requires Valid() && AtLeastWord(size) <= MAX_SMALL_ALLOCATION
      modifies cpu, cpu.pages, cpu.freeSpans, pools, Lists()
      ensures Valid() && PoolIndex(size) < |pools| && Larges() == old(Larges())
      ensures r.None? ==> pools[PoolIndex(size)].Exhausted()
      ensures r.Some? ==> exists n :: size <= n && Live(r.value, n) && HandedOut(size, r.value)
      ensures r.Some? ==> r.value !in old(pools[PoolIndex(size)].InUse())
      ensures forall j :: 0 <= j < |pools| ==>
                pools[j].InUse() == if r.Some? && j == PoolIndex(size) then old(pools[j].InUse()) + {r.value}
                                    else old(pools[j].InUse())
    {
      PoolFor(AtLeastWord(size));
      var i := SizeToIdx(AtLeastWord(size));
      r := AllocateFrom(i);
      if r.Some? {
        SmallIsLive(r.value, i);
      }
    }

    /** Whole pages. */
    method AllocateBig(size: nat) returns (r: Option<nat>)
      requires Valid() && AtLeastWord(size) > MAX_SMALL_ALLOCATION && size < 0x8000_0000_0000_0000
      modifies cpu, cpu.pages, cpu.freeSpans
      ensures Valid() && (r.None? ==> Larges() == old(Larges()))
      ensures var n := PagesFor(size); (r.Some? <==> n * PAGE_SIZE >= size && FreeBlockExists(old(cpu.heap), n))
      ensures r.Some? ==> exists n :: size <= n && Live(r.value, n) && HandedOut(size, r.value)
      ensures r.Some? ==>
                && r.value / PAGE_SIZE in Larges() && r.value / PAGE_SIZE !in old(Larges())
                && Larges() == old(Larges())[r.value / PAGE_SIZE := Larges()[r.value / PAGE_SIZE]]
      ensures forall j :: 0 <= j < |pools| ==> pools[j].InUse() == old(pools[j].InUse())
    {
      var n := PagesFor(size);
      if n * PAGE_SIZE < size {
        return None;
      }
      var s := AllocatePages(n);
      if s.None? {
        return None;
      }
      IndexOfIsCeilLog2(n);
      LargeIsLive(s.value);
      r := Some(s.value * PAGE_SIZE);
    }

    /** allocate(): from the pool of the size class, or whole pages. */
    method Allocate(size: nat) returns (r: Option<nat>)
      requires Valid() && size < 0x8000_0000_0000_0000
      modifies cpu, cpu.pages, cpu.freeSpans, pools, Lists()
      ensures Valid()
      ensures r.None? ==> Larges() == old(Larges()) && forall j :: 0 <= j < |pools| ==>
              pools[j].InUse() == old(pools[j].InUse())
      ensures r.None? && AtLeastWord(size) <= MAX_SMALL_ALLOCATION ==>
                PoolIndex(size) < |pools| && pools[PoolIndex(size)].Exhausted()
      ensures AtLeastWord(size) > MAX_SMALL_ALLOCATION ==>
                var n := PagesFor(size); (r.Some? <==> n * PAGE_SIZE >= size && FreeBlockExists(old(cpu.heap), n))
      ensures r.Some? ==> exists n :: size <= n && Live(r.value, n) && HandedOut(size, r.value)
      ensures r.Some? && AtLeastWord(size) <= MAX_SMALL_ALLOCATION ==>
                var i := PoolIndex(size);
                && Larges() == old(Larges()) && r.value !in old(pools[i].InUse())
                && forall j :: 0 <= j < |pools| ==>
                     pools[j].InUse() == if j == i then old(pools[j].InUse()) + {r.value} else old(pools[j].InUse())
      ensures r.Some? && AtLeastWord(size) > MAX_SMALL_ALLOCATION ==>
                && r.value / PAGE_SIZE in Larges() && r.value / PAGE_SIZE !in old(Larges())
                && Larges() == old(Larges())[r.value / PAGE_SIZE := Larges()[r.value / PAGE_SIZE]]
                && forall j :: 0 <= j < |pools| ==> pools[j].InUse() == old(pools[j].InUse())
    {
      if AtLeastWord(size) <= MAX_SMALL_ALLOCATION {
        r := AllocateSmall(size);
      } else {
        r := AllocateBig(size);
      }
    }

    lemma SmallIsLive(a: nat, i: nat)
      requires Valid() && i < |pools| && a in pools[i].InUse()
      ensures Live(a, IdxToSize(i))
    {
      PoolIsValid(i);
      assert Small(a, IdxToSize(i), i);
    }

    lemma LargeIsLive(s: nat)
      requires s in Larges()
      ensures Live(s * PAGE_SIZE, Pow2(Larges()[s].order) * PAGE_SIZE)
    {
      PageOfAddress(s);
      assert Large(s * PAGE_SIZE, Pow2(Larges()[s].order) * PAGE_SIZE);
    }

    /** An allocation of this size is where freeing with the size looks for it. */
    ghost predicate HandedOut(size: nat, a: nat)
      reads cpu, pools
    {
      if AtLeastWord(size) <= MAX_SMALL_ALLOCATION then
        PoolIndex(size) < |pools| && a in pools[PoolIndex(size)].InUse()
      else a % PAGE_SIZE == 0 && a / PAGE_SIZE in Larges()
    }

    /** free(ptr, size), where the size leads to the same pool as in allocate(). */
    method FreeSized(a: nat, size: nat)
      requires Valid() && HandedOut(size, a)
      modifies cpu, cpu.pages, cpu.freeSpans, pools, Lists()
      ensures Valid() && Larges() == old(Larges()) - {a / PAGE_SIZE}
      ensures forall j :: 0 <= j < |pools| ==> pools[j].InUse() == old(pools[j].InUse()) - {a}
    {
      var size' := AtLeastWord(size);
      if size' <= MAX_SMALL_ALLOCATION {
        PoolFor(size');
        FreeFrom(SizeToIdx(size'), a);
      } else {
        FreeLargeAt(a);
      }
    }

    /** free(ptr): the page says which pool the object is from. */
    method Free(a: nat, ghost n: nat)
      requires Valid() && Live(a, n)
      modifies cpu, cpu.pages, cpu.freeSpans, pools, Lists()
      ensures Valid() && Larges() == old(Larges()) - {a / PAGE_SIZE}
      ensures forall j :: 0 <= j < |pools| ==> pools[j].InUse() == old(pools[j].InUse()) - {a}
    {
      PageTellsPool(a, n);
      match cpu.pages[a / PAGE_SIZE].pool
      case Some(i) => FreeFrom(i, a);
      case None => FreeLargeAt(a);
    }

    lemma PageTellsPool(a: nat, n: nat)
      requires Valid() && Live(a, n)
      ensures a / PAGE_SIZE < cpu.pages.Length
      ensures match cpu.pages[a / PAGE_SIZE].pool
              case Some(i) => Small(a, n, i)
              case None => Large(a, n)
    {
      if Large(a, n) {
        LargeInside(a, n);
      } else {
        var i :| Small(a, n, i);
        var s := SmallInside(a, n, i);
      }
    }

    method FreeFrom(i: nat, a: nat)
      requires Valid() && i < |pools| && a in pools[i].InUse()
      modifies cpu, cpu.pages, cpu.freeSpans, pools[i], pools[i].spanList
      ensures Valid() && Larges() == old(Larges()) - {a / PAGE_SIZE}
      ensures forall j :: 0 <= j < |pools| ==> pools[j].InUse() == old(pools[j].InUse()) - {a}
    {
      InNoOther(i, a);
      DeallocateTo(i, a);
    }

    /** A small object is in no other pool, and its page begins no large allocation. */
    lemma InNoOther(i: nat, a: nat)
      requires Valid() && i < |pools| && a in pools[i].InUse()
      ensures a / PAGE_SIZE !in Larges() && forall j :: 0 <= j < |pools| && j != i ==> a !in pools[j].InUse()
    {
      PoolIsValid(i);
      var s := SmallInside(a, IdxToSize(i), i);
      forall j: nat | j < |pools| && j != i
        ensures a !in pools[j].InUse()
      {
        PoolIsValid(j);
        if a in pools[j].InUse() {
          SmallApart(a, IdxToSize(i), i, a, IdxToSize(j), j);
          var t := SmallInside(a, IdxToSize(j), j);
        }
      }
      LargesArePlain();
    }

    lemma LargesArePlain()
      requires Valid()
      ensures forall p :: p in Larges() ==> 0 <= p < cpu.pages.Length && cpu.pages[p].pool == None
    {
      forall p | p in Larges() ensures 0 <= p < cpu.pages.Length && cpu.pages[p].pool == None {
        assert IsLarge(cpu.heap, Carvings(), p) && SpanOk(cpu.heap, p) && p < End(cpu.heap, p);
        assert cpu.pages[..][p].pool == None;
      }
    }

    method FreeLargeAt(a: nat)
      requires Valid() && a % PAGE_SIZE == 0 && a / PAGE_SIZE in Larges()
      modifies cpu, cpu.pages, cpu.freeSpans
      ensures Valid() && Larges() == old(Larges()) - {a / PAGE_SIZE}
      ensures forall j :: 0 <= j < |pools| ==> pools[j].InUse() == old(pools[j].InUse()) - {a}
    {
      LargeIsNoObject(a);
      FreePagesOf(a / PAGE_SIZE);
    }

    lemma LargeIsNoObject(a: nat)
      requires Valid() && a % PAGE_SIZE == 0 && a / PAGE_SIZE in Larges()
      ensures forall j :: 0 <= j < |pools| ==> a !in pools[j].InUse()
    {
      LargeInside(a, Pow2(Larges()[a / PAGE_SIZE].order) * PAGE_SIZE);
      forall j: nat | j < |pools|
        ensures a !in pools[j].InUse()
      {
        if a in pools[j].InUse() {
          InNoOther(j, a);
        }
      }
    }

    /** shrink(): a small object keeps its size. */
    method Shrink(a: nat, newSize: nat, ghost n: nat)
      requires Valid() && Live(a, n) && 0 < newSize
      modifies cpu, cpu.pages, cpu.freeSpans
      ensures Valid() && forall j :: 0 <= j < |pools| ==> pools[j].InUse() == old(pools[j].InUse())
      ensures Larges() == if a / PAGE_SIZE in old(Larges())
                          then old(Larges())[a / PAGE_SIZE :=
                            Span(ShrunkOrder(old(Larges())[a / PAGE_SIZE].order, newSize), Used)]
                          else old(Larges())
    {
      PageTellsPool(a, n);
      match cpu.pages[a / PAGE_SIZE].pool
      case Some(i) => InNoOther(i, a);
      case None => ShrinkPages(a / PAGE_SIZE, newSize);
    }
  }
}
