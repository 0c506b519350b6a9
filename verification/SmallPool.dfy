/** The sizes of the spans that a small-object pool asks for (core/memory.cc). */
module SpanSizes {
  import opened Bits
  import opened PageAllocator

  lemma FewObjects(bytes: nat, size: nat)
    requires size > 0
    ensures bytes / size < 4 <==> bytes < 4 * size
  {
    assert bytes == size * (bytes / size) + bytes % size;
  }

  lemma MaxCount(bytes: nat, size: nat, n: nat)
    requires size > 0 && n * size <= bytes && bytes - size < n * size
    ensures n == bytes / size
  {
    DivUnique(bytes, size, n, bytes - n * size);
  }

  lemma ProductGrows(n: nat, k: nat, size: nat)
    requires k <= size
    ensures n * k <= n * size
  {
    assert n * size == n * k + n * (size - k);
  }

  /** How many objects fit in a span of n pages. */
  function ObjectsIn(n: nat, size: nat): nat
    requires size > 0
  {
    n * PAGE_SIZE / size
  }

  lemma LargestQuotient(bytes: nat, size: nat, most: nat)
    requires size > 0 && most == if bytes / size < 100 then 100 else bytes / size
    ensures (most * size <= bytes || most == 100) && (most + 1) * size > bytes
  {
    assert bytes == size * (bytes / size) + bytes % size;
    ProductGrows(size, bytes / size, most);
    assert (most + 1) * size == size * most + size;
    assert most * size == size * most;
  }

  lemma QuotientFits(bytes: nat, size: nat)
    requires size > 0
    ensures bytes / size * size <= bytes
  {
    assert bytes == size * (bytes / size) + bytes % size;
    assert bytes / size * size == size * (bytes / size);
  }

  /** No more objects fit than in more bytes. */
  lemma AtMost(bytes: nat, more: nat, size: nat, n: nat)
    requires size > 0 && n * size <= bytes <= more
    ensures n <= more / size
  {
    var q := more / size;
    assert more == size * q + more % size;
    assert size * (q + 1) == size * q + size;
    assert n * size == size * n;
    if n > q {
      ProductGrows(size, q + 1, n);
    }
  }

  /** n objects take up the bytes before the offset. */
  predicate Filled(offset: nat, n: nat, size: nat, bytes: nat) {
    offset == n * size && offset <= bytes
  }

  lemma FilledMore(offset: nat, n: nat, size: nat, bytes: nat)
    requires Filled(offset, n, size, bytes) && offset + size <= bytes
    ensures Filled(offset + size, n + 1, size, bytes)
  {
    assert (n + 1) * size == n * size + size;
  }

  lemma FilledUp(offset: nat, n: nat, size: nat, bytes: nat)
    requires 0 < size <= bytes && Filled(offset, n, size, bytes) && offset + size > bytes
    ensures n == bytes / size && n > 0
  {
    MaxCount(bytes, size, n);
    assert n == 0 ==> offset == 0;
  }

  /** A span of n pages is too small for objects of the size, or wastes too much of it. */
  predicate Unfit(n: nat, size: nat)
    requires size > 0
  {
    size > n * PAGE_SIZE || (n < 32 && 20 * (n * PAGE_SIZE % size) > n * PAGE_SIZE) || n * PAGE_SIZE / size < 4
  }

  /** The preferred span size is the least that fits, the fallback the least that holds an object. */
  ghost predicate SizesChosen(size: nat, preferred: nat, fallback: nat)
    requires size > 0
  {
    && (fallback - 1) * PAGE_SIZE < size <= fallback * PAGE_SIZE
    && preferred > 0 && !Unfit(preferred, size) && forall n: nat {:trigger Unfit(n, size)} ::
         0 < n < preferred ==> Unfit(n, size)
  }

  /** Small objects get spans of one page, and no pool has spans of more than 32. */
  predicate FewPages(size: nat, preferred: nat, fallback: nat) {
    && fallback <= preferred
    && (size <= 16384 ==> fallback <= 4 && preferred <= 32 && (size <= 205 ==> preferred == 1 && fallback == 1))
  }

  lemma ChosenSizes(size: nat, preferred: nat, fallback: nat)
    requires 0 < size && SizesChosen(size, preferred, fallback)
    ensures FewPages(size, preferred, fallback)
  {
    if size <= 16384 {
      FewObjects(PAGE_SIZE, size);
      FewObjects(32 * PAGE_SIZE, size);
      assert !Unfit(32, size);
      assert size <= 205 ==> !Unfit(1, size);
    }
  }

  lemma FewFit(size: nat, pages: nat, objs: nat)
    requires 0 < size && objs * size <= pages * PAGE_SIZE && pages <= 32 && (size <= 205 ==> pages == 1)
    ensures objs <= 4096
  {
    if size <= 205 {
      ProductGrows(objs, 1, size);
    } else {
      ProductGrows(objs, 206, size);
    }
  }
}

/** The small-object pools of core/memory.cc, on top of the page allocator. */
module SmallPools {
  import opened Options
  import opened Bits
  import opened PageLists
  import opened Buddy
  import opened PageAllocator
  import opened Sequences
  import opened SpanSizes

  /** How much of a pool span has been carved: the pages used for objects, and the objects so far. */
  datatype Carved = Carved(pages: nat, objs: nat)

  /** Where an object is: with the user, on the pool's list, or on the list of its span. */
  datatype Place = User | Pool | SpanList

  datatype Loc = Loc(span: nat, place: Place)

  /** A pool without its pages: the object size and what is where. */
  datatype Stock = Stock(id: nat, size: nat, carved: map<nat, Carved>, loc: map<nat, Loc>)

  /** The address of object i of the span that starts at page s. */
  function ObjAt(size: nat, s: nat, i: nat): nat {
    s * PAGE_SIZE + i * size
  }

  ghost predicate IsObj(carved: map<nat, Carved>, size: nat, s: nat, x: nat) {
    s in carved && exists i: nat :: i < carved[s].objs && x == ObjAt(size, s, i)
  }

  ghost predicate Placed(st: Stock, x: nat, s: nat, p: Place) {
    x in st.loc && st.loc[x] == Loc(s, p)
  }

  /** A carved span is a held span whose pages say which pool they belong to and how far in they are. */
  ghost predicate SpanCarved(ps: seq<Page>, h: Heap, st: Stock, s: nat)
    requires s in st.carved
  {
    var c := st.carved[s];
    && s in h.spans && h.spans[s].kind.Used? && 0 < c.pages <= Pow2(h.spans[s].order) && End(h, s) <= |ps|
    && c.objs * st.size <= c.pages * PAGE_SIZE
    && (forall p :: s <= p < s + c.pages ==> ps[p].pool == Some(st.id) && ps[p].offsetInSpan == p - s)
  }

  /** The list of a span holds exactly the objects placed there, and its counter the others. */
  ghost predicate SpanStocked(ps: seq<Page>, st: Stock, s: nat)
    requires s in st.carved
  {
    && s < |ps|
    && Distinct(ps[s].freelist)
    && (forall x :: x in ps[s].freelist <==> Placed(st, x, s, SpanList))
    && ps[s].nrSmallAlloc + |ps[s].freelist| == st.carved[s].objs
  }

  ghost predicate ObjOk(st: Stock, x: nat)
    requires x in st.loc
  {
    IsObj(st.carved, st.size, st.loc[x].span, x)
  }

  ghost predicate StockOk(ps: seq<Page>, h: Heap, st: Stock) {
    && st.size > 0
    && (forall s {:trigger SpanCarved(ps, h, st, s)} :: s in st.carved ==> SpanCarved(ps, h, st, s))
    && (forall s {:trigger SpanStocked(ps, st, s)} :: s in st.carved ==> SpanStocked(ps, st, s))
    && (forall x {:trigger ObjOk(st, x)} :: x in st.loc ==> ObjOk(st, x))
    && (forall s, x :: IsObj(st.carved, st.size, s, x) ==> x in st.loc && st.loc[x].span == s)
  }

  ghost predicate FreeMatches(st: Stock, free: seq<nat>) {
    && Distinct(free)
    && forall x :: x in free <==> x in st.loc && st.loc[x].place == Pool
  }

  /** The span list holds exactly the spans with objects on their own list, apart from the one being drained. */
  ghost predicate ListMatches(ps: seq<Page>, st: Stock, listed: seq<nat>, drained: int) {
    forall s: nat :: s in listed <==> s in st.carved && s < |ps| && ps[s].freelist != [] && s != drained
  }

  ghost function UserObjects(st: Stock): set<nat> {
    set x | x in st.loc && st.loc[x].place == User
  }

  // ---- where an object is, as deallocation computes it ----

  /** The object lies in the carved pages of its span, and starts in the page that division finds. */
  lemma ObjectPage(size: nat, pages: nat, s: nat, i: nat)
    requires size > 0 && i * size + size <= pages * PAGE_SIZE
    ensures s <= ObjAt(size, s, i) / PAGE_SIZE < s + pages
  {
    var x := ObjAt(size, s, i);
    assert x == PAGE_SIZE * s + i * size;
    assert i * size / PAGE_SIZE < pages;
    DivUnique(x, PAGE_SIZE, s + i * size / PAGE_SIZE, i * size % PAGE_SIZE);
  }

  lemma ObjectFits(size: nat, objs: nat, pages: nat, i: nat)
    requires i < objs && objs * size <= pages * PAGE_SIZE
    ensures i * size + size <= pages * PAGE_SIZE
  {
    assert (i + 1) * size <= objs * size;
    assert (i + 1) * size == i * size + size;
  }

  /** Going from the object's page back by its offset leads to the span that owns the object. */
  lemma SpanOfObject(ps: seq<Page>, h: Heap, st: Stock, s: nat, i: nat)
    requires StockOk(ps, h, st) && s in st.carved && i * st.size + st.size <= st.carved[s].pages * PAGE_SIZE
    ensures var p := ObjAt(st.size, s, i) / PAGE_SIZE;
            s <= p < s + st.carved[s].pages && p < |ps| && p - ps[p].offsetInSpan == s
  {
    assert SpanCarved(ps, h, st, s);
    ObjectPage(st.size, st.carved[s].pages, s, i);
  }

  lemma SpanOfLocated(ps: seq<Page>, h: Heap, st: Stock, x: nat)
    requires StockOk(ps, h, st) && x in st.loc
    ensures var p := x / PAGE_SIZE; p < |ps| && p - ps[p].offsetInSpan == st.loc[x].span
    ensures st.loc[x].span in st.carved
  {
    assert ObjOk(st, x);
    var s := st.loc[x].span;
    var i: nat :| i < st.carved[s].objs && x == ObjAt(st.size, s, i);
    assert SpanCarved(ps, h, st, s);
    ObjectFits(st.size, st.carved[s].objs, st.carved[s].pages, i);
    SpanOfObject(ps, h, st, s, i);
  }

  // ---- the steps ----

  ghost function Moved(st: Stock, x: nat, p: Place): Stock
    requires x in st.loc
  {
    st.(loc := st.loc[x := Loc(st.loc[x].span, p)])
  }

  lemma MovedObjects(st: Stock, x: nat, p: Place)
    requires x in st.loc
    requires forall y {:trigger ObjOk(st, y)} :: y in st.loc ==> ObjOk(st, y)
    ensures forall y {:trigger ObjOk(Moved(st, x, p), y)} :: y in Moved(st, x, p).loc ==> ObjOk(Moved(st, x, p), y)
  {
    var t := Moved(st, x, p);
    forall y | y in t.loc ensures ObjOk(t, y) {
      assert ObjOk(st, y);
    }
  }

  /** An object goes between the user and the pool's list. */
  lemma MoveOffSpans(ps: seq<Page>, h: Heap, st: Stock, x: nat, p: Place)
    requires StockOk(ps, h, st) && x in st.loc && st.loc[x].place != SpanList && p != SpanList
    ensures StockOk(ps, h, Moved(st, x, p))
  {
    var t := Moved(st, x, p);
    MovedObjects(st, x, p);
    forall s | s in t.carved ensures SpanCarved(ps, h, t, s) && SpanStocked(ps, t, s) {
      assert SpanCarved(ps, h, st, s) && SpanStocked(ps, st, s);
      forall y ensures y in ps[s].freelist <==> Placed(t, y, s, SpanList) {
        assert y in ps[s].freelist <==> Placed(st, y, s, SpanList);
      }
    }
  }

  /** qs is ps with the list and the counter of page s replaced. */
  ghost predicate Restocked(ps: seq<Page>, qs: seq<Page>, s: nat, freelist: seq<nat>, nr: nat) {
    && |qs| == |ps| && s < |ps|
    && (forall p :: 0 <= p < |ps| && p != s ==> qs[p].pool == ps[p].pool && qs[p].offsetInSpan == ps[p].offsetInSpan
                                                && qs[p].nrSmallAlloc == ps[p].nrSmallAlloc
                                                  && qs[p].freelist == ps[p].freelist)
    && qs[s].pool == ps[s].pool && qs[s].offsetInSpan == ps[s].offsetInSpan
    && qs[s].freelist == freelist && qs[s].nrSmallAlloc == nr
  }

  lemma RestockedKeepsCarved(ps: seq<Page>, qs: seq<Page>, h: Heap, st: Stock, t: Stock, s: nat, freelist: seq<nat>,
        nr: nat)
    requires Restocked(ps, qs, s, freelist, nr) && t.carved == st.carved && t.size == st.size && t.id == st.id
    requires forall u {:trigger SpanCarved(ps, h, st, u)} :: u in st.carved ==> SpanCarved(ps, h, st, u)
    ensures forall u {:trigger SpanCarved(qs, h, t, u)} :: u in t.carved ==> SpanCarved(qs, h, t, u)
  {
    forall u | u in t.carved ensures SpanCarved(qs, h, t, u) {
      assert SpanCarved(ps, h, st, u);
    }
  }

  lemma DistinctPush(q: seq<nat>, x: nat)
    requires Distinct(q) && x !in q
    ensures Distinct([x] + q) && forall y :: y in [x] + q <==> y == x || y in q
  {
  }

  lemma DistinctPop(q: seq<nat>)
    requires Distinct(q) && q != []
    ensures Distinct(q[1..]) && q[0] !in q[1..] && forall y :: y in q <==> y == q[0] || y in q[1..]
  {
    assert q == [q[0]] + q[1..];
  }

  /** An object goes from the pool's list to the front of its span's list. */
  lemma PutOnSpan(ps: seq<Page>, qs: seq<Page>, h: Heap, st: Stock, x: nat)
    requires StockOk(ps, h, st) && x in st.loc && st.loc[x].place == Pool
    requires st.loc[x].span < |ps| && ps[st.loc[x].span].nrSmallAlloc >= 1
    requires var s := st.loc[x].span; Restocked(ps, qs, s, [x] + ps[s].freelist, ps[s].nrSmallAlloc - 1)
    ensures StockOk(qs, h, Moved(st, x, SpanList))
  {
    var t, s := Moved(st, x, SpanList), st.loc[x].span;
    MovedObjects(st, x, SpanList);
    RestockedKeepsCarved(ps, qs, h, st, t, s, [x] + ps[s].freelist, ps[s].nrSmallAlloc - 1);
    forall u | u in t.carved ensures SpanStocked(qs, t, u) {
      assert SpanStocked(ps, st, u);
      assert !Placed(st, x, u, SpanList);
      if u == s { DistinctPush(ps[s].freelist, x); }
      forall y ensures y in qs[u].freelist <==> Placed(t, y, u, SpanList) {
        assert y in ps[u].freelist <==> Placed(st, y, u, SpanList);
      }
    }
  }

  /** The first object of a span's list goes to the pool's list. */
  lemma TakeFromSpan(ps: seq<Page>, qs: seq<Page>, h: Heap, st: Stock, s: nat)
    requires StockOk(ps, h, st) && s in st.carved && s < |ps| && ps[s].freelist != []
    requires Restocked(ps, qs, s, ps[s].freelist[1..], ps[s].nrSmallAlloc + 1)
    ensures Placed(st, ps[s].freelist[0], s, SpanList)
    ensures StockOk(qs, h, Moved(st, ps[s].freelist[0], Pool))
  {
    assert SpanStocked(ps, st, s);
    var x := ps[s].freelist[0];
    assert x in ps[s].freelist;
    var t := Moved(st, x, Pool);
    MovedObjects(st, x, Pool);
    RestockedKeepsCarved(ps, qs, h, st, t, s, ps[s].freelist[1..], ps[s].nrSmallAlloc + 1);
    DistinctPop(ps[s].freelist);
    forall u | u in t.carved ensures SpanStocked(qs, t, u) {
      assert SpanStocked(ps, st, u);
      forall y ensures y in qs[u].freelist <==> Placed(t, y, u, SpanList) {
        assert y in ps[u].freelist <==> Placed(st, y, u, SpanList);
      }
    }
  }

  /** An object on the pool's list or with the user is counted by its span. */
  lemma CountedOffList(ps: seq<Page>, h: Heap, st: Stock, x: nat)
    requires StockOk(ps, h, st) && x in st.loc && st.loc[x].place != SpanList
    ensures var s := st.loc[x].span; s in st.carved && s < |ps| && ps[s].nrSmallAlloc >= 1
  {
    var s := st.loc[x].span;
    assert ObjOk(st, x) && SpanStocked(ps, st, s);
    AllListedMeansAll(ps, h, st, s);
    assert x in ps[s].freelist <==> Placed(st, x, s, SpanList);
  }

  // ---- counting ----

  ghost function Elems(q: seq<nat>): set<nat> {
    set x | x in q
  }

  lemma {:induction false} DistinctCount(q: seq<nat>)
    requires Distinct(q)
    ensures |Elems(q)| == |q|
  {
    if q == [] {
      assert Elems(q) == {};
    } else {
      DistinctPop(q);
      DistinctCount(q[1..]);
      assert forall y :: y in Elems(q) <==> y in {q[0]} + Elems(q[1..]);
      assert Elems(q) == {q[0]} + Elems(q[1..]);
    }
  }

  ghost function ObjSet(size: nat, s: nat, n: nat): set<nat> {
    if n == 0 then {} else ObjSet(size, s, n - 1) + {ObjAt(size, s, n - 1)}
  }

  lemma {:induction false} ObjSetFacts(size: nat, s: nat, n: nat)
    ensures |ObjSet(size, s, n)| <= n
    ensures forall i: nat :: i < n ==> ObjAt(size, s, i) in ObjSet(size, s, n)
  {
    if n > 0 { ObjSetFacts(size, s, n - 1); }
  }

  lemma {:induction false} ObjSetSize(size: nat, s: nat, n: nat)
    requires size > 0
    ensures |ObjSet(size, s, n)| == n
    ensures forall x :: x in ObjSet(size, s, n) ==> exists i: nat :: i < n && x == ObjAt(size, s, i)
  {
    if n > 0 {
      ObjSetSize(size, s, n - 1);
      EarlierObjectsDiffer(size, s, n - 1);
    }
  }

  lemma FullSubset(a: set<nat>, b: set<nat>)
    requires a <= b && |b| <= |a|
    ensures a == b
  {
    assert |b - a| == |b| - |a|;
    assert b - a == {};
  }

  /** When a span's counter is zero, every object of the span is on the span's own list. */
  lemma AllListedMeansAll(ps: seq<Page>, h: Heap, st: Stock, s: nat)
    requires StockOk(ps, h, st) && s in st.carved && s < |ps|
    ensures ps[s].nrSmallAlloc == 0 ==>
              forall x :: x in st.loc && st.loc[x].span == s ==> st.loc[x].place == SpanList
  {
    assert SpanStocked(ps, st, s);
    var q, n := ps[s].freelist, st.carved[s].objs;
    if ps[s].nrSmallAlloc == 0 {
      DistinctCount(q);
      ObjSetFacts(st.size, s, n);
      forall x | x in Elems(q) ensures x in ObjSet(st.size, s, n) {
        assert Placed(st, x, s, SpanList) && ObjOk(st, x);
      }
      FullSubset(Elems(q), ObjSet(st.size, s, n));
      forall x | x in st.loc && st.loc[x].span == s ensures st.loc[x].place == SpanList {
        assert ObjOk(st, x);
        assert x in Elems(q);
        assert Placed(st, x, s, SpanList);
      }
    }
  }

  /** And when the counter is not zero, some object of the span is not on its list. */
  lemma BusyHasObject(ps: seq<Page>, h: Heap, st: Stock, s: nat) returns (x: nat)
    requires StockOk(ps, h, st) && s in st.carved && s < |ps| && ps[s].nrSmallAlloc > 0
    ensures x in st.loc && st.loc[x].span == s && st.loc[x].place != SpanList
  {
    assert SpanStocked(ps, st, s);
    var q, n := ps[s].freelist, st.carved[s].objs;
    DistinctCount(q);
    ObjSetSize(st.size, s, n);
    if ObjSet(st.size, s, n) <= Elems(q) {
      SubsetSize(ObjSet(st.size, s, n), Elems(q));
    }
    x :| x in ObjSet(st.size, s, n) && x !in Elems(q);
    var i: nat :| i < n && x == ObjAt(st.size, s, i);
    assert IsObj(st.carved, st.size, s, x);
    assert Placed(st, x, s, SpanList) <==> x in q;
  }

  lemma {:induction false} SubsetSize(a: set<nat>, b: set<nat>)
    requires a <= b
    ensures |a| <= |b|
  {
    if a != {} {
      var x :| x in a;
      SubsetSize(a - {x}, b - {x});
    }
  }

  /** But for one of them, the spans of a pool have objects that are in use or on the pool's list. */
  ghost predicate Busy(ps: seq<Page>, carved: map<nat, Carved>, but: int) {
    forall s {:trigger s in carved} :: s in carved && s != but ==> s < |ps| && ps[s].nrSmallAlloc > 0
  }

  // ---- spans come and go ----

  lemma HeldIsNotFree(h: Heap, s: int)
    requires Partitioned(h) && s in h.spans && !h.spans[s].kind.Free?
    ensures forall p :: s <= p < End(h, s) ==> p !in FreePages(h)
  {
    assert SpanOk(h, s);
  }

  /** The page p keeps what pools store in it. */
  ghost predicate SamePoolData(ps: seq<Page>, qs: seq<Page>, p: int)
    requires 0 <= p < |ps| && |qs| == |ps|
  {
    qs[p].pool == ps[p].pool && qs[p].offsetInSpan == ps[p].offsetInSpan
    && qs[p].nrSmallAlloc == ps[p].nrSmallAlloc && qs[p].freelist == ps[p].freelist
  }

  /** Anything may happen to memory outside the pool's spans. */
  lemma StockSurvives(ps: seq<Page>, qs: seq<Page>, h: Heap, g: Heap, st: Stock)
    requires StockOk(ps, h, st) && |qs| == |ps|
    requires forall s: nat :: s in st.carved ==> s in g.spans && s in h.spans && g.spans[s] == h.spans[s]
    requires forall s: nat, p :: s in st.carved && s in h.spans && s <= p < End(h, s) && 0 <= p < |ps| ==>
             SamePoolData(ps, qs, p)
    ensures StockOk(qs, g, st)
  {
    forall s | s in st.carved ensures SpanCarved(qs, g, st, s) && SpanStocked(qs, st, s) {
      assert SpanCarved(ps, h, st, s) && SpanStocked(ps, st, s);
      assert SamePoolData(ps, qs, s);
      forall p | s <= p < s + st.carved[s].pages ensures qs[p].pool == Some(st.id) && qs[p].offsetInSpan == p - s {
        assert SamePoolData(ps, qs, p);
      }
    }
  }

  ghost function WithSpan(st: Stock, s: nat, c: Carved): Stock {
    st.(carved := st.carved[s := c])
  }

  /** A new span joins with no object carved from it yet. */
  lemma SpanJoins(ps: seq<Page>, h: Heap, st: Stock, s: nat, pages: nat)
    requires StockOk(ps, h, st) && s !in st.carved
    requires s < |ps| && ps[s].freelist == [] && ps[s].nrSmallAlloc == 0
    requires SpanCarved(ps, h, WithSpan(st, s, Carved(pages, 0)), s)
    ensures StockOk(ps, h, WithSpan(st, s, Carved(pages, 0)))
  {
    var t := WithSpan(st, s, Carved(pages, 0));
    forall u | u in t.carved ensures SpanCarved(ps, h, t, u) && SpanStocked(ps, t, u) {
      if u != s {
        assert SpanCarved(ps, h, st, u) && SpanStocked(ps, st, u);
        forall x ensures x in ps[u].freelist <==> Placed(t, x, u, SpanList) {
          assert x in ps[u].freelist <==> Placed(st, x, u, SpanList);
        }
      } else {
        forall x ensures !Placed(t, x, s, SpanList) {
          assert x in st.loc ==> ObjOk(st, x);
        }
      }
    }
    forall x | x in t.loc ensures ObjOk(t, x) {
      assert ObjOk(st, x);
    }
    forall u, x | IsObj(t.carved, t.size, u, x) ensures x in t.loc && t.loc[x].span == u {
      assert IsObj(st.carved, st.size, u, x);
    }
  }

  ghost function WithObject(st: Stock, s: nat): Stock
    requires s in st.carved
  {
    var c := st.carved[s];
    st.(carved := st.carved[s := Carved(c.pages, c.objs + 1)],
        loc := st.loc[ObjAt(st.size, s, c.objs) := Loc(s, Pool)])
  }

  lemma EarlierObjectsDiffer(size: nat, s: nat, n: nat)
    requires size > 0
    ensures forall i: nat :: i < n ==> ObjAt(size, s, i) + size <= ObjAt(size, s, n)
  {
    forall i: nat | i < n ensures ObjAt(size, s, i) + size <= ObjAt(size, s, n) {
      assert (i + 1) * size <= n * size;
      assert (i + 1) * size == i * size + size;
    }
  }

  lemma LocatedFacts(ps: seq<Page>, h: Heap, st: Stock, x: nat)
    requires StockOk(ps, h, st)
    ensures x in st.loc ==> x / PAGE_SIZE < |ps| && x / PAGE_SIZE - ps[x / PAGE_SIZE].offsetInSpan == st.loc[x].span
    ensures x in st.loc ==> IsObj(st.carved, st.size, st.loc[x].span, x)
  {
    if x in st.loc {
      SpanOfLocated(ps, h, st, x);
      assert ObjOk(st, x);
    }
  }

  lemma NextObjectIsNew(ps: seq<Page>, h: Heap, st: Stock, s: nat)
    requires StockOk(ps, h, st) && s in st.carved
    requires (st.carved[s].objs + 1) * st.size <= st.carved[s].pages * PAGE_SIZE
    ensures ObjAt(st.size, s, st.carved[s].objs) !in st.loc
  {
    var n := st.carved[s].objs;
    assert (n + 1) * st.size == n * st.size + st.size;
    SpanOfObject(ps, h, st, s, n);
    LocatedFacts(ps, h, st, ObjAt(st.size, s, n));
    EarlierObjectsDiffer(st.size, s, n);
  }

  /** The next object of a span is carved; it goes on the pool's list. */
  lemma ObjectCarved(ps: seq<Page>, qs: seq<Page>, h: Heap, st: Stock, s: nat)
    requires StockOk(ps, h, st) && s in st.carved && s < |ps|
    requires (st.carved[s].objs + 1) * st.size <= st.carved[s].pages * PAGE_SIZE
    requires Restocked(ps, qs, s, ps[s].freelist, ps[s].nrSmallAlloc + 1)
    ensures ObjAt(st.size, s, st.carved[s].objs) !in st.loc
    ensures StockOk(qs, h, WithObject(st, s))
  {
    NextObjectIsNew(ps, h, st, s);
    var t, n := WithObject(st, s), st.carved[s].objs;
    var x := ObjAt(st.size, s, n);
    forall u | u in t.carved ensures SpanCarved(qs, h, t, u) && SpanStocked(qs, t, u) {
      assert SpanCarved(ps, h, st, u) && SpanStocked(ps, st, u);
      forall y ensures y in qs[u].freelist <==> Placed(t, y, u, SpanList) {
        assert y in ps[u].freelist <==> Placed(st, y, u, SpanList);
      }
    }
    forall y | y in t.loc ensures ObjOk(t, y) {
      if y != x {
        assert ObjOk(st, y);
        var i: nat :| i < st.carved[st.loc[y].span].objs && y == ObjAt(st.size, st.loc[y].span, i);
        assert i < t.carved[t.loc[y].span].objs;
      } else {
        assert n < t.carved[s].objs;
      }
    }
    forall u, y | IsObj(t.carved, t.size, u, y) ensures y in t.loc && t.loc[y].span == u {
      var i: nat :| i < t.carved[u].objs && y == ObjAt(t.size, u, i);
      if u != s || i < n {
        assert IsObj(st.carved, st.size, u, y);
      }
    }
  }

  ghost function WithoutSpan(st: Stock, s: nat): Stock {
    st.(carved := map u | u in st.carved && u != s :: st.carved[u],
        loc := map x | x in st.loc && st.loc[x].span != s :: st.loc[x])
  }

  /** A span leaves together with its objects; none of them is with the user or on the pool's list. */
  lemma SpanLeaves(ps: seq<Page>, h: Heap, st: Stock, s: nat)
    requires StockOk(ps, h, st) && s in st.carved && s < |ps| && ps[s].nrSmallAlloc == 0
    ensures StockOk(ps, h, WithoutSpan(st, s))
    ensures forall x :: x in st.loc && st.loc[x].place != SpanList ==>
              x in WithoutSpan(st, s).loc && WithoutSpan(st, s).loc[x] == st.loc[x]
  {
    var t := WithoutSpan(st, s);
    AllListedMeansAll(ps, h, st, s);
    forall u | u in t.carved ensures SpanCarved(ps, h, t, u) && SpanStocked(ps, t, u) {
      assert SpanCarved(ps, h, st, u) && SpanStocked(ps, st, u);
      forall y ensures y in ps[u].freelist <==> Placed(t, y, u, SpanList) {
        assert y in ps[u].freelist <==> Placed(st, y, u, SpanList);
      }
    }
    forall y | y in t.loc ensures ObjOk(t, y) {
      assert ObjOk(st, y);
    }
    forall u, y | IsObj(t.carved, t.size, u, y) ensures y in t.loc && t.loc[y].span == u {
      assert IsObj(st.carved, st.size, u, y);
    }
  }

  lemma LocatedIndex(st: Stock, x: nat) returns (i: nat)
    requires x in st.loc && ObjOk(st, x)
    ensures st.loc[x].span in st.carved && i < st.carved[st.loc[x].span].objs && x == ObjAt(st.size, st.loc[x].span, i)
  {
    i :| i < st.carved[st.loc[x].span].objs && x == ObjAt(st.size, st.loc[x].span, i);
  }

  /** An object lies inside the pages of the held span it was carved from. */
  lemma ObjectInSpan(ps: seq<Page>, h: Heap, st: Stock, x: nat)
    requires StockOk(ps, h, st) && x in st.loc
    ensures var s := st.loc[x].span;
            && s in h.spans && h.spans[s].kind.Used?
            && s * PAGE_SIZE <= x && x + st.size <= End(h, s) * PAGE_SIZE
  {
    assert ObjOk(st, x);
    var i := LocatedIndex(st, x);
    var s := st.loc[x].span;
    assert SpanCarved(ps, h, st, s);
    ObjectFits(st.size, st.carved[s].objs, st.carved[s].pages, i);
  }

  /** Distinct objects do not overlap in memory. */
  lemma ObjectsDisjoint(ps: seq<Page>, h: Heap, st: Stock, x: nat, y: nat)
    requires Partitioned(h) && StockOk(ps, h, st) && x in st.loc && y in st.loc && x < y
    ensures x + st.size <= y
  {
    ObjectInSpan(ps, h, st, x);
    ObjectInSpan(ps, h, st, y);
    var s, t := st.loc[x].span, st.loc[y].span;
    if s < t {
      SpansApart(h, s, t);
    } else if t < s {
      SpansApart(h, t, s);
    } else {
      assert ObjOk(st, x) && ObjOk(st, y);
      var i := LocatedIndex(st, x);
      var j := LocatedIndex(st, y);
      EarlierObjectsDiffer(st.size, s, i);
      EarlierObjectsDiffer(st.size, s, j);
    }
  }

  lemma PushFree(st: Stock, free: seq<nat>, x: nat)
    requires FreeMatches(st, free) && x in st.loc && st.loc[x].place != Pool
    ensures FreeMatches(Moved(st, x, Pool), [x] + free)
  {
    DistinctPush(free, x);
  }

  lemma PopFree(st: Stock, free: seq<nat>, p: Place)
    requires FreeMatches(st, free) && free != [] && p != Pool
    ensures free[0] in st.loc && st.loc[free[0]].place == Pool
    ensures FreeMatches(Moved(st, free[0], p), free[1..])
  {
    DistinctPop(free);
    assert free[0] in free;
  }

  lemma UserMoved(st: Stock, x: nat, p: Place)
    requires x in st.loc
    ensures UserObjects(Moved(st, x, p)) == if p == User then UserObjects(st) + {x} else UserObjects(st) - {x}
  {
    var u := UserObjects(Moved(st, x, p));
    if p == User {
      assert forall y :: y in u <==> y in UserObjects(st) + {x};
    } else {
      assert forall y :: y in u <==> y in UserObjects(st) - {x};
    }
  }

  lemma RestockedList(ps: seq<Page>, qs: seq<Page>, st: Stock, t: Stock, listed: seq<nat>, s: nat, freelist: seq<nat>,
        nr: nat)
    requires Restocked(ps, qs, s, freelist, nr) && t.carved.Keys == st.carved.Keys
    requires ListMatches(ps, st, listed, s)
    ensures ListMatches(qs, t, listed, s)
  {
    forall u: nat ensures u in listed <==> u in t.carved && u < |qs| && qs[u].freelist != [] && u != s {
      assert u in listed <==> u in st.carved && u < |ps| && ps[u].freelist != [] && u != s;
    }
  }

  /** The step that drains one object, all in one. */
  lemma TakeStep(ps: seq<Page>, qs: seq<Page>, h: Heap, st: Stock, free: seq<nat>, listed: seq<nat>, s: nat)
    requires StockOk(ps, h, st) && FreeMatches(st, free) && ListMatches(ps, st, listed, s)
    requires s in st.carved && s < |ps| && ps[s].freelist != []
    requires Restocked(ps, qs, s, ps[s].freelist[1..], ps[s].nrSmallAlloc + 1)
    ensures var x := ps[s].freelist[0];
            && x in st.loc && st.loc[x] == Loc(s, SpanList)
            && StockOk(qs, h, Moved(st, x, Pool)) && FreeMatches(Moved(st, x, Pool), [x] + free)
            && ListMatches(qs, Moved(st, x, Pool), listed, s)
            && UserObjects(Moved(st, x, Pool)) == UserObjects(st)
  {
    TakeFromSpan(ps, qs, h, st, s);
    var x := ps[s].freelist[0];
    PushFree(st, free, x);
    RestockedList(ps, qs, st, Moved(st, x, Pool), listed, s, ps[s].freelist[1..], ps[s].nrSmallAlloc + 1);
    UserMoved(st, x, Pool);
    assert x !in UserObjects(st);
  }

  lemma LinksOnlyStock(ps: seq<Page>, qs: seq<Page>, touched: seq<nat>, h: Heap, st: Stock)
    requires StockOk(ps, h, st) && OnlyLinks(ps, qs, touched)
    ensures StockOk(qs, h, st)
  {
    StockSurvives(ps, qs, h, h, st) by {
      forall s: nat | s in st.carved ensures s in h.spans { assert SpanCarved(ps, h, st, s); }
    }
  }

  lemma LinksOnlyList(ps: seq<Page>, qs: seq<Page>, st: Stock, listed: seq<nat>)
    requires OnlyLinks(ps, qs, listed) && ListMatches(ps, st, listed, -1)
    ensures ListMatches(qs, st, listed, -1)
  {
  }

  lemma PoppedList(ps: seq<Page>, qs: seq<Page>, st: Stock, listed: seq<nat>)
    requires OnlyLinks(ps, qs, listed) && ListMatches(ps, st, listed, -1) && Distinct(listed) && listed != []
    ensures ListMatches(qs, st, listed[1..], listed[0])
    ensures listed[0] in st.carved && listed[0] < |qs| && qs[listed[0]].freelist != []
  {
    DistinctPop(listed);
    assert listed[0] in listed;
  }

  lemma DrainedList(ps: seq<Page>, st: Stock, listed: seq<nat>, s: nat)
    requires ListMatches(ps, st, listed, s) && s < |ps| && ps[s].freelist == []
    ensures ListMatches(ps, st, listed, -1)
  {
  }

  /** The step that puts the pool's first object back on its span's list, all in one. */
  lemma PutStep(ps: seq<Page>, qs: seq<Page>, h: Heap, st: Stock, free: seq<nat>, listed: seq<nat>, s: nat)
    requires StockOk(ps, h, st) && FreeMatches(st, free) && free != [] && ListMatches(ps, st, listed, -1)
    requires free[0] in st.loc && s == st.loc[free[0]].span && s < |ps| && ps[s].nrSmallAlloc >= 1
    requires Restocked(ps, qs, s, [free[0]] + ps[s].freelist, ps[s].nrSmallAlloc - 1)
    ensures var t := Moved(st, free[0], SpanList);
            && StockOk(qs, h, t) && FreeMatches(t, free[1..])
            && ListMatches(qs, t, if ps[s].freelist == [] then [s] + listed else listed, -1)
            && UserObjects(t) == UserObjects(st)
  {
    PopFree(st, free, SpanList);
    PutOnSpan(ps, qs, h, st, free[0]);
    UserMoved(st, free[0], SpanList);
    assert free[0] !in UserObjects(st);
    assert ObjOk(st, free[0]);
    var t := Moved(st, free[0], SpanList);
    var listed' := if ps[s].freelist == [] then [s] + listed else listed;
    forall u: nat ensures u in listed' <==> u in t.carved && u < |qs| && qs[u].freelist != [] && u != -1 {
      assert u in listed <==> u in st.carved && u < |ps| && ps[u].freelist != [] && u != -1;
    }
  }

  /** What leaving the pool does to the rest of it. */
  lemma LeaveStep(ps: seq<Page>, h: Heap, st: Stock, free: seq<nat>, listed: seq<nat>, rest: seq<nat>, s: nat)
    requires StockOk(ps, h, st) && FreeMatches(st, free) && ListMatches(ps, st, listed, -1)
    requires s in st.carved && s < |ps| && ps[s].nrSmallAlloc == 0
    requires forall x :: x in rest <==> x in listed && x != s
    ensures var t := WithoutSpan(st, s);
            && StockOk(ps, h, t) && FreeMatches(t, free) && ListMatches(ps, t, rest, -1)
            && UserObjects(t) == UserObjects(st)
  {
    var t := WithoutSpan(st, s);
    SpanLeaves(ps, h, st, s);
    assert forall y :: y in UserObjects(t) <==> y in UserObjects(st);
    forall u: nat ensures u in rest <==> u in t.carved && u < |ps| && ps[u].freelist != [] && u != -1 {
      assert u in listed <==> u in st.carved && u < |ps| && ps[u].freelist != [] && u != -1;
    }
  }

  /** The rest of memory changes, the pool's spans do not: the pool is as before. */
  ghost predicate SpansUntouched(ps: seq<Page>, qs: seq<Page>, h: Heap, g: Heap, st: Stock) {
    && |qs| == |ps|
    && (forall s: nat :: s in st.carved ==> s in g.spans && s in h.spans && g.spans[s] == h.spans[s])
    && (forall s: nat, p :: s in st.carved && s in h.spans && s <= p < End(h, s) && 0 <= p < |ps| ==> qs[p] == ps[p])
  }

  lemma UntouchedStep(ps: seq<Page>, qs: seq<Page>, h: Heap, g: Heap, st: Stock, listed: seq<nat>)
    requires StockOk(ps, h, st) && SpansUntouched(ps, qs, h, g, st) && ListMatches(ps, st, listed, -1)
    ensures StockOk(qs, g, st) && ListMatches(qs, st, listed, -1)
    ensures Linked(ps, listed) ==> Linked(qs, listed)
  {
    StockSurvives(ps, qs, h, g, st);
    forall s: nat | s in st.carved && s < |ps| ensures qs[s] == ps[s] {
      assert SpanCarved(ps, h, st, s);
    }
    if Linked(ps, listed) {
      forall i | 0 <= i < |listed| ensures LinkAt(qs, listed, i) {
        assert LinkAt(ps, listed, i);
        assert listed[i] in listed;
      }
    }
  }

  /** An allocation of other memory does not reach the pool's spans. */
  lemma AllocationIsElsewhere(ps: seq<Page>, qs: seq<Page>, h: Heap, g: Heap, st: Stock, r: nat, k: nat)
    requires Partitioned(h) && Partitioned(g) && StockOk(ps, h, st) && SameOutside(ps, qs, FreePages(h))
             && Allocated(h, g, r, k)
    ensures r !in st.carved && SpansUntouched(ps, qs, h, g, st)
    ensures r in g.spans && g.spans[r] == Span(k, Used) && r !in Held(h)
  {
    assert r in FreePages(h);
    assert r in h.spans ==> SpanOk(h, r);
    forall s: nat | s in st.carved
      ensures s != r && s in g.spans && s in h.spans && g.spans[s] == h.spans[s]
      ensures forall p :: s <= p < End(h, s) ==> p !in FreePages(h)
    {
      assert SpanCarved(ps, h, st, s);
      HeldIsNotFree(h, s);
      assert r in FreePages(h);
      assert s in Held(h) && Held(g)[s] == Held(h)[s];
    }
    assert r in Held(g) && Held(g)[r] == Span(k, Used);
  }

  lemma SameOutsideFree(ps: seq<Page>, qs: seq<Page>, h: Heap, st: Stock)
    requires Partitioned(h) && StockOk(ps, h, st) && SameOutside(ps, qs, FreePages(h))
    ensures SpansUntouched(ps, qs, h, h, st)
  {
    forall s: nat | s in st.carved
      ensures s in h.spans && forall p :: s <= p < End(h, s) ==> p !in FreePages(h)
    {
      assert SpanCarved(ps, h, st, s);
      HeldIsNotFree(h, s);
    }
  }

  /** Freeing a span that has left the pool does not reach the others. */
  lemma FreeingIsElsewhere(ps: seq<Page>, qs: seq<Page>, h: Heap, g: Heap, st: Stock, r: nat)
    requires Partitioned(h) && r in h.spans && r !in st.carved && StockOk(ps, h, st)
    requires SameOutside(ps, qs, FreePages(g)) && Held(g) == Held(h) - {r}
    requires forall p :: p in FreePages(g) <==> p in FreePages(h) || r <= p < End(h, r)
    ensures SpansUntouched(ps, qs, h, g, st)
    ensures forall s: nat :: s in st.carved ==> s !in FreePages(g)
  {
    forall s: nat | s in st.carved
      ensures s in g.spans && s in h.spans && g.spans[s] == h.spans[s]
      ensures forall p :: s <= p < End(h, s) ==> p !in FreePages(g)
    {
      assert SpanCarved(ps, h, st, s);
      HeldIsNotFree(h, s);
      assert SpanOk(h, r) && SpanOk(h, s);
      assert s in Held(h) && s in Held(g) && Held(g)[s] == Held(h)[s];
      forall p | s <= p < End(h, s) ensures p !in FreePages(g) {
        assert h.owner[p] == s;
      }
    }
  }

  /** qs is ps with the pages [s, s + n) marked as pages of the pool, and nothing else changed in them. */
  ghost predicate Tagged(ps: seq<Page>, qs: seq<Page>, id: nat, s: nat, n: nat) {
    && |qs| == |ps| && s + n <= |ps|
    && (forall p :: 0 <= p < |ps| && !(s <= p < s + n) ==> qs[p] == ps[p])
    && (forall p :: s <= p < s + n ==> qs[p] == ps[p].(pool := Some(id), offsetInSpan := p - s))
  }

  lemma TaggedIsElsewhere(ps: seq<Page>, qs: seq<Page>, h: Heap, st: Stock, s: nat, n: nat)
    requires Partitioned(h) && StockOk(ps, h, st) && s !in st.carved
    requires s in h.spans && s + n <= End(h, s)
    requires |qs| == |ps| && forall p :: 0 <= p < |ps| && !(s <= p < s + n) ==> qs[p] == ps[p]
    ensures SpansUntouched(ps, qs, h, h, st)
  {
    assert SpanOk(h, s);
    forall u: nat | u in st.carved ensures u in h.spans {
      assert SpanCarved(ps, h, st, u);
    }
    forall u: nat, p | u in st.carved && u in h.spans && u <= p < End(h, u) && 0 <= p < |ps| ensures qs[p] == ps[p] {
      assert SpanOk(h, u);
      assert h.owner[p] == u;
    }
  }

  /** A new span joins the pool, all in one. */
  lemma JoinStep(ps: seq<Page>, h: Heap, st: Stock, free: seq<nat>, listed: seq<nat>, s: nat, pages: nat)
    requires StockOk(ps, h, st) && FreeMatches(st, free) && ListMatches(ps, st, listed, -1) && s !in st.carved
    requires s < |ps| && ps[s].freelist == [] && ps[s].nrSmallAlloc == 0
    requires SpanCarved(ps, h, WithSpan(st, s, Carved(pages, 0)), s)
    ensures var t := WithSpan(st, s, Carved(pages, 0));
            && StockOk(ps, h, t) && FreeMatches(t, free) && ListMatches(ps, t, listed, -1)
            && UserObjects(t) == UserObjects(st)
  {
    var t := WithSpan(st, s, Carved(pages, 0));
    SpanJoins(ps, h, st, s, pages);
    forall u: nat ensures u in listed <==> u in t.carved && u < |ps| && ps[u].freelist != [] && u != -1 {
      assert u in listed <==> u in st.carved && u < |ps| && ps[u].freelist != [] && u != -1;
    }
  }

  /** The next object is carved, all in one. */
  lemma CarveStep(ps: seq<Page>, qs: seq<Page>, h: Heap, st: Stock, free: seq<nat>, listed: seq<nat>, s: nat)
    requires StockOk(ps, h, st) && FreeMatches(st, free) && ListMatches(ps, st, listed, -1)
    requires s in st.carved && s < |ps|
    requires (st.carved[s].objs + 1) * st.size <= st.carved[s].pages * PAGE_SIZE
    requires Restocked(ps, qs, s, ps[s].freelist, ps[s].nrSmallAlloc + 1)
    ensures var t := WithObject(st, s);
            && StockOk(qs, h, t) && FreeMatches(t, [ObjAt(st.size, s, st.carved[s].objs)] + free)
            && ListMatches(qs, t, listed, -1)
            && UserObjects(t) == UserObjects(st)
  {
    var t, x := WithObject(st, s), ObjAt(st.size, s, st.carved[s].objs);
    ObjectCarved(ps, qs, h, st, s);
    DistinctPush(free, x);
    assert forall y :: y in UserObjects(t) <==> y in UserObjects(st);
    forall u: nat ensures u in listed <==> u in t.carved && u < |qs| && qs[u].freelist != [] && u != -1 {
      assert u in listed <==> u in st.carved && u < |ps| && ps[u].freelist != [] && u != -1;
    }
  }

  // ---- what a pool leaves alone ----

  /** Only pages in touched changed. */
  ghost predicate SameBut(ps: seq<Page>, qs: seq<Page>, touched: seq<nat>) {
    |qs| == |ps| && forall p :: 0 <= p < |ps| && p !in touched ==> qs[p] == ps[p]
  }

  lemma SameButTrans(ps: seq<Page>, qs: seq<Page>, rs: seq<Page>, t: seq<nat>, u: seq<nat>)
    requires SameBut(ps, qs, t) && SameBut(qs, rs, u) && forall x :: x in u ==> x in t
    ensures SameBut(ps, rs, t)
  {
  }

  /** Only the n pages from s on changed. */
  ghost predicate SameBeyond(ps: seq<Page>, qs: seq<Page>, s: nat, n: nat) {
    |qs| == |ps| && forall p :: 0 <= p < |ps| && !(s <= p < s + n) ==> qs[p] == ps[p]
  }

  /** The pages of span s of h are as they were. */
  ghost predicate PagesSame(ps: seq<Page>, qs: seq<Page>, h: Heap, s: int) {
    |qs| == |ps| && s in h.spans && forall p :: s <= p < End(h, s) && 0 <= p < |ps| ==> qs[p] == ps[p]
  }

  /** The page array, how it is divided, and the spans of one pool. */
  datatype Snapshot = Snapshot(pages: seq<Page>, heap: Heap, carved: map<nat, Carved>)

  /**
   * A held span that is not the pool's stays so, with its pages as they are; and no span of the
   * pool's is left behind.
   */
  ghost predicate SpanKept(a: Snapshot, b: Snapshot, s: nat) {
    && (s in Held(a.heap) && s !in a.carved <==> s in Held(b.heap) && s !in b.carved)
    && (s in Held(a.heap) && s !in a.carved ==>
          Held(b.heap)[s] == Held(a.heap)[s] && PagesSame(a.pages, b.pages, a.heap, s))
  }

  /** Whatever the pool did, it did to free pages and to its own. */
  ghost predicate Kept(a: Snapshot, b: Snapshot) {
    |b.pages| == |a.pages| && forall s: nat {:trigger SpanKept(a, b, s)} :: SpanKept(a, b, s)
  }

  lemma KeptTrans(a: Snapshot, b: Snapshot, c: Snapshot)
    requires Kept(a, b) && Kept(b, c)
    ensures Kept(a, c)
  {
    forall s: nat
      ensures SpanKept(a, c, s)
    {
      assert SpanKept(a, b, s) && SpanKept(b, c, s);
    }
  }

  /** Changes to head pages of its own spans are the pool's own business. */
  lemma OwnPagesKept(ps: seq<Page>, qs: seq<Page>, h: Heap, st: Stock, touched: seq<nat>)
    requires Partitioned(h) && StockOk(ps, h, st) && SameBut(ps, qs, touched)
    requires forall t :: t in touched ==> t in st.carved
    ensures Kept(Snapshot(ps, h, st.carved), Snapshot(qs, h, st.carved))
  {
    forall s: nat
      ensures SpanKept(Snapshot(ps, h, st.carved), Snapshot(qs, h, st.carved), s)
    {
      if s in Held(h) && s !in st.carved {
        forall p: nat | p in touched
          ensures !(s <= p < End(h, s))
        {
          assert SpanCarved(ps, h, st, p);
          SpansDisjoint(h, s, p);
        }
      }
    }
  }

  /** And it touches no page but the pool's own. */
  lemma PutStepKeeps(ps: seq<Page>, qs: seq<Page>, h: Heap, st: Stock, obj: nat, listed: seq<nat>, s: nat)
    requires StockOk(ps, h, st) && ListMatches(ps, st, listed, -1) && s in st.carved && Partitioned(h)
    requires obj in st.loc
    requires SameBut(ps, qs, [s] + listed)
    ensures Kept(Snapshot(ps, h, st.carved), Snapshot(qs, h, Moved(st, obj, SpanList).carved))
  {
    OwnPagesKept(ps, qs, h, st, [s] + listed);
  }

  /** A new span: allocation changes only free pages, and what follows only the span. */
  lemma NewSpanKept(a: Snapshot, g: Heap, qs: seq<Page>, rs: seq<Page>, b: Snapshot, r: nat, n: nat)
    requires Partitioned(a.heap) && Partitioned(g) && b.heap == g
    requires r in g.spans && r !in Held(a.heap) && Held(g) == Held(a.heap)[r := g.spans[r]]
    requires SameOutside(a.pages, qs, FreePages(a.heap)) && SameBeyond(qs, rs, r, n) && SameBut(rs, b.pages, [r])
    requires 0 < n && r + n <= End(g, r) && b.carved.Keys == a.carved.Keys + {r}
    ensures Kept(a, b)
  {
    forall s: nat
      ensures SpanKept(a, b, s)
    {
      if s in Held(a.heap) && s !in a.carved {
        HeldIsNotFree(a.heap, s);
        assert s in Held(g) && Held(g)[s] == Held(a.heap)[s];
        SpansDisjoint(g, s, r);
      }
    }
  }

  /** Free pages belong to nobody. */
  lemma FreePagesKept(a: Snapshot, b: Snapshot)
    requires Partitioned(a.heap) && b.heap == a.heap && b.carved == a.carved
             && SameOutside(a.pages, b.pages, FreePages(a.heap))
    ensures Kept(a, b)
  {
    forall s: nat
      ensures SpanKept(a, b, s)
    {
      if s in Held(a.heap) {
        HeldIsNotFree(a.heap, s);
      }
    }
  }

  /** A span that leaves the pool and is freed: only its pages and free ones changed. */
  lemma GivenBackKept(a: Snapshot, qs: seq<Page>, b: Snapshot, r: nat)
    requires var h := a.heap;
             && Partitioned(h) && r in a.carved && r in h.spans && Kept(a, a.(pages := qs))
             && SameOutside(qs, b.pages, FreePages(b.heap)) && Held(b.heap) == Held(h) - {r}
             && forall p :: p in FreePages(b.heap) <==> p in FreePages(h) || r <= p < End(h, r)
    requires forall s :: s in b.carved <==> s in a.carved && s != r
    ensures Kept(a, b)
  {
    forall s: nat
      ensures SpanKept(a, b, s)
    {
      if s in Held(a.heap) && s !in a.carved {
        assert SpanKept(a, a.(pages := qs), s);
        HeldIsNotFree(a.heap, s);
        SpansDisjoint(a.heap, s, r);
        assert s in Held(b.heap);
      }
    }
  }

  /** Spans that are not the pool's any more are free, and what was free still is. */
  ghost predicate Released(a: Snapshot, b: Snapshot) {
    && (forall s {:trigger s in b.carved} :: s in b.carved ==> s in a.carved)
    && (forall p {:trigger p in FreePages(b.heap)} :: p in FreePages(a.heap) ==> p in FreePages(b.heap))
    && (forall s, p {:trigger s in a.carved, p in FreePages(b.heap)} ::
         s in a.carved && s !in b.carved && s in a.heap.spans && s <= p < End(a.heap, s) ==> p in FreePages(b.heap))
    && (forall s {:trigger s in b.carved} :: s in b.carved ==>
         s in a.heap.spans && s in b.heap.spans && b.heap.spans[s] == a.heap.spans[s])
  }

  lemma NothingReleased(a: Snapshot, b: Snapshot, st: Stock)
    requires StockOk(a.pages, a.heap, st) && a.carved == st.carved && b.carved == a.carved && b.heap == a.heap
    ensures Released(a, b)
  {
    forall s | s in b.carved ensures s in a.heap.spans {
      assert SpanCarved(a.pages, a.heap, st, s);
    }
  }

  lemma SpanReleased(a: Snapshot, b: Snapshot, st: Stock, r: nat)
    requires StockOk(a.pages, a.heap, st) && a.carved == st.carved && r in a.heap.spans
    requires Held(b.heap) == Held(a.heap) - {r}
    requires forall s :: s in b.carved <==> s in a.carved && s != r
    requires forall p :: p in FreePages(b.heap) <==> p in FreePages(a.heap) || r <= p < End(a.heap, r)
    ensures Released(a, b)
  {
    forall s | s in b.carved ensures s in a.heap.spans && s in b.heap.spans && b.heap.spans[s] == a.heap.spans[s] {
      assert SpanCarved(a.pages, a.heap, st, s);
      assert s in Held(a.heap) && Held(b.heap)[s] == Held(a.heap)[s];
    }
  }

  lemma ReleasedTrans(a: Snapshot, b: Snapshot, c: Snapshot)
    requires Released(a, b) && Released(b, c)
    ensures Released(a, c)
  {
    forall s, p | s in a.carved && s !in c.carved && s in a.heap.spans && s <= p < End(a.heap, s)
      ensures p in FreePages(c.heap)
    {
      assert s in b.carved || p in FreePages(b.heap);
    }
  }

  /** What another pool does leaves this one's spans alone. */
  lemma KeptIsElsewhere(a: Snapshot, b: Snapshot, st: Stock)
    requires Kept(a, b) && StockOk(a.pages, a.heap, st) && forall s :: s in st.carved ==> s !in a.carved
    ensures SpansUntouched(a.pages, b.pages, a.heap, b.heap, st)
    ensures forall s :: s in st.carved ==> s !in b.carved
  {
    forall s: nat | s in st.carved
      ensures s in b.heap.spans && s in a.heap.spans && b.heap.spans[s] == a.heap.spans[s] && s !in b.carved
      ensures PagesSame(a.pages, b.pages, a.heap, s)
    {
      assert SpanCarved(a.pages, a.heap, st, s) && SpanKept(a, b, s);
      assert s in Held(a.heap);
    }
  }

  lemma BusySameBut(ps: seq<Page>, qs: seq<Page>, carved: map<nat, Carved>, but: int, s: nat)
    requires Busy(ps, carved, but) && SameBut(ps, qs, [s]) && s < |ps| && qs[s].nrSmallAlloc >= ps[s].nrSmallAlloc
    ensures Busy(qs, carved, but)
  {
    forall u | u in carved && u != but ensures u < |qs| && qs[u].nrSmallAlloc > 0 {
      assert u !in [s] ==> qs[u] == ps[u];
    }
  }

  lemma BusyLinks(ps: seq<Page>, qs: seq<Page>, carved: map<nat, Carved>, but: int, touched: seq<nat>)
    requires Busy(ps, carved, but) && OnlyLinks(ps, qs, touched)
    ensures Busy(qs, carved, but)
  {
  }

  lemma BusyRestocked(ps: seq<Page>, qs: seq<Page>, carved: map<nat, Carved>, s: nat, freelist: seq<nat>, nr: nat)
    requires Busy(ps, carved, -1) && Restocked(ps, qs, s, freelist, nr)
    ensures Busy(qs, carved, s) && (nr > 0 ==> Busy(qs, carved, -1))
  {
  }

  lemma BusyUntouched(ps: seq<Page>, qs: seq<Page>, h: Heap, g: Heap, st: Stock, but: int)
    requires Busy(ps, st.carved, but) && StockOk(ps, h, st) && SpansUntouched(ps, qs, h, g, st)
    ensures Busy(qs, st.carved, but)
  {
    forall u | u in st.carved && u != but ensures u < |qs| && qs[u].nrSmallAlloc > 0 {
      assert SpanCarved(ps, h, st, u);
      assert qs[u] == ps[u];
    }
  }

  lemma BusyWithObject(ps: seq<Page>, st: Stock, s: nat, but: int)
    requires s in st.carved && Busy(ps, st.carved, but)
    ensures Busy(ps, WithObject(st, s).carved, but)
  {
  }

  /** Every span of a pool has one of its two sizes. */
  ghost predicate SpansChosen(carved: map<nat, Carved>, preferred: nat, fallback: nat) {
    forall s :: s in carved ==> carved[s].pages == preferred || carved[s].pages == fallback
  }

  lemma ChosenWithObject(st: Stock, s: nat, preferred: nat, fallback: nat)
    requires s in st.carved && SpansChosen(st.carved, preferred, fallback)
    ensures SpansChosen(WithObject(st, s).carved, preferred, fallback)
  {
  }

  class SmallPool {
    const cpu: CpuPages
    const id: nat
    const objectSize: nat
    const preferred: nat
    const fallback: nat
    const minFree: nat
    const maxFree: nat
    const spanList: PageList
    /** The chain of free objects that starts at _free, as object addresses. */
    var free: seq<nat>
    var freeCount: nat
    ghost var stock: Stock

    ghost predicate Base()
      reads this, cpu, cpu.pages, cpu.freeSpans, spanList
    {
      && cpu.Valid() && cpu.HeldList(spanList)
      && stock.id == id && stock.size == objectSize && 0 < objectSize
      && objectSize <= fallback * PAGE_SIZE && objectSize <= preferred * PAGE_SIZE
      && FewPages(objectSize, preferred, fallback)
      && SpansChosen(stock.carved, preferred, fallback)
      && 0 < (minFree + maxFree) / 2 < maxFree
      && StockOk(cpu.pages[..], cpu.heap, stock)
      && FreeMatches(stock, free) && freeCount == |free|
    }

    /** Everything but the span list being right for the span that is being drained. */
    ghost predicate Draining(drained: int)
      reads this, cpu, cpu.pages, cpu.freeSpans, spanList
    {
      Base() && ListMatches(cpu.pages[..], stock, spanList.contents, drained)
    }

    ghost predicate Valid()
      reads this, cpu, cpu.pages, cpu.freeSpans, spanList
    {
      Draining(-1)
    }

    ghost predicate Resting(but: int)
      reads this, cpu, cpu.pages
    {
      Busy(cpu.pages[..], stock.carved, but)
    }

    /** Between operations, every span has an object that is in use or on the pool's list. */
    ghost predicate AtRest()
      reads this, cpu, cpu.pages, cpu.freeSpans, spanList
    {
      Valid() && Resting(-1)
    }

    /** Span s has an object that is in use or on the pool's list. */
    ghost predicate HasObject(s: nat)
      reads this
    {
      exists x :: x in stock.loc && stock.loc[x].span == s && stock.loc[x].place != SpanList
    }

    /** No span is kept for nothing. */
    lemma NoIdleSpan(s: nat)
      requires AtRest() && s in stock.carved
      ensures HasObject(s)
    {
      var x := BusyHasObject(cpu.pages[..], cpu.heap, stock, s);
    }

    /** What of Valid() is about the pool, for an array of pages divided as h says. */
    ghost predicate ValidOn(ps: seq<Page>, h: Heap)
      reads this, spanList
    {
      && stock.id == id && stock.size == objectSize && 0 < objectSize
      && objectSize <= fallback * PAGE_SIZE && objectSize <= preferred * PAGE_SIZE
      && FewPages(objectSize, preferred, fallback)
      && SpansChosen(stock.carved, preferred, fallback)
      && 0 < (minFree + maxFree) / 2 < maxFree
      && StockOk(ps, h, stock) && FreeMatches(stock, free) && freeCount == |free|
      && ListMatches(ps, stock, spanList.contents, -1)
      && Distinct(spanList.contents) && Linked(ps, spanList.contents)
      && spanList.front == Succ(spanList.contents, -1) && spanList.back == Pred(spanList.contents, |spanList.contents|)
      && forall x :: x in spanList.contents ==> x !in FreePages(h)
    }

    lemma ValidIsOn()
      ensures Valid() <==> cpu.Valid() && spanList !in cpu.freeSpans && ValidOn(cpu.pages[..], cpu.heap)
    {
    }

    /** As long as its own spans are as they were, the rest of memory does not matter to a pool. */
    lemma StaysValid(ps: seq<Page>, qs: seq<Page>, h: Heap, g: Heap)
      requires ValidOn(ps, h) && SpansUntouched(ps, qs, h, g, stock) && Partitioned(g)
      ensures ValidOn(qs, g)
    {
      UntouchedStep(ps, qs, h, g, stock, spanList.contents);
      forall x | x in spanList.contents
        ensures x !in FreePages(g)
      {
        assert SpanCarved(qs, g, stock, x);
        HeldIsNotFree(g, x);
        assert SpanOk(g, x);
      }
    }

    /** What of AtRest() is about the pool. */
    ghost predicate RestOn(ps: seq<Page>, h: Heap)
      reads this, spanList
    {
      ValidOn(ps, h) && Busy(ps, stock.carved, -1)
    }

    lemma AtRestIsOn()
      ensures AtRest() <==> cpu.Valid() && spanList !in cpu.freeSpans && RestOn(cpu.pages[..], cpu.heap)
    {
      ValidIsOn();
    }

    lemma StaysAtRest(ps: seq<Page>, qs: seq<Page>, h: Heap, g: Heap)
      requires RestOn(ps, h) && SpansUntouched(ps, qs, h, g, stock) && Partitioned(g)
      ensures RestOn(qs, g)
    {
      StaysValid(ps, qs, h, g);
      BusyUntouched(ps, qs, h, g, stock, -1);
    }

    ghost function Snap(): Snapshot
      reads this, cpu, cpu.pages
    {
      Snapshot(cpu.pages[..], cpu.heap, stock.carved)
    }

    ghost function InUse(): set<nat>
      reads this
    {
      UserObjects(stock)
    }

    /**
     * Chooses the span sizes: the fallback is the least that holds one object, the preferred one holds
     * four and wastes at most a twentieth unless it has 32 pages or more.
     */
    constructor (cpu: CpuPages, id: nat, objectSize: nat)
      requires cpu.Valid() && 0 < objectSize
      ensures AtRest() && this.cpu == cpu && this.objectSize == objectSize && fresh(spanList)
      ensures free == [] && InUse() == {} && stock.carved == map[] && this.id == id
      ensures SizesChosen(objectSize, preferred, fallback)
      ensures minFree == maxFree / 2 && maxFree >= 100
      ensures maxFree * objectSize <= 2 * preferred * PAGE_SIZE || maxFree == 100
      ensures (maxFree + 1) * objectSize > 2 * preferred * PAGE_SIZE
    {
      var spanSize := 1;
      while objectSize > spanSize * PAGE_SIZE
        invariant spanSize >= 1 && (spanSize - 1) * PAGE_SIZE < objectSize
      {
        spanSize := spanSize + 1;
      }
      fallback := spanSize;
      ghost var least := spanSize;
      spanSize := 1;
      while Unfit(spanSize, objectSize)
        invariant spanSize >= 1
        invariant forall n: nat {:trigger Unfit(n, objectSize)} :: 0 < n < spanSize ==> Unfit(n, objectSize)
        invariant objectSize <= 16384 ==> spanSize <= 32
        decreases 32 + 4 * objectSize - spanSize
      {
        FewObjects(spanSize * PAGE_SIZE, objectSize);
        spanSize := spanSize + 1;
      }
      FewObjects(spanSize * PAGE_SIZE, objectSize);
      preferred := spanSize;
      ChosenSizes(objectSize, spanSize, least);
      var twice := spanSize * PAGE_SIZE * 2 / objectSize;
      var most := if twice < 100 then 100 else twice;
      LargestQuotient(spanSize * PAGE_SIZE * 2, objectSize, most);
      maxFree := most;
      minFree := most / 2;
      spanList := new PageList();
      this.cpu := cpu;
      this.id := id;
      this.objectSize := objectSize;
      free := [];
      freeCount := 0;
      stock := Stock(id, objectSize, map[], map[]);
    }

    /**
     * For the sizes that are pooled, the counter of a span and the offset of a page in its span stay far
     * below what their 16 and 8 bits can hold.
     */
    lemma CountersFit(s: nat)
      requires Valid() && objectSize <= 16384 && s in stock.carved
      ensures s < cpu.pages.Length && s + stock.carved[s].pages <= cpu.pages.Length && stock.carved[s].pages <= 32
      ensures cpu.pages[s].nrSmallAlloc <= stock.carved[s].objs <= 4096
      ensures forall p :: s <= p < s + stock.carved[s].pages ==> cpu.pages[p].offsetInSpan < 32
    {
      var ps := cpu.pages[..];
      assert SpanCarved(ps, cpu.heap, stock, s) && SpanStocked(ps, stock, s);
      FewFit(objectSize, stock.carved[s].pages, stock.carved[s].objs);
    }

    /** Moves the first object of the span's own list to the pool's list. */
    method TakeObject(span: nat)
      requires Draining(span) && span in stock.carved && span < cpu.pages.Length && cpu.pages[span].freelist != []
      modifies this`free, this`freeCount, this`stock, cpu.pages
      ensures Draining(span) && InUse() == old(InUse())
      ensures stock.carved == old(stock.carved)
      ensures freeCount == old(freeCount) + 1
      ensures cpu.pages[span].freelist == old(cpu.pages[span].freelist)[1..]
      ensures cpu.pages[span].nrSmallAlloc == old(cpu.pages[span].nrSmallAlloc) + 1
      ensures SameBut(old(cpu.pages[..]), cpu.pages[..], [span])
    {
      var p := cpu.pages[span];
      var obj := p.freelist[0];
      cpu.SetPoolData(spanList, span, p.pool, p.offsetInSpan, p.nrSmallAlloc + 1, p.freelist[1..]);
      TakeStep(old(cpu.pages[..]), cpu.pages[..], cpu.heap, stock, free, spanList.contents, span);
      free := [obj] + free;
      freeCount := freeCount + 1;
      stock := Moved(stock, obj, Pool);
    }

    method TakeOne(span: nat)
      requires Draining(span) && Resting(-1) && span in stock.carved && span < cpu.pages.Length
      requires cpu.pages[span].freelist != []
      modifies this`free, this`freeCount, this`stock, cpu.pages
      ensures Draining(span) && Resting(-1) && InUse() == old(InUse())
      ensures stock.carved == old(stock.carved)
      ensures freeCount == old(freeCount) + 1
      ensures cpu.pages[span].freelist == old(cpu.pages[span].freelist)[1..]
      ensures SameBut(old(cpu.pages[..]), cpu.pages[..], [span])
    {
      ghost var ps := cpu.pages[..];
      TakeObject(span);
      BusySameBut(ps, cpu.pages[..], stock.carved, -1, span);
    }

    /** The most objects a span can have. */
    ghost function PerSpan(): nat
      requires objectSize > 0
    {
      ObjectsIn(preferred, objectSize)
    }

    lemma ListedAtMost(span: nat)
      requires Base() && span in stock.carved && span < cpu.pages.Length
      ensures |cpu.pages[span].freelist| <= PerSpan()
    {
      assert SpanStocked(cpu.pages[..], stock, span) && SpanCarved(cpu.pages[..], cpu.heap, stock, span);
      AtMost(stock.carved[span].pages * PAGE_SIZE, preferred * PAGE_SIZE, objectSize, stock.carved[span].objs);
    }

    /** Takes the first span off the span list and moves all its objects to the pool's list. */
    method DrainSpan()
      requires AtRest() && spanList.contents != []
      modifies this`free, this`freeCount, this`stock, cpu.pages, spanList
      ensures AtRest() && InUse() == old(InUse())
      ensures freeCount <= old(freeCount) + PerSpan()
      ensures stock.carved == old(stock.carved) && cpu.heap == old(cpu.heap)
      ensures freeCount > old(freeCount) && spanList.contents == old(spanList.contents)[1..]
      ensures SameBut(old(cpu.pages[..]), cpu.pages[..], old(spanList.contents))
    {
      spanList.FrontFacts(cpu.pages);
      var span := spanList.front;
      cpu.HeldPopFront(spanList);
      LinksOnlyStock(old(cpu.pages[..]), cpu.pages[..], old(spanList.contents), cpu.heap, stock);
      PoppedList(old(cpu.pages[..]), cpu.pages[..], stock, old(spanList.contents));
      BusyLinks(old(cpu.pages[..]), cpu.pages[..], stock.carved, -1, old(spanList.contents));
      ListedAtMost(span);
      ghost var listed := |cpu.pages[span].freelist|;
      TakeOne(span);
      while cpu.pages[span].freelist != []
        invariant Draining(span) && Resting(-1) && InUse() == old(InUse()) && freeCount > old(freeCount)
        invariant freeCount + |cpu.pages[span].freelist| == old(freeCount) + listed
        invariant stock.carved == old(stock.carved) && spanList.contents == old(spanList.contents)[1..]
        invariant cpu.heap == old(cpu.heap) && SameBut(old(cpu.pages[..]), cpu.pages[..], old(spanList.contents))
        decreases |cpu.pages[span].freelist|
      {
        TakeOne(span);
      }
      DrainedList(cpu.pages[..], stock, spanList.contents, span);
    }

    /** The span an object was carved from, found through the offset stored in the object's page. */
    method SpanOf(obj: nat) returns (span: nat)
      requires Valid() && obj in stock.loc && stock.loc[obj].place != SpanList
      ensures span == stock.loc[obj].span && span in stock.carved && 0 < span < cpu.nrPages
      ensures cpu.pages[span].nrSmallAlloc >= 1 && span !in FreePages(cpu.heap)
    {
      SpanOfLocated(cpu.pages[..], cpu.heap, stock, obj);
      CountedOffList(cpu.pages[..], cpu.heap, stock, obj);
      span := obj / PAGE_SIZE - cpu.pages[obj / PAGE_SIZE].offsetInSpan;
      assert SpanCarved(cpu.pages[..], cpu.heap, stock, span);
      assert SpanOk(cpu.heap, span);
      HeldIsNotFree(cpu.heap, span);
    }

    /** Pushes an object on the list of a span, which goes on the span list if its own list was empty. */
    method PushOnSpan(span: nat, obj: nat)
      requires cpu.Valid() && cpu.HeldList(spanList) && 0 < span < cpu.nrPages && span !in FreePages(cpu.heap)
      requires cpu.pages[span].freelist == [] ==> span !in spanList.contents
      requires cpu.pages[span].nrSmallAlloc >= 1
      modifies cpu.pages, spanList
      ensures cpu.Valid() && cpu.HeldList(spanList)
      ensures var p := old(cpu.pages[span]);
              && Restocked(old(cpu.pages[..]), cpu.pages[..], span, [obj] + p.freelist, p.nrSmallAlloc - 1)
              && spanList.contents == if p.freelist == [] then [span] + old(spanList.contents)
                else old(spanList.contents)
      ensures SameBut(old(cpu.pages[..]), cpu.pages[..], [span] + old(spanList.contents))
    {
      if cpu.pages[span].freelist == [] {
        cpu.HeldPushFront(spanList, span);
      }
      var p := cpu.pages[span];
      cpu.SetPoolData(spanList, span, p.pool, p.offsetInSpan, p.nrSmallAlloc - 1, [obj] + p.freelist);
    }

    /** Moves the first object of the pool's list back to its span's list. */
    method PutBack() returns (span: nat)
      requires AtRest() && free != []
      modifies this`free, this`freeCount, this`stock, cpu.pages, spanList
      ensures Valid() && Resting(span) && InUse() == old(InUse()) && free == old(free)[1..]
      ensures stock.carved == old(stock.carved) && span in stock.carved && span < cpu.pages.Length
      ensures freeCount == old(freeCount) - 1 && cpu.pages[span].freelist != [] && cpu.heap == old(cpu.heap)
      ensures Kept(old(Snap()), Snap())
    {
      var obj := free[0];
      assert obj in free;
      span := SpanOf(obj);
      PushOnSpan(span, obj);
      BusyRestocked(old(cpu.pages[..]), cpu.pages[..], stock.carved, span, [obj] + old(cpu.pages[span].freelist),
                    old(cpu.pages[span].nrSmallAlloc) - 1);
      PutStepKeeps(old(cpu.pages[..]), cpu.pages[..], cpu.heap, stock, obj, old(spanList.contents), span);
      PutStep(old(cpu.pages[..]), cpu.pages[..], cpu.heap, stock, free, old(spanList.contents), span);
      free := free[1..];
      freeCount := freeCount - 1;
      stock := Moved(stock, obj, SpanList);
    }

    /** Takes a span all of whose objects are on its own list out of the pool. */
    method RetireSpan(span: nat)
      requires Valid() && span in stock.carved && span < cpu.pages.Length
      requires cpu.pages[span].freelist != [] && cpu.pages[span].nrSmallAlloc == 0
      modifies this`stock, cpu.pages, spanList
      ensures Valid() && InUse() == old(InUse()) && stock == WithoutSpan(old(stock), span) && cpu.heap == old(cpu.heap)
      ensures span in cpu.heap.spans && cpu.heap.spans[span].kind.Used? && (old(Resting(span)) ==> Resting(-1))
      ensures Kept(old(Snap()), Snap().(carved := old(stock).carved))
    {
      assert SpanCarved(cpu.pages[..], cpu.heap, stock, span);
      ghost var st, listed := stock, spanList.contents;
      cpu.HeldErase(spanList, span);
      LinksOnlyStock(old(cpu.pages[..]), cpu.pages[..], listed, cpu.heap, st);
      LinksOnlyList(old(cpu.pages[..]), cpu.pages[..], st, listed);
      LeaveStep(cpu.pages[..], cpu.heap, st, free, listed, spanList.contents, span);
      OwnPagesKept(old(cpu.pages[..]), cpu.pages[..], cpu.heap, st, listed);
      stock := WithoutSpan(st, span);
    }

    /** Gives pages that are not the pool's back to the page allocator. */
    method ReturnPages(span: nat)
      requires Valid() && span !in stock.carved
      requires span in cpu.heap.spans && cpu.heap.spans[span].kind.Used?
      modifies cpu, cpu.pages, cpu.freeSpans
      ensures Valid() && Held(cpu.heap) == Held(old(cpu.heap)) - {span} && (old(Resting(-1)) ==> Resting(-1))
      ensures SameOutside(old(cpu.pages[..]), cpu.pages[..], FreePages(cpu.heap))
      ensures forall p :: p in FreePages(cpu.heap) <==>
              p in FreePages(old(cpu.heap)) || span <= p < End(old(cpu.heap), span)
    {
      ghost var ps, h := cpu.pages[..], cpu.heap;
      cpu.FreeLarge(span);
      FreeingIsElsewhere(ps, cpu.pages[..], h, cpu.heap, stock, span);
      UntouchedStep(ps, cpu.pages[..], h, cpu.heap, stock, spanList.contents);
      StillBusy(ps, h);
    }

    /** A span without objects in use goes back to the page allocator. */
    method GiveBack(span: nat)
      requires Valid() && Resting(span) && span in stock.carved && span < cpu.pages.Length
      requires cpu.pages[span].freelist != [] && cpu.pages[span].nrSmallAlloc == 0
      modifies this`stock, cpu, cpu.pages, cpu.freeSpans, spanList
      ensures AtRest() && InUse() == old(InUse()) && Kept(old(Snap()), Snap())
      ensures Released(old(Snap()), Snap())
    {
      ghost var a, st := Snap(), stock;
      RetireSpan(span);
      ghost var ps := cpu.pages[..];
      ReturnPages(span);
      GivenBackKept(a, ps, Snap(), span);
      SpanReleased(a, Snap(), st, span);
    }

    /** One object goes back to its span, and the span back to the page allocator if it was the last one. */
    method TrimOne()
      requires AtRest() && free != []
      modifies this`free, this`freeCount, this`stock, cpu, cpu.pages, cpu.freeSpans, spanList
      ensures AtRest() && InUse() == old(InUse()) && freeCount == old(freeCount) - 1 && Kept(old(Snap()), Snap())
      ensures free == old(free)[1..] && Released(old(Snap()), Snap())
    {
      ghost var b, st := Snap(), stock;
      var span := PutBack();
      ghost var a := Snap();
      NothingReleased(b, a, st);
      if cpu.pages[span].nrSmallAlloc == 0 {
        GiveBack(span);
        KeptTrans(b, a, Snap());
        ReleasedTrans(b, a, Snap());
      }
    }

    /**
     * Moves objects from the pool's list back to their spans. The spans that are left have objects in use
     * or on the pool's list, and the pages of all others are free.
     */
    method TrimFreeList()
      requires AtRest()
      modifies this`free, this`freeCount, this`stock, cpu, cpu.pages, cpu.freeSpans, spanList
      ensures AtRest() && InUse() == old(InUse())
      ensures Released(old(Snap()), Snap())
      ensures freeCount == if old(freeCount) > (minFree + maxFree) / 2 then (minFree + maxFree) / 2 else old(freeCount)
      ensures free == old(free)[old(freeCount) - freeCount..]
      ensures Kept(old(Snap()), Snap())
    {
      var goal := (minFree + maxFree) / 2;
      NothingReleased(Snap(), Snap(), stock);
      while free != [] && freeCount > goal
        invariant AtRest() && InUse() == old(InUse()) && freeCount <= old(freeCount)
        invariant freeCount == old(freeCount) || freeCount >= goal
        invariant free == old(free)[old(freeCount) - freeCount..]
        invariant Kept(old(Snap()), Snap()) && Released(old(Snap()), Snap())
        decreases freeCount
      {
        ghost var a := Snap();
        TrimOne();
        KeptTrans(old(Snap()), a, Snap());
        ReleasedTrans(old(Snap()), a, Snap());
      }
    }

    /** An object of the user's goes on the pool's list. */
    method TakeBack(obj: nat)
      requires AtRest() && obj in InUse()
      modifies this`free, this`freeCount, this`stock
      ensures AtRest() && InUse() == old(InUse()) - {obj} && stock.carved == old(stock.carved)
      ensures free == [obj] + old(free) && freeCount == old(freeCount) + 1
      ensures Snap() == old(Snap()) && Released(Snap(), Snap()) && Kept(Snap(), Snap())
    {
      MoveOffSpans(cpu.pages[..], cpu.heap, stock, obj, Pool);
      PushFree(stock, free, obj);
      UserMoved(stock, obj, Pool);
      stock := Moved(stock, obj, Pool);
      free := [obj] + free;
      freeCount := freeCount + 1;
      NothingReleased(Snap(), Snap(), stock);
    }

    /** The user gives an object back. */
    method Deallocate(obj: nat)
      requires AtRest() && obj in InUse()
      modifies this`free, this`freeCount, this`stock, cpu, cpu.pages, cpu.freeSpans, spanList
      ensures AtRest() && InUse() == old(InUse()) - {obj}
      ensures if old(freeCount) + 1 < maxFree then
                free == [obj] + old(free) && cpu.heap == old(cpu.heap) && stock.carved == old(stock.carved)
              else
                freeCount == (minFree + maxFree) / 2 && free == ([obj] + old(free))[old(freeCount) + 1 - freeCount..]
      ensures Released(old(Snap()), Snap())
      ensures Kept(old(Snap()), Snap())
    {
      TakeBack(obj);
      if freeCount >= maxFree {
        TrimFreeList();
      }
    }

    /** Asks for a span: of the preferred size, else of the fallback size. */
    method GetSpan() returns (r: Option<nat>, spanSize: nat)
      requires Valid() && 0 < fallback && 0 < preferred
      modifies cpu, cpu.pages, cpu.freeSpans
      ensures Valid() && (old(Resting(-1)) ==> Resting(-1))
      ensures r.None? ==> cpu.heap == old(cpu.heap) && !FreeBlockExists(cpu.heap, fallback)
      ensures r.Some? ==> spanSize == (if FreeBlockExists(old(cpu.heap), preferred) then preferred else fallback)
      ensures r.Some? ==> r.value !in stock.carved
                          && r.value in cpu.heap.spans && cpu.heap.spans[r.value].kind.Used?
                          && spanSize <= Pow2(cpu.heap.spans[r.value].order) && End(cpu.heap, r.value) <= cpu.nrPages
                          && r.value !in Held(old(cpu.heap))
                          && Held(cpu.heap) == Held(old(cpu.heap))[r.value := cpu.heap.spans[r.value]]
      ensures SameOutside(old(cpu.pages[..]), cpu.pages[..], FreePages(old(cpu.heap)))
    {
      spanSize := preferred;
      ghost var ps, h := cpu.pages[..], cpu.heap;
      r := cpu.AllocateLargeAndTrim(spanSize);
      if r.None? {
        SameOutsideFree(ps, cpu.pages[..], h, stock);
        UntouchedStep(ps, cpu.pages[..], h, cpu.heap, stock, spanList.contents);
        StillBusy(ps, h);
        ps := cpu.pages[..];
        spanSize := fallback;
        r := cpu.AllocateLargeAndTrim(spanSize);
        if r.None? {
          SameOutsideFree(ps, cpu.pages[..], h, stock);
          UntouchedStep(ps, cpu.pages[..], h, cpu.heap, stock, spanList.contents);
          StillBusy(ps, h);
          return;
        }
      }
      IndexOfIsCeilLog2(spanSize);
      AllocationIsElsewhere(ps, cpu.pages[..], h, cpu.heap, stock, r.value, IndexOf(spanSize));
      UntouchedStep(ps, cpu.pages[..], h, cpu.heap, stock, spanList.contents);
      StillBusy(ps, h);
      assert SpanOk(cpu.heap, r.value);
    }

    lemma StillBusy(ps: seq<Page>, h: Heap)
      requires StockOk(ps, h, stock) && SpansUntouched(ps, cpu.pages[..], h, cpu.heap, stock)
      ensures Busy(ps, stock.carved, -1) ==> Resting(-1)
    {
      if Busy(ps, stock.carved, -1) {
        BusyUntouched(ps, cpu.pages[..], h, cpu.heap, stock, -1);
      }
    }

    /** Writes the owner and the offset into the pages of a new span. */
    method TagPages(span: nat, spanSize: nat)
      requires Valid() && span !in stock.carved && span in cpu.heap.spans
      requires span + spanSize <= End(cpu.heap, span) <= cpu.nrPages && 0 < spanSize
      modifies cpu.pages
      ensures Valid() && (old(Resting(-1)) ==> Resting(-1))
      ensures Tagged(old(cpu.pages[..]), cpu.pages[..], stock.id, span, spanSize)
    {
      ghost var ps := cpu.pages[..];
      var i := 0;
      while i < spanSize
        invariant i <= spanSize && cpu.Valid() && cpu.HeldList(spanList)
        invariant Tagged(ps, cpu.pages[..], stock.id, span, i)
        modifies cpu.pages
      {
        var p := cpu.pages[span + i];
        cpu.SetPoolData(spanList, span + i, Some(id), i, p.nrSmallAlloc, p.freelist);
        i := i + 1;
      }
      TaggedIsElsewhere(ps, cpu.pages[..], cpu.heap, stock, span, spanSize);
      UntouchedStep(ps, cpu.pages[..], cpu.heap, cpu.heap, stock, spanList.contents);
      StillBusy(ps, cpu.heap);
    }

    /** Marks the pages of a new span, whose list is empty. */
    method PrepareSpan(span: nat, spanSize: nat)
      requires Valid() && span !in stock.carved && span in cpu.heap.spans
      requires span + spanSize <= End(cpu.heap, span) <= cpu.nrPages && 0 < spanSize
      modifies cpu.pages
      ensures Valid() && span < cpu.pages.Length && SameBeyond(old(cpu.pages[..]), cpu.pages[..], span, spanSize)
      ensures old(Resting(-1)) ==> Resting(-1)
      ensures cpu.pages[span].freelist == [] && cpu.pages[span].nrSmallAlloc == 0
      ensures forall p :: span <= p < span + spanSize ==>
                            cpu.pages[p].pool == Some(stock.id) && cpu.pages[p].offsetInSpan == p - span
    {
      TagPages(span, spanSize);
      ghost var ps := cpu.pages[..];
      var p := cpu.pages[span];
      cpu.SetPoolData(spanList, span, p.pool, p.offsetInSpan, 0, []);
      TaggedIsElsewhere(ps, cpu.pages[..], cpu.heap, stock, span, 1);
      UntouchedStep(ps, cpu.pages[..], cpu.heap, cpu.heap, stock, spanList.contents);
      StillBusy(ps, cpu.heap);
    }

    /** Makes a new span part of the pool, without objects yet. */
    method AdoptSpan(span: nat, spanSize: nat)
      requires Valid() && span !in stock.carved && 0 < spanSize && (spanSize == preferred || spanSize == fallback)
      requires span in cpu.heap.spans && cpu.heap.spans[span].kind.Used?
      requires spanSize <= Pow2(cpu.heap.spans[span].order) && End(cpu.heap, span) <= cpu.nrPages
      modifies this`stock, cpu.pages
      ensures Valid() && (old(Resting(-1)) ==> Resting(span)) && InUse() == old(InUse())
      ensures stock == WithSpan(old(stock), span, Carved(spanSize, 0))
      ensures stock.carved == old(stock.carved)[span := Carved(spanSize, 0)]
      ensures span < cpu.pages.Length && SameBeyond(old(cpu.pages[..]), cpu.pages[..], span, spanSize)
    {
      PrepareSpan(span, spanSize);
      JoinStep(cpu.pages[..], cpu.heap, stock, free, spanList.contents, span, spanSize);
      stock := WithSpan(stock, span, Carved(spanSize, 0));
    }

    /** Carves a span into objects, as many as fit in spanSize pages. */
    method CarveSpan(span: nat, spanSize: nat)
      requires Valid() && span in stock.carved && span < cpu.pages.Length
      requires stock.carved[span] == Carved(spanSize, 0) && objectSize <= spanSize * PAGE_SIZE
      modifies this`free, this`freeCount, this`stock, cpu.pages
      ensures Valid() && (old(Resting(span)) ==> Resting(-1)) && InUse() == old(InUse())
      ensures freeCount == old(freeCount) + ObjectsIn(spanSize, objectSize) > old(freeCount)
      ensures stock.carved == old(stock.carved)[span := Carved(spanSize, ObjectsIn(spanSize, objectSize))]
      ensures SameBut(old(cpu.pages[..]), cpu.pages[..], [span])
    {
      var offset := 0;
      ghost var n: nat := 0;
      while offset <= spanSize * PAGE_SIZE - objectSize
        invariant Valid() && InUse() == old(InUse()) && Filled(offset, n, objectSize, spanSize * PAGE_SIZE)
        invariant freeCount == old(freeCount) + n && (n > 0 ==> cpu.pages[span].nrSmallAlloc > 0)
        invariant old(Resting(span)) ==> Resting(span)
        invariant stock.carved == old(stock.carved)[span := Carved(spanSize, n)]
        invariant SameBut(old(cpu.pages[..]), cpu.pages[..], [span])
        decreases spanSize * PAGE_SIZE - offset
      {
        FilledMore(offset, n, objectSize, spanSize * PAGE_SIZE);
        CarveObject(span, offset);
        offset := offset + objectSize;
        n := n + 1;
      }
      FilledUp(offset, n, objectSize, spanSize * PAGE_SIZE);
    }

    /** Puts the object at the given offset of a span on the pool's list. */
    method CarveObject(span: nat, offset: nat)
      requires Valid() && span in stock.carved && span < cpu.pages.Length
      requires offset == stock.carved[span].objs * objectSize
      requires var c := stock.carved[span]; Filled(offset + objectSize, c.objs + 1, objectSize, c.pages * PAGE_SIZE)
      modifies this`free, this`freeCount, this`stock, cpu.pages
      ensures Valid() && InUse() == old(InUse()) && freeCount == old(freeCount) + 1
      ensures (old(Resting(span)) ==> Resting(span)) && cpu.pages[span].nrSmallAlloc > 0
      ensures stock.carved == WithObject(old(stock), span).carved
      ensures SameBut(old(cpu.pages[..]), cpu.pages[..], [span])
    {
      var h := span * PAGE_SIZE + offset;
      assert h == ObjAt(stock.size, span, stock.carved[span].objs);
      var p := cpu.pages[span];
      cpu.SetPoolData(spanList, span, p.pool, p.offsetInSpan, p.nrSmallAlloc + 1, p.freelist);
      CarveStep(old(cpu.pages[..]), cpu.pages[..], cpu.heap, stock, free, spanList.contents, span);
      ChosenWithObject(stock, span, preferred, fallback);
      if Busy(old(cpu.pages[..]), stock.carved, span) {
        BusySameBut(old(cpu.pages[..]), cpu.pages[..], stock.carved, span, span);
        BusyWithObject(cpu.pages[..], stock, span, span);
      }
      free := [h] + free;
      freeCount := freeCount + 1;
      stock := WithObject(stock, span);
    }

    /** The preferred size if memory has room for that, else the fallback size. */
    ghost function SpanSizeIn(h: Heap): nat
      requires 0 < preferred
      reads this
    {
      if FreeBlockExists(h, preferred) then preferred else fallback
    }

    /** Gets one more span and carves it; false if none is to be had. */
    method AddSpan() returns (ok: bool)
      requires AtRest() && 0 < fallback && 0 < preferred
      modifies this`free, this`freeCount, this`stock, cpu, cpu.pages, cpu.freeSpans
      ensures AtRest() && InUse() == old(InUse())
      ensures ok ==> freeCount == old(freeCount) + ObjectsIn(SpanSizeIn(old(cpu.heap)), objectSize) > old(freeCount)
      ensures ok ==> exists s: nat :: s !in old(stock.carved) && stock.carved == old(stock.carved)[s :=
                       Carved(SpanSizeIn(old(cpu.heap)), ObjectsIn(SpanSizeIn(old(cpu.heap)), objectSize))]
      ensures !ok ==> freeCount == old(freeCount) && free == old(free) && stock.carved == old(stock.carved)
                      && cpu.heap == old(cpu.heap) && !FreeBlockExists(cpu.heap, fallback)
      ensures Kept(old(Snap()), Snap())
    {
      ghost var a := Snap();
      var data, spanSize := GetSpan();
      if data.None? {
        FreePagesKept(a, Snap());
        return false;
      }
      UseSpan(data.value, spanSize, a);
      assert data.value !in a.carved;
      ok := true;
    }

    lemma UpdatedTwice(m: map<nat, Carved>, s: nat, x: Carved, y: Carved)
      ensures m[s := x][s := y] == m[s := y]
    {
    }

    /** A span that was handed out joins the pool and is carved; rs is the pages in between. */
    method AdoptAndCarve(span: nat, spanSize: nat) returns (ghost rs: seq<Page>)
      requires AtRest() && span !in stock.carved && (spanSize == preferred || spanSize == fallback) && 0 < spanSize
      requires span in cpu.heap.spans && cpu.heap.spans[span].kind.Used?
      requires spanSize <= Pow2(cpu.heap.spans[span].order) && End(cpu.heap, span) <= cpu.nrPages
      modifies this`free, this`freeCount, this`stock, cpu.pages
      ensures AtRest() && InUse() == old(InUse())
      ensures freeCount == old(freeCount) + ObjectsIn(spanSize, objectSize) > old(freeCount)
      ensures stock.carved == old(stock.carved)[span := Carved(spanSize, ObjectsIn(spanSize, objectSize))]
      ensures SameBeyond(old(cpu.pages[..]), rs, span, spanSize) && SameBut(rs, cpu.pages[..], [span])
    {
      AdoptSpan(span, spanSize);
      rs := cpu.pages[..];
      CarveSpan(span, spanSize);
      UpdatedTwice(old(stock.carved), span, Carved(spanSize, 0), Carved(spanSize, ObjectsIn(spanSize, objectSize)));
    }

    /** A span that was handed out is carved; a is what was before that. */
    method UseSpan(span: nat, spanSize: nat, ghost a: Snapshot)
      requires AtRest() && span !in stock.carved && (spanSize == preferred || spanSize == fallback) && 0 < spanSize
      requires span in cpu.heap.spans && cpu.heap.spans[span].kind.Used?
      requires spanSize <= Pow2(cpu.heap.spans[span].order) && End(cpu.heap, span) <= cpu.nrPages
      requires a.carved == stock.carved && Partitioned(a.heap) && SameOutside(a.pages, cpu.pages[..], FreePages(a.heap))
      requires span !in Held(a.heap) && Held(cpu.heap) == Held(a.heap)[span := cpu.heap.spans[span]]
      modifies this`free, this`freeCount, this`stock, cpu.pages
      ensures AtRest() && InUse() == old(InUse()) && Kept(a, Snap())
      ensures freeCount == old(freeCount) + ObjectsIn(spanSize, objectSize) > old(freeCount)
      ensures stock.carved == old(stock.carved)[span := Carved(spanSize, ObjectsIn(spanSize, objectSize))]
    {
      ghost var qs := cpu.pages[..];
      ghost var rs := AdoptAndCarve(span, spanSize);
      NewSpanKept(a, cpu.heap, qs, rs, Snap(), span, spanSize);
    }

    /** The first loop of add_more_objects: takes over the objects that are on the spans' own lists. */
    method DrainSpans(goal: nat)
      requires AtRest()
      modifies this`free, this`freeCount, this`stock, cpu.pages, spanList
      ensures AtRest() && InUse() == old(InUse()) && freeCount >= old(freeCount)
      ensures stock.carved == old(stock.carved) && cpu.heap == old(cpu.heap)
      ensures freeCount < goal ==> spanList.contents == []
      ensures freeCount < goal + PerSpan() || (freeCount == old(freeCount) && free == old(free))
      ensures Kept(old(Snap()), Snap())
    {
      spanList.FrontFacts(cpu.pages);
      while !spanList.Empty() && freeCount < goal
        invariant AtRest() && InUse() == old(InUse()) && freeCount >= old(freeCount)
        invariant freeCount < goal + PerSpan() || (freeCount == old(freeCount) && free == old(free))
        invariant stock.carved == old(stock.carved) && cpu.heap == old(cpu.heap)
        invariant spanList.Empty() <==> spanList.contents == []
        invariant SameBut(old(cpu.pages[..]), cpu.pages[..], old(spanList.contents))
        invariant forall x :: x in spanList.contents ==> x in old(spanList.contents)
        decreases |spanList.contents|
      {
        ghost var ps, listed := cpu.pages[..], spanList.contents;
        DrainSpan();
        SameButTrans(old(cpu.pages[..]), ps, cpu.pages[..], old(spanList.contents), listed);
        spanList.FrontFacts(cpu.pages);
      }
      OwnPagesKept(old(cpu.pages[..]), cpu.pages[..], cpu.heap, old(stock), old(spanList.contents));
    }

    /**
     * Refills the pool's list up to the goal, and by no more than a span beyond it: first from its spans,
     * and from new ones only once these have nothing left.
     */
    method AddMoreObjects()
      requires AtRest()
      modifies this`free, this`freeCount, this`stock, cpu, cpu.pages, cpu.freeSpans, spanList
      ensures AtRest() && InUse() == old(InUse()) && freeCount >= old(freeCount)
      ensures freeCount < (minFree + maxFree) / 2 ==> spanList.contents == [] && !FreeBlockExists(cpu.heap, fallback)
      ensures freeCount < (minFree + maxFree) / 2 + PerSpan() || (freeCount == old(freeCount) && free == old(free))
      ensures spanList.contents != [] ==> stock.carved == old(stock.carved) && cpu.heap == old(cpu.heap)
      ensures Kept(old(Snap()), Snap())
    {
      var goal := (minFree + maxFree) / 2;
      DrainSpans(goal);
      while freeCount < goal
        invariant AtRest() && InUse() == old(InUse()) && freeCount >= old(freeCount)
        invariant freeCount < goal ==> spanList.contents == []
        invariant freeCount < goal + PerSpan() || (freeCount == old(freeCount) && free == old(free))
        invariant spanList.contents != [] ==> stock.carved == old(stock.carved) && cpu.heap == old(cpu.heap)
        invariant Kept(old(Snap()), Snap())
        decreases goal - freeCount
      {
        ghost var a := Snap();
        PerSpanIsMost(SpanSizeIn(cpu.heap));
        var ok := AddSpan();
        KeptTrans(old(Snap()), a, Snap());
        if !ok {
          return;
        }
      }
    }

    lemma PerSpanIsMost(pages: nat)
      requires 0 < objectSize && pages <= preferred
      ensures ObjectsIn(pages, objectSize) <= PerSpan()
    {
      QuotientFits(pages * PAGE_SIZE, objectSize);
      AtMost(pages * PAGE_SIZE, preferred * PAGE_SIZE, objectSize, pages * PAGE_SIZE / objectSize);
    }

    /** No object is on any list, and no span is to be had. */
    ghost predicate Exhausted()
      reads this, cpu, spanList
    {
      free == [] && spanList.contents == [] && 0 < fallback && !FreeBlockExists(cpu.heap, fallback)
    }

    /** Hands an object to the user; null only if nothing is left and no span can be had. */
    method Allocate() returns (r: Option<nat>)
      requires AtRest()
      modifies this`free, this`freeCount, this`stock, cpu, cpu.pages, cpu.freeSpans, spanList
      ensures AtRest()
      ensures r.None? ==> InUse() == old(InUse()) && Exhausted()
      ensures r.Some? ==> r.value !in old(InUse()) && InUse() == old(InUse()) + {r.value}
      ensures old(free) != [] ==> r == Some(old(free)[0]) && free == old(free)[1..]
                                  && stock.carved == old(stock.carved) && cpu.heap == old(cpu.heap)
                                  && cpu.pages[..] == old(cpu.pages[..])
      ensures old(free) == [] && r.Some? ==> freeCount + 1 < (minFree + maxFree) / 2 + PerSpan()
      ensures old(free) == [] && spanList.contents != [] ==> stock.carved == old(stock.carved)
      ensures Kept(old(Snap()), Snap())
    {
      if free == [] {
        AddMoreObjects();
      }
      if free == [] {
        return None;
      }
      var obj := free[0];
      PopFree(stock, free, User);
      MoveOffSpans(cpu.pages[..], cpu.heap, stock, obj, User);
      UserMoved(stock, obj, User);
      free := free[1..];
      freeCount := freeCount - 1;
      stock := Moved(stock, obj, User);
      r := Some(obj);
    }
  }
}
