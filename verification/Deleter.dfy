/**
 * The operations on deleters (core/deleter.hh), which rewrite the memory in place.
 */
module Deleters {
  import opened DeleterGraph

  class Memory {
    var m: Heap
    ghost var g: Ledger

    ghost predicate Valid()
      reads this
    {
      Ok(m, g)
    }

    constructor ()
      ensures Valid() && m == Heap(map[], map[], [], 0) && g.place == map[]
    {
      m, g := Heap(map[], map[], [], 0), Ledger(map[], 1, map[]);
    }

    /** make_free_deleter(obj): a deleter that is the object itself. */
    method MakeFree() returns (h: Slot, a: nat)
      requires Valid()
      modifies this
      ensures Valid() && h !in old(m.slots) && a !in old(g.place)
      ensures m == old(m).(slots := old(m.slots)[h := Raw(a)], next := old(m.next) + 1)
              && g.place == old(g.place)[a := InSlot(h)]
    {
      h, a := Handle(m.next), m.next;
      WithHandleOk(m, g, Raw(a));
      m, g := WithHandle(m, Raw(a)), g.(place := g.place[a := InSlot(h)]);
    }

    /** make_deleter(next, object): a node for the action, behind which the deleter src moves. */
    method MakeDeleter(src: Slot) returns (h: Slot, n: nat, a: nat)
      requires Valid() && src.Handle? && src in m.slots
      modifies this
      ensures Valid() && h !in old(m.slots) && n !in old(m.nodes) && a !in old(g.place) && m.ran == old(m.ran)
      ensures m.slots == WithNode(old(m.slots), src, n, h) && m.nodes == old(m.nodes)[n := Node(1, Act(a))]
    {
      n, h, a := m.next, Handle(m.next + 1), m.next + 2;
      WithDeleterOk(m, g, src);
      g := DeleterLedger(m, g, src);
      m := WithDeleter(m, src);
    }

    /** The move constructor. */
    method Move(h: Slot) returns (t: Slot)
      requires Valid() && h.Handle? && h in m.slots
      modifies this
      ensures Valid() && t !in old(m.slots) && m.slots == old(m.slots)[t := old(m.slots[h])][h := Null]
      ensures m.nodes == old(m.nodes) && m.ran == old(m.ran) && forall a :: a in g.place <==> a in old(g.place)
    {
      t := Handle(m.next);
      WithHandleOk(m, g, Null);
      m := WithHandle(m, Null);
      MovedOk(m, g, h, t);
      m, g := Moved(m, h, t), MovedLedger(m, g, h, t);
      assert m.slots == old(m.slots)[t := old(m.slots[h])][h := Null];
    }

    /** An object in a handle gets a node of its own. */
    method Own(h: Slot)
      requires Valid() && h.Handle? && h in m.slots && m.slots[h].Raw?
      modifies this
      ensures Valid() && h in m.slots && m.slots[h].To? && m.slots[h].n in m.nodes
              && m.nodes[m.slots[h].n] == Node(1, Act(old(m.slots[h]).action))
      ensures forall s :: s in old(m.slots) && s != h ==> s in m.slots && m.slots[s] == old(m.slots[s])
      ensures m.ran == old(m.ran) && forall a :: a in g.place <==> a in old(g.place)
    {
      MaterializedOk(m, g, h, 0);
      m, g := Materialized(m, h), MaterializedLedger(m, g, h, 0);
    }

    /** One more reference to the node in h. */
    method ShareNode(h: Slot) returns (t: Slot)
      requires Valid() && h.Handle? && h in m.slots && m.slots[h].To?
      modifies this
      ensures Valid() && t.Handle? && t !in old(m.slots) && m.slots == old(m.slots)[t := old(m.slots[h])]
      ensures m.slots[h].n in old(m.nodes) && m.slots[h].n in m.nodes
              && m.nodes[m.slots[h].n] == Node(old(m.nodes)[m.slots[h].n].refs + 1, old(m.nodes)[m.slots[h].n].action)
      ensures m.ran == old(m.ran) && g == old(g)
    {
      var n := m.slots[h].n;
      ReferencedOk(m, g, n);
      t := Handle(m.next);
      m := Referenced(m, n);
    }

    method ShareNothing() returns (t: Slot)
      requires Valid()
      modifies this
      ensures Valid() && t.Handle? && t !in old(m.slots) && m.slots == old(m.slots)[t := Null]
              && m.nodes == old(m.nodes) && m.ran == old(m.ran) && g == old(g)
    {
      t := Handle(m.next);
      WithHandleOk(m, g, Null);
      m := WithHandle(m, Null);
    }

    /** share(): an object first gets a node of its own; then the node one more reference. */
    method Share(h: Slot) returns (t: Slot)
      requires Valid() && h.Handle? && h in m.slots
      modifies this
      ensures Valid() && t.Handle? && t !in old(m.slots) && h in m.slots && t in m.slots && m.slots[t] == m.slots[h]
      ensures !old(m.slots[h]).Raw? ==> m.slots[h] == old(m.slots[h])
      ensures old(m.slots[h]).Raw? ==>
              m.slots[h].To? && m.slots[h].n in m.nodes && m.nodes[m.slots[h].n] == Node(2, Act(old(m.slots[h]).action))
      ensures forall s :: s in old(m.slots) && s != h ==> s in m.slots && m.slots[s] == old(m.slots[s])
      ensures m.ran == old(m.ran) && forall a :: a in g.place <==> a in old(g.place)
    {
      if m.slots[h] == Null {
        t := ShareNothing();
      } else {
        if m.slots[h].Raw? {
          Own(h);
        }
        t := ShareNode(h);
      }
    }

    /** The last reference to a node goes: its action is carried out. */
    method Delete(s: Slot)
      requires Valid() && s in m.slots && Outside(m, s) && m.slots[s].To? && m.nodes[m.slots[s].n].refs == 1
      modifies this
      ensures Valid() && Unmade(old(m), old(g), m, g, s)
    {
      DeletedOk(m, g, s);
      m, g := Deleted(m, s), DeletedLedger(m, g, s);
    }

    method GiveUp(s: Slot)
      requires Valid() && s in m.slots && Outside(m, s) && (m.slots[s].To? ==> m.nodes[m.slots[s].n].refs > 1)
      modifies this
      ensures Valid() && s !in m.slots && Outlived(old(m), old(g), m, g, s)
    {
      var r := m.slots[s];
      if r.Raw? {
        FreedOk(m, g, s);
        m, g := Freed(m, s), g.(place := g.place[r.action := Done]);
      } else if r == Null {
        WithoutCounted(m, g, s);
        m := m.(slots := Without(m.slots, s));
      } else {
        ReleasedOk(m, g, s);
        m := Released(m, s);
      }
    }

    /**
     * The destructor of the deleter in slot s: frees an object, or gives up a reference; with the last
     * one, the action of the node is carried out and the deleters the node keeps are destroyed.
     */
    method Destroy(s: Slot)
      requires Valid() && s in m.slots && Outside(m, s)
      modifies this
      ensures Valid() && s !in m.slots && Outlived(old(m), old(g), m, g, s)
      decreases if m.slots[s].To? then Rank(g.rank, m.slots[s].n) + 1 else 0
    {
      if m.slots[s].To? && m.nodes[m.slots[s].n].refs == 1 {
        var n := m.slots[s].n;
        ghost var m0, g0 := m, g;
        KeptBelow(m, g, n);
        Delete(s);
        ghost var m1, g1 := m, g;
        Destroy(Held(n));
        ghost var m2, g2 := m, g;
        Destroy(Next(n));
        DestroyedBoth(m0, g0, m1, g1, m2, g2, m, g, s, n);
      } else {
        GiveUp(s);
      }
    }

    method PassObject(ghost h: Slot, s: Slot, ghost d: Slot, ghost k: nat, ghost len: nat) returns (next: Slot)
      requires Valid() && Walking(m, g, k, s, d) && m.slots[s].Raw? && Passed(m, g, k, h, s, len) && h.Handle?
      modifies this
      ensures Valid() && Walking(m, g, k, next, d) && Passed(m, g, k, h, next, len + 1)
              && Untouched(old(m), old(g), m, g, s) && next.Next?
      ensures ToGo(m, g, next) == 0 && m == Materialized(old(m), s) && next == Next(old(m).next)
    {
      MaterializedOk(m, g, s, k);
      StepOverObject(m, g, k, s, d);
      PathOverObject(m, g, k, h, s, len);
      next := Next(m.next);
      m, g := Materialized(m, s), MaterializedLedger(m, g, s, k);
    }

    /** A new node keeps the shared one. */
    method Enclose(ghost h: Slot, s: Slot, ghost d: Slot, ghost k: nat, ghost len: nat) returns (x: nat)
      requires Valid() && Walking(m, g, k, s, d) && m.slots[s].To? && Passed(m, g, k, h, s, len) && h.Handle?
      modifies this
      ensures Valid() && Walking(m, g, k, Next(x), d) && Passed(m, g, k, h, Next(x), len + 1)
              && Untouched(old(m), old(g), m, g, s)
      ensures m.slots[Next(x)] == Null && x in m.nodes && x !in old(m.nodes) && x == old(m).next
              && m == Enclosed(old(m), s)
      ensures var n := old(m.slots[s]).n;
              Rank(g.rank, n) == Rank(old(g).rank, n) < k && Rank(g.rank, x) == Rank(g.rank, n) + k
    {
      ghost var r := Rank(g.rank, m.slots[s].n) + k;
      StepOverShared(m, g, k, s, d);
      PathOverShared(m, g, k, h, s, len, r);
      RerankedFacts(g, m.next, r);
      x := m.next;
      EncloseNode(s, r);
    }

    method EncloseNode(s: Slot, ghost r: nat)
      requires Valid() && s in m.slots && m.slots[s].To? && Rank(g.rank, m.slots[s].n) < r < g.top && Above(m, g, s, r)
      modifies this
      ensures Valid() && m == Enclosed(old(m), s) && g == Reranked(old(g), old(m).next, r)
    {
      EnclosedOk(m, g, s, r);
      m, g := Enclosed(m, s), Reranked(g, m.next, r);
    }

    /** And takes over what was behind it. m0 and g0 are what was before the node was made. */
    method TakeTail(ghost h: Slot, n: nat, x: nat, ghost d: Slot, ghost k: nat, ghost len: nat, ghost m0: Heap,
        ghost g0: Ledger, ghost s: Slot)
      requires Valid() && Walking(m, g, k, Next(x), d) && m.slots[Next(x)] == Null && Passed(m, g, k, h, Next(x), len)
               && h.Handle?
      requires n in m.nodes && x in m.nodes && n != x && Rank(g.rank, n) < k && Rank(g.rank, x) == Rank(g.rank, n) + k
      requires Untouched(m0, g0, m, g, s) && s in m0.slots && m0.slots[s] == To(n)
      requires Rank(g0.rank, n) == Rank(g.rank, n) && m == Enclosed(m0, s) && x == m0.next && Next(x) !in m0.slots
      modifies this
      ensures Valid() && Walking(m, g, k, Next(x), d) && Passed(m, g, k, h, Next(x), len)
              && ToGo(m, g, Next(x)) < ToGo(m0, g0, s)
      ensures Untouched(m0, g0, m, g, s)
      ensures Next(n) in m0.slots && m == Moved(Enclosed(m0, s), Next(n), Next(x))
    {
      ghost var m1, g1 := m, g;
      TailMoves(m, g, k, n, x, d);
      PassedStays(m, g, k, h, n, x, len);
      MoveTail(n, x, k);
      UntouchedBoth(m0, g0, m1, g1, m, g, s, Next(x));
    }

    method MoveTail(n: nat, x: nat, ghost k: nat)
      requires Valid() && Next(x) in m.slots && m.slots[Next(x)] == Null && n in m.nodes && x in m.nodes && n != x
               && Next(n) in m.slots
      requires Rank(g.rank, x) == Rank(g.rank, n) + k
      modifies this
      ensures Valid() && m == Moved(old(m), Next(n), Next(x)) && g == MovedLedger(old(m), old(g), Next(n), Next(x))
    {
      TailMovesOk(m, g, k, n, x);
      g := MovedLedger(m, g, Next(n), Next(x));
      m := Moved(m, Next(n), Next(x));
    }

    method PassShared(ghost h: Slot, s: Slot, ghost d: Slot, ghost k: nat, ghost len: nat) returns (next: Slot)
      requires Valid() && Walking(m, g, k, s, d) && m.slots[s].To? && Passed(m, g, k, h, s, len) && h.Handle?
      modifies this
      ensures Valid() && Walking(m, g, k, next, d) && Passed(m, g, k, h, next, len + 1)
              && Untouched(old(m), old(g), m, g, s) && next.Next?
      ensures ToGo(m, g, next) < old(ToGo(m, g, s))
      ensures var n := old(m.slots[s]).n;
              Next(n) in old(m).slots && m == Moved(Enclosed(old(m), s), Next(n), next) && next == Next(old(m).next)
    {
      ghost var m0, g0 := m, g;
      var n := m.slots[s].n;
      var x := Enclose(h, s, d, k, len);
      TakeTail(h, n, x, d, k, len + 1, m0, g0, s);
      next := Next(x);
    }

    method PassNode(ghost h: Slot, s: Slot, ghost d: Slot, ghost k: nat, ghost len: nat) returns (next: Slot)
      requires Valid() && Walking(m, g, k, s, d) && m.slots[s].To? && Passed(m, g, k, h, s, len) && h.Handle?
      requires m.slots[s].n in m.nodes && m.nodes[m.slots[s].n].refs == 1
      modifies this
      ensures Valid() && Walking(m, g, k, next, d) && Passed(m, g, k, h, next, len + 1)
              && Untouched(old(m), old(g), m, g, s) && next.Next?
      ensures ToGo(m, g, next) < old(ToGo(m, g, s)) && m == old(m) && next == Next(old(m.slots[s]).n)
    {
      ghost var n := m.slots[s].n;
      ghost var r := Rank(g.rank, n) + k;
      StepOver(m, g, k, s, d);
      RerankedFacts(g, n, r);
      PassedMore(m, g, k, h, s, len, m, Reranked(g, n, r), h);
      next := Next(m.slots[s].n);
      Lift(s, r);
    }

    ghost method Lift(s: Slot, r: nat)
      requires Valid() && s in m.slots && m.slots[s].To? && m.slots[s].n in m.nodes && m.nodes[m.slots[s].n].refs == 1
      requires Rank(g.rank, m.slots[s].n) <= r < g.top && Above(m, g, s, r)
      modifies `g
      ensures Valid() && g == Reranked(old(g), m.slots[s].n, r)
    {
      LiftOk(m, g, s, r);
      g := Reranked(g, m.slots[s].n, r);
    }

    /** The walk of append, which began in the state m0, has passed len nodes and is at slot s. */
    ghost predicate OnWalk(m0: Heap, g0: Ledger, h: Slot, s: Slot, d: Slot, k: nat, len: nat)
      reads this
    {
      && Walking(m, g, k, s, d) && Passed(m, g, k, h, s, len) && Untouched(m0, g0, m, g, h)
      && h.Handle? && (s.Next? || s == h)
    }

    method Pass(ghost h: Slot, s: Slot, ghost d: Slot, ghost k: nat, ghost len: nat) returns (next: Slot)
      requires Valid() && Walking(m, g, k, s, d) && m.slots[s] != Null && Passed(m, g, k, h, s, len) && h.Handle?
      modifies this
      ensures Valid() && Walking(m, g, k, next, d) && Passed(m, g, k, h, next, len + 1)
              && Untouched(old(m), old(g), m, g, s) && next.Next?
      ensures ToGo(m, g, next) < old(ToGo(m, g, s)) && Shifted(old(m), m, s, next)
    {
      if m.slots[s].Raw? {
        ObjectShifted(m, g, s);
        next := PassObject(h, s, d, k, len);
      } else if m.nodes[m.slots[s].n].refs != 1 {
        SharedShifted(m, g, s);
        next := PassShared(h, s, d, k, len);
      } else {
        NodeShifted(m, g, s);
        next := PassNode(h, s, d, k, len);
      }
    }

    /** Room between the ranks for the walk; k is above all of them. */
    ghost method MakeRoom(h: Slot, d: Slot) returns (k: nat)
      requires Valid() && h.Handle? && d.Handle? && h in m.slots && d in m.slots && h != d && m.slots[d] != Null
      modifies `g
      ensures Valid() && Walking(m, g, k, h, d) && g.place == old(g.place)
    {
      SpreadOk(m, g);
      k := 2 * g.top;
      g := Spread(m, g);
    }

    /** The walk is over. */
    method Attach(ghost h: Slot, s: Slot, d: Slot, ghost k: nat, ghost len: nat)
      requires Valid() && Walking(m, g, k, s, d) && m.slots[s] == Null && Passed(m, g, k, h, s, len) && h.Handle?
               && h != d
      modifies this
      ensures Valid() && Others(old(m), old(g), m, g, s, d)
      ensures Leads(m, h, s, len) && d in m.slots && m.slots[d] == Null && s in m.slots && m.slots[s] == old(m.slots[d])
    {
      AppendOk(m, g, k, s, d);
      PassedLeads(m, g, k, h, s, len, d);
      g := MovedLedger(m, g, d, s);
      m := Moved(m, d, s);
    }

    method Begin(h: Slot, ghost d: Slot, ghost k: nat) returns (s: Slot, ghost len: nat)
      requires Walking(m, g, k, h, d) && h.Handle?
      ensures s == h && OnWalk(m, g, h, s, d, k, len)
    {
      s, len := h, 0;
    }

    method PassOnWalk(ghost m0: Heap, ghost g0: Ledger, ghost h: Slot, s: Slot, ghost d: Slot, ghost k: nat,
          ghost len: nat)
      returns (next: Slot)
      requires Valid() && OnWalk(m0, g0, h, s, d, k, len) && m.slots[s] != Null
      modifies this
      ensures Valid() && OnWalk(m0, g0, h, next, d, k, len + 1) && ToGo(m, g, next) < old(ToGo(m, g, s))
      ensures Shifted(old(m), m, s, next)
    {
      ghost var m1, g1 := m, g;
      next := Pass(h, s, d, k, len);
      UntouchedLater(m0, g0, m1, g1, m, g, h, s);
    }

    /** What is on the walk, and that d is still in its place. */
    ghost predicate WalkOk(m0: Heap, g0: Ledger, h: Slot, s: Slot, d: Slot, k: nat, len: nat)
      reads this
    {
      && Valid() && OnWalk(m0, g0, h, s, d, k, len) && Ok(m0, g0) && d in m0.slots && m.slots[d] == m0.slots[d]
        && h != d
      && Mirrors(m0, g0, h, m0.slots[d], m, s)
    }

    method WalkOneStep(ghost m0: Heap, ghost g0: Ledger, ghost h: Slot, s: Slot, ghost d: Slot, ghost k: nat,
          ghost len: nat)
      returns (next: Slot)
      requires WalkOk(m0, g0, h, s, d, k, len) && m.slots[s] != Null && m.slots[s] != m.slots[d]
      modifies this
      ensures WalkOk(m0, g0, h, next, d, k, len + 1) && ToGo(m, g, next) < old(ToGo(m, g, s))
    {
      ghost var m1 := m;
      next := PassOnWalk(m0, g0, h, s, d, k, len);
      MirrorsStep(m0, g0, h, m0.slots[d], m1, s, m, next);
      UntouchedHandle(m0, g0, m, g, h, d);
    }

    /** The walk of append, to the end of the chain of h; a node on it that d refers to as well stops the program. */
    method Walk(h: Slot, d: Slot, ghost k: nat) returns (ok: bool, s: Slot, ghost len: nat)
      requires Valid() && Walking(m, g, k, h, d) && h.Handle?
      modifies this
      ensures Valid() && OnWalk(old(m), old(g), h, s, d, k, len) && (ok ==> m.slots[s] == Null)
      ensures ok <==> !Meets(old(m), h, old(m).slots[d])
    {
      MirrorsAtStart(m, g, h, m.slots[d]);
      s, len := Begin(h, d, k);
      while m.slots[s] != Null && m.slots[s] != m.slots[d]
        invariant WalkOk(old(m), old(g), h, s, d, k, len)
        decreases ToGo(m, g, s)
      {
        s := WalkOneStep(old(m), old(g), h, s, d, k, len);
        len := len + 1;
      }
      ok := m.slots[s] == Null;
      MirrorsEnd(old(m), old(g), h, old(m).slots[d], m, s);
    }

    method AppendSome(h: Slot, d: Slot) returns (ok: bool, s: Slot, ghost len: nat)
      requires Valid() && h.Handle? && d.Handle? && h in m.slots && d in m.slots && h != d && m.slots[d] != Null
      modifies this
      ensures Valid() && Others(old(m), old(g), m, g, h, d)
      ensures ok <==> !Meets(old(m), h, old(m).slots[d])
      ensures ok ==>
              d in m.slots && m.slots[d] == Null && Leads(m, h, s, len) && s in m.slots && m.slots[s] == old(m.slots[d])
    {
      ghost var k := MakeRoom(h, d);
      ghost var m0, g0 := m, g;
      ok, s, len := Walk(h, d, k);
      ghost var m1, g1 := m, g;
      assert d in m.slots && m.slots[d] == m0.slots[d];
      if ok {
        Attach(h, s, d, k, len);
      }
      WalkThenAttach(m0, g0, m1, g1, m, g, h, s, d);
    }

    /**
     * append(): d moves to the end of the chain of h, where shared nodes on the way are first replaced
     * by nodes of h's own. It stops the program exactly when d refers to a node of that chain.
     */
    method Append(h: Slot, d: Slot) returns (ok: bool, s: Slot, ghost len: nat)
      requires Valid() && h.Handle? && d.Handle? && h in m.slots && d in m.slots && h != d
      modifies this
      ensures Valid() && Others(old(m), old(g), m, g, h, d)
      ensures ok && old(m.slots[d]) != Null ==>
                d in m.slots && m.slots[d] == Null && Leads(m, h, s, len) && s in m.slots
                  && m.slots[s] == old(m.slots[d])
      ensures old(m.slots[d]) == Null ==> ok && m == old(m)
      ensures old(m.slots[d]) != Null ==> (ok <==> !Meets(old(m), h, old(m).slots[d]))
    {
      ok, s, len := true, h, 0;
      if m.slots[d] != Null {
        ok, s, len := AppendSome(h, d);
      }
    }
  }
}
