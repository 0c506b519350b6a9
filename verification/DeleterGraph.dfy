/**
 * Deleters (core/deleter.hh): handles that carry out an action when they are destroyed. Actions are
 * kept in reference-counted nodes that chain to other deleters, and the chains are rewritten in place
 * when deleters are shared and appended. Memory is a map from slots, the places a deleter value can
 * be in, to what it refers to.
 */
module DeleterGraph {
  /** A handle held by the user, the next field of a node, or the deleter a node holds as its object. */
  datatype Slot = Handle(h: nat) | Next(n: nat) | Held(n: nat)

  /** A deleter: nothing, an object to be freed (the tagged pointer), or a node. Actions are numbered. */
  datatype Ref = Null | Raw(action: nat) | To(n: nat)

  /** action is None for a node that only keeps another deleter, as append makes them. */
  datatype Node = Node(refs: nat, action: Action)
  datatype Action = Nothing | Act(id: nat)

  /** Where an action is. */
  datatype Place = InNode(n: nat) | InSlot(s: Slot) | Done

  type Slots = map<Slot, Ref>

  ghost function In(slots: Slots, n: nat): set<Slot> {
    set s | s in slots && slots[s] == To(n)
  }

  /** The references to n, counted. */
  ghost function Count(slots: Slots, n: nat): nat {
    |In(slots, n)|
  }

  function Hits(r: Ref, n: nat): nat {
    if r == To(n) then 1 else 0
  }

  lemma CountPut(slots: Slots, s: Slot, r: Ref, n: nat)
    ensures Count(slots[s := r], n) + (if s in slots then Hits(slots[s], n) else 0) == Count(slots, n) + Hits(r, n)
  {
    var a, b := In(slots, n), In(slots[s := r], n);
    var c := a - {s};
    assert forall t :: t in b - {s} <==> t in c;
    assert b - {s} == c;
    assert s in a <==> s in slots && slots[s] == To(n);
    assert s in b <==> r == To(n);
    assert |a| == |c| + if s in a then 1 else 0;
    assert |b| == |c| + if s in b then 1 else 0;
  }

  function Without(slots: Slots, s: Slot): Slots {
    map t | t in slots && t != s :: slots[t]
  }

  lemma CountWithout(slots: Slots, s: Slot, n: nat)
    requires s in slots
    ensures Count(Without(slots, s), n) + Hits(slots[s], n) == Count(slots, n)
  {
    var a, b := In(slots, n), In(Without(slots, s), n);
    assert forall t :: t in b <==> t in a - {s};
    assert b == a - {s};
    assert |a| == |b| + if s in a then 1 else 0;
  }

  datatype Heap = Heap(slots: Slots, nodes: map<nat, Node>, ran: seq<nat>, next: nat)

  /** For the proof: a rank of each node that decreases along references, and the place of each action. */
  datatype Ledger = Ledger(rank: map<nat, nat>, top: nat, place: map<nat, Place>)

  /** Every node is referred to as often as it counts, and every reference leads to a node. */
  ghost predicate Counted(m: Heap) {
    && (forall n {:trigger Count(m.slots, n)} :: n in m.nodes ==> m.nodes[n].refs == Count(m.slots, n))
    && (forall n {:trigger m.nodes[n].refs} :: n in m.nodes ==> m.nodes[n].refs > 0)
    && (forall s {:trigger m.slots[s]} :: s in m.slots && m.slots[s].To? ==> m.slots[s].n in m.nodes)
    && (forall n {:trigger Next(n)} :: n in m.nodes ==> Next(n) in m.slots)
    && (forall n {:trigger Held(n)} :: n in m.nodes ==> Held(n) in m.slots)
  }

  ghost function Rank(rank: map<nat, nat>, n: nat): nat {
    if n in rank then rank[n] else 0
  }

  ghost predicate Below(slots: Slots, rank: map<nat, nat>, s: Slot, r: nat) {
    s in slots && slots[s].To? ==> Rank(rank, slots[s].n) < r
  }

  /** References lead down. */
  ghost predicate Ranked(m: Heap, g: Ledger) {
    && (forall n {:trigger Next(n)} :: n in m.nodes ==> Below(m.slots, g.rank, Next(n), Rank(g.rank, n)))
    && (forall n {:trigger Held(n)} :: n in m.nodes ==> Below(m.slots, g.rank, Held(n), Rank(g.rank, n)))
    && g.top > 0 && forall n {:trigger Rank(g.rank, n)} :: Rank(g.rank, n) < g.top
  }

  /** Every action is in one place: in a node, in a slot, or carried out, once. */
  ghost predicate Placed(m: Heap, g: Ledger) {
    && (forall n {:trigger m.nodes[n]} :: n in m.nodes && m.nodes[n].action.Act? ==>
          m.nodes[n].action.id in g.place && g.place[m.nodes[n].action.id] == InNode(n))
    && (forall s {:trigger m.slots[s]} :: s in m.slots && m.slots[s].Raw? ==>
      m.slots[s].action in g.place && g.place[m.slots[s].action] == InSlot(s))
    && (forall i :: 0 <= i < |m.ran| ==> m.ran[i] in g.place && g.place[m.ran[i]] == Done)
    && (forall i, j :: 0 <= i < j < |m.ran| ==> m.ran[i] != m.ran[j])
    && (forall a {:trigger g.place[a]} :: a in g.place ==>
          match g.place[a]
          case InNode(n) => n in m.nodes && m.nodes[n].action == Act(a)
          case InSlot(s) => s in m.slots && m.slots[s] == Raw(a)
          case Done => a in m.ran)
  }

  /** Numbers from next on are unused. */
  ghost predicate Fresh(m: Heap, g: Ledger) {
    && (forall n {:trigger n in m.nodes} :: n in m.nodes ==> n < m.next)
    && (forall s {:trigger s in m.slots} :: s in m.slots ==>
          match s case Handle(h) => h < m.next case Next(n) => n < m.next case Held(n) => n < m.next)
    && (forall a {:trigger a in g.place} :: a in g.place ==> a < m.next)
  }

  ghost predicate Ok(m: Heap, g: Ledger) {
    Counted(m) && Ranked(m, g) && Placed(m, g) && Fresh(m, g)
  }

  /** The places after the deleter r moved to slot s. */
  function Relocated(place: map<nat, Place>, r: Ref, s: Slot): map<nat, Place> {
    if r.Raw? then place[r.action := InSlot(s)] else place
  }

  // ---- making deleters ----

  /** A new handle with a deleter that is not a node. */
  function WithHandle(m: Heap, r: Ref): Heap {
    m.(slots := m.slots[Handle(m.next) := r], next := m.next + 1)
  }

  lemma WithHandleOk(m: Heap, g: Ledger, r: Ref)
    requires Ok(m, g) && (r == Null || r == Raw(m.next))
    ensures Ok(WithHandle(m, r), if r.Raw? then g.(place := g.place[m.next := InSlot(Handle(m.next))]) else g)
  {
    WithHandleCounted(m, g, r);
    WithHandlePlaced(m, g, r);
  }

  lemma WithHandleCounted(m: Heap, g: Ledger, r: Ref)
    requires Ok(m, g) && !r.To?
    ensures Counted(WithHandle(m, r))
  {
    forall n ensures Count(WithHandle(m, r).slots, n) == Count(m.slots, n) {
      CountPut(m.slots, Handle(m.next), r, n);
    }
  }

  lemma WithHandlePlaced(m: Heap, g: Ledger, r: Ref)
    requires Ok(m, g) && (r == Null || r == Raw(m.next))
    ensures Placed(WithHandle(m, r), if r.Raw? then g.(place := g.place[m.next := InSlot(Handle(m.next))]) else g)
  {
  }

  /** The slots of a new node n, behind which the deleter src moves, with h the handle for it. */
  function WithNode(slots: Slots, src: Slot, n: nat, h: Slot): Slots
    requires src in slots
  {
    slots[src := Null][Next(n) := slots[src]][Held(n) := Null][h := To(n)]
  }

  /** make_deleter: node m.next, handle m.next + 1, action m.next + 2. */
  function WithDeleter(m: Heap, src: Slot): Heap
    requires src in m.slots
  {
    m.(slots := WithNode(m.slots, src, m.next, Handle(m.next + 1)), nodes :=
      m.nodes[m.next := Node(1, Act(m.next + 2))],
       next := m.next + 3)
  }

  ghost function DeleterLedger(m: Heap, g: Ledger, src: Slot): Ledger
    requires src in m.slots
  {
    Ledger(g.rank[m.next := g.top], g.top
      + 1, Relocated(g.place, m.slots[src], Next(m.next))[m.next + 2 := InNode(m.next)])
  }

  lemma MoveCounts(slots: Slots, s: Slot, t: Slot, n: nat)
    requires s in slots && s != t && (t in slots ==> slots[t] == Null)
    ensures Count(slots[s := Null][t := slots[s]], n) == Count(slots, n)
  {
    CountPut(slots, s, Null, n);
    CountPut(slots[s := Null], t, slots[s], n);
  }

  lemma NoReferences(m: Heap, n: nat)
    requires Counted(m) && n !in m.nodes
    ensures Count(m.slots, n) == 0
  {
    assert forall s :: s !in In(m.slots, n);
  }

  lemma WithDeleterCounted(m: Heap, g: Ledger, src: Slot)
    requires Ok(m, g) && src in m.slots
    ensures Counted(WithDeleter(m, src))
  {
    var n, h := m.next, Handle(m.next + 1);
    var a := m.slots[src := Null][Next(n) := m.slots[src]];
    var b := a[Held(n) := Null];
    forall k ensures Count(b[h := To(n)], k) == Count(m.slots, k) + Hits(To(n), k) {
      MoveCounts(m.slots, src, Next(n), k);
      CountPut(a, Held(n), Null, k);
      CountPut(b, h, To(n), k);
    }
    NoReferences(m, n);
    var m2 := WithDeleter(m, src);
    forall k | k in m2.nodes ensures m2.nodes[k].refs == Count(m2.slots, k) {
      assert Count(m2.slots, k) == Count(m.slots, k) + Hits(To(n), k);
    }
  }

  lemma WithDeleterPlaced(m: Heap, g: Ledger, src: Slot)
    requires Ok(m, g) && src in m.slots
    ensures Placed(WithDeleter(m, src), DeleterLedger(m, g, src))
  {
  }

  lemma WithDeleterRanked(m: Heap, g: Ledger, src: Slot)
    requires Ok(m, g) && src in m.slots && src.Handle?
    ensures Ranked(WithDeleter(m, src), DeleterLedger(m, g, src))
  {
    var h := DeleterLedger(m, g, src);
    assert forall n :: n != m.next ==> Rank(h.rank, n) == Rank(g.rank, n);
  }

  lemma WithDeleterFresh(m: Heap, g: Ledger, src: Slot)
    requires Ok(m, g) && src in m.slots
    ensures Fresh(WithDeleter(m, src), DeleterLedger(m, g, src))
  {
  }

  lemma WithDeleterOk(m: Heap, g: Ledger, src: Slot)
    requires Ok(m, g) && src in m.slots && src.Handle?
    ensures Ok(WithDeleter(m, src), DeleterLedger(m, g, src))
  {
    WithDeleterCounted(m, g, src);
    WithDeleterRanked(m, g, src);
    WithDeleterPlaced(m, g, src);
    WithDeleterFresh(m, g, src);
  }

  // ---- moving and sharing ----

  /** The deleter in s moves to t. */
  function Moved(m: Heap, s: Slot, t: Slot): Heap
    requires s in m.slots
  {
    m.(slots := m.slots[s := Null][t := m.slots[s]])
  }

  ghost function MovedLedger(m: Heap, g: Ledger, s: Slot, t: Slot): Ledger
    requires s in m.slots
  {
    g.(place := Relocated(g.place, m.slots[s], t))
  }

  /** A slot a reference to n may go to: not in a node, or in one of higher rank. */
  ghost predicate Above(m: Heap, g: Ledger, t: Slot, r: nat) {
    !t.Handle? && t.n in m.nodes ==> r < Rank(g.rank, t.n)
  }

  lemma MovedOk(m: Heap, g: Ledger, s: Slot, t: Slot)
    requires Ok(m, g) && s in m.slots && s != t && (t in m.slots ==> m.slots[t] == Null)
    requires m.slots[s].To? ==> Above(m, g, t, Rank(g.rank, m.slots[s].n))
    requires match t case Handle(h) => h < m.next case Next(n) => n < m.next case Held(n) => n < m.next
    ensures Ok(Moved(m, s, t), MovedLedger(m, g, s, t))
  {
    forall n ensures Count(Moved(m, s, t).slots, n) == Count(m.slots, n) {
      MoveCounts(m.slots, s, t, n);
    }
    MovedPlaced(m, g, s, t);
    MovedRanked(m, g, s, t);
  }

  lemma MovedPlaced(m: Heap, g: Ledger, s: Slot, t: Slot)
    requires Ok(m, g) && s in m.slots && s != t && (t in m.slots ==> m.slots[t] == Null)
    ensures Placed(Moved(m, s, t), MovedLedger(m, g, s, t))
  {
  }

  lemma MovedRanked(m: Heap, g: Ledger, s: Slot, t: Slot)
    requires Ok(m, g) && s in m.slots && s != t
    requires m.slots[s].To? ==> Above(m, g, t, Rank(g.rank, m.slots[s].n))
    ensures Ranked(Moved(m, s, t), MovedLedger(m, g, s, t))
  {
  }

  /** The object in slot s gets a node of its own, m.next. */
  function Materialized(m: Heap, s: Slot): Heap
    requires s in m.slots && m.slots[s].Raw?
  {
    m.(slots := m.slots[s := To(m.next)][Next(m.next) := Null][Held(m.next) := Null],
       nodes := m.nodes[m.next := Node(1, Act(m.slots[s].action))], next := m.next + 1)
  }

  ghost function MaterializedLedger(m: Heap, g: Ledger, s: Slot, r: nat): Ledger
    requires s in m.slots && m.slots[s].Raw?
  {
    g.(place := g.place[m.slots[s].action := InNode(m.next)], rank := g.rank[m.next := r])
  }

  lemma MaterializedCounted(m: Heap, g: Ledger, s: Slot)
    requires Ok(m, g) && s in m.slots && m.slots[s].Raw?
    ensures Counted(Materialized(m, s))
  {
    var n := m.next;
    var a := m.slots[s := To(n)];
    var b := a[Next(n) := Null];
    forall k ensures Count(b[Held(n) := Null], k) == Count(m.slots, k) + Hits(To(n), k) {
      CountPut(m.slots, s, To(n), k);
      CountPut(a, Next(n), Null, k);
      CountPut(b, Held(n), Null, k);
    }
    NoReferences(m, n);
    var m2 := Materialized(m, s);
    forall k | k in m2.nodes ensures m2.nodes[k].refs == Count(m2.slots, k) {
      assert Count(m2.slots, k) == Count(m.slots, k) + Hits(To(n), k);
    }
  }

  lemma MaterializedRanked(m: Heap, g: Ledger, s: Slot, r: nat)
    requires Ok(m, g) && s in m.slots && m.slots[s].Raw? && r < g.top && Above(m, g, s, r)
    ensures Ranked(Materialized(m, s), MaterializedLedger(m, g, s, r))
  {
    var h := MaterializedLedger(m, g, s, r);
    assert forall n {:trigger Rank(h.rank, n)} :: Rank(h.rank, n) == if n == m.next then r else Rank(g.rank, n);
  }

  lemma MaterializedPlaced(m: Heap, g: Ledger, s: Slot, r: nat)
    requires Ok(m, g) && s in m.slots && m.slots[s].Raw?
    ensures Placed(Materialized(m, s), MaterializedLedger(m, g, s, r))
            && Fresh(Materialized(m, s), MaterializedLedger(m, g, s, r))
  {
  }

  lemma MaterializedOk(m: Heap, g: Ledger, s: Slot, r: nat)
    requires Ok(m, g) && s in m.slots && m.slots[s].Raw? && r < g.top && Above(m, g, s, r)
    ensures Ok(Materialized(m, s), MaterializedLedger(m, g, s, r))
  {
    MaterializedCounted(m, g, s);
    MaterializedRanked(m, g, s, r);
    MaterializedPlaced(m, g, s, r);
  }

  /** One more handle for node n. */
  function Referenced(m: Heap, n: nat): Heap
    requires n in m.nodes
  {
    m.(slots := m.slots[Handle(m.next) := To(n)], nodes :=
      m.nodes[n := m.nodes[n].(refs := m.nodes[n].refs + 1)], next := m.next + 1)
  }

  lemma ReferencedOk(m: Heap, g: Ledger, n: nat)
    requires Ok(m, g) && n in m.nodes
    ensures Ok(Referenced(m, n), g)
  {
    forall k ensures Count(Referenced(m, n).slots, k) == Count(m.slots, k) + Hits(To(n), k) {
      CountPut(m.slots, Handle(m.next), To(n), k);
    }
    ReferencedPlaced(m, g, n);
  }

  lemma ReferencedPlaced(m: Heap, g: Ledger, n: nat)
    requires Ok(m, g) && n in m.nodes
    ensures Ranked(Referenced(m, n), g) && Placed(Referenced(m, n), g)
  {
  }

  // ---- destroying ----

  /** Slot s goes away with an object, which is freed. */
  function Freed(m: Heap, s: Slot): Heap
    requires s in m.slots && m.slots[s].Raw?
  {
    m.(slots := Without(m.slots, s), ran := m.ran + [m.slots[s].action])
  }

  lemma FreedOk(m: Heap, g: Ledger, s: Slot)
    requires Ok(m, g) && s in m.slots && m.slots[s].Raw? && Outside(m, s)
    ensures Ok(Freed(m, s), g.(place := g.place[m.slots[s].action := Done]))
  {
    WithoutCounted(m, g, s);
    FreedPlaced(m, g, s);
  }

  lemma FreedPlaced(m: Heap, g: Ledger, s: Slot)
    requires Ok(m, g) && s in m.slots && m.slots[s].Raw?
    ensures Placed(Freed(m, s), g.(place := g.place[m.slots[s].action := Done]))
  {
    var ran := m.ran + [m.slots[s].action];
    assert m.slots[s].action !in m.ran;
    assert forall a :: a in ran <==> a in m.ran || a == m.slots[s].action;
  }

  /** Is s a handle of the user, or a field of a node that is going away? */
  ghost predicate Outside(m: Heap, s: Slot) {
    s.Handle? || s.n !in m.nodes
  }

  lemma WithoutCounted(m: Heap, g: Ledger, s: Slot)
    requires Ok(m, g) && s in m.slots && !m.slots[s].To? && Outside(m, s)
    ensures Counted(m.(slots := Without(m.slots, s)))
  {
    forall n ensures Count(Without(m.slots, s), n) == Count(m.slots, n) {
      CountWithout(m.slots, s, n);
    }
  }

  /** Slot s goes away, and with it a reference that is not the last one to its node. */
  function Released(m: Heap, s: Slot): Heap
    requires s in m.slots && m.slots[s].To? && m.slots[s].n in m.nodes && m.nodes[m.slots[s].n].refs > 1
  {
    var n := m.slots[s].n;
    m.(slots := Without(m.slots, s), nodes := m.nodes[n := m.nodes[n].(refs := m.nodes[n].refs - 1)])
  }

  lemma ReleasedOk(m: Heap, g: Ledger, s: Slot)
    requires Ok(m, g) && s in m.slots && m.slots[s].To? && m.slots[s].n in m.nodes && m.nodes[m.slots[s].n].refs > 1
             && Outside(m, s)
    ensures Ok(Released(m, s), g)
  {
    forall n ensures Count(Without(m.slots, s), n) + Hits(m.slots[s], n) == Count(m.slots, n) {
      CountWithout(m.slots, s, n);
    }
    ReleasedPlaced(m, g, s);
  }

  lemma ReleasedPlaced(m: Heap, g: Ledger, s: Slot)
    requires Ok(m, g) && s in m.slots && m.slots[s].To? && m.slots[s].n in m.nodes && m.nodes[m.slots[s].n].refs > 1
    ensures Ranked(Released(m, s), g) && Placed(Released(m, s), g)
  {
  }

  function NodesWithout(nodes: map<nat, Node>, n: nat): map<nat, Node> {
    map k | k in nodes && k != n :: nodes[k]
  }

  /**
   * Slot s goes away with the last reference to its node: the action is carried out; what the node
   * kept is still to be destroyed.
   */
  function Deleted(m: Heap, s: Slot): Heap
    requires s in m.slots && m.slots[s].To? && m.slots[s].n in m.nodes
  {
    var n := m.slots[s].n;
    m.(slots := Without(m.slots, s), nodes := NodesWithout(m.nodes, n),
       ran := if m.nodes[n].action.Act? then m.ran + [m.nodes[n].action.id] else m.ran)
  }

  ghost function DeletedLedger(m: Heap, g: Ledger, s: Slot): Ledger
    requires s in m.slots && m.slots[s].To? && m.slots[s].n in m.nodes
  {
    var n := m.slots[s].n;
    if m.nodes[n].action.Act? then g.(place := g.place[m.nodes[n].action.id := Done]) else g
  }

  lemma DeletedCounted(m: Heap, g: Ledger, s: Slot)
    requires Ok(m, g) && s in m.slots && m.slots[s].To? && m.slots[s].n in m.nodes && m.nodes[m.slots[s].n].refs == 1
             && Outside(m, s)
    ensures Counted(Deleted(m, s))
  {
    forall n ensures Count(Without(m.slots, s), n) + Hits(m.slots[s], n) == Count(m.slots, n) {
      CountWithout(m.slots, s, n);
    }
    var n, slots := m.slots[s].n, Without(m.slots, s);
    assert Count(slots, n) == 0;
    forall t | t in slots && slots[t].To? ensures slots[t].n != n {
      assert t in In(slots, slots[t].n);
    }
  }

  lemma DeletedPlaced(m: Heap, g: Ledger, s: Slot)
    requires Ok(m, g) && s in m.slots && m.slots[s].To? && m.slots[s].n in m.nodes
    ensures Placed(Deleted(m, s), DeletedLedger(m, g, s))
  {
    var n := m.slots[s].n;
    if m.nodes[n].action.Act? {
      var a := m.nodes[n].action.id;
      assert a !in m.ran;
      assert forall b :: b in m.ran + [a] <==> b in m.ran || b == a;
    }
  }

  lemma DeletedOk(m: Heap, g: Ledger, s: Slot)
    requires Ok(m, g) && s in m.slots && m.slots[s].To? && m.slots[s].n in m.nodes && m.nodes[m.slots[s].n].refs == 1
             && Outside(m, s)
    ensures Ok(Deleted(m, s), DeletedLedger(m, g, s))
  {
    DeletedCounted(m, g, s);
    DeletedPlaced(m, g, s);
  }

  /** What is as it was after slot s was destroyed. */
  ghost predicate Outlived(m: Heap, g: Ledger, n: Heap, h: Ledger, s: Slot) {
    && h.rank == g.rank && n.next == m.next
    && (forall t {:trigger t in n.slots} :: t in n.slots ==> t in m.slots && (Outside(n, t) ==> Outside(m, t)))
    && (forall t {:trigger t in m.slots} :: t in m.slots && t != s && Outside(m, t) ==>
      t in n.slots && n.slots[t] == m.slots[t])
    && (forall k {:trigger k in n.nodes} :: k in n.nodes ==> k in m.nodes && n.nodes[k].action == m.nodes[k].action)
    && m.ran <= n.ran
    && (forall a {:trigger a in h.place} {:trigger a in g.place} :: a in h.place <==> a in g.place)
  }

  /** After the last reference to a node went: what the node kept is outside now, and still there. */
  ghost predicate Unmade(m: Heap, g: Ledger, n: Heap, h: Ledger, s: Slot)
    requires s in m.slots && m.slots[s].To? && m.slots[s].n in m.nodes
  {
    var k := m.slots[s].n;
    && n == Deleted(m, s) && s !in n.slots && k !in n.nodes && h.rank == g.rank
    && Held(k) in n.slots && n.slots[Held(k)] == m.slots[Held(k)]
    && Next(k) in n.slots && n.slots[Next(k)] == m.slots[Next(k)]
    && (forall a {:trigger a in h.place} {:trigger a in g.place} :: a in h.place <==> a in g.place)
  }

  lemma KeptBelow(m: Heap, g: Ledger, n: nat)
    requires Ok(m, g) && n in m.nodes
    ensures Held(n) in m.slots && (m.slots[Held(n)].To? ==> Rank(g.rank, m.slots[Held(n)].n) < Rank(g.rank, n))
    ensures Next(n) in m.slots && (m.slots[Next(n)].To? ==> Rank(g.rank, m.slots[Next(n)].n) < Rank(g.rank, n))
  {
  }

  lemma DestroyedBoth(m: Heap, g: Ledger, m1: Heap, g1: Ledger, m2: Heap, g2: Ledger, m3: Heap, g3: Ledger, s: Slot,
        n: nat)
    requires s in m.slots && m.slots[s] == To(n) && n in m.nodes && Outside(m, s)
    requires Unmade(m, g, m1, g1, s) && Outlived(m1, g1, m2, g2, Held(n)) && Held(n) !in m2.slots
    requires Outlived(m2, g2, m3, g3, Next(n)) && Next(n) !in m3.slots
    ensures Outlived(m, g, m3, g3, s) && s !in m3.slots
  {
    forall t | t in m.slots && t != s && Outside(m, t) ensures t in m3.slots && m3.slots[t] == m.slots[t] {
      assert t in m1.slots && Outside(m1, t) && t != Held(n) && t != Next(n);
      assert forall k :: k in m2.nodes ==> k in m1.nodes;
      assert t in m2.slots && Outside(m2, t);
    }
  }

  // ---- appending ----

  /** The reference in slot s moves into a new node, m.next, that takes its place. */
  function Enclosed(m: Heap, s: Slot): Heap
    requires s in m.slots && m.slots[s].To?
  {
    m.(slots := m.slots[s := To(m.next)][Held(m.next) := m.slots[s]][Next(m.next) := Null],
       nodes := m.nodes[m.next := Node(1, Nothing)], next := m.next + 1)
  }

  lemma EnclosedCounted(m: Heap, g: Ledger, s: Slot)
    requires Ok(m, g) && s in m.slots && m.slots[s].To?
    ensures Counted(Enclosed(m, s))
  {
    var n := m.next;
    var a := m.slots[s := To(n)];
    var b := a[Held(n) := m.slots[s]];
    forall k ensures Count(b[Next(n) := Null], k) == Count(m.slots, k) + Hits(To(n), k) {
      CountPut(m.slots, s, To(n), k);
      CountPut(a, Held(n), m.slots[s], k);
      CountPut(b, Next(n), Null, k);
    }
    NoReferences(m, n);
    var m2 := Enclosed(m, s);
    forall k | k in m2.nodes ensures m2.nodes[k].refs == Count(m2.slots, k) {
      assert Count(m2.slots, k) == Count(m.slots, k) + Hits(To(n), k);
    }
  }

  ghost function Reranked(g: Ledger, n: nat, r: nat): Ledger {
    g.(rank := g.rank[n := r])
  }

  lemma RerankedFacts(g: Ledger, n: nat, r: nat)
    ensures forall k {:trigger Rank(Reranked(g, n, r).rank, k)} :: Rank(Reranked(g, n, r).rank, k) == if k == n then r
            else Rank(g.rank, k)
  {
  }

  lemma EnclosedRanked(m: Heap, g: Ledger, s: Slot, r: nat)
    requires Ok(m, g) && s in m.slots && m.slots[s].To? && Rank(g.rank, m.slots[s].n) < r < g.top && Above(m, g, s, r)
    ensures Ranked(Enclosed(m, s), Reranked(g, m.next, r))
  {
    RerankedFacts(g, m.next, r);
  }

  lemma EnclosedPlaced(m: Heap, g: Ledger, s: Slot, r: nat)
    requires Ok(m, g) && s in m.slots && m.slots[s].To?
    ensures Placed(Enclosed(m, s), Reranked(g, m.next, r)) && Fresh(Enclosed(m, s), Reranked(g, m.next, r))
  {
  }

  lemma EnclosedOk(m: Heap, g: Ledger, s: Slot, r: nat)
    requires Ok(m, g) && s in m.slots && m.slots[s].To? && Rank(g.rank, m.slots[s].n) < r < g.top && Above(m, g, s, r)
    ensures Ok(Enclosed(m, s), Reranked(g, m.next, r))
  {
    EnclosedCounted(m, g, s);
    EnclosedRanked(m, g, s, r);
    EnclosedPlaced(m, g, s, r);
  }

  /** A node with one reference can be ranked higher, below the owner of that reference. */
  lemma LiftOk(m: Heap, g: Ledger, s: Slot, r: nat)
    requires Ok(m, g) && s in m.slots && m.slots[s].To? && m.slots[s].n in m.nodes && m.nodes[m.slots[s].n].refs == 1
    requires Rank(g.rank, m.slots[s].n) <= r < g.top && Above(m, g, s, r)
    ensures Ok(m, Reranked(g, m.slots[s].n, r))
  {
    var n := m.slots[s].n;
    RerankedFacts(g, n, r);
    forall t | t in m.slots && m.slots[t] == To(n) ensures t == s {
      OnlyReference(m, s, t, n);
    }
  }

  lemma OnlyReference(m: Heap, s: Slot, t: Slot, n: nat)
    requires Count(m.slots, n) == 1 && s in m.slots && t in m.slots && m.slots[s] == To(n) == m.slots[t]
    ensures s == t
  {
    var a := In(m.slots, n);
    assert s in a && t in a;
    assert |a - {s}| == 0;
    assert t !in a - {s};
  }

  /** Room between the ranks, and above them. */
  ghost function Spread(m: Heap, g: Ledger): Ledger {
    g.(rank := map n | n in m.nodes :: 2 * Rank(g.rank, n) + 1, top := 4 * g.top + 2)
  }

  lemma SpreadOk(m: Heap, g: Ledger)
    requires Ok(m, g)
    ensures Ok(m, Spread(m, g)) && forall n :: n in m.nodes ==> 1 <= Rank(Spread(m, g).rank, n) < 2 * g.top
  {
    assert forall n :: n in m.nodes ==> Rank(Spread(m, g).rank, n) == 2 * Rank(g.rank, n) + 1;
  }

  lemma NotItsOwnNext(m: Heap, g: Ledger, s: Slot)
    requires Ok(m, g) && s in m.slots && m.slots[s].To?
    ensures m.slots[s].n in m.nodes && Next(m.slots[s].n) in m.slots && Next(m.slots[s].n) != s
  {
    KeptBelow(m, g, m.slots[s].n);
  }

  /** How far the walk of append has still to go from slot s. */
  ghost function ToGo(m: Heap, g: Ledger, s: Slot): nat
    requires s in m.slots
  {
    match m.slots[s]
    case Null => 0
    case Raw(_) => 1
    case To(n) => Rank(g.rank, n) + 2
  }

  /** The owner of slot s has to be ranked above this. */
  ghost function Room(m: Heap, g: Ledger, k: nat, s: Slot): nat
    requires s in m.slots && k > 0
  {
    match m.slots[s]
    case Null => k - 1
    case Raw(_) => k
    case To(n) => Rank(g.rank, n) + k
  }

  /**
   * The walk of append is at slot s, with d the deleter to be appended: nodes it passed have ranks from
   * k on, all others lower ones.
   */
  ghost predicate Walking(m: Heap, g: Ledger, k: nat, s: Slot, d: Slot) {
    && s in m.slots && d in m.slots && d.Handle? && s != d && m.slots[d] != Null
    && (forall n {:trigger Rank(g.rank, n)} :: n in m.nodes ==> Rank(g.rank, n) >= 1)
    && (m.slots[d].To? ==> Rank(g.rank, m.slots[d].n) < k)
    && (m.slots[s].To? ==> Rank(g.rank, m.slots[s].n) < k)
    && k > 0 && g.top >= 2 * k && Above(m, g, s, Room(m, g, k, s))
  }

  /** The walk is over, and the deleter moves into the slot it ended at. */
  lemma AppendOk(m: Heap, g: Ledger, k: nat, s: Slot, d: Slot)
    requires Ok(m, g) && Walking(m, g, k, s, d) && m.slots[s] == Null
    ensures Ok(Moved(m, d, s), MovedLedger(m, g, d, s))
  {
    MovedOk(m, g, d, s);
  }

  /** A step over a node that nothing else refers to. */
  lemma StepOver(m: Heap, g: Ledger, k: nat, s: Slot, d: Slot)
    requires Ok(m, g) && Walking(m, g, k, s, d) && m.slots[s].To? && m.slots[s].n in m.nodes
             && m.nodes[m.slots[s].n].refs == 1
    ensures var n := m.slots[s].n;
            var h := Reranked(g, n, Rank(g.rank, n) + k);
            Walking(m, h, k, Next(n), d) && ToGo(m, h, Next(n)) < ToGo(m, g, s)
  {
    var n := m.slots[s].n;
    RerankedFacts(g, n, Rank(g.rank, n) + k);
    KeptBelow(m, g, n);
    if m.slots[d] == To(n) {
      OnlyReference(m, s, d, n);
    }
    if m.slots[Next(n)] == To(n) {
      OnlyReference(m, s, Next(n), n);
    }
  }

  /** An object in the way gets a node, and the walk goes on behind it. */
  lemma StepOverObject(m: Heap, g: Ledger, k: nat, s: Slot, d: Slot)
    requires Ok(m, g) && Walking(m, g, k, s, d) && m.slots[s].Raw?
    ensures var h := MaterializedLedger(m, g, s, k);
            Walking(Materialized(m, s), h, k, Next(m.next), d) && ToGo(Materialized(m, s), h, Next(m.next)) == 0
  {
    var h := MaterializedLedger(m, g, s, k);
    assert forall n {:trigger Rank(h.rank, n)} :: Rank(h.rank, n) == if n == m.next then k else Rank(g.rank, n);
  }

  /** A shared node n in the way is kept by a new node, and the walk goes on behind that. */
  lemma StepOverShared(m: Heap, g: Ledger, k: nat, s: Slot, d: Slot)
    requires Ok(m, g) && Walking(m, g, k, s, d) && m.slots[s].To?
    ensures var h := Reranked(g, m.next, Rank(g.rank, m.slots[s].n) + k);
            Walking(Enclosed(m, s), h, k, Next(m.next), d) && Enclosed(m, s).slots[Next(m.next)] == Null
  {
    RerankedFacts(g, m.next, Rank(g.rank, m.slots[s].n) + k);
  }

  /** What was behind node n moves behind node x, where the walk is. */
  lemma TailMoves(m: Heap, g: Ledger, k: nat, n: nat, x: nat, d: Slot)
    requires Ok(m, g) && Walking(m, g, k, Next(x), d) && m.slots[Next(x)] == Null && n in m.nodes && x in m.nodes
             && n != x
    requires Rank(g.rank, n) < k && Rank(g.rank, x) == Rank(g.rank, n) + k
    ensures Next(n) in m.slots
    ensures var m2, h := Moved(m, Next(n), Next(x)), MovedLedger(m, g, Next(n), Next(x));
            Walking(m2, h, k, Next(x), d) && ToGo(m2, h, Next(x)) < Rank(g.rank, n) + 2
  {
    KeptBelow(m, g, n);
  }

  lemma TailMovesOk(m: Heap, g: Ledger, k: nat, n: nat, x: nat)
    requires Ok(m, g) && Next(x) in m.slots && m.slots[Next(x)] == Null && n in m.nodes && x in m.nodes && n != x
    requires Rank(g.rank, x) == Rank(g.rank, n) + k
    ensures Next(n) in m.slots && Ok(Moved(m, Next(n), Next(x)), MovedLedger(m, g, Next(n), Next(x)))
  {
    KeptBelow(m, g, n);
    MovedOk(m, g, Next(n), Next(x));
  }

  /** From slot h, the next fields of len nodes lead to slot s. */
  ghost predicate Leads(m: Heap, h: Slot, s: Slot, len: nat)
    decreases len
  {
    if len == 0 then h == s
    else h in m.slots && m.slots[h].To? && m.slots[h].n in m.nodes && Leads(m, Next(m.slots[h].n), s, len - 1)
  }

  /** The same for nodes the walk passed, without visiting s before the end. */
  ghost predicate Passed(m: Heap, g: Ledger, k: nat, h: Slot, s: Slot, len: nat)
    decreases len
  {
    if len == 0 then h == s
    else h != s && h in m.slots && m.slots[h].To? && m.slots[h].n in m.nodes && Rank(g.rank, m.slots[h].n) >= k
         && Passed(m, g, k, Next(m.slots[h].n), s, len - 1)
  }

  /** What a step of the walk at slot s keeps of the path: slots of nodes it passed, and those nodes. */
  ghost predicate PathKept(m: Heap, g: Ledger, k: nat, s: Slot, m2: Heap, g2: Ledger, h: Slot) {
    && (forall t {:trigger t in m2.slots} ::
          t in m.slots && t != s && (t == h || (t.Next? && t.n in m.nodes && Rank(g.rank, t.n) >= k)) ==>
            t in m2.slots && m2.slots[t] == m.slots[t])
    && (forall n {:trigger n in m2.nodes} :: n in m.nodes && Rank(g.rank, n) >= k ==>
      n in m2.nodes && Rank(g2.rank, n) >= k)
  }

  lemma {:induction false} PassedMore(m: Heap, g: Ledger, k: nat, h: Slot, s: Slot, len: nat, m2: Heap, g2: Ledger,
        h0: Slot)
    requires Passed(m, g, k, h, s, len) && PathKept(m, g, k, s, m2, g2, h0)
    requires h == h0 || (h.Next? && h.n in m.nodes && Rank(g.rank, h.n) >= k)
    requires s in m2.slots && m2.slots[s].To? && m2.slots[s].n in m2.nodes && Rank(g2.rank, m2.slots[s].n) >= k
    requires h0.Handle? && (m2.slots[s].n in m.nodes ==> Rank(g.rank, m2.slots[s].n) < k)
    ensures Passed(m2, g2, k, h, Next(m2.slots[s].n), len + 1)
    decreases len
  {
    if len == 0 {
      assert Passed(m2, g2, k, Next(m2.slots[s].n), Next(m2.slots[s].n), 0);
    } else {
      assert h in m2.slots;
      PassedMore(m, g, k, Next(m.slots[h].n), s, len - 1, m2, g2, h0);
    }
  }

  lemma {:induction false} PassedLeads(m: Heap, g: Ledger, k: nat, h: Slot, s: Slot, len: nat, d: Slot)
    requires Passed(m, g, k, h, s, len) && d in m.slots && d.Handle? && h != d
    ensures Leads(Moved(m, d, s), h, s, len)
    decreases len
  {
    if len > 0 {
      PassedLeads(m, g, k, Next(m.slots[h].n), s, len - 1, d);
    }
  }

  /** What a step of append at slot s leaves alone: every other handle, every node, every action. */
  ghost predicate Untouched(m0: Heap, g0: Ledger, m: Heap, g: Ledger, s: Slot) {
    && (forall t {:trigger t in m.slots} :: t in m0.slots && t.Handle? && t != s ==>
      t in m.slots && m.slots[t] == m0.slots[t])
    && (forall n {:trigger n in m.nodes} :: n in m0.nodes ==> n in m.nodes && m.nodes[n] == m0.nodes[n])
    && m.ran == m0.ran
    && (forall a {:trigger a in g.place} :: a in g.place <==> a in g0.place)
  }

  /** The same, for append as a whole: every handle but its two. */
  ghost predicate Others(m0: Heap, g0: Ledger, m: Heap, g: Ledger, s: Slot, d: Slot) {
    && (forall t {:trigger t in m.slots} {:trigger t in m0.slots} :: t in m0.slots && t.Handle? && t != s && t != d ==>
          t in m.slots && m.slots[t] == m0.slots[t])
    && (forall n {:trigger n in m.nodes} {:trigger n in m0.nodes} :: n in m0.nodes ==>
      n in m.nodes && m.nodes[n] == m0.nodes[n])
    && m.ran == m0.ran
    && (forall a {:trigger a in g.place} {:trigger a in g0.place} :: a in g.place <==> a in g0.place)
  }

  lemma WalkThenAttach(m0: Heap, g0: Ledger, m1: Heap, g1: Ledger, m2: Heap, g2: Ledger, h: Slot, s: Slot, d: Slot)
    requires Untouched(m0, g0, m1, g1, h) && (s.Next? || s == h)
    requires Others(m1, g1, m2, g2, s, d) || (m2 == m1 && g2 == g1)
    ensures Others(m0, g0, m2, g2, h, d)
  {
    forall t | t in m0.slots && t.Handle? && t != h && t != d ensures t in m2.slots && m2.slots[t] == m0.slots[t] {
      assert t in m1.slots;
    }
    forall n | n in m0.nodes ensures n in m2.nodes && m2.nodes[n] == m0.nodes[n] {
      assert n in m1.nodes;
    }
  }

  lemma UntouchedLater(m0: Heap, g0: Ledger, m1: Heap, g1: Ledger, m2: Heap, g2: Ledger, h: Slot, s: Slot)
    requires Untouched(m0, g0, m1, g1, h) && Untouched(m1, g1, m2, g2, s) && (s.Next? || s == h)
    ensures Untouched(m0, g0, m2, g2, h)
  {
    UntouchedBoth(m0, g0, m1, g1, m2, g2, h, s);
  }

  lemma UntouchedBoth(m0: Heap, g0: Ledger, m1: Heap, g1: Ledger, m2: Heap, g2: Ledger, s: Slot, next: Slot)
    requires Untouched(m0, g0, m1, g1, s) && Untouched(m1, g1, m2, g2, next) && (next.Next? || next == s)
    ensures Untouched(m0, g0, m2, g2, s)
  {
    forall t | t in m0.slots && t.Handle? && t != s ensures t in m2.slots && m2.slots[t] == m0.slots[t] {
      assert t in m1.slots;
    }
    forall n | n in m0.nodes ensures n in m2.nodes && m2.nodes[n] == m0.nodes[n] {
      assert n in m1.nodes;
    }
  }

  lemma PathOverObject(m: Heap, g: Ledger, k: nat, h: Slot, s: Slot, len: nat)
    requires Ok(m, g) && s in m.slots && m.slots[s].Raw? && Passed(m, g, k, h, s, len) && h.Handle?
    ensures Passed(Materialized(m, s), MaterializedLedger(m, g, s, k), k, h, Next(m.next), len + 1)
    ensures Untouched(m, g, Materialized(m, s), MaterializedLedger(m, g, s, k), s)
  {
    var l := MaterializedLedger(m, g, s, k);
    assert forall n {:trigger Rank(l.rank, n)} :: Rank(l.rank, n) == if n == m.next then k else Rank(g.rank, n);
    PassedMore(m, g, k, h, s, len, Materialized(m, s), l, h);
  }

  lemma PathOverShared(m: Heap, g: Ledger, k: nat, h: Slot, s: Slot, len: nat, r: nat)
    requires Ok(m, g) && s in m.slots && m.slots[s].To? && Passed(m, g, k, h, s, len) && h.Handle? && k <= r
    ensures Passed(Enclosed(m, s), Reranked(g, m.next, r), k, h, Next(m.next), len + 1)
    ensures Untouched(m, g, Enclosed(m, s), Reranked(g, m.next, r), s)
  {
    RerankedFacts(g, m.next, r);
    PassedMore(m, g, k, h, s, len, Enclosed(m, s), Reranked(g, m.next, r), h);
  }

  lemma {:induction false} PassedStays(m: Heap, g: Ledger, k: nat, h: Slot, n: nat, x: nat, len: nat)
    requires Next(n) in m.slots && Passed(m, g, k, h, Next(x), len) && Rank(g.rank, n) < k
             && (h.Handle? || (h.Next? && h.n != n))
    ensures Passed(Moved(m, Next(n), Next(x)), MovedLedger(m, g, Next(n), Next(x)), k, h, Next(x), len)
    decreases len
  {
    if len > 0 {
      PassedStays(m, g, k, Next(m.slots[h].n), n, x, len - 1);
    }
  }

  // ---- when append gives up ----

  /** The chain of h gets to a slot that refers to what r refers to. */
  ghost predicate Meets(m: Heap, h: Slot, r: Ref) {
    exists t: Slot, len: nat :: Leads(m, h, t, len) && t in m.slots && m.slots[t] == r
  }

  /** From slot h, the next fields of len nodes lead to slot t, and none of the slots before it holds r. */
  ghost predicate Clear(m: Heap, h: Slot, t: Slot, len: nat, r: Ref)
    decreases len
  {
    if len == 0 then h == t
    else
      && h in m.slots && m.slots[h].To? && m.slots[h].n in m.nodes && m.slots[h] != r
      && Clear(m, Next(m.slots[h].n), t, len - 1, r)
  }

  lemma {:induction false} ClearMore(m: Heap, h: Slot, t: Slot, len: nat, r: Ref)
    requires Clear(m, h, t, len, r) && t in m.slots && m.slots[t].To? && m.slots[t].n in m.nodes && m.slots[t] != r
    ensures Clear(m, h, Next(m.slots[t].n), len + 1, r)
    decreases len
  {
    if len > 0 {
      ClearMore(m, Next(m.slots[h].n), t, len - 1, r);
    }
  }

  lemma {:induction false} ClearLeads(m: Heap, h: Slot, t: Slot, len: nat, r: Ref)
    requires Clear(m, h, t, len, r)
    ensures Leads(m, h, t, len)
    decreases len
  {
    if len > 0 {
      ClearLeads(m, Next(m.slots[h].n), t, len - 1, r);
    }
  }

  /** A chain that ends without r does not meet it. */
  lemma {:induction false} ClearToTheEnd(m: Heap, h: Slot, t: Slot, len: nat, r: Ref, u: Slot, k: nat)
    requires Clear(m, h, t, len, r) && t in m.slots && !m.slots[t].To? && m.slots[t] != r && Leads(m, h, u, k)
    ensures u in m.slots ==> m.slots[u] != r
    decreases len
  {
    if len > 0 && k > 0 {
      ClearToTheEnd(m, Next(m.slots[h].n), t, len - 1, r, u, k - 1);
    }
  }

  /** One step of the walk from s to next, in what it does to slots: the tail behind s is now at next. */
  ghost predicate Shifted(m: Heap, m2: Heap, s: Slot, next: Slot) {
    && s in m.slots && next in m2.slots && m.slots[s] != Null
    && (m.slots[s].Raw? ==> m2.slots[next] == Null)
    && (m.slots[s].To? ==> Next(m.slots[s].n) in m.slots && m2.slots[next] == m.slots[Next(m.slots[s].n)])
    && (forall t {:trigger t in m2.slots} :: t in m.slots && t != s && (m.slots[s].To? ==> t != Next(m.slots[s].n)) ==>
          t in m2.slots && m2.slots[t] == m.slots[t])
  }

  lemma ObjectShifted(m: Heap, g: Ledger, s: Slot)
    requires Ok(m, g) && s in m.slots && m.slots[s].Raw?
    ensures Shifted(m, Materialized(m, s), s, Next(m.next))
  {
  }

  lemma NodeShifted(m: Heap, g: Ledger, s: Slot)
    requires Ok(m, g) && s in m.slots && m.slots[s].To?
    ensures Shifted(m, m, s, Next(m.slots[s].n))
  {
    NotItsOwnNext(m, g, s);
  }

  lemma SharedShifted(m: Heap, g: Ledger, s: Slot)
    requires Ok(m, g) && s in m.slots && m.slots[s].To?
    ensures var n := m.slots[s].n;
            && Next(n) in Enclosed(m, s).slots
            && Shifted(m, Moved(Enclosed(m, s), Next(n), Next(m.next)), s, Next(m.next))
  {
    NotItsOwnNext(m, g, s);
  }

  lemma UntouchedHandle(m0: Heap, g0: Ledger, m: Heap, g: Ledger, s: Slot, d: Slot)
    requires Untouched(m0, g0, m, g, s) && d in m0.slots && d.Handle? && d != s
    ensures d in m.slots && m.slots[d] == m0.slots[d]
  {
  }

  /** Slot s holds what slot t held in m0, and so do the next fields of all nodes from there on. */
  ghost predicate Facing(m0: Heap, g0: Ledger, t: Slot, m: Heap, s: Slot) {
    && t in m0.slots && s in m.slots && m.slots[s] == m0.slots[t]
    && (m0.slots[t].To? ==>
          forall p {:trigger Next(p)} :: p in m0.nodes && Rank(g0.rank, p) <= Rank(g0.rank, m0.slots[t].n) ==>
            Next(p) in m0.slots && Next(p) in m.slots && m.slots[Next(p)] == m0.slots[Next(p)])
  }

  ghost predicate MirrorAt(m0: Heap, g0: Ledger, h: Slot, r: Ref, m: Heap, s: Slot, t: Slot, len: nat) {
    && Clear(m0, h, t, len, r) && t in m0.slots && s in m.slots
    && (Facing(m0, g0, t, m, s) || (m.slots[s] == Null && m0.slots[t].Raw? && m0.slots[t] != r))
  }

  /** The walk, at slot s, has passed what the chain of h was in m0, and r was not there. */
  ghost predicate Mirrors(m0: Heap, g0: Ledger, h: Slot, r: Ref, m: Heap, s: Slot) {
    exists t: Slot, len: nat :: MirrorAt(m0, g0, h, r, m, s, t, len)
  }

  lemma MirrorsAtStart(m: Heap, g: Ledger, h: Slot, r: Ref)
    requires Ok(m, g) && h in m.slots
    ensures Mirrors(m, g, h, r, m, h)
  {
    forall p {:trigger Next(p)} | p in m.nodes ensures Next(p) in m.slots {
      KeptBelow(m, g, p);
    }
    assert MirrorAt(m, g, h, r, m, h, h, 0);
  }

  lemma MirrorsStep(m0: Heap, g0: Ledger, h: Slot, r: Ref, m: Heap, s: Slot, m2: Heap, next: Slot)
    requires Ok(m0, g0) && Mirrors(m0, g0, h, r, m, s) && Shifted(m, m2, s, next) && m.slots[s] != r
    ensures Mirrors(m0, g0, h, r, m2, next)
  {
    var t: Slot, len: nat :| MirrorAt(m0, g0, h, r, m, s, t, len);
    if m.slots[s].Raw? {
      assert MirrorAt(m0, g0, h, r, m2, next, t, len);
    } else {
      var n := m.slots[s].n;
      ReferenceIsNode(m0, g0, t);
      ClearMore(m0, h, t, len, r);
      FacingStep(m0, g0, t, m, s, m2, next);
      assert MirrorAt(m0, g0, h, r, m2, next, Next(n), len + 1);
    }
  }

  lemma ReferenceIsNode(m: Heap, g: Ledger, s: Slot)
    requires Ok(m, g) && s in m.slots && m.slots[s].To?
    ensures m.slots[s].n in m.nodes
  {
  }

  lemma FacingStep(m0: Heap, g0: Ledger, t: Slot, m: Heap, s: Slot, m2: Heap, next: Slot)
    requires Ok(m0, g0) && Facing(m0, g0, t, m, s) && Shifted(m, m2, s, next) && m.slots[s].To?
    ensures Facing(m0, g0, Next(m.slots[s].n), m2, next)
  {
    var n := m.slots[s].n;
    ReferenceIsNode(m0, g0, t);
    KeptBelow(m0, g0, n);
    var u := m0.slots[Next(n)];
    if u.To? {
      forall p {:trigger Next(p)} | p in m0.nodes && Rank(g0.rank, p) <= Rank(g0.rank, u.n)
        ensures Next(p) in m0.slots && Next(p) in m2.slots && m2.slots[Next(p)] == m0.slots[Next(p)]
      {
        KeptBelow(m0, g0, p);
        assert m.slots[Next(p)] == m0.slots[Next(p)];
        assert Next(p) in m.slots && Next(p) != s && Next(p) != Next(n);
      }
    }
  }

  /** The walk ends at the end of the chain exactly if the chain does not meet r. */
  lemma MirrorsEnd(m0: Heap, g0: Ledger, h: Slot, r: Ref, m: Heap, s: Slot)
    requires Ok(m0, g0) && Mirrors(m0, g0, h, r, m, s) && r != Null && (m.slots[s] == Null || m.slots[s] == r)
    ensures m.slots[s] == Null <==> !Meets(m0, h, r)
  {
    var t: Slot, len: nat :| MirrorAt(m0, g0, h, r, m, s, t, len);
    if m.slots[s] == Null {
      forall u: Slot, k: nat | Leads(m0, h, u, k) && u in m0.slots
        ensures m0.slots[u] != r
      {
        ClearToTheEnd(m0, h, t, len, r, u, k);
      }
    } else {
      ClearLeads(m0, h, t, len, r);
    }
  }

  // ---- the end ----

  /** The node that is ranked highest among some. */
  lemma {:induction false} Highest(g: Ledger, ns: set<nat>) returns (n: nat)
    requires ns != {}
    ensures n in ns && forall k :: k in ns ==> Rank(g.rank, k) <= Rank(g.rank, n)
    decreases |ns|
  {
    n :| n in ns;
    if ns != {n} {
      var rest := ns - {n};
      assert rest != {} by {
        assert ns == rest + {n};
      }
      var k := Highest(g, rest);
      n := if Rank(g.rank, k) > Rank(g.rank, n) then k else n;
    }
  }

  /**
   * When nothing outside refers to a node or an object any more, no node is left, and every action
   * was carried out exactly once.
   */
  lemma AllActionsRanOnce(m: Heap, g: Ledger)
    requires Ok(m, g) && forall s :: s in m.slots && Outside(m, s) ==> m.slots[s] == Null
    ensures m.nodes == map[]
    ensures forall a :: a in g.place ==> multiset(m.ran)[a] == 1
  {
    if m.nodes.Keys != {} {
      var n := Highest(g, m.nodes.Keys);
      assert m.nodes[n].refs > 0 && Count(m.slots, n) > 0;
      var s :| s in In(m.slots, n);
      HighestHasNone(m, g, n, s);
    }
    forall a | a in g.place ensures multiset(m.ran)[a] == 1 {
      assert g.place[a] == Done;
      OnceOnly(m.ran, a);
    }
  }

  lemma HighestHasNone(m: Heap, g: Ledger, n: nat, s: Slot)
    requires Ok(m, g) && s in m.slots && (Outside(m, s) ==> m.slots[s] == Null)
    requires forall k :: k in m.nodes ==> Rank(g.rank, k) <= Rank(g.rank, n)
    ensures m.slots[s] != To(n)
  {
    if !Outside(m, s) {
      KeptBelow(m, g, s.n);
    }
  }

  lemma {:induction false} OnceOnly(ran: seq<nat>, a: nat)
    requires a in ran && forall i, j :: 0 <= i < j < |ran| ==> ran[i] != ran[j]
    ensures multiset(ran)[a] == 1
  {
    assert ran == [ran[0]] + ran[1..];
    if ran[0] == a {
      assert a !in ran[1..];
    } else {
      OnceOnly(ran[1..], a);
    }
  }
}
