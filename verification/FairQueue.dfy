/**
 * The I/O fair queue (core/fair_queue.hh), over the reals: requests of the class that has accumulated
 * the least cost go first, costs grow exponentially with time, and when an accumulator overflows the
 * whole queue is renormalised.
 *
 * Time is modelled by the growth factor exp((now - start) / tau). Moving the time base forward by
 * -log(f) * tau multiplies all later factors by f, so the queue keeps the product of those factors.
 */
module FairQueues {
  import opened Sequences

  datatype Request = Request(id: nat, weight: nat, size: nat)

  datatype Config = Config(capacity: nat, maxReqCount: nat, maxBytesCount: nat, largest: real, factor: real) {
    /** largest is the largest finite number, factor what a renormalisation multiplies with. */
    predicate Valid() { maxReqCount > 0 && maxBytesCount > 0 && largest > 0.0 && 0.0 < factor <= 0.5 }
  }

  // ---- the priority queue of classes: a binary heap, least accumulated cost first ----
  //
  // It stands for std::priority_queue, whose order among equals is not specified. Accumulated costs are
  // only ever compared here, so what HeapSame says holds for every heap that does no more than compare.

  predicate InRange(h: seq<nat>, n: nat) {
    forall i :: 0 <= i < |h| ==> h[i] < n
  }

  function Swap(h: seq<nat>, i: nat, j: nat): (r: seq<nat>)
    requires i < |h| && j < |h|
    ensures |r| == |h|
  {
    h[i := h[j]][j := h[i]]
  }

  function SiftUp(h: seq<nat>, i: nat, acc: seq<real>): (r: seq<nat>)
    requires i < |h| && InRange(h, |acc|)
    ensures |r| == |h| && InRange(r, |acc|)
    decreases i
  {
    if i == 0 || acc[h[(i - 1) / 2]] <= acc[h[i]] then h
    else SiftUp(Swap(h, i, (i - 1) / 2), (i - 1) / 2, acc)
  }

  /** The child of i that goes up if one has to. */
  function LeastChild(h: seq<nat>, i: nat, acc: seq<real>): (c: nat)
    requires 2 * i + 1 < |h| && InRange(h, |acc|)
    ensures c < |h| && (c == 2 * i + 1 || c == 2 * i + 2)
    ensures forall d :: (d == 2 * i + 1 || d == 2 * i + 2) && d < |h| ==> acc[h[c]] <= acc[h[d]]
  {
    if 2 * i + 2 < |h| && acc[h[2 * i + 2]] < acc[h[2 * i + 1]] then 2 * i + 2 else 2 * i + 1
  }

  function SiftDown(h: seq<nat>, i: nat, acc: seq<real>): (r: seq<nat>)
    requires i < |h| && InRange(h, |acc|)
    ensures |r| == |h| && InRange(r, |acc|)
    decreases |h| - i
  {
    if 2 * i + 1 >= |h| then h
    else
      var c := LeastChild(h, i, acc);
      if acc[h[i]] <= acc[h[c]] then h else SiftDown(Swap(h, i, c), c, acc)
  }

  function HeapPush(h: seq<nat>, c: nat, acc: seq<real>): (r: seq<nat>)
    requires c < |acc| && InRange(h, |acc|)
    ensures |r| == |h| + 1 && InRange(r, |acc|)
  {
    SiftUp(h + [c], |h|, acc)
  }

  function HeapPop(h: seq<nat>, acc: seq<real>): (r: seq<nat>)
    requires h != [] && InRange(h, |acc|)
    ensures |r| == |h| - 1 && InRange(r, |acc|)
  {
    if |h| == 1 then []
    else
      var last := |h| - 1;
      SiftDown([h[last]] + h[1..last], 0, acc)
  }

  // ---- it keeps its contents, and its order ----

  lemma {:induction false} SiftUpPermutes(h: seq<nat>, i: nat, acc: seq<real>)
    requires i < |h| && InRange(h, |acc|)
    ensures multiset(SiftUp(h, i, acc)) == multiset(h)
    decreases i
  {
    if i > 0 && acc[h[i]] < acc[h[(i - 1) / 2]] {
      SiftUpPermutes(Swap(h, i, (i - 1) / 2), (i - 1) / 2, acc);
    }
  }

  lemma {:induction false} SiftDownPermutes(h: seq<nat>, i: nat, acc: seq<real>)
    requires i < |h| && InRange(h, |acc|)
    ensures multiset(SiftDown(h, i, acc)) == multiset(h)
    decreases |h| - i
  {
    if 2 * i + 1 < |h| && acc[h[LeastChild(h, i, acc)]] < acc[h[i]] {
      SiftDownPermutes(Swap(h, i, LeastChild(h, i, acc)), LeastChild(h, i, acc), acc);
    }
  }

  lemma SamePermutation(g: seq<nat>, h: seq<nat>)
    requires multiset(g) == multiset(h)
    ensures Distinct(h) ==> Distinct(g)
    ensures forall c :: c in g <==> c in h
  {
    forall c ensures c in g <==> c in h {
      assert c in g <==> c in multiset(g);
      assert c in h <==> c in multiset(h);
    }
    if Distinct(h) {
      forall i, j | 0 <= i < j < |g| ensures g[i] != g[j] {
        CountTwo(g, i, j);
        CountOne(h, g[i]);
      }
    }
  }

  lemma CountTwo(g: seq<nat>, i: nat, j: nat)
    requires i < j < |g|
    ensures g[i] == g[j] ==> multiset(g)[g[i]] >= 2
  {
    assert g == g[..j] + g[j..];
    assert g[..j][i] == g[i] && g[j..][0] == g[j];
  }

  lemma {:induction false} CountOne(h: seq<nat>, c: nat)
    requires Distinct(h)
    ensures multiset(h)[c] <= 1
  {
    if h != [] {
      assert h == [h[0]] + h[1..];
      CountOne(h[1..], c);
      if c == h[0] {
        assert c !in h[1..];
      }
    }
  }

  lemma PushContents(h: seq<nat>, c: nat, acc: seq<real>)
    requires c < |acc| && InRange(h, |acc|) && Distinct(h) && c !in h
    ensures Distinct(HeapPush(h, c, acc)) && forall d :: d in HeapPush(h, c, acc) <==> d == c || d in h
  {
    SiftUpPermutes(h + [c], |h|, acc);
    SamePermutation(HeapPush(h, c, acc), h + [c]);
  }

  lemma LastToFront(h: seq<nat>, g: seq<nat>)
    requires |h| > 1 && Distinct(h) && g == [h[|h| - 1]] + h[1..|h| - 1]
    ensures Distinct(g) && forall d :: d in g <==> d != h[0] && d in h
  {
    assert forall i :: 0 < i < |g| ==> g[i] == h[i];
    forall d | d != h[0] && d in h ensures d in g {
      var i :| 0 <= i < |h| && h[i] == d;
      assert if i == |h| - 1 then g[0] == d else g[i] == d;
    }
  }

  lemma PopContents(h: seq<nat>, acc: seq<real>)
    requires h != [] && InRange(h, |acc|) && Distinct(h)
    ensures Distinct(HeapPop(h, acc)) && forall d :: d in HeapPop(h, acc) <==> d != h[0] && d in h
  {
    if |h| > 1 {
      var g := [h[|h| - 1]] + h[1..|h| - 1];
      LastToFront(h, g);
      SiftDownPermutes(g, 0, acc);
      SamePermutation(HeapPop(h, acc), g);
    }
  }

  predicate Child(p: int, j: int) {
    j == 2 * p + 1 || j == 2 * p + 2
  }

  ghost predicate IsHeap(h: seq<nat>, acc: seq<real>)
    requires InRange(h, |acc|)
  {
    forall p, j :: 0 <= p < j < |h| && Child(p, j) ==> acc[h[p]] <= acc[h[j]]
  }

  /** In order, but for position i, which may be less than what is above it. */
  ghost predicate HeapButUp(h: seq<nat>, acc: seq<real>, i: nat)
    requires InRange(h, |acc|)
  {
    && (forall p, j :: 0 <= p < j < |h| && Child(p, j) && j != i ==> acc[h[p]] <= acc[h[j]])
    && (forall p, j :: 0 <= p < i < j < |h| && Child(p, i) && Child(i, j) ==> acc[h[p]] <= acc[h[j]])
  }

  /** In order, but for position i, which may be greater than what is below it. */
  ghost predicate HeapButDown(h: seq<nat>, acc: seq<real>, i: nat)
    requires InRange(h, |acc|)
  {
    && (forall p, j :: 0 <= p < j < |h| && Child(p, j) && p != i ==> acc[h[p]] <= acc[h[j]])
    && (forall p, j :: 0 <= p < i < j < |h| && Child(p, i) && Child(i, j) ==> acc[h[p]] <= acc[h[j]])
  }

  lemma {:induction false} SiftUpRestores(h: seq<nat>, i: nat, acc: seq<real>)
    requires i < |h| && InRange(h, |acc|) && HeapButUp(h, acc, i)
    ensures IsHeap(SiftUp(h, i, acc), acc)
    decreases i
  {
    if i > 0 && acc[h[i]] < acc[h[(i - 1) / 2]] {
      var p := (i - 1) / 2;
      var s := Swap(h, i, p);
      assert forall j :: 0 <= j < |h| && j != i && j != p ==> s[j] == h[j];
      SiftUpRestores(s, p, acc);
    }
  }

  lemma {:induction false} SiftDownRestores(h: seq<nat>, i: nat, acc: seq<real>)
    requires i < |h| && InRange(h, |acc|) && HeapButDown(h, acc, i)
    ensures IsHeap(SiftDown(h, i, acc), acc)
    decreases |h| - i
  {
    if 2 * i + 1 < |h| {
      var c := LeastChild(h, i, acc);
      if acc[h[c]] < acc[h[i]] {
        var s := Swap(h, i, c);
        assert forall j :: 0 <= j < |h| && j != i && j != c ==> s[j] == h[j];
        SiftDownRestores(s, c, acc);
      }
    }
  }

  lemma PushKeepsHeap(h: seq<nat>, c: nat, acc: seq<real>)
    requires c < |acc| && InRange(h, |acc|) && IsHeap(h, acc)
    ensures IsHeap(HeapPush(h, c, acc), acc)
  {
    SiftUpRestores(h + [c], |h|, acc);
  }

  lemma PopKeepsHeap(h: seq<nat>, acc: seq<real>)
    requires h != [] && InRange(h, |acc|) && IsHeap(h, acc)
    ensures IsHeap(HeapPop(h, acc), acc)
  {
    if |h| > 1 {
      SiftDownRestores([h[|h| - 1]] + h[1..|h| - 1], 0, acc);
    }
  }

  lemma {:induction false} TopIsLeast(h: seq<nat>, acc: seq<real>, j: nat)
    requires InRange(h, |acc|) && IsHeap(h, acc) && j < |h|
    ensures acc[h[0]] <= acc[h[j]]
  {
    if j > 0 {
      TopIsLeast(h, acc, (j - 1) / 2);
    }
  }

  // ---- scaling all accumulators changes no decision ----

  predicate Product(z: real, x: real, y: real) {
    z == x * y
  }

  ghost predicate Scaled(a: seq<real>, b: seq<real>, k: real) {
    k > 0.0 && |a| == |b| && forall i :: 0 <= i < |a| ==> a[i] == k * b[i]
  }

  lemma ScaleKeepsOrder(k: real, x: real, y: real)
    requires k > 0.0
    ensures x <= y <==> k * x <= k * y
  {
    assert k * y - k * x == k * (y - x);
    if y - x >= 0.0 {
      assert k * (y - x) >= 0.0;
    } else {
      assert k * (y - x) < 0.0;
    }
  }

  /** Two sets of accumulators that compare the same way. */
  ghost predicate SameOrder(a: seq<real>, b: seq<real>) {
    |a| == |b| && forall i, j :: 0 <= i < |a| && 0 <= j < |a| ==> (a[i] <= a[j] <==> b[i] <= b[j])
  }

  lemma ScaledSameOrder(a: seq<real>, b: seq<real>, k: real)
    requires Scaled(a, b, k)
    ensures SameOrder(a, b)
  {
    forall i, j | 0 <= i < |a| && 0 <= j < |a| ensures a[i] <= a[j] <==> b[i] <= b[j] {
      ScaleKeepsOrder(k, b[i], b[j]);
    }
  }

  lemma {:induction false} SiftUpSame(h: seq<nat>, i: nat, a: seq<real>, b: seq<real>)
    requires i < |h| && SameOrder(a, b) && InRange(h, |b|)
    ensures SiftUp(h, i, a) == SiftUp(h, i, b)
    decreases i
  {
    if i > 0 {
      SiftUpSame(Swap(h, i, (i - 1) / 2), (i - 1) / 2, a, b);
    }
  }

  lemma {:induction false} SiftDownSame(h: seq<nat>, i: nat, a: seq<real>, b: seq<real>)
    requires i < |h| && SameOrder(a, b) && InRange(h, |b|)
    ensures SiftDown(h, i, a) == SiftDown(h, i, b)
    decreases |h| - i
  {
    if 2 * i + 1 < |h| {
      SiftDownSame(Swap(h, i, LeastChild(h, i, b)), LeastChild(h, i, b), a, b);
    }
  }

  /** The heap does the same with accumulators that compare the same way. */
  lemma HeapSame(h: seq<nat>, c: nat, a: seq<real>, b: seq<real>)
    requires InRange(h, |b|) && c < |b| && SameOrder(a, b)
    ensures HeapPush(h, c, a) == HeapPush(h, c, b) && (h != [] ==> HeapPop(h, a) == HeapPop(h, b))
  {
    SiftUpSame(h + [c], |h|, a, b);
    if |h| > 1 {
      SiftDownSame([h[|h| - 1]] + h[1..|h| - 1], 0, a, b);
    }
  }

  // ---- the queue ----

  /** Classes are numbered; inHeap is the flag of a class that is in handles. */
  datatype State = State(shares: seq<nat>, acc: seq<real>, queues: seq<seq<Request>>, inHeap: seq<bool>,
    handles: seq<nat>, executing: int, reqCount: int, bytesCount: int, queued: int, dispatched: seq<(nat, Request)>)

  function Total(queues: seq<seq<Request>>): nat {
    if queues == [] then 0 else |queues[0]| + Total(queues[1..])
  }

  ghost predicate Ok(s: State) {
    && |s.acc| == |s.shares| == |s.queues| == |s.inHeap|
    && (forall c :: 0 <= c < |s.shares| ==> s.shares[c] > 0)
    && InRange(s.handles, |s.acc|) && IsHeap(s.handles, s.acc)
    && Distinct(s.handles) && (forall c :: 0 <= c < |s.inHeap| ==> (c in s.handles <==> s.inHeap[c]))
    && (forall c :: 0 <= c < |s.inHeap| ==> (s.inHeap[c] <==> s.queues[c] != []))
    && s.queued == Total(s.queues)
  }

  predicate CanDispatch(s: State, cfg: Config) {
    s.queued != 0 && s.executing < cfg.capacity && s.reqCount < cfg.maxReqCount && s.bytesCount < cfg.maxBytesCount
  }

  /** What a request costs its class, before the growth with time. */
  function RequestCost(r: Request, shares: nat, cfg: Config): (x: real)
    requires cfg.Valid() && shares > 0
    ensures x >= 0.0
  {
    (r.weight as real / cfg.maxReqCount as real + r.size as real / cfg.maxBytesCount as real) / shares as real
  }

  function PushClass(s: State, c: nat): State
    requires c < |s.inHeap| == |s.acc| && InRange(s.handles, |s.acc|)
  {
    if s.inHeap[c] then s else s.(handles := HeapPush(s.handles, c, s.acc), inHeap := s.inHeap[c := true])
  }

  function Register(s: State, shares: nat): State {
    s.(shares := s.shares + [if shares > 0 then shares else 1], acc := s.acc + [0.0], queues := s.queues + [[]],
       inHeap := s.inHeap + [false])
  }

  function Enqueue(s: State, c: nat, r: Request): State
    requires c < |s.inHeap| == |s.acc| == |s.queues| && InRange(s.handles, |s.acc|)
  {
    var t := PushClass(s, c);
    t.(queues := t.queues[c := t.queues[c] + [r]], queued := t.queued + 1)
  }

  function Finished(s: State, r: Request): State {
    s.(executing := s.executing - 1, reqCount := s.reqCount - r.weight, bytesCount := s.bytesCount - r.size)
  }

  /** The class at the top gives its first request away; h is out of the heap. */
  function TakeRequest(s: State): State
    requires s.handles != [] && InRange(s.handles, |s.acc|) && |s.acc| == |s.queues| == |s.inHeap|
             && s.queues[s.handles[0]] != []
  {
    var h := s.handles[0];
    var r := s.queues[h][0];
    s.(handles := HeapPop(s.handles, s.acc), inHeap := s.inHeap[h := false], queues := s.queues[h := s.queues[h][1..]],
       executing := s.executing + 1, reqCount := s.reqCount + r.weight, bytesCount := s.bytesCount + r.size,
       queued := s.queued - 1, dispatched := s.dispatched + [(h, r)])
  }

  /** h pays, and goes back into the heap if it has more. */
  function Charge(s: State, h: nat, acc: real): State
    requires h < |s.acc| == |s.queues| == |s.inHeap| && InRange(s.handles, |s.acc|)
  {
    var t := s.(acc := s.acc[h := acc]);
    if t.queues[h] != [] then PushClass(t, h) else t
  }

  /** The request that goes next. */
  ghost function NextRequest(s: State): (Request, nat)
    requires Ok(s) && s.handles != []
  {
    assert s.handles[0] in s.handles;
    (s.queues[s.handles[0]][0], s.shares[s.handles[0]])
  }

  /** One dispatch that costs its class so much, in a queue that never renormalises. */
  ghost function DispatchOne(s: State, cost: real): State
    requires Ok(s) && s.handles != []
  {
    assert s.handles[0] in s.handles;
    var h := s.handles[0];
    Charge(TakeRequest(s), h, s.acc[h] + cost)
  }

  lemma {:induction false} TotalUpdate(queues: seq<seq<Request>>, c: nat, q: seq<Request>)
    requires c < |queues|
    ensures Total(queues[c := q]) == Total(queues) - |queues[c]| + |q|
  {
    if c == 0 {
      assert queues[0 := q][1..] == queues[1..];
    } else {
      TotalUpdate(queues[1..], c - 1, q);
      assert queues[c := q][1..] == queues[1..][c - 1 := q];
    }
  }

  lemma {:induction false} TotalAppend(queues: seq<seq<Request>>)
    ensures Total(queues + [[]]) == Total(queues)
  {
    if queues == [] {
      assert (queues + [[]])[1..] == [];
    } else {
      TotalAppend(queues[1..]);
      assert (queues + [[]])[1..] == queues[1..] + [[]];
    }
  }

  lemma {:induction false} TotalZero(queues: seq<seq<Request>>)
    ensures Total(queues) > 0 ==> exists c :: 0 <= c < |queues| && queues[c] != []
  {
    if Total(queues) > 0 && queues[0] == [] {
      TotalZero(queues[1..]);
      var c :| 0 <= c < |queues[1..]| && queues[1..][c] != [];
      assert queues[c + 1] != [];
    }
  }

  /** With something queued, there is a class in the heap. */
  lemma HeapNotEmpty(s: State)
    requires Ok(s) && s.queued != 0
    ensures s.handles != []
  {
    TotalZero(s.queues);
    var c :| 0 <= c < |s.queues| && s.queues[c] != [];
    assert c in s.handles;
  }

  lemma EnqueueKeepsOk(s: State, c: nat, r: Request)
    requires Ok(s) && c < |s.shares|
    ensures Ok(Enqueue(s, c, r))
  {
    TotalUpdate(s.queues, c, s.queues[c] + [r]);
    if !s.inHeap[c] {
      PushKeepsHeap(s.handles, c, s.acc);
      PushContents(s.handles, c, s.acc);
    }
  }

  lemma RegisterKeepsOk(s: State, shares: nat)
    requires Ok(s)
    ensures Ok(Register(s, shares))
  {
    TotalAppend(s.queues);
    assert |s.shares| !in s.handles;
  }

  /** In order but for h, which is out of the heap although it may have requests. */
  ghost predicate OkBut(s: State, h: nat) {
    && |s.acc| == |s.shares| == |s.queues| == |s.inHeap| && h < |s.acc|
    && (forall c :: 0 <= c < |s.shares| ==> s.shares[c] > 0)
    && InRange(s.handles, |s.acc|) && IsHeap(s.handles, s.acc)
    && Distinct(s.handles) && (forall c :: 0 <= c < |s.inHeap| ==> (c in s.handles <==> s.inHeap[c]))
    && (forall c :: 0 <= c < |s.inHeap| && c != h ==> (s.inHeap[c] <==> s.queues[c] != []))
    && !s.inHeap[h]
    && s.queued == Total(s.queues)
  }

  lemma TakeKeepsOk(s: State)
    requires Ok(s) && s.handles != []
    ensures s.queues[s.handles[0]] != [] && OkBut(TakeRequest(s), s.handles[0])
  {
    var h := s.handles[0];
    assert h in s.handles;
    PopKeepsHeap(s.handles, s.acc);
    PopContents(s.handles, s.acc);
    TotalUpdate(s.queues, h, s.queues[h][1..]);
  }

  /** The accumulator of a class that is not in the heap does not matter to it. */
  lemma ChargeKeepsOk(s: State, h: nat, x: real)
    requires OkBut(s, h)
    ensures Ok(Charge(s, h, x))
  {
    var t := s.(acc := s.acc[h := x]);
    assert h !in s.handles;
    assert IsHeap(t.handles, t.acc);
    if t.queues[h] != [] {
      PushKeepsHeap(t.handles, h, t.acc);
      PushContents(t.handles, h, t.acc);
    }
  }

  lemma DispatchKeepsOk(s: State, cost: real)
    requires Ok(s) && s.handles != []
    ensures Ok(DispatchOne(s, cost))
  {
    TakeKeepsOk(s);
    var u := ChargedOk(TakeRequest(s), s.handles[0], s.acc[s.handles[0]] + cost);
    assert DispatchOne(s, cost) == u;
  }

  lemma ChargedOk(s: State, h: nat, x: real) returns (t: State)
    requires OkBut(s, h)
    ensures t == Charge(s, h, x) && Ok(t)
  {
    ChargeKeepsOk(s, h, x);
    t := Charge(s, h, x);
  }

  lemma ChargeChangesOnly(s: State, h: nat, x: real)
    requires OkBut(s, h)
    ensures var t := Charge(s, h, x); t.dispatched == s.dispatched && t.queues == s.queues && t.acc == s.acc[h := x]
  {
  }

  /**
   * A dispatch takes the oldest request of the class at the top, charges only that class, and keeps
   * everything else.
   */
  lemma DispatchTakesOldest(s: State, cost: real)
    requires Ok(s) && s.handles != []
    ensures var t, h := DispatchOne(s, cost), s.handles[0];
            && h < |s.queues| && s.queues[h] != []
            && t.dispatched == s.dispatched + [(h, s.queues[h][0])]
            && t.queues == s.queues[h := s.queues[h][1..]] && t.acc == s.acc[h := s.acc[h] + cost]
  {
    TakeKeepsOk(s);
    ChargeChangesOnly(TakeRequest(s), s.handles[0], s.acc[s.handles[0]] + cost);
  }

  /** And that class has the least accumulated cost among those that have requests. */
  lemma TopIsLeastOfAll(s: State)
    requires Ok(s) && s.handles != []
    ensures forall c :: 0 <= c < |s.queues| && s.queues[c] != [] ==> s.acc[s.handles[0]] <= s.acc[c]
  {
    forall c | 0 <= c < |s.queues| && s.queues[c] != [] ensures s.acc[s.handles[0]] <= s.acc[c] {
      assert c in s.handles;
      var j :| 0 <= j < |s.handles| && s.handles[j] == c;
      TopIsLeast(s.handles, s.acc, j);
    }
  }

  /** The queue s, whose accumulators and time base were renormalised by scale, against the ideal queue. */
  ghost predicate Sim(s: State, ideal: State, scale: real) {
    s == ideal.(acc := s.acc) && Scaled(s.acc, ideal.acc, scale)
  }

  lemma EnqueueSim(s: State, ideal: State, scale: real, c: nat, r: Request)
    requires Sim(s, ideal, scale) && Ok(ideal) && c < |ideal.shares|
    ensures Sim(Enqueue(s, c, r), Enqueue(ideal, c, r), scale)
  {
    ScaledSameOrder(s.acc, ideal.acc, scale);
    HeapSame(s.handles, c, s.acc, ideal.acc);
  }

  lemma RegisterSim(s: State, ideal: State, scale: real, shares: nat)
    requires Sim(s, ideal, scale)
    ensures Sim(Register(s, shares), Register(ideal, shares), scale)
  {
  }

  lemma TakeSim(s: State, ideal: State, scale: real)
    requires Sim(s, ideal, scale) && Ok(ideal) && ideal.handles != []
    ensures ideal.queues[ideal.handles[0]] != [] && Sim(TakeRequest(s), TakeRequest(ideal), scale)
  {
    TakeKeepsOk(ideal);
    ScaledSameOrder(s.acc, ideal.acc, scale);
    HeapSame(s.handles, s.handles[0], s.acc, ideal.acc);
  }

  lemma ChargeSim(s: State, ideal: State, scale: real, h: nat, x: real, y: real)
    requires Sim(s, ideal, scale) && OkBut(ideal, h) && Product(y, scale, x)
    ensures Sim(Charge(s, h, y), Charge(ideal, h, x), scale)
  {
    var a, b := s.acc[h := y], ideal.acc[h := x];
    assert Scaled(a, b, scale);
    ScaledSameOrder(a, b, scale);
    HeapSame(s.handles, h, a, b);
  }

  /** A round of dispatches in the ideal queue: growths are the growth factors at each of them. */
  ghost predicate Dispatches(s: State, cfg: Config, growths: seq<real>, t: State)
    requires cfg.Valid()
    decreases |growths|
  {
    Ok(s) &&
    if growths == [] then !CanDispatch(s, cfg) && s == t
    else
      && CanDispatch(s, cfg) && s.handles != []
      && Dispatches(DispatchOne(s, IdealCost(s, cfg, growths[0])), cfg, growths[1..], t)
  }

  ghost function IdealCost(s: State, cfg: Config, growth: real): real
    requires cfg.Valid() && Ok(s) && s.handles != []
  {
    growth * RequestCost(NextRequest(s).0, NextRequest(s).1, cfg)
  }

  /** The readings of a clock stay below the bound. */
  ghost predicate Bounded(clock: nat -> real, bound: real) {
    forall k :: clock(k) <= bound
  }

  ghost predicate ReadFrom(growth: real, clock: nat -> real) {
    exists k :: growth == clock(k)
  }

  ghost predicate AllRead(growths: seq<real>, clock: nat -> nat -> real) {
    forall i :: 0 <= i < |growths| ==> ReadFrom(growths[i], clock(i))
  }

  lemma ReadAll(growths: seq<real>, growth: real, clock: nat -> nat -> real)
    requires AllRead(growths, clock) && ReadFrom(growth, clock(|growths|))
    ensures AllRead(growths + [growth], clock)
  {
  }

  /** How often x can still overflow, at most, when it is halved each time. */
  ghost function Rounds(x: real, largest: real): int
    requires largest > 0.0
  {
    (x / largest).Floor
  }

  lemma HalvingEnds(x: real, y: real, factor: real, largest: real)
    requires 0.0 < factor <= 0.5 && largest > 0.0 && x > largest && y == x * factor
    ensures Rounds(y, largest) < Rounds(x, largest) && Rounds(x, largest) >= 1
  {
    var q := x / largest;
    assert q > 1.0 by { assert q * largest == x; }
    assert y / largest == q * factor;
    assert q * factor <= q * 0.5;
  }

  /** Cost at the current scale is the ideal cost, scaled. */
  lemma ScaledCost(scale: real, acc: real, growth: real, cost: real, scaledAcc: real)
    requires Product(scaledAcc, scale, acc)
    ensures Product(scaledAcc + growth * scale * cost, scale, acc + growth * cost)
  {
  }

  lemma CostIsMonotone(scale: real, acc: real, growth: real, bound: real, cost: real, next: real, most: real)
    requires scale > 0.0 && growth <= bound && cost >= 0.0
    requires Product(next, scale, acc + growth * cost) && Product(most, scale, acc + bound * cost)
    ensures next <= most
  {
    var d := (bound - growth) * cost;
    assert d >= 0.0;
    assert most - next == scale * d;
  }

  lemma ScaledMost(scale: real, most: real, scaledMost: real, factor: real)
    requires Product(scaledMost, scale, most)
    ensures Product(scaledMost * factor, scale * factor, most)
  {
  }

  lemma ScaleTwice(a: seq<real>, b: seq<real>, c: seq<real>, j: real, k: real)
    requires Scaled(a, b, j) && Scaled(b, c, k)
    ensures Scaled(a, c, k * j)
  {
    forall i | 0 <= i < |a| ensures a[i] == k * j * c[i] {
      assert j * (k * c[i]) == k * j * c[i];
    }
  }

  lemma TakeThenPay(s: State, cost: real, paid: real)
    requires Ok(s) && s.handles != [] && s.queues[s.handles[0]] != []
    requires paid == TakeRequest(s).acc[s.handles[0]] + cost
    ensures Charge(TakeRequest(s), s.handles[0], paid) == DispatchOne(s, cost)
  {
    assert TakeRequest(s).acc == s.acc;
  }

  lemma TakeThenCharge(s: State, cfg: Config, growth: real, cost: real, paid: real)
    requires cfg.Valid() && Ok(s) && s.handles != [] && cost == RequestCost(NextRequest(s).0, NextRequest(s).1, cfg)
    requires s.queues[s.handles[0]] != [] && paid == TakeRequest(s).acc[s.handles[0]] + growth * cost
    ensures Charge(TakeRequest(s), s.handles[0], paid) == DispatchOne(s, IdealCost(s, cfg, growth))
  {
    assert IdealCost(s, cfg, growth) == growth * cost;
    TakeThenPay(s, IdealCost(s, cfg, growth), paid);
  }

  lemma DispatchTakesOne(s: State, cost: real)
    requires Ok(s) && s.handles != []
    ensures DispatchOne(s, cost).queued == s.queued - 1
  {
  }

  /** A round of dispatches that goes on. */
  ghost predicate Dispatching(s: State, cfg: Config, growths: seq<real>, t: State)
    requires cfg.Valid()
    decreases |growths|
  {
    Ok(s) &&
    if growths == [] then s == t
    else
      && CanDispatch(s, cfg) && s.handles != []
      && Dispatching(DispatchOne(s, IdealCost(s, cfg, growths[0])), cfg, growths[1..], t)
  }

  lemma {:induction false} DispatchedMore(s: State, cfg: Config, growths: seq<real>, t: State, growth: real)
    requires cfg.Valid() && Dispatching(s, cfg, growths, t) && Ok(t) && CanDispatch(t, cfg) && t.handles != []
    ensures Dispatching(s, cfg, growths + [growth], DispatchOne(t, IdealCost(t, cfg, growth)))
    decreases |growths|
  {
    if growths == [] {
      DispatchKeepsOk(t, IdealCost(t, cfg, growth));
      assert ([] + [growth])[1..] == [];
    } else {
      DispatchedMore(DispatchOne(s, IdealCost(s, cfg, growths[0])), cfg, growths[1..], t, growth);
      assert (growths + [growth])[0] == growths[0] && (growths + [growth])[1..] == growths[1..] + [growth];
    }
  }

  lemma {:induction false} DispatchedAll(s: State, cfg: Config, growths: seq<real>, t: State)
    requires cfg.Valid() && Dispatching(s, cfg, growths, t) && !CanDispatch(t, cfg)
    ensures Dispatches(s, cfg, growths, t)
    decreases |growths|
  {
    if growths != [] {
      DispatchedAll(DispatchOne(s, IdealCost(s, cfg, growths[0])), cfg, growths[1..], t);
    }
  }

  class FairQueue {
    const cfg: Config
    var q: State
    /** exp((start - base) / tau), the product of the factors of all renormalisations. */
    var scale: real
    /** The same queue without any renormalisation. */
    ghost var ideal: State

    ghost predicate Valid()
      reads this
    {
      cfg.Valid() && Ok(ideal) && Sim(q, ideal, scale)
    }

    constructor (cfg: Config)
      requires cfg.Valid()
      ensures Valid() && this.cfg == cfg && ideal == State([], [], [], [], [], 0, 0, 0, 0, [])
    {
      this.cfg, scale := cfg, 1.0;
      q, ideal := State([], [], [], [], [], 0, 0, 0, 0, []), State([], [], [], [], [], 0, 0, 0, 0, []);
    }

    method RegisterPriorityClass(shares: nat) returns (c: nat)
      requires Valid()
      modifies `q, `ideal
      ensures Valid() && ideal == Register(old(ideal), shares) && c == |old(ideal.shares)|
      ensures ideal.shares == old(ideal.shares) + [if shares >= 1 then shares else 1]
      ensures ideal.acc == old(ideal.acc) + [0.0] && ideal.queues == old(ideal.queues) + [[]]
      ensures ideal.handles == old(ideal.handles) && ideal.dispatched == old(ideal.dispatched)
    {
      RegisterKeepsOk(ideal, shares);
      RegisterSim(q, ideal, scale, shares);
      c := |q.shares|;
      q, ideal := Register(q, shares), Register(ideal, shares);
    }

    method UpdateShares(c: nat, shares: nat)
      requires Valid() && c < |q.shares|
      modifies `q, `ideal
      ensures Valid() && ideal == old(ideal).(shares := old(ideal).shares[c := if shares > 0 then shares else 1])
    {
      q := q.(shares := q.shares[c := if shares > 0 then shares else 1]);
      ideal := ideal.(shares := q.shares);
    }

    /** queue(): the class enters the heap if it is not there, and the request waits behind its others. */
    method Queue(c: nat, r: Request)
      requires Valid() && c < |q.shares|
      modifies `q, `ideal
      ensures Valid() && ideal == Enqueue(old(ideal), c, r)
    {
      EnqueueKeepsOk(ideal, c, r);
      EnqueueSim(q, ideal, scale, c, r);
      ideal := Enqueue(ideal, c, r);
      if !q.inHeap[c] {
        q := q.(handles := HeapPush(q.handles, c, q.acc), inHeap := q.inHeap[c := true]);
      }
      q := q.(queues := q.queues[c := q.queues[c] + [r]], queued := q.queued + 1);
    }

    method NotifyRequestsFinished(r: Request)
      requires Valid()
      modifies `q, `ideal
      ensures Valid() && ideal == Finished(old(ideal), r)
    {
      q, ideal := Finished(q, r), Finished(ideal, r);
    }

    /** The time base moves forward, and every accumulator with it. */
    method NormalizeStats()
      requires cfg.Valid()
      modifies `q, `scale
      ensures q == old(q).(acc := q.acc) && Scaled(q.acc, old(q.acc), cfg.factor) && scale == old(scale) * cfg.factor
    {
      scale := scale * cfg.factor;
      for c := 0 to |q.acc|
        modifies `q
        invariant q == old(q).(acc := q.acc) && |q.acc| == |old(q.acc)|
        invariant forall i :: 0 <= i < c ==> q.acc[i] == cfg.factor * old(q.acc)[i]
        invariant forall i :: c <= i < |q.acc| ==> q.acc[i] == old(q.acc)[i]
      {
        q := q.(acc := q.acc[c := q.acc[c] * cfg.factor]);
      }
    }

    /** A renormalisation keeps the relation to the ideal queue. */
    method Renormalize()
      requires cfg.Valid() && Sim(q, ideal, scale)
      modifies `q, `scale
      ensures Sim(q, ideal, scale) && scale == old(scale) * cfg.factor
    {
      ghost var before := q.acc;
      ghost var beforeScale := scale;
      NormalizeStats();
      ScaleTwice(q.acc, before, ideal.acc, cfg.factor, beforeScale);
    }

    /** What class h has accumulated when a request of this cost is added at this moment. */
    method Accumulate(h: nat, growth: real, cost: real) returns (next: real)
      requires Sim(q, ideal, scale) && h < |q.acc|
      ensures Product(next, scale, ideal.acc[h] + growth * cost)
    {
      ScaledCost(scale, ideal.acc[h], growth, cost, q.acc[h]);
      next := q.acc[h] + growth * scale * cost;
    }

    /** next is what h has accumulated at this moment, and ceiling the most it can be at any. */
    ghost predicate Accumulated(h: nat, next: real, growth: real, cost: real, bound: real, ceiling: real)
      reads this
    {
      && cfg.Valid() && Sim(q, ideal, scale) && h < |q.acc| && cost >= 0.0 && growth <= bound
      && Product(next, scale, ideal.acc[h] + growth * cost)
      && Product(ceiling, scale, ideal.acc[h] + bound * cost)
    }

    /** A renormalisation after an overflow, and the sum again. */
    method Retry(h: nat, growth: real, cost: real, ghost bound: real, ghost ceiling: real, ghost was: real,
          ghost overflown: real)
      returns (next: real, ghost lower: real)
      requires Accumulated(h, overflown, was, cost, bound, ceiling) && overflown > cfg.largest && growth <= bound
      modifies `q, `scale
      ensures Accumulated(h, next, growth, cost, bound, lower)
      ensures 1 <= Rounds(ceiling, cfg.largest) && Rounds(lower, cfg.largest) < Rounds(ceiling, cfg.largest)
    {
      CostIsMonotone(scale, ideal.acc[h], was, bound, cost, overflown, ceiling);
      ScaledMost(scale, ideal.acc[h] + bound * cost, ceiling, cfg.factor);
      lower := ceiling * cfg.factor;
      HalvingEnds(ceiling, lower, cfg.factor, cfg.largest);
      Renormalize();
      next := Accumulate(h, growth, cost);
    }

    method FirstSum(h: nat, growth: real, cost: real, ghost bound: real) returns (next: real, ghost ceiling: real)
      requires cfg.Valid() && Sim(q, ideal, scale) && h < |q.acc| && cost >= 0.0 && growth <= bound
      ensures Accumulated(h, next, growth, cost, bound, ceiling)
    {
      next := Accumulate(h, growth, cost);
      ceiling := scale * (ideal.acc[h] + bound * cost);
    }

    /**
     * What class h has accumulated after a request of this cost, with renormalisations until that is a
     * finite number. The clock is read again after each; its readings stay below bound.
     */
    method NextAccumulated(h: nat, cost: real, clock: nat -> real, ghost bound: real)
          returns (next: real, ghost growth: real)
      requires cfg.Valid() && Sim(q, ideal, scale) && h < |q.acc| && cost >= 0.0 && Bounded(clock, bound)
      modifies `q, `scale
      ensures Sim(q, ideal, scale) && next <= cfg.largest
      ensures Product(next, scale, ideal.acc[h] + growth * cost) && ReadFrom(growth, clock)
    {
      var k := 0;
      growth := clock(0);
      ghost var ceiling;
      next, ceiling := FirstSum(h, clock(0), cost, bound);
      while next > cfg.largest
        invariant Accumulated(h, next, growth, cost, bound, ceiling) && growth == clock(k)
        decreases Rounds(ceiling, cfg.largest)
      {
        k := k + 1;
        ghost var was, overflown := growth, next;
        growth := clock(k);
        next, ceiling := Retry(h, clock(k), cost, bound, ceiling, was, overflown);
      }
    }

    /** The class at the top gives its first request away. */
    method PopRequest() returns (h: nat, r: Request)
      requires Valid() && q.handles != []
      modifies `q, `ideal
      ensures cfg.Valid() && Sim(q, ideal, scale) && ideal == TakeRequest(old(ideal)) && OkBut(ideal, h)
      ensures h == old(ideal.handles[0]) && r == NextRequest(old(ideal)).0
              && ideal.shares[h] == NextRequest(old(ideal)).1
    {
      TakeKeepsOk(ideal);
      TakeSim(q, ideal, scale);
      h := q.handles[0];
      r := q.queues[h][0];
      q, ideal := TakeRequest(q), TakeRequest(ideal);
    }

    /** Class h has paid, and goes back into the heap if it has more. */
    method Settle(h: nat, next: real, ghost paid: real)
      requires cfg.Valid() && Sim(q, ideal, scale) && OkBut(ideal, h) && Product(next, scale, paid)
      modifies `q, `ideal
      ensures Valid() && ideal == Charge(old(ideal), h, paid)
    {
      ChargeKeepsOk(ideal, h, paid);
      ChargeSim(q, ideal, scale, h, paid, next);
      ideal := Charge(ideal, h, paid);
      q := q.(acc := q.acc[h := next]);
      if q.queues[h] != [] && !q.inHeap[h] {
        q := q.(handles := HeapPush(q.handles, h, q.acc), inHeap := q.inHeap[h := true]);
      }
    }

    /** One turn of dispatch_requests. */
    method Dispatch(clock: nat -> real, ghost bound: real) returns (ghost growth: real)
      requires Valid() && q.handles != [] && Bounded(clock, bound)
      modifies `q, `scale, `ideal
      ensures Valid() && ideal == DispatchOne(old(ideal), IdealCost(old(ideal), cfg, growth)) && ReadFrom(growth, clock)
    {
      var h, r := PopRequest();
      ghost var taken := ideal;
      var cost := RequestCost(r, q.shares[h], cfg);
      var next;
      next, growth := NextAccumulated(h, cost, clock, bound);
      ghost var paid := taken.acc[h] + growth * cost;
      TakeThenCharge(old(ideal), cfg, growth, cost, paid);
      Settle(h, next, paid);
    }

    /** dispatch_requests(): growths are the growth factors the dispatches were charged with. */
    method DispatchRequests(clock: nat -> nat -> real, ghost bound: real) returns (ghost growths: seq<real>)
      requires Valid() && forall n :: Bounded(clock(n), bound)
      modifies `q, `scale, `ideal
      ensures Valid() && Dispatches(old(ideal), cfg, growths, ideal) && q.dispatched == ideal.dispatched
      ensures AllRead(growths, clock)
    {
      growths := [];
      var n := 0;
      while CanDispatch(q, cfg)
        invariant n == |growths| && Valid() && Dispatching(old(ideal), cfg, growths, ideal)
        invariant AllRead(growths, clock)
        decreases q.queued
      {
        HeapNotEmpty(ideal);
        ghost var before := ideal;
        ghost var growth := Dispatch(clock(n), bound);
        DispatchedMore(old(ideal), cfg, growths, before, growth);
        DispatchTakesOne(before, IdealCost(before, cfg, growth));
        ReadAll(growths, growth, clock);
        growths := growths + [growth];
        n := n + 1;
      }
      DispatchedAll(old(ideal), cfg, growths, ideal);
    }
  }
}
