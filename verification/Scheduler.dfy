/** The virtual-runtime scheduler of core/reactor.cc: task queues, their activation and their turns. */
module Scheduler {
  import opened Options
  import opened Sequences

  const WORD: int := 0x1_0000_0000
  const TWO_WORDS: int := 0x1_0000_0000_0000_0000

  /** What a product becomes in a signed 64-bit register. */
  function Wrap64(x: int): int {
    (x + TWO_WORDS / 2) % TWO_WORDS - TWO_WORDS / 2
  }

  /** The charge for a run: runtime times the queue's reciprocal share, never negative even after overflow. */
  function ToVruntime(runtime: int, reciprocal: int): (charge: int) {
    var scaled := Wrap64(runtime * reciprocal) / WORD;
    if scaled > 0 then scaled else 0
  }

  lemma ChargeBounds(runtime: int, reciprocal: int)
    ensures 0 <= ToVruntime(runtime, reciprocal) < WORD / 2
    ensures 0 <= runtime * reciprocal < TWO_WORDS / 2 ==> ToVruntime(runtime, reciprocal) == runtime * reciprocal / WORD
  {
    var p := runtime * reciprocal;
    var w := Wrap64(p);
    assert -TWO_WORDS / 2 <= w < TWO_WORDS / 2;
    assert w == WORD * (w / WORD) + w % WORD;
  }

  /** A task queue: its virtual runtime, how many tasks wait in it, and whether it counts as active. */
  datatype TaskQueue = TaskQueue(vruntime: int, reciprocal: int, backlog: nat, active: bool)

  /** The scheduler's state; queues are named by their index. current is the queue whose tasks run. */
  datatype Sched = Sched(queues: seq<TaskQueue>, active: seq<nat>, activating: seq<nat>, last: int,
    current: Option<nat>)

  predicate InRange(s: Sched, ids: seq<nat>) {
    forall i :: 0 <= i < |ids| ==> ids[i] < |s.queues|
  }

  ghost predicate Sorted(queues: seq<TaskQueue>, ids: seq<nat>) {
    forall i, j :: 0 <= i < j < |ids| && ids[i] < |queues| && ids[j] < |queues| ==>
                     queues[ids[i]].vruntime <= queues[ids[j]].vruntime
  }

  /** t goes behind every queue that is not strictly after it, so behind its equals. */
  function InsertSorted(queues: seq<TaskQueue>, ids: seq<nat>, t: nat): (r: seq<nat>)
    requires t < |queues| && forall i :: 0 <= i < |ids| ==> ids[i] < |queues|
    ensures |r| == |ids| + 1
    ensures forall x :: x in r <==> x == t || x in ids
    ensures forall i :: 0 <= i < |r| ==> r[i] < |queues|
  {
    if ids == [] || queues[t].vruntime < queues[ids[0]].vruntime then [t] + ids
    else [ids[0]] + InsertSorted(queues, ids[1..], t)
  }

  // ---- the steps ----

  function VMax(a: int, b: int): int {
    if a > b then a else b
  }

  function Activated(s: Sched, q: nat): Sched
    requires q < |s.queues|
  {
    if s.queues[q].active then s
    else s.(queues := s.queues[q := s.queues[q].(vruntime := VMax(s.last, s.queues[q].vruntime))],
            activating := s.activating + [q])
  }

  /** A task arrives; the queue is activated if it was empty. */
  function Added(s: Sched, q: nat): Sched
    requires q < |s.queues|
  {
    var t := s.(queues := s.queues[q := s.queues[q].(backlog := s.queues[q].backlog + 1)]);
    if s.queues[q].backlog == 0 then Activated(t, q) else t
  }

  function Inserted(s: Sched, t: nat): (r: Sched)
    requires t < |s.queues| && InRange(s, s.active)
    ensures |r.queues| == |s.queues| && InRange(r, r.active)
  {
    s.(queues := s.queues[t := s.queues[t].(active := true)],
       active := InsertSorted(s.queues, s.active, t))
  }

  function InsertedAll(s: Sched, ids: seq<nat>): (r: Sched)
    requires InRange(s, s.active) && InRange(s, ids)
    ensures |r.queues| == |s.queues| && InRange(r, r.active)
    decreases |ids|
  {
    if ids == [] then s else InsertedAll(Inserted(s, ids[0]), ids[1..])
  }

  /** The activating queues take their places among the active ones. */
  function Merged(s: Sched): (r: Sched)
    requires InRange(s, s.active) && InRange(s, s.activating)
    ensures |r.queues| == |s.queues| && InRange(r, r.active)
  {
    InsertedAll(s, s.activating).(activating := [])
  }

  /** The turn of the first active queue begins. */
  function Picked(s: Sched): Sched
    requires InRange(s, s.active) && InRange(s, s.activating) && Merged(s).active != []
  {
    var t := Merged(s);
    var q := t.active[0];
    t.(active := t.active[1..], current := Some(q), last := VMax(t.queues[q].vruntime, t.last))
  }

  /** A task of the current queue is taken off it to run. */
  function Consumed(s: Sched): Sched
    requires s.current.Some? && s.current.value < |s.queues| && s.queues[s.current.value].backlog > 0
  {
    var q := s.current.value;
    s.(queues := s.queues[q := s.queues[q].(backlog := s.queues[q].backlog - 1)])
  }

  /** The turn ends: the run is charged, and the queue goes back among the active ones or to sleep. */
  function Finished(s: Sched, runtime: int): Sched
    requires s.current.Some? && s.current.value < |s.queues| && InRange(s, s.active)
  {
    var q := s.current.value;
    var tq := s.queues[q];
    var t := s.(queues := s.queues[q := tq.(vruntime := tq.vruntime + ToVruntime(runtime, tq.reciprocal))],
                current := None);
    if tq.backlog > 0 then Inserted(t, q)
    else t.(queues := t.queues[q := t.queues[q].(active := false)])
  }

  datatype Step = Add(q: nat) | Pick | Consume | Finish(runtime: int)

  predicate Enabled(s: Sched, e: Step) {
    match e
    case Add(q) => q < |s.queues|
    case Pick => s.current.None? && |s.active| + |s.activating| > 0
    case Consume => s.current.Some? && s.current.value < |s.queues| && s.queues[s.current.value].backlog > 0
    case Finish(_) => s.current.Some? && s.current.value < |s.queues|
  }

  /** The charge of a run; every other step charges nothing. */
  function Charge(s: Sched, e: Step): int
    requires Enabled(s, e)
  {
    if e.Finish? then ToVruntime(e.runtime, s.queues[s.current.value].reciprocal) else 0
  }

  function Next(s: Sched, e: Step): Sched
    requires InRange(s, s.active) && InRange(s, s.activating) && Enabled(s, e)
  {
    match e
    case Add(q) => Added(s, q)
    case Pick => MergedCount(s, s.activating); Picked(s)
    case Consume => Consumed(s)
    case Finish(runtime) => Finished(s, runtime)
  }

  lemma {:induction false} MergedCount(s: Sched, ids: seq<nat>)
    requires InRange(s, s.active) && InRange(s, ids)
    ensures |InsertedAll(s, ids).active| == |s.active| + |ids|
    decreases |ids|
  {
    if ids != [] { MergedCount(Inserted(s, ids[0]), ids[1..]); }
  }

  // ---- the invariant ----

  ghost predicate Waiting(s: Sched, q: nat) {
    q in s.active || q in s.activating
  }

  /** d bounds the charge of a single run. */
  ghost predicate QueueOk(s: Sched, q: nat, d: int)
    requires q < |s.queues|
  {
    var tq := s.queues[q];
    && tq.vruntime <= s.last + d
    && (tq.active <==> q in s.active || s.current == Some(q))
    && (tq.backlog > 0 ==> Waiting(s, q) || s.current == Some(q))
    && (Waiting(s, q) ==> tq.backlog > 0 && s.last <= tq.vruntime && s.current != Some(q))
    && (s.current == Some(q) ==> tq.vruntime == s.last)
    && !(q in s.active && q in s.activating)
  }

  ghost predicate Inv(s: Sched, d: int) {
    && InRange(s, s.active) && InRange(s, s.activating) && d >= 0
    && Distinct(s.active) && Distinct(s.activating) && Sorted(s.queues, s.active)
    && (s.current.Some? ==> s.current.value < |s.queues|)
    && (forall q: nat {:trigger QueueOk(s, q, d)} :: q < |s.queues| ==> QueueOk(s, q, d))
  }

  lemma ConsOrder(queues: seq<TaskQueue>, x: nat, r: seq<nat>)
    requires Sorted(queues, r) && Distinct(r) && x !in r && x < |queues|
    requires forall y :: y in r ==> y < |queues| && queues[x].vruntime <= queues[y].vruntime
    ensures Sorted(queues, [x] + r) && Distinct([x] + r)
  {
    var c := [x] + r;
    forall i, j | 0 <= i < j < |c| && c[i] < |queues| && c[j] < |queues|
      ensures c[i] != c[j] && queues[c[i]].vruntime <= queues[c[j]].vruntime
    {
      assert c[j] == r[j - 1] && r[j - 1] in r;
      if i > 0 { assert c[i] == r[i - 1]; }
    }
    forall i, j | 0 <= i < j < |c| ensures c[i] != c[j] {
      assert c[j] == r[j - 1] && r[j - 1] in r;
      if i > 0 { assert c[i] == r[i - 1]; }
    }
  }

  lemma TailOrder(queues: seq<TaskQueue>, ids: seq<nat>)
    requires Sorted(queues, ids) && Distinct(ids) && ids != [] && forall i :: 0 <= i < |ids| ==> ids[i] < |queues|
    ensures Sorted(queues, ids[1..]) && Distinct(ids[1..]) && ids[0] !in ids[1..]
    ensures forall x :: x in ids ==> queues[ids[0]].vruntime <= queues[x].vruntime
    ensures forall x :: x in ids <==> x == ids[0] || x in ids[1..]
  {
    var r := ids[1..];
    assert ids == [ids[0]] + r;
    forall i, j | 0 <= i < j < |r| ensures r[i] == ids[i + 1] && r[j] == ids[j + 1] { }
    forall x | x in ids ensures queues[ids[0]].vruntime <= queues[x].vruntime {
      var i :| 0 <= i < |ids| && ids[i] == x;
      assert ids[0] in ids;
    }
  }

  lemma {:induction false} InsertKeepsOrder(queues: seq<TaskQueue>, ids: seq<nat>, t: nat)
    requires t < |queues| && forall i :: 0 <= i < |ids| ==> ids[i] < |queues|
    requires Sorted(queues, ids) && Distinct(ids) && t !in ids
    ensures Sorted(queues, InsertSorted(queues, ids, t)) && Distinct(InsertSorted(queues, ids, t))
  {
    if ids != [] {
      TailOrder(queues, ids);
    }
    if ids != [] && queues[t].vruntime >= queues[ids[0]].vruntime {
      InsertKeepsOrder(queues, ids[1..], t);
      ConsOrder(queues, ids[0], InsertSorted(queues, ids[1..], t));
    } else {
      ConsOrder(queues, t, ids);
    }
  }

  lemma SplitBehindFirst(ids: seq<nat>, t: nat, i: nat)
    requires 0 < i <= |ids|
    ensures [ids[0]] + (ids[1..][..i - 1] + [t] + ids[1..][i - 1..]) == ids[..i] + [t] + ids[i..]
  {
    assert ids[1..][..i - 1] == ids[1..i] && ids[1..][i - 1..] == ids[i..];
    assert [ids[0]] + ids[1..i] == ids[..i];
  }

  /** The insertion point: behind everything not after t, in front of the first that is. */
  lemma {:induction false} InsertAt(queues: seq<TaskQueue>, ids: seq<nat>, t: nat, i: nat)
    requires t < |queues| && i <= |ids| && forall j :: 0 <= j < |ids| ==> ids[j] < |queues|
    requires forall j :: 0 <= j < i ==> queues[ids[j]].vruntime <= queues[t].vruntime
    requires i < |ids| ==> queues[t].vruntime < queues[ids[i]].vruntime
    ensures InsertSorted(queues, ids, t) == ids[..i] + [t] + ids[i..]
    decreases i
  {
    if i == 0 {
      assert ids[..0] + [t] + ids[0..] == [t] + ids;
    } else {
      var rest := ids[1..];
      assert forall j :: 0 <= j < |rest| ==> rest[j] == ids[j + 1];
      InsertAt(queues, rest, t, i - 1);
      SplitBehindFirst(ids, t, i);
    }
  }

  lemma InsertAtEnd(queues: seq<TaskQueue>, ids: seq<nat>, t: nat)
    requires t < |queues| && Sorted(queues, ids) && forall j :: 0 <= j < |ids| ==> ids[j] < |queues|
    requires ids != [] ==> queues[ids[|ids| - 1]].vruntime <= queues[t].vruntime
    ensures InsertSorted(queues, ids, t) == ids + [t]
  {
    forall j | 0 <= j < |ids| ensures queues[ids[j]].vruntime <= queues[t].vruntime {
      assert j < |ids| - 1 ==> queues[ids[j]].vruntime <= queues[ids[|ids| - 1]].vruntime;
    }
    InsertAt(queues, ids, t, |ids|);
    assert ids[..|ids|] + [t] + ids[|ids|..] == ids + [t];
  }

  /** One swap moves t one place further back. */
  lemma Bubble(ids: seq<nat>, t: nat, i: nat)
    requires i < |ids|
    ensures var a := ids[..i] + [t] + ids[i..];
            && a[i] == t && a[i + 1] == ids[i]
            && a[i := a[i + 1]][i + 1 := a[i]] == ids[..i + 1] + [t] + ids[i + 1..]
  {
  }

  /** Changing only flags and backlogs keeps a list sorted. */
  lemma SortedSame(queues: seq<TaskQueue>, others: seq<TaskQueue>, ids: seq<nat>)
    requires Sorted(queues, ids) && |others| == |queues|
    requires forall q :: 0 <= q < |queues| && q in ids ==> others[q].vruntime == queues[q].vruntime
    ensures Sorted(others, ids)
  {
    forall i, j | 0 <= i < j < |ids| && ids[i] < |queues| && ids[j] < |queues|
      ensures others[ids[i]].vruntime <= others[ids[j]].vruntime
    {
      assert ids[i] in ids && ids[j] in ids;
    }
  }

  // ---- every step keeps the invariant ----

  lemma AppendDistinct(ids: seq<nat>, q: nat)
    requires Distinct(ids) && q !in ids
    ensures Distinct(ids + [q])
  {
  }

  lemma AddKeepsInv(s: Sched, q: nat, d: int)
    requires Inv(s, d) && q < |s.queues|
    ensures Inv(Added(s, q), d)
  {
    var t := Added(s, q);
    assert QueueOk(s, q, d);
    if s.queues[q].backlog == 0 && !s.queues[q].active {
      AppendDistinct(s.activating, q);
    }
    SortedSame(s.queues, t.queues, s.active);
    forall r: nat | r < |t.queues| ensures QueueOk(t, r, d) {
      assert QueueOk(s, r, d);
    }
  }

  /** A queue leaves the activating list for its place among the active ones. */
  lemma InsertStep(s: Sched, d: int)
    requires Inv(s, d) && s.activating != [] && s.current.None?
    ensures var t := Inserted(s, s.activating[0]).(activating := s.activating[1..]); Inv(t, d)
  {
    var q := s.activating[0];
    var t := Inserted(s, q).(activating := s.activating[1..]);
    assert q in s.activating && QueueOk(s, q, d);
    InsertKeepsOrder(s.queues, s.active, q);
    SortedSame(s.queues, t.queues, t.active);
    DistinctTail(s.activating);
    forall r: nat | r < |t.queues| ensures QueueOk(t, r, d) {
      assert QueueOk(s, r, d);
    }
  }

  lemma DistinctTail(ids: seq<nat>)
    requires Distinct(ids) && ids != []
    ensures Distinct(ids[1..]) && ids[0] !in ids[1..]
    ensures forall x :: x in ids <==> x == ids[0] || x in ids[1..]
  {
    assert ids == [ids[0]] + ids[1..];
  }

  lemma {:induction false} MergeKeepsInv(s: Sched, d: int)
    requires Inv(s, d) && s.current.None?
    ensures Inv(Merged(s), d)
    ensures forall q: nat :: Waiting(s, q) <==> q in Merged(s).active
    ensures Merged(s).current == s.current && Merged(s).last == s.last
    ensures forall q :: 0 <= q < |s.queues| ==>
              Merged(s).queues[q].vruntime == s.queues[q].vruntime
                && Merged(s).queues[q].reciprocal == s.queues[q].reciprocal
    decreases |s.activating|
  {
    if s.activating == [] {
      assert Merged(s) == s;
    } else {
      var t := Inserted(s, s.activating[0]).(activating := s.activating[1..]);
      InsertStep(s, d);
      DistinctTail(s.activating);
      MergeKeepsInv(t, d);
      ListPlaysNoRole(Inserted(s, s.activating[0]), s.activating[1..], s.activating[1..]);
      assert Merged(s) == Merged(t);
      assert forall q: nat :: Waiting(s, q) <==> Waiting(t, q);
    }
  }

  /** The activating list itself plays no role while its queues are inserted. */
  lemma {:induction false} ListPlaysNoRole(s: Sched, ids: seq<nat>, other: seq<nat>)
    requires InRange(s, s.active) && InRange(s, ids)
    ensures InsertedAll(s.(activating := other), ids).(activating := []) == InsertedAll(s, ids).(activating := [])
    decreases |ids|
  {
    if ids != [] {
      ListPlaysNoRole(Inserted(s, ids[0]), ids[1..], other);
    }
  }

  lemma PickKeepsInv(s: Sched, d: int)
    requires Inv(s, d) && Enabled(s, Pick)
    ensures Merged(s).active != [] && Inv(Picked(s), d)
  {
    MergedCount(s, s.activating);
    MergeKeepsInv(s, d);
    var t, u := Merged(s), Picked(s);
    TailOrder(t.queues, t.active);
    assert QueueOk(t, t.active[0], d);
    assert t.active[0] in t.active;
    forall r: nat | r < |u.queues| ensures QueueOk(u, r, d) {
      assert QueueOk(t, r, d);
    }
  }

  lemma ConsumeKeepsInv(s: Sched, d: int)
    requires Inv(s, d) && Enabled(s, Consume)
    ensures Inv(Consumed(s), d)
  {
    var t := Consumed(s);
    assert QueueOk(s, s.current.value, d);
    SortedSame(s.queues, t.queues, s.active);
    forall r: nat | r < |t.queues| ensures QueueOk(t, r, d) {
      assert QueueOk(s, r, d);
    }
  }

  /** The state of a finished run before the queue is put back or to sleep. */
  ghost function Charged(s: Sched, runtime: int): Sched
    requires s.current.Some? && s.current.value < |s.queues|
  {
    var q := s.current.value;
    s.(queues := s.queues[q := s.queues[q].(vruntime := s.queues[q].vruntime + Charge(s, Finish(runtime)))],
       current := None)
  }

  lemma RequeueKeepsInv(s: Sched, runtime: int, d: int)
    requires Inv(s, d) && Enabled(s, Finish(runtime)) && Charge(s, Finish(runtime)) <= d
    requires s.queues[s.current.value].backlog > 0
    ensures Inv(Finished(s, runtime), d)
  {
    var q, t, u := s.current.value, Charged(s, runtime), Finished(s, runtime);
    assert QueueOk(s, q, d);
    SortedSame(s.queues, t.queues, s.active);
    InsertKeepsOrder(t.queues, t.active, q);
    SortedSame(t.queues, u.queues, u.active);
    forall r: nat | r < |u.queues| ensures QueueOk(u, r, d) {
      assert QueueOk(s, r, d);
    }
  }

  lemma SleepKeepsInv(s: Sched, runtime: int, d: int)
    requires Inv(s, d) && Enabled(s, Finish(runtime)) && Charge(s, Finish(runtime)) <= d
    requires s.queues[s.current.value].backlog == 0
    ensures Inv(Finished(s, runtime), d)
  {
    var u := Finished(s, runtime);
    assert QueueOk(s, s.current.value, d);
    SortedSame(s.queues, u.queues, s.active);
    forall r: nat | r < |u.queues| ensures QueueOk(u, r, d) {
      assert QueueOk(s, r, d);
    }
  }

  lemma FinishKeepsInv(s: Sched, runtime: int, d: int)
    requires Inv(s, d) && Enabled(s, Finish(runtime)) && Charge(s, Finish(runtime)) <= d
    ensures Inv(Finished(s, runtime), d)
  {
    if s.queues[s.current.value].backlog > 0 {
      RequeueKeepsInv(s, runtime, d);
    } else {
      SleepKeepsInv(s, runtime, d);
    }
  }

  lemma StepKeepsInv(s: Sched, e: Step, d: int)
    requires Inv(s, d) && Enabled(s, e) && Charge(s, e) <= d
    ensures Inv(Next(s, e), d)
  {
    match e
    case Add(q) => AddKeepsInv(s, q, d);
    case Pick => PickKeepsInv(s, d);
    case Consume => ConsumeKeepsInv(s, d);
    case Finish(runtime) => FinishKeepsInv(s, runtime, d);
  }

  // ---- whole runs ----

  /** The steps can be taken one after the other from s, and no run is charged more than d or less than c. */
  ghost predicate Trace(s: Sched, steps: seq<Step>, c: int, d: int)
    decreases |steps|
  {
    InRange(s, s.active) && InRange(s, s.activating) &&
    (steps != [] ==>
       && Enabled(s, steps[0]) && (steps[0].Finish? ==> c <= Charge(s, steps[0])) && Charge(s, steps[0]) <= d
       && Trace(Next(s, steps[0]), steps[1..], c, d))
  }

  ghost function After(s: Sched, steps: seq<Step>, c: int, d: int): Sched
    requires Trace(s, steps, c, d)
    decreases |steps|
  {
    if steps == [] then s else After(Next(s, steps[0]), steps[1..], c, d)
  }

  function Initial(reciprocals: seq<int>): Sched {
    Sched(seq(|reciprocals|, i requires 0 <= i < |reciprocals| => TaskQueue(0, reciprocals[i], 0, false)), [], [], 0,
      None)
  }

  lemma InitialInv(reciprocals: seq<int>, d: int)
    requires d >= 0
    ensures Inv(Initial(reciprocals), d)
  {
    var s := Initial(reciprocals);
    forall q: nat | q < |s.queues| ensures QueueOk(s, q, d) { }
  }

  /**
   * Fairness window: after any run, every queue that waits for its turn has a virtual runtime between
   * _last_vruntime and _last_vruntime plus the largest charge of a single run.
   */
  lemma {:induction false} FairnessWindow(s: Sched, steps: seq<Step>, c: int, d: int)
    requires Inv(s, d) && Trace(s, steps, c, d)
    ensures var t := After(s, steps, c, d);
            && Inv(t, d) && |t.queues| == |s.queues| && s.last <= t.last
            && forall q: nat :: q < |t.queues| && Waiting(t, q) ==> t.last <= t.queues[q].vruntime <= t.last + d
    decreases |steps|
  {
    if steps == [] {
      forall q: nat | q < |s.queues| && Waiting(s, q) ensures s.last <= s.queues[q].vruntime <= s.last + d {
        assert QueueOk(s, q, d);
      }
    } else {
      StepKeepsInv(s, steps[0], d);
      LastGrows(s, steps[0], d);
      FairnessWindow(Next(s, steps[0]), steps[1..], c, d);
    }
  }

  lemma LastGrows(s: Sched, e: Step, d: int)
    requires Inv(s, d) && Enabled(s, e)
    ensures s.last <= Next(s, e).last && |Next(s, e).queues| == |s.queues|
  {
    if e.Pick? {
      MergedCount(s, s.activating);
      MergeKeepsInv(s, d);
    }
  }

  /** The queue picked has the least virtual runtime of all that wait, and becomes the new reference. */
  lemma PickIsMinimum(s: Sched, d: int)
    requires Inv(s, d) && Enabled(s, Pick)
    ensures var t := Next(s, Pick);
            && t.current.Some? && Waiting(s, t.current.value) && t.current.value < |s.queues|
            && t.last == s.queues[t.current.value].vruntime
            && forall q: nat :: q < |s.queues| && Waiting(s, q) ==> t.last <= s.queues[q].vruntime
  {
    MergedCount(s, s.activating);
    MergeKeepsInv(s, d);
    var m := Merged(s);
    TailOrder(m.queues, m.active);
    assert m.active[0] in m.active && QueueOk(m, m.active[0], d);
  }

  /** The virtual runtimes at which queues are picked, in the order of the run. */
  ghost function PickTimes(s: Sched, steps: seq<Step>, c: int, d: int): seq<int>
    requires Trace(s, steps, c, d)
    decreases |steps|
  {
    if steps == [] then []
    else (if steps[0].Pick? then [Next(s, steps[0]).last] else []) + PickTimes(Next(s, steps[0]), steps[1..], c, d)
  }

  /** p never falls, and never is below x. */
  ghost predicate RisesFrom(p: seq<int>, x: int) {
    && (forall i :: 0 <= i < |p| ==> x <= p[i])
    && (forall i, j :: 0 <= i < j < |p| ==> p[i] <= p[j])
  }

  lemma RisesPrepend(p: seq<int>, x: int, y: int)
    requires RisesFrom(p, x) && y <= x
    ensures RisesFrom([x] + p, y) && RisesFrom(p, y)
  {
  }

  /** Picked virtual runtimes never decrease. */
  lemma {:induction false} PicksNeverGoBack(s: Sched, steps: seq<Step>, c: int, d: int)
    requires Inv(s, d) && Trace(s, steps, c, d)
    ensures RisesFrom(PickTimes(s, steps, c, d), s.last)
    decreases |steps|
  {
    if steps != [] {
      var t := Next(s, steps[0]);
      StepKeepsInv(s, steps[0], d);
      LastGrows(s, steps[0], d);
      PicksNeverGoBack(t, steps[1..], c, d);
      var rest := PickTimes(t, steps[1..], c, d);
      RisesPrepend(rest, t.last, s.last);
      assert [] + rest == rest;
    }
  }

  // ---- bounded wait ----

  /** How many more turns r can take before q, at most: one for each unit it is not ahead of q, and one for a tie. */
  ghost function Turns(s: Sched, q: nat, r: nat): nat
    requires q < |s.queues| && r < |s.queues|
  {
    var lead := s.queues[q].vruntime - s.queues[r].vruntime + (if s.current == Some(r) then 0 else 1);
    if r == q || lead < 0 then 0 else lead
  }

  ghost function AllTurns(s: Sched, q: nat, n: nat): nat
    requires q < |s.queues| && n <= |s.queues|
  {
    if n == 0 then 0 else AllTurns(s, q, n - 1) + Turns(s, q, n - 1)
  }

  lemma {:induction false} TurnsAddUp(s: Sched, t: Sched, q: nat, n: nat, x: nat)
    requires |t.queues| == |s.queues| && q < |s.queues| && n <= |s.queues|
    requires forall r: nat :: r < |s.queues| ==> Turns(t, q, r) <= Turns(s, q, r)
    ensures AllTurns(t, q, n) <= AllTurns(s, q, n)
    ensures x < n && Turns(t, q, x) < Turns(s, q, x) ==> AllTurns(t, q, n) < AllTurns(s, q, n)
  {
    if n > 0 { TurnsAddUp(s, t, q, n - 1, x); }
  }

  lemma PickLeavesOthers(s: Sched, q: nat, d: int)
    requires Inv(s, d) && Enabled(s, Pick) && q < |s.queues| && Waiting(s, q)
    ensures var t := Next(s, Pick);
            && |t.queues| == |s.queues| && (t.current != Some(q) ==> Waiting(t, q))
            && forall r :: 0 <= r < |s.queues| ==> t.queues[r].vruntime == s.queues[r].vruntime
  {
    MergedCount(s, s.activating);
    MergeKeepsInv(s, d);
    var m := Merged(s);
    TailOrder(m.queues, m.active);
    assert q in m.active;
  }

  lemma PickUsesTurn(s: Sched, q: nat, d: int)
    requires Inv(s, d) && Enabled(s, Pick) && q < |s.queues| && Waiting(s, q)
    requires Next(s, Pick).current != Some(q)
    ensures var t := Next(s, Pick);
            && |t.queues| == |s.queues| && Waiting(t, q)
            && AllTurns(t, q, |s.queues|) < AllTurns(s, q, |s.queues|)
  {
    PickIsMinimum(s, d);
    PickLeavesOthers(s, q, d);
    OneTurnLess(s, Next(s, Pick), q);
  }

  lemma OneTurnLess(s: Sched, t: Sched, q: nat)
    requires |t.queues| == |s.queues| && q < |s.queues| && s.current.None?
    requires forall r :: 0 <= r < |s.queues| ==> t.queues[r].vruntime == s.queues[r].vruntime
    requires t.current.Some? && t.current.value < |s.queues| && t.current.value != q
    requires s.queues[t.current.value].vruntime <= s.queues[q].vruntime
    ensures AllTurns(t, q, |s.queues|) < AllTurns(s, q, |s.queues|)
  {
    TurnsAddUp(s, t, q, |s.queues|, t.current.value);
  }

  lemma AddUsesNoTurn(s: Sched, x: nat, q: nat, d: int)
    requires Inv(s, d) && x < |s.queues| && q < |s.queues| && Waiting(s, q)
    ensures var t := Added(s, x); Waiting(t, q) && AllTurns(t, q, |s.queues|) <= AllTurns(s, q, |s.queues|)
  {
    var t := Added(s, x);
    assert QueueOk(s, q, d);
    forall r: nat | r < |s.queues| ensures Turns(t, q, r) <= Turns(s, q, r) {
      assert t.queues[r].vruntime >= s.queues[r].vruntime;
    }
    TurnsAddUp(s, t, q, |s.queues|, 0);
  }

  lemma FinishUsesNoTurn(s: Sched, runtime: int, q: nat, d: int)
    requires Inv(s, d) && Enabled(s, Finish(runtime)) && 1 <= Charge(s, Finish(runtime)) && q < |s.queues|
             && Waiting(s, q)
    ensures var t := Finished(s, runtime); Waiting(t, q) && AllTurns(t, q, |s.queues|) <= AllTurns(s, q, |s.queues|)
  {
    var t := Finished(s, runtime);
    assert QueueOk(s, q, d);
    var c := s.current.value;
    forall r: nat | r < |s.queues| ensures Turns(t, q, r) <= Turns(s, q, r) {
      assert t.queues[r].vruntime == s.queues[r].vruntime + if r == c then Charge(s, Finish(runtime)) else 0;
    }
    TurnsAddUp(s, t, q, |s.queues|, 0);
  }

  lemma ConsumeUsesNoTurn(s: Sched, q: nat)
    requires Enabled(s, Consume) && q < |s.queues| && Waiting(s, q)
    ensures var t := Consumed(s); Waiting(t, q) && AllTurns(t, q, |s.queues|) <= AllTurns(s, q, |s.queues|)
  {
    var t := Consumed(s);
    forall r: nat | r < |s.queues| ensures Turns(t, q, r) <= Turns(s, q, r) {
      assert t.queues[r].vruntime == s.queues[r].vruntime;
    }
    TurnsAddUp(s, t, q, |s.queues|, 0);
  }

  /** A step that does not pick q gives no other queue more turns before q, and a pick uses one up. */
  lemma StepUsesTurns(s: Sched, e: Step, q: nat, d: int)
    requires Inv(s, d) && Enabled(s, e) && q < |s.queues| && Waiting(s, q)
    requires e.Finish? ==> 1 <= Charge(s, e)
    requires Next(s, e).current != Some(q)
    ensures var t := Next(s, e);
            && |t.queues| == |s.queues| && Waiting(t, q)
            && AllTurns(t, q, |s.queues|) + (if e.Pick? then 1 else 0) <= AllTurns(s, q, |s.queues|)
  {
    match e
    case Add(x) => AddUsesNoTurn(s, x, q, d);
    case Pick => PickUsesTurn(s, q, d);
    case Consume => ConsumeUsesNoTurn(s, q);
    case Finish(runtime) => FinishUsesNoTurn(s, runtime, q, d);
  }

  ghost function Picks(steps: seq<Step>): nat {
    if steps == [] then 0 else (if steps[0].Pick? then 1 else 0) + Picks(steps[1..])
  }

  /** No step of the run picks q. */
  ghost predicate NeverPicked(s: Sched, steps: seq<Step>, c: int, d: int, q: nat)
    requires Trace(s, steps, c, d)
    decreases |steps|
  {
    steps != [] ==> Next(s, steps[0]).current != Some(q) && NeverPicked(Next(s, steps[0]), steps[1..], c, d, q)
  }

  /**
   * Bounded wait: if every run charges at least 1, at most AllTurns other turns are taken before a
   * waiting queue gets its own, however other queues go to sleep and wake up in between.
   */
  lemma {:induction false} BoundedWait(s: Sched, steps: seq<Step>, d: int, q: nat)
    requires Inv(s, d) && Trace(s, steps, 1, d) && q < |s.queues| && Waiting(s, q)
    requires NeverPicked(s, steps, 1, d, q)
    ensures Picks(steps) <= AllTurns(s, q, |s.queues|)
    decreases |steps|
  {
    if steps != [] {
      StepKeepsInv(s, steps[0], d);
      StepUsesTurns(s, steps[0], q, d);
      BoundedWait(Next(s, steps[0]), steps[1..], d, q);
    }
  }

  lemma {:induction false} TraceJoins(s: Sched, a: seq<Step>, b: seq<Step>, c: int, d: int)
    requires Trace(s, a, c, d) && Trace(After(s, a, c, d), b, c, d)
    ensures Trace(s, a + b, c, d) && After(s, a + b, c, d) == After(After(s, a, c, d), b, c, d)
    decreases |a|
  {
    if a == [] {
      assert a + b == b;
    } else {
      assert (a + b)[1..] == a[1..] + b;
      TraceJoins(Next(s, a[0]), a[1..], b, c, d);
    }
  }

  lemma TraceGrows(s: Sched, a: seq<Step>, e: Step, d: int)
    requires Trace(s, a, 0, d) && Inv(After(s, a, 0, d), d)
    requires Enabled(After(s, a, 0, d), e) && 0 <= Charge(After(s, a, 0, d), e) <= d
    ensures Trace(s, a + [e], 0, d) && After(s, a + [e], 0, d) == Next(After(s, a, 0, d), e)
    ensures Inv(After(s, a + [e], 0, d), d)
  {
    var t := After(s, a, 0, d);
    StepKeepsInv(t, e, d);
    assert Trace(Next(t, e), [], 0, d);
    assert [e][1..] == [];
    assert Trace(t, [e], 0, d);
    TraceJoins(s, a, [e], 0, d);
  }

  // ---- first come, first served ----

  ghost predicate Before(ids: seq<nat>, q: nat, r: nat) {
    exists i, j :: 0 <= i < j < |ids| && ids[i] == q && ids[j] == r
  }

  lemma BeforeCons(ids: seq<nat>, x: nat, q: nat, r: nat)
    ensures Before([x] + ids, q, r) <==> Before(ids, q, r) || (x == q && r in ids)
  {
    var c := [x] + ids;
    if Before(ids, q, r) {
      var i, j :| 0 <= i < j < |ids| && ids[i] == q && ids[j] == r;
      assert c[i + 1] == q && c[j + 1] == r;
    }
    if x == q && r in ids {
      var j :| 0 <= j < |ids| && ids[j] == r;
      assert c[0] == q && c[j + 1] == r;
    }
    if Before(c, q, r) {
      var i, j :| 0 <= i < j < |c| && c[i] == q && c[j] == r;
      assert ids[j - 1] == r;
      if i > 0 { assert ids[i - 1] == q; }
    }
  }

  /** Insertion keeps the order of the queues that are there, and puts t behind its equals. */
  lemma {:induction false} InsertBehindEquals(queues: seq<TaskQueue>, ids: seq<nat>, t: nat, q: nat, r: nat)
    requires t < |queues| && forall i :: 0 <= i < |ids| ==> ids[i] < |queues|
    ensures Before(ids, q, r) ==> Before(InsertSorted(queues, ids, t), q, r)
    ensures Sorted(queues, ids) && q in ids && queues[q].vruntime <= queues[t].vruntime ==>
              Before(InsertSorted(queues, ids, t), q, t)
  {
    if ids == [] || queues[t].vruntime < queues[ids[0]].vruntime {
      BeforeCons(ids, t, q, r);
      if Sorted(queues, ids) && q in ids {
        var i :| 0 <= i < |ids| && ids[i] == q;
        assert queues[ids[0]].vruntime <= queues[ids[i]].vruntime;
      }
    } else {
      assert ids == [ids[0]] + ids[1..];
      InsertBehindEquals(queues, ids[1..], t, q, r);
      BeforeCons(ids[1..], ids[0], q, r);
      BeforeCons(InsertSorted(queues, ids[1..], t), ids[0], q, r);
      BeforeCons(InsertSorted(queues, ids[1..], t), ids[0], q, t);
    }
  }

  lemma {:induction false} MergeKeepsBefore(s: Sched, ids: seq<nat>, q: nat, r: nat)
    requires InRange(s, s.active) && InRange(s, ids) && Before(s.active, q, r)
    ensures Before(InsertedAll(s, ids).active, q, r)
    decreases |ids|
  {
    if ids != [] {
      InsertBehindEquals(s.queues, s.active, ids[0], q, r);
      MergeKeepsBefore(Inserted(s, ids[0]), ids[1..], q, r);
    }
  }

  lemma PickKeepsBefore(s: Sched, q: nat, r: nat, d: int)
    requires Inv(s, d) && Enabled(s, Pick) && Before(s.active, q, r) && q != r
    requires Next(s, Pick).current != Some(q)
    ensures Before(Next(s, Pick).active, q, r) && Next(s, Pick).current != Some(r)
  {
    MergedCount(s, s.activating);
    MergeKeepsBefore(s, s.activating, q, r);
    MergeKeepsInv(s, d);
    var ids := Merged(s).active;
    TailOrder(Merged(s).queues, ids);
    BehindTheFirst(ids, q, r);
  }

  lemma BehindTheFirst(ids: seq<nat>, q: nat, r: nat)
    requires Before(ids, q, r) && ids[0] != q && ids[0] !in ids[1..]
    ensures Before(ids[1..], q, r) && ids[0] != r
  {
    assert ids == [ids[0]] + ids[1..];
    BeforeCons(ids[1..], ids[0], q, r);
    var i, j :| 0 <= i < j < |ids[1..]| && ids[1..][i] == q && ids[1..][j] == r;
    assert ids[1..][j] in ids[1..];
  }

  /** A queue that stands behind another in the run queue is not picked before it. */
  lemma StepKeepsBefore(s: Sched, e: Step, q: nat, r: nat, d: int)
    requires Inv(s, d) && Enabled(s, e) && Before(s.active, q, r) && q != r
    requires Next(s, e).current != Some(q)
    ensures Before(Next(s, e).active, q, r)
    ensures e.Pick? ==> Next(s, e).current != Some(r)
  {
    if e.Pick? {
      PickKeepsBefore(s, q, r, d);
    } else if e.Finish? {
      InsertBehindEquals(Charged(s, e.runtime).queues, s.active, s.current.value, q, r);
    }
  }

  lemma {:induction false} NoOvertaking(s: Sched, steps: seq<Step>, d: int, q: nat, r: nat)
    requires Inv(s, d) && Trace(s, steps, 0, d) && q < |s.queues| && r < |s.queues| && q != r
    requires Before(s.active, q, r) && NeverPicked(s, steps, 0, d, q)
    ensures NeverPicked(s, steps, 0, d, r)
    decreases |steps|
  {
    if steps != [] {
      var t := Next(s, steps[0]);
      StepKeepsInv(s, steps[0], d);
      StepKeepsBefore(s, steps[0], q, r, d);
      LastGrows(s, steps[0], d);
      var i, j :| 0 <= i < j < |t.active| && t.active[i] == q && t.active[j] == r;
      assert r in t.active && QueueOk(t, r, d);
      NoOvertaking(t, steps[1..], d, q, r);
    }
  }

  // ---- no task is lost ----

  ghost predicate Awake(s: Sched, q: nat) {
    Waiting(s, q) || s.current == Some(q)
  }

  /** The step ends a turn of q. */
  ghost predicate EndsTurnOf(s: Sched, e: Step, q: nat) {
    e.Finish? && s.current == Some(q)
  }

  /** The step takes a task of q off its queue. */
  ghost predicate TakesTaskOf(s: Sched, e: Step, q: nat) {
    e.Consume? && s.current == Some(q)
  }

  /** A task that arrives is one more in its queue and one that runs is one less; nothing else changes a queue. */
  lemma StepBacklog(s: Sched, e: Step, q: nat, d: int)
    requires Inv(s, d) && Enabled(s, e) && q < |s.queues|
    ensures q < |Next(s, e).queues|
    ensures Next(s, e).queues[q].backlog
            == s.queues[q].backlog + (if e == Add(q) then 1 else 0) - (if TakesTaskOf(s, e, q) then 1 else 0)
  {
    if e.Pick? {
      MergedCount(s, s.activating);
      MergeKeepsBacklog(s, s.activating, q);
    }
  }

  lemma {:induction false} MergeKeepsBacklog(s: Sched, ids: seq<nat>, q: nat)
    requires InRange(s, s.active) && InRange(s, ids) && q < |s.queues|
    ensures InsertedAll(s, ids).queues[q].backlog == s.queues[q].backlog
    decreases |ids|
  {
    if ids != [] {
      MergeKeepsBacklog(Inserted(s, ids[0]), ids[1..], q);
    }
  }

  ghost function Arrived(steps: seq<Step>, q: nat): nat {
    if steps == [] then 0 else (if steps[0] == Add(q) then 1 else 0) + Arrived(steps[1..], q)
  }

  /** How many tasks of q were taken off its queue to run. */
  ghost function Taken(s: Sched, steps: seq<Step>, c: int, d: int, q: nat): nat
    requires Trace(s, steps, c, d)
    decreases |steps|
  {
    if steps == [] then 0
    else (if TakesTaskOf(s, steps[0], q) then 1 else 0) + Taken(Next(s, steps[0]), steps[1..], c, d, q)
  }

  /** Over any run, the tasks that wait are those that waited and those that arrived, but for those that ran. */
  lemma {:induction false} NoTaskIsLost(s: Sched, steps: seq<Step>, c: int, d: int, q: nat)
    requires Inv(s, d) && Trace(s, steps, c, d) && q < |s.queues|
    ensures var t := After(s, steps, c, d);
            && q < |t.queues|
            && t.queues[q].backlog + Taken(s, steps, c, d, q) == s.queues[q].backlog + Arrived(steps, q)
    decreases |steps|
  {
    if steps != [] {
      StepKeepsInv(s, steps[0], d);
      StepBacklog(s, steps[0], q, d);
      NoTaskIsLost(Next(s, steps[0]), steps[1..], c, d, q);
    }
  }

  /**
   * What a step does to a virtual runtime: the end of its turn adds the charge, and a queue that wakes up
   * keeps its own or, if that is less, gets _last_vruntime. It joins behind those that woke up before it.
   */
  lemma StepVruntime(s: Sched, e: Step, q: nat, d: int)
    requires Inv(s, d) && Enabled(s, e) && q < |s.queues|
    ensures q < |Next(s, e).queues|
    ensures var v, w := s.queues[q].vruntime, Next(s, e).queues[q].vruntime;
            if EndsTurnOf(s, e, q) then w == v + Charge(s, e)
            else if e == Add(q) && !Awake(s, q) then
              w >= v && w >= s.last && (w == v || w == s.last) && Next(s, e).activating == s.activating + [q]
            else w == v
  {
    assert QueueOk(s, q, d);
    if e.Pick? {
      MergedCount(s, s.activating);
      MergeKeepsInv(s, d);
    }
  }

  // ---- weighted fairness ----

  /** q waits or runs in every state of the run. */
  ghost predicate NeverSleeps(s: Sched, steps: seq<Step>, c: int, d: int, q: nat)
    requires Trace(s, steps, c, d)
    decreases |steps|
  {
    Awake(s, q) && (steps != [] ==> NeverSleeps(Next(s, steps[0]), steps[1..], c, d, q))
  }

  /** What the turns of q in the run are charged, all together. */
  ghost function Charges(s: Sched, steps: seq<Step>, c: int, d: int, q: nat): int
    requires Trace(s, steps, c, d)
    decreases |steps|
  {
    if steps == [] then 0
    else (if EndsTurnOf(s, steps[0], q) then Charge(s, steps[0]) else 0)
         + Charges(Next(s, steps[0]), steps[1..], c, d, q)
  }

  /** How long they took. */
  ghost function CpuTime(s: Sched, steps: seq<Step>, c: int, d: int, q: nat): int
    requires Trace(s, steps, c, d)
    decreases |steps|
  {
    if steps == [] then 0
    else (if EndsTurnOf(s, steps[0], q) then steps[0].runtime else 0)
         + CpuTime(Next(s, steps[0]), steps[1..], c, d, q)
  }

  /** How many there are. */
  ghost function TurnsOf(s: Sched, steps: seq<Step>, c: int, d: int, q: nat): nat
    requires Trace(s, steps, c, d)
    decreases |steps|
  {
    if steps == [] then 0
    else (if EndsTurnOf(s, steps[0], q) then 1 else 0) + TurnsOf(Next(s, steps[0]), steps[1..], c, d, q)
  }

  /** The product of no turn of q overflows. */
  ghost predicate NoOverflow(s: Sched, steps: seq<Step>, c: int, d: int, q: nat)
    requires Trace(s, steps, c, d)
    decreases |steps|
  {
    steps != [] ==>
      && (EndsTurnOf(s, steps[0], q) && q < |s.queues| ==>
            0 <= Scaled(steps[0].runtime, s.queues[q].reciprocal) < TWO_WORDS / 2)
      && NoOverflow(Next(s, steps[0]), steps[1..], c, d, q)
  }

  function Scaled(runtime: int, reciprocal: int): int {
    runtime * reciprocal
  }

  lemma ScaledAdds(x: int, y: int, reciprocal: int)
    ensures Scaled(x + y, reciprocal) == Scaled(x, reciprocal) + Scaled(y, reciprocal)
  {
  }

  /** While q is awake nothing but its own turns changes its virtual runtime: waking up does not touch it. */
  lemma StepCharges(s: Sched, e: Step, q: nat, d: int)
    requires Inv(s, d) && Enabled(s, e) && q < |s.queues|
    ensures q < |Next(s, e).queues| && Next(s, e).queues[q].reciprocal == s.queues[q].reciprocal
    ensures Awake(s, q) ==> Next(s, e).queues[q].vruntime
                            == s.queues[q].vruntime + if EndsTurnOf(s, e, q) then Charge(s, e) else 0
  {
    assert QueueOk(s, q, d);
    if e.Pick? {
      MergedCount(s, s.activating);
      MergeKeepsInv(s, d);
    }
  }

  /** The virtual runtime of a queue that never sleeps grows by exactly what its turns are charged. */
  lemma {:induction false} GrowthIsCharges(s: Sched, steps: seq<Step>, c: int, d: int, q: nat)
    requires Inv(s, d) && Trace(s, steps, c, d) && q < |s.queues| && NeverSleeps(s, steps, c, d, q)
    ensures var t := After(s, steps, c, d);
            && q < |t.queues| && t.queues[q].vruntime == s.queues[q].vruntime + Charges(s, steps, c, d, q)
            && Inv(t, d) && Awake(t, q) && t.last <= t.queues[q].vruntime <= t.last + d
    decreases |steps|
  {
    if steps == [] {
      assert QueueOk(s, q, d);
    } else {
      StepKeepsInv(s, steps[0], d);
      StepCharges(s, steps[0], q, d);
      GrowthIsCharges(Next(s, steps[0]), steps[1..], c, d, q);
    }
  }

  /** Charges are weighted time, rounded down for each turn. */
  lemma {:induction false} ChargesAreTime(s: Sched, steps: seq<Step>, c: int, d: int, q: nat)
    requires Inv(s, d) && Trace(s, steps, c, d) && q < |s.queues| && NoOverflow(s, steps, c, d, q)
    ensures WORD * Charges(s, steps, c, d, q) <= Scaled(CpuTime(s, steps, c, d, q), s.queues[q].reciprocal)
            <= WORD * (Charges(s, steps, c, d, q) + TurnsOf(s, steps, c, d, q))
    decreases |steps|
  {
    if steps != [] {
      var e, t := steps[0], Next(s, steps[0]);
      StepKeepsInv(s, e, d);
      StepCharges(s, e, q, d);
      ChargesAreTime(t, steps[1..], c, d, q);
      if EndsTurnOf(s, e, q) {
        ScaledAdds(e.runtime, CpuTime(t, steps[1..], c, d, q), s.queues[q].reciprocal);
        ChargeBounds(e.runtime, s.queues[q].reciprocal);
        assert Charge(s, e) == Scaled(e.runtime, s.queues[q].reciprocal) / WORD;
      }
    }
  }

  /**
   * Weighted fairness over whole runs: what the turns of two queues that never sleep are charged, all
   * together, differs by at most twice the largest charge of a single turn.
   */
  lemma FairShare(s: Sched, steps: seq<Step>, c: int, d: int, q: nat, r: nat)
    requires Inv(s, d) && Trace(s, steps, c, d) && q < |s.queues| && r < |s.queues|
    requires NeverSleeps(s, steps, c, d, q) && NeverSleeps(s, steps, c, d, r)
    ensures -2 * d <= Charges(s, steps, c, d, q) - Charges(s, steps, c, d, r) <= 2 * d
  {
    assert QueueOk(s, q, d) && QueueOk(s, r, d);
    GrowthIsCharges(s, steps, c, d, q);
    GrowthIsCharges(s, steps, c, d, r);
  }

  /** So they get the CPU in the ratio of their shares: times multiplied by reciprocal shares stay together. */
  lemma FairTime(s: Sched, steps: seq<Step>, c: int, d: int, q: nat, r: nat)
    requires Inv(s, d) && Trace(s, steps, c, d) && q < |s.queues| && r < |s.queues|
    requires NeverSleeps(s, steps, c, d, q) && NeverSleeps(s, steps, c, d, r)
    requires NoOverflow(s, steps, c, d, q) && NoOverflow(s, steps, c, d, r)
    ensures Scaled(CpuTime(s, steps, c, d, q), s.queues[q].reciprocal)
            - Scaled(CpuTime(s, steps, c, d, r), s.queues[r].reciprocal)
            <= WORD * (2 * d + TurnsOf(s, steps, c, d, q))
  {
    FairShare(s, steps, c, d, q, r);
    ChargesAreTime(s, steps, c, d, q);
    ChargesAreTime(s, steps, c, d, r);
  }

  // ---- the reactor ----

  /** A task that ran, as the outside world decides it: the tasks it adds, and if a preemption is requested then. */
  datatype TaskRun = TaskRun(arrivals: seq<nat>, preempt: bool)

  /** One turn: the tasks in the order they run, its measured length, and whether it is to be the last for now. */
  datatype Turn = Turn(runs: seq<TaskRun>, runtime: int, preempt: bool)

  function Adds(arrivals: seq<nat>): seq<Step> {
    seq(|arrivals|, i requires 0 <= i < |arrivals| => Add(arrivals[i]))
  }

  /** The steps of these tasks. */
  ghost function StepsOf(runs: seq<TaskRun>): seq<Step> {
    if runs == [] then []
    else StepsOf(runs[..|runs| - 1]) + [Consume] + Adds(runs[|runs| - 1].arrivals)
  }

  ghost function CountOf(ids: seq<nat>, q: nat): nat {
    multiset(ids)[q]
  }

  ghost function ArrivedIn(runs: seq<TaskRun>, q: nat): nat {
    if runs == [] then 0 else ArrivedIn(runs[..|runs| - 1], q) + CountOf(runs[|runs| - 1].arrivals, q)
  }

  /** How many tasks queue tq has left after these of it have run. */
  ghost function Left(backlog: int, tq: nat, runs: seq<TaskRun>): int {
    backlog - |runs| + ArrivedIn(runs, tq)
  }

  /** The turn ends behind the first n tasks: none is left, or there are few enough to let it be preempted. */
  ghost predicate EndsAfter(backlog: int, tq: nat, runs: seq<TaskRun>, n: nat, maxBacklog: nat)
    requires n <= |runs|
  {
    Left(backlog, tq, runs[..n]) <= 0
    || (n > 0 && runs[n - 1].preempt && Left(backlog, tq, runs[..n]) <= maxBacklog)
  }

  /** The turn is the first n tasks, and no more than that. */
  ghost predicate RunsFor(backlog: int, tq: nat, runs: seq<TaskRun>, n: nat, maxBacklog: nat) {
    && n <= |runs| && (n < |runs| ==> EndsAfter(backlog, tq, runs, n, maxBacklog))
    && forall k: nat :: k < n ==> !EndsAfter(backlog, tq, runs, k, maxBacklog)
  }

  lemma AddsPickNothing(arrivals: seq<nat>)
    ensures Picks(Adds(arrivals)) == 0
    decreases |arrivals|
  {
    if arrivals != [] {
      assert Adds(arrivals)[1..] == Adds(arrivals[1..]);
      AddsPickNothing(arrivals[1..]);
    }
  }

  lemma {:induction false} TasksPickNothing(runs: seq<TaskRun>)
    ensures Picks(StepsOf(runs)) == 0
    decreases |runs|
  {
    if runs != [] {
      var init, last := runs[..|runs| - 1], Adds(runs[|runs| - 1].arrivals);
      TasksPickNothing(init);
      AddsPickNothing(runs[|runs| - 1].arrivals);
      PicksAdd(StepsOf(init), [Consume]);
      PicksAdd(StepsOf(init) + [Consume], last);
    }
  }

  lemma {:induction false} PicksAdd(a: seq<Step>, b: seq<Step>)
    ensures Picks(a + b) == Picks(a) + Picks(b)
    decreases |a|
  {
    if a == [] {
      assert a + b == b;
    } else {
      assert (a + b)[1..] == a[1..] + b;
      PicksAdd(a[1..], b);
    }
  }

  lemma OneMoreArrival(before: seq<Step>, arrivals: seq<nat>, i: nat, q: nat)
    requires i < |arrivals|
    ensures before + Adds(arrivals[..i]) + [Add(arrivals[i])] == before + Adds(arrivals[..i + 1])
    ensures CountOf(arrivals[..i + 1], q) == CountOf(arrivals[..i], q) + if arrivals[i] == q then 1 else 0
  {
    assert arrivals[..i + 1] == arrivals[..i] + [arrivals[i]];
    assert Adds(arrivals[..i + 1]) == Adds(arrivals[..i]) + [Add(arrivals[i])];
  }

  /** The first i tasks have run, and the turn did not end before that. */
  ghost predicate Ran(before: seq<Step>, steps: seq<Step>, backlog: int, left: int, tq: nat, runs: seq<TaskRun>, i: nat,
        maxBacklog: nat)
  {
    && i <= |runs| && steps == before + StepsOf(runs[..i]) && left == Left(backlog, tq, runs[..i])
    && forall k: nat :: k < i ==> !EndsAfter(backlog, tq, runs, k, maxBacklog)
  }

  lemma NoneRan(before: seq<Step>, backlog: int, tq: nat, runs: seq<TaskRun>, maxBacklog: nat)
    ensures Ran(before, before, backlog, backlog, tq, runs, 0, maxBacklog)
  {
    assert before + StepsOf(runs[..0]) == before;
  }

  lemma OneMoreRan(before: seq<Step>, steps: seq<Step>, backlog: int, left: int, tq: nat, runs: seq<TaskRun>, i: nat,
        maxBacklog: nat)
    requires Ran(before, steps, backlog, left, tq, runs, i, maxBacklog) && i < |runs|
    requires !EndsAfter(backlog, tq, runs, i, maxBacklog)
    ensures Ran(before, steps + [Consume] + Adds(runs[i].arrivals), backlog, left - 1 + CountOf(runs[i].arrivals, tq),
                tq, runs, i + 1, maxBacklog)
  {
    assert runs[..i + 1][..i] == runs[..i];
    assert steps + [Consume] + Adds(runs[i].arrivals)
        == before + (StepsOf(runs[..i]) + [Consume] + Adds(runs[i].arrivals));
  }

  /** A turn that begins in state s: a queue is picked, its tasks run, and it is charged for that. */
  ghost predicate OneTurn(s: Sched, before: seq<Step>, steps: seq<Step>, turn: Turn, maxBacklog: nat) {
    && InRange(s, s.active) && InRange(s, s.activating) && Enabled(s, Pick)
    && var picked := Next(s, Pick);
       && picked.current.Some? && picked.current.value < |picked.queues|
       && var tq := picked.current.value;
          exists n: nat {:trigger RunsFor(picked.queues[tq].backlog, tq, turn.runs, n, maxBacklog)} ::
            && RunsFor(picked.queues[tq].backlog, tq, turn.runs, n, maxBacklog)
            && steps == before + [Pick] + StepsOf(turn.runs[..n]) + [Finish(turn.runtime)]
  }

  lemma OneTurnPicksOnce(s: Sched, before: seq<Step>, steps: seq<Step>, turn: Turn, maxBacklog: nat)
    requires OneTurn(s, before, steps, turn, maxBacklog)
    ensures Picks(steps) == Picks(before) + 1
  {
    var picked := Next(s, Pick);
    var tq := picked.current.value;
    var n: nat :| RunsFor(picked.queues[tq].backlog, tq, turn.runs, n, maxBacklog)
                  && steps == before + [Pick] + StepsOf(turn.runs[..n]) + [Finish(turn.runtime)];
    var mid := StepsOf(turn.runs[..n]);
    TasksPickNothing(turn.runs[..n]);
    PicksAdd(before, [Pick]);
    PicksAdd(before + [Pick], mid);
    PicksAdd(before + [Pick] + mid, [Finish(turn.runtime)]);
  }

  class Reactor {
    var queues: seq<TaskQueue>
    var active: seq<nat>
    var activating: seq<nat>
    var lastVruntime: int
    var current: Option<nat>
    /** Above this backlog, a turn is not preempted. */
    const maxTaskBacklog: nat

    ghost function State(): Sched
      reads this
    {
      Sched(queues, active, activating, lastVruntime, current)
    }

    constructor (reciprocals: seq<int>, maxTaskBacklog: nat)
      ensures State() == Initial(reciprocals) && this.maxTaskBacklog == maxTaskBacklog
    {
      this.maxTaskBacklog := maxTaskBacklog;
      queues := seq(|reciprocals|, i requires 0 <= i < |reciprocals| => TaskQueue(0, reciprocals[i], 0, false));
      active, activating := [], [];
      lastVruntime, current := 0, None;
    }

    predicate Less(a: nat, b: nat)
      requires a < |queues| && b < |queues|
      reads this
    {
      queues[a].vruntime < queues[b].vruntime
    }

    /** The swapping loop of insert_active_task_queue: moves the first queue back behind its equals. */
    static method MoveBack(queues: seq<TaskQueue>, tq: nat, ids: seq<nat>) returns (atq: seq<nat>)
      requires tq < |queues| && forall i :: 0 <= i < |ids| ==> ids[i] < |queues|
      ensures atq == InsertSorted(queues, ids, tq)
    {
      atq := [tq] + ids;
      var i := 0;
      if ids != [] { Bubble(ids, tq, 0); }
      while i + 1 != |atq| && queues[atq[i]].vruntime >= queues[atq[i + 1]].vruntime
        invariant i < |atq| == |ids| + 1 && atq == ids[..i] + [tq] + ids[i..]
        invariant i < |ids| ==> atq[i] == tq && atq[i + 1] == ids[i]
        invariant forall j :: 0 <= j < i ==> queues[ids[j]].vruntime <= queues[tq].vruntime
        decreases |atq| - i
      {
        Bubble(ids, tq, i);
        atq := atq[i := atq[i + 1]][i + 1 := atq[i]];
        i := i + 1;
        if i < |ids| { Bubble(ids, tq, i); }
      }
      InsertAt(queues, ids, tq, i);
    }

    method InsertActiveTaskQueue(tq: nat)
      requires tq < |queues| && InRange(State(), active) && Sorted(queues, active)
      modifies this
      ensures State() == Inserted(old(State()), tq)
    {
      if active == [] || Less(active[|active| - 1], tq) {
        InsertAtEnd(queues, active, tq);
        active := active + [tq];
      } else {
        active := MoveBack(queues, tq, active);
      }
      queues := queues[tq := queues[tq].(active := true)];
    }

    method InsertActivatingTaskQueues()
      requires InRange(State(), active) && InRange(State(), activating) && exists d :: Inv(State(), d)
      requires current == None
      modifies this
      ensures State() == Merged(old(State()))
    {
      ghost var s := State();
      ghost var d :| Inv(s, d);
      var i := 0;
      while i < |activating|
        invariant i <= |activating| && activating == s.activating
        invariant |queues| == |s.queues| && InRange(State(), active)
        invariant Inv(State().(activating := s.activating[i..]), d) && current == None
        invariant InsertedAll(State(), s.activating[i..]) == InsertedAll(s, s.activating)
      {
        InsertStep(State().(activating := s.activating[i..]), d);
        assert s.activating[i..][1..] == s.activating[i + 1..];
        InsertActiveTaskQueue(activating[i]);
        i := i + 1;
      }
      activating := [];
    }

    method Activate(q: nat)
      requires q < |queues|
      modifies this
      ensures State() == Activated(old(State()), q)
    {
      if queues[q].active {
        return;
      }
      queues := queues[q := queues[q].(vruntime := VMax(lastVruntime, queues[q].vruntime))];
      activating := activating + [q];
    }

    method AddTask(q: nat)
      requires q < |queues|
      modifies this
      ensures State() == Added(old(State()), q)
      ensures |queues| == |old(queues)| && queues[q].backlog == old(queues)[q].backlog + 1
    {
      var wasEmpty := queues[q].backlog == 0;
      queues := queues[q := queues[q].(backlog := queues[q].backlog + 1)];
      if wasEmpty {
        Activate(q);
      }
    }

    /** No run is ever charged more than this. */
    static const MAX_CHARGE: int := WORD / 2

    /** The state is one that the steps lead to from s0. */
    ghost predicate Reached(s0: Sched, steps: seq<Step>)
      reads this
    {
      && Trace(s0, steps, 0, MAX_CHARGE) && Inv(State(), MAX_CHARGE)
      && After(s0, steps, 0, MAX_CHARGE) == State()
    }

    predicate HaveMoreTasks()
      reads this
    {
      |active| + |activating| > 0
    }

    /**
     * Runs tasks of the current queue, which may add tasks to any queue: until it is empty, or a preemption
     * is requested while its backlog is small. n is how many it ran.
     */
    method RunTasks(tq: nat, runs: seq<TaskRun>, ghost s0: Sched, ghost before: seq<Step>)
          returns (ghost steps: seq<Step>, ghost n: nat)
      requires Reached(s0, before) && current == Some(tq)
      requires forall i :: 0 <= i < |runs| ==> forall q :: q in runs[i].arrivals ==> q < |queues|
      modifies this
      ensures Reached(s0, steps) && current == Some(tq) && |queues| == |old(queues)| && tq < |queues|
      ensures RunsFor(old(queues)[tq].backlog, tq, runs, n, maxTaskBacklog)
      ensures steps == before + StepsOf(runs[..n]) && queues[tq].backlog == Left(old(queues)[tq].backlog, tq, runs[..n])
    {
      steps, n := before, 0;
      ghost var backlog := queues[tq].backlog;
      NoneRan(before, backlog, tq, runs, maxTaskBacklog);
      var i, preempted := 0, false;
      while i < |runs| && queues[tq].backlog > 0 && !preempted
        invariant n == i && Reached(s0, steps) && current == Some(tq) && |queues| == |old(queues)| && tq < |queues|
        invariant Ran(before, steps, backlog, queues[tq].backlog, tq, runs, i, maxTaskBacklog)
        invariant preempted <==> i > 0 && runs[i - 1].preempt && queues[tq].backlog <= maxTaskBacklog
        decreases |runs| - i
      {
        OneMoreRan(before, steps, backlog, queues[tq].backlog, tq, runs, i, maxTaskBacklog);
        steps := RunTask(tq, runs[i].arrivals, s0, steps);
        preempted := runs[i].preempt && queues[tq].backlog <= maxTaskBacklog;
        i, n := i + 1, n + 1;
      }
    }

    /** The front task is taken off the queue and runs. */
    method RunTask(tq: nat, arrivals: seq<nat>, ghost s0: Sched, ghost before: seq<Step>)
          returns (ghost steps: seq<Step>)
      requires Reached(s0, before) && current == Some(tq) && tq < |queues| && queues[tq].backlog > 0
      requires forall q :: q in arrivals ==> q < |queues|
      modifies this
      ensures Reached(s0, steps) && current == Some(tq) && |queues| == |old(queues)|
      ensures steps == before + [Consume] + Adds(arrivals)
      ensures queues[tq].backlog == old(queues)[tq].backlog - 1 + CountOf(arrivals, tq)
    {
      TraceGrows(s0, before, Consume, MAX_CHARGE);
      queues := queues[tq := queues[tq].(backlog := queues[tq].backlog - 1)];
      steps := before + [Consume];
      ghost var consumed := steps;
      var i := 0;
      assert consumed + Adds(arrivals[..0]) == consumed;
      while i < |arrivals|
        invariant i <= |arrivals| && Reached(s0, steps) && current == Some(tq) && |queues| == |old(queues)|
        invariant steps == consumed + Adds(arrivals[..i])
        invariant queues[tq].backlog == old(queues)[tq].backlog - 1 + CountOf(arrivals[..i], tq)
      {
        OneMoreArrival(consumed, arrivals, i, tq);
        assert arrivals[i] in arrivals;
        steps := TakeTask(tq, arrivals[i], s0, steps);
        i := i + 1;
      }
      assert arrivals[..i] == arrivals;
    }

    method TakeTask(tq: nat, q: nat, ghost s0: Sched, ghost before: seq<Step>) returns (ghost steps: seq<Step>)
      requires Reached(s0, before) && current == Some(tq) && tq < |queues| && q < |queues|
      modifies this
      ensures Reached(s0, steps) && current == Some(tq) && |queues| == |old(queues)|
      ensures steps == before + [Add(q)] && queues[tq].backlog == old(queues)[tq].backlog + if q == tq then 1 else 0
    {
      TraceGrows(s0, before, Add(q), MAX_CHARGE);
      AddTask(q);
      steps := before + [Add(q)];
    }

    /** The first queue in the order is taken off it. */
    method BeginTurn() returns (tq: nat)
      requires Inv(State(), MAX_CHARGE) && Enabled(State(), Pick)
      modifies this
      ensures State() == Next(old(State()), Pick) && current == Some(tq) && tq < |queues| == |old(queues)|
    {
      MergedCount(State(), State().activating);
      InsertActivatingTaskQueues();
      tq := active[0];
      active := active[1..];
      current := Some(tq);
      lastVruntime := VMax(queues[tq].vruntime, lastVruntime);
    }

    /** One round of the loop of run_some_tasks. */
    method RunTurn(turn: Turn, ghost s0: Sched, ghost before: seq<Step>) returns (ghost steps: seq<Step>)
      requires Reached(s0, before) && current == None && HaveMoreTasks()
      requires forall i :: 0 <= i < |turn.runs| ==> forall q :: q in turn.runs[i].arrivals ==> q < |queues|
      modifies this
      ensures Reached(s0, steps) && current == None && |queues| == |old(queues)|
      ensures OneTurn(old(State()), before, steps, turn, maxTaskBacklog)
    {
      ghost var s := State();
      TraceGrows(s0, before, Pick, MAX_CHARGE);
      var tq := BeginTurn();
      ghost var n;
      steps, n := RunTasks(tq, turn.runs, s0, before + [Pick]);
      TraceGrows(s0, steps, Finish(turn.runtime), MAX_CHARGE) by {
        ChargeBounds(turn.runtime, queues[tq].reciprocal);
      }
      EndTurn(tq, turn.runtime);
      steps := steps + [Finish(turn.runtime)];
    }

    /** The accounting at the end of a turn. */
    method EndTurn(tq: nat, runtime: int)
      requires Inv(State(), MAX_CHARGE) && current == Some(tq)
      modifies this
      ensures State() == Finished(old(State()), runtime)
    {
      ghost var s := State();
      current := None;
      queues := queues[tq := queues[tq].(vruntime := queues[tq].vruntime + ToVruntime(runtime, queues[tq].reciprocal))];
      if queues[tq].backlog > 0 {
        assert QueueOk(s, tq, MAX_CHARGE);
        SortedSame(s.queues, queues, active);
        InsertActiveTaskQueue(tq);
      } else {
        queues := queues[tq := queues[tq].(active := false)];
      }
    }

    /** Runs turns until nothing is left to run or a turn was asked to give way, and no longer. */
    method RunSomeTasks(turns: seq<Turn>) returns (ghost steps: seq<Step>)
      requires Inv(State(), MAX_CHARGE) && current == None
      requires forall k :: 0 <= k < |turns| ==> forall i :: 0 <= i < |turns[k].runs| ==>
                 forall q :: q in turns[k].runs[i].arrivals ==> q < |queues|
      modifies this
      ensures Reached(old(State()), steps) && current == None
      ensures var n := Picks(steps);
              && n <= |turns| && (forall i :: 0 <= i < n - 1 ==> !turns[i].preempt)
              && (n < |turns| ==> !HaveMoreTasks() || (n > 0 && turns[n - 1].preempt))
    {
      steps := [];
      if !HaveMoreTasks() {
        return;
      }
      var i, preempted := 0, false;
      while i < |turns| && HaveMoreTasks() && !preempted
        invariant i <= |turns| && Reached(old(State()), steps) && current == None && Picks(steps) == i
        invariant |queues| == |old(queues)|
        invariant forall k :: 0 <= k < i - 1 ==> !turns[k].preempt
        invariant preempted <==> i > 0 && turns[i - 1].preempt
        decreases |turns| - i
      {
        ghost var s, before := State(), steps;
        steps := RunTurn(turns[i], old(State()), steps);
        OneTurnPicksOnce(s, before, steps, turns[i], maxTaskBacklog);
        preempted := turns[i].preempt;
        i := i + 1;
      }
    }
  }
}
