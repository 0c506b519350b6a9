/**
 * The dispatcher of core/reactor.cc for files on which a size-changing operation blocks, and is
 * blocked by, all other operations (append_challenged_posix_file_impl).
 */
module AppendFile {
  import opened Align

  datatype Opcode = Read | Write | Truncate | Flush

  datatype Op = Op(code: Opcode, pos: nat, len: nat)

  datatype Config = Config(maxSizeChangingOps: nat, fsyncIsExclusive: bool, sloppySize: bool, alignment: nat) {
    predicate Valid() { alignment > 0 }
  }

  /** An operation that was dispatched and has not completed, with the counter it is counted in. */
  datatype InFlight = InFlight(op: Op, sizeChanging: bool)

  /** How an operation ends: with an error, or with the number of bytes moved. */
  datatype Outcome = Failed | Moved(bytes: nat)

  /**
   * The file object. kernelSize is the size the kernel has for the file. accepted, dispatched and
   * ends are history: the operations enqueued and dispatched so far, and how far the writes
   * completed since the last truncation reached. closes and quits count the calls of close and how
   * often _completed was fulfilled.
   */
  datatype File = File(committed: nat, logical: nat, q: seq<Op>, sizeChangingOps: nat, otherOps: nat,
                       done: bool, closes: nat, quits: nat, kernelSize: nat,
                       inFlight: seq<InFlight>, accepted: seq<Op>, dispatched: seq<Op>, ends: seq<nat>)

  predicate MustRunAlone(c: Config, op: Op) {
    op.code == Truncate || (op.code == Flush && (c.fsyncIsExclusive || c.sloppySize))
  }

  predicate SizeChanging(c: Config, f: File, op: Op) {
    (op.code == Write && op.pos + op.len > f.committed) || MustRunAlone(c, op)
  }

  predicate MayDispatch(c: Config, f: File, op: Op) {
    if SizeChanging(c, f, op) then f.sizeChangingOps == 0 && f.otherOps == 0 else f.sizeChangingOps == 0
  }

  predicate MayQuit(f: File) {
    f.done && f.q == [] && f.otherOps == 0 && f.sizeChangingOps == 0
  }

  // ---- the steps, one at a time ----

  function Pushed(f: File, op: Op): File {
    f.(q := f.q + [op], accepted := f.accepted + [op])
  }

  /** The size that covers the appending writes in front of the first exclusive operation, and their number. */
  function Speculate(c: Config, committed: nat, q: seq<Op>, size: nat, n: nat): (nat, nat) {
    if q == [] || MustRunAlone(c, q[0]) then (size, n)
    else if q[0].code == Write && q[0].pos + q[0].len > committed then
      Speculate(c, committed, q[1..], if size > q[0].pos + q[0].len then size else q[0].pos + q[0].len, n + 1)
    else Speculate(c, committed, q[1..], size, n)
  }

  /** The size optimize_queue asks the kernel for, or the committed size if it does not ask. */
  function SpeculativeSize(c: Config, f: File): nat
    requires c.Valid()
  {
    var (size, n) := Speculate(c, f.committed, f.q, f.committed, 0);
    if f.otherOps > 0 || f.sizeChangingOps > 0
      || !(n > c.maxSizeChangingOps || (n > 0 && c.sloppySize)) then f.committed
    else if c.sloppySize && size < 2 * f.committed then AlignUp(2 * f.committed, c.alignment)
    else size
  }

  /** ok says whether the kernel grants the ftruncate. */
  function Optimized(c: Config, f: File, ok: bool): File
    requires c.Valid()
  {
    if ok then f.(committed := SpeculativeSize(c, f), kernelSize := SpeculativeSize(c, f)) else f
  }

  /** The front of the queue starts; a flush first cuts the file to its logical size, if ok. */
  function Dispatched(c: Config, f: File, ok: bool): File
    requires f.q != []
  {
    var op := f.q[0];
    var sc := SizeChanging(c, f, op);
    var g := f.(q := f.q[1..], dispatched := f.dispatched + [op], inFlight := f.inFlight + [InFlight(op, sc)],
                sizeChangingOps := f.sizeChangingOps + (if sc then 1 else 0),
                otherOps := f.otherOps + (if sc then 0 else 1));
    if op.code == Flush && f.logical != f.committed
      && ok then g.(committed := f.logical, kernelSize := f.logical) else g
  }

  function Max(a: nat, b: nat): nat {
    if a > b then a else b
  }

  /** What the completion of an operation does to the sizes. */
  function Finished(f: File, op: Op, o: Outcome): File {
    if o.Failed? then f
    else if op.code == Write then
      var end := op.pos + o.bytes;
      f.(committed := Max(end, f.committed), logical := Max(end, f.logical), kernelSize := Max(end, f.kernelSize),
         ends := f.ends + [end])
    else if op.code == Truncate then f.(committed := op.pos, logical := op.pos, kernelSize := op.pos, ends := [])
    else f
  }

  /** The i-th operation in flight completes. */
  function Completed(f: File, i: nat, o: Outcome): File
    requires i < |f.inFlight|
    requires if f.inFlight[i].sizeChanging then f.sizeChangingOps > 0 else f.otherOps > 0
  {
    var x := f.inFlight[i];
    Finished(f, x.op, o).(inFlight := f.inFlight[..i] + f.inFlight[i + 1..],
                          sizeChangingOps := f.sizeChangingOps - (if x.sizeChanging then 1 else 0),
                          otherOps := f.otherOps - (if x.sizeChanging then 0 else 1))
  }

  function Closing(f: File): File {
    f.(done := true, closes := f.closes + 1)
  }

  function Quit(f: File): File {
    if MayQuit(f) then f.(quits := f.quits + 1, done := false) else f
  }

  // ---- the invariant ----

  ghost function Count(s: seq<InFlight>, sizeChanging: bool): nat {
    if s == [] then 0 else (if s[0].sizeChanging == sizeChanging then 1 else 0) + Count(s[1..], sizeChanging)
  }

  /** A write that is not counted as size-changing lies within the committed size. */
  ghost predicate Within(f: File, x: InFlight) {
    x.op.code == Write && !x.sizeChanging ==> x.op.pos + x.op.len <= f.committed
  }

  ghost predicate Inv(c: Config, f: File) {
    && c.Valid()
    && f.logical <= f.committed == f.kernelSize
    && f.sizeChangingOps == Count(f.inFlight, true) && f.otherOps == Count(f.inFlight, false)
    && (f.sizeChangingOps > 0 ==> f.sizeChangingOps == 1 && f.otherOps == 0)
    && (forall i :: 0 <= i < |f.inFlight| ==> Within(f, f.inFlight[i]))
    && (forall i :: 0 <= i < |f.inFlight| ==> (MustRunAlone(c, f.inFlight[i].op) ==> f.inFlight[i].sizeChanging))
    && (forall i :: 0 <= i < |f.q| ==> (f.q[i].code == Flush ==> MustRunAlone(c, f.q[i])))
    && f.dispatched + f.q == f.accepted
    && f.quits + (if f.done then 1 else 0) <= f.closes
    && (forall i :: 0 <= i < |f.ends| ==> f.ends[i] <= f.logical)
  }

  lemma {:induction false} CountJoins(a: seq<InFlight>, b: seq<InFlight>, k: bool)
    ensures Count(a + b, k) == Count(a, k) + Count(b, k)
  {
    if a == [] {
      assert a + b == b;
    } else {
      assert (a + b)[1..] == a[1..] + b;
      CountJoins(a[1..], b, k);
    }
  }

  lemma {:induction false} CountsTotal(s: seq<InFlight>)
    ensures Count(s, true) + Count(s, false) == |s|
  {
    if s != [] { CountsTotal(s[1..]); }
  }

  lemma CountWithout(s: seq<InFlight>, i: nat, k: bool)
    requires i < |s|
    ensures Count(s, k) == Count(s[..i] + s[i + 1..], k) + if s[i].sizeChanging == k then 1 else 0
  {
    assert s == s[..i] + ([s[i]] + s[i + 1..]);
    CountJoins(s[..i], [s[i]] + s[i + 1..], k);
    CountJoins([s[i]], s[i + 1..], k);
    CountJoins(s[..i], s[i + 1..], k);
    assert Count([s[i]], k) == if s[i].sizeChanging == k then 1 else 0;
  }

  lemma {:induction false} SpeculateGrows(c: Config, committed: nat, q: seq<Op>, size: nat, n: nat)
    ensures Speculate(c, committed, q, size, n).0 >= size
    ensures Speculate(c, committed, q, size, n).1 >= n
    decreases |q|
  {
    if !(q == [] || MustRunAlone(c, q[0])) {
      if q[0].code == Write && q[0].pos + q[0].len > committed {
        SpeculateGrows(c, committed, q[1..], Max(size, q[0].pos + q[0].len), n + 1);
      } else {
        SpeculateGrows(c, committed, q[1..], size, n);
      }
    }
  }

  lemma OptimizeKeepsInv(c: Config, f: File, ok: bool)
    requires Inv(c, f)
    ensures Inv(c, Optimized(c, f, ok)) && Optimized(c, f, ok).committed >= f.committed
  {
    SpeculateGrows(c, f.committed, f.q, f.committed, 0);
    var g := Optimized(c, f, ok);
    forall i | 0 <= i < |g.inFlight| ensures Within(g, g.inFlight[i]) {
      assert Within(f, f.inFlight[i]);
    }
  }

  lemma DispatchKeepsInv(c: Config, f: File, ok: bool)
    requires Inv(c, f) && f.q != [] && MayDispatch(c, f, f.q[0])
    ensures Inv(c, Dispatched(c, f, ok))
  {
    var g, op := Dispatched(c, f, ok), f.q[0];
    var x := InFlight(op, SizeChanging(c, f, op));
    CountJoins(f.inFlight, [x], true);
    CountJoins(f.inFlight, [x], false);
    CountsTotal(f.inFlight);
    assert Count([x], true) == (if x.sizeChanging then 1 else 0)
           && Count([x], false) == (if x.sizeChanging then 0 else 1);
    assert f.q == [op] + f.q[1..];
    forall i | 0 <= i < |g.inFlight| ensures Within(g, g.inFlight[i]) {
      if i < |f.inFlight| { assert Within(f, f.inFlight[i]); }
    }
  }

  lemma CompleteKeepsInv(c: Config, f: File, i: nat, o: Outcome)
    requires Inv(c, f) && i < |f.inFlight|
    requires o.Moved? ==> o.bytes <= f.inFlight[i].op.len
    ensures if f.inFlight[i].sizeChanging then f.sizeChangingOps > 0 else f.otherOps > 0
    ensures Inv(c, Completed(f, i, o))
  {
    CountWithout(f.inFlight, i, true);
    CountWithout(f.inFlight, i, false);
    CountsTotal(f.inFlight);
    var g := Completed(f, i, o);
    forall j | 0 <= j < |g.inFlight|
      ensures Within(g, g.inFlight[j]) && (MustRunAlone(c, g.inFlight[j].op) ==> g.inFlight[j].sizeChanging)
    {
      var k := if j < i then j else j + 1;
      assert g.inFlight[j] == f.inFlight[k];
      assert Within(f, f.inFlight[k]);
    }
  }

  // ---- all interleavings ----

  /** The single actions the dispatcher and the completions are made of, in whatever order they come. */
  datatype Step = Push(op: Op) | Optimize(ok: bool) | Dispatch(ok: bool) | Complete(i: nat, o: Outcome) | Close
    | TryQuit

  predicate Enabled(c: Config, f: File, e: Step) {
    match e
    case Push(op) => op.code == Flush ==> MustRunAlone(c, op)
    case Dispatch(_) => f.q != [] && MayDispatch(c, f, f.q[0])
    case Complete(i, o) => i < |f.inFlight| && (o.Moved? ==> o.bytes <= f.inFlight[i].op.len)
                           && if f.inFlight[i].sizeChanging then f.sizeChangingOps > 0 else f.otherOps > 0
    case _ => true
  }

  function Next(c: Config, f: File, e: Step): File
    requires c.Valid() && Enabled(c, f, e)
  {
    match e
    case Push(op) => Pushed(f, op)
    case Optimize(ok) => Optimized(c, f, ok)
    case Dispatch(ok) => Dispatched(c, f, ok)
    case Complete(i, o) => Completed(f, i, o)
    case Close => Closing(f)
    case TryQuit => Quit(f)
  }

  lemma StepKeepsInv(c: Config, f: File, e: Step)
    requires Inv(c, f) && Enabled(c, f, e)
    ensures Inv(c, Next(c, f, e))
  {
    match e
    case Push(op) =>
      var g := Pushed(f, op);
      forall i | 0 <= i < |g.inFlight| ensures Within(g, g.inFlight[i]) { assert Within(f, f.inFlight[i]); }
    case Optimize(ok) => OptimizeKeepsInv(c, f, ok);
    case Dispatch(ok) => DispatchKeepsInv(c, f, ok);
    case Complete(i, o) => CompleteKeepsInv(c, f, i, o);
    case Close =>
      var g := Closing(f);
      forall i | 0 <= i < |g.inFlight| ensures Within(g, g.inFlight[i]) { assert Within(f, f.inFlight[i]); }
    case TryQuit =>
      var g := Quit(f);
      forall i | 0 <= i < |g.inFlight| ensures Within(g, g.inFlight[i]) { assert Within(f, f.inFlight[i]); }
  }

  function Opened(size: nat): File {
    File(size, size, [], 0, 0, false, 0, 0, size, [], [], [], [])
  }

  ghost predicate Trace(c: Config, f: File, steps: seq<Step>)
    decreases |steps|
  {
    c.Valid() && (steps != [] ==> Enabled(c, f, steps[0]) && Trace(c, Next(c, f, steps[0]), steps[1..]))
  }

  ghost function After(c: Config, f: File, steps: seq<Step>): File
    requires Trace(c, f, steps)
    decreases |steps|
  {
    if steps == [] then f else After(c, Next(c, f, steps[0]), steps[1..])
  }

  /**
   * Safety, whatever the order of completions and however dispatches, completions and ftruncate
   * calls interleave: a size-changing operation is alone in flight, and so is a truncate, and a flush
   * if fsync is exclusive or the size may be sloppy; a write that is not counted as
   * one stays within the size the kernel has; the logical size never exceeds that size and covers
   * every write completed since the last truncation; operations are dispatched in the order they
   * were accepted; and _completed is fulfilled at most once per close.
   */
  lemma {:induction false} Safety(c: Config, f: File, steps: seq<Step>)
    requires Inv(c, f) && Trace(c, f, steps)
    ensures var g := After(c, f, steps);
            && Inv(c, g)
            && (forall i :: 0 <= i < |g.inFlight| && g.inFlight[i].sizeChanging ==> |g.inFlight| == 1)
            && (forall i :: 0 <= i < |g.inFlight| && g.inFlight[i].op.code == Truncate ==> |g.inFlight| == 1)
            && (c.fsyncIsExclusive || c.sloppySize ==>
                  forall i :: 0 <= i < |g.inFlight| && g.inFlight[i].op.code == Flush ==> |g.inFlight| == 1)
            && (forall i :: 0 <= i < |g.inFlight| && g.inFlight[i].op.code == Write && !g.inFlight[i].sizeChanging ==>
                  g.inFlight[i].op.pos + g.inFlight[i].op.len <= g.kernelSize)
            && g.logical <= g.kernelSize && (forall e :: e in g.ends ==> e <= g.logical)
            && g.dispatched <= g.accepted && g.quits <= g.closes
    decreases |steps|
  {
    if steps == [] {
      CountsTotal(f.inFlight);
      forall i | 0 <= i < |f.inFlight| && f.inFlight[i].sizeChanging ensures |f.inFlight| == 1 {
        CountWithout(f.inFlight, i, true);
      }
      forall i | 0 <= i < |f.inFlight| && f.inFlight[i].op.code == Write && !f.inFlight[i].sizeChanging
        ensures f.inFlight[i].op.pos + f.inFlight[i].op.len <= f.kernelSize
      {
        assert Within(f, f.inFlight[i]);
      }
    } else {
      StepKeepsInv(c, f, steps[0]);
      Safety(c, Next(c, f, steps[0]), steps[1..]);
    }
  }

  // ---- what the sizes are ----

  /** An operation that ended, and how. */
  datatype Done = Done(op: Op, o: Outcome) {
    /** It cut the file, or extended it, to its position. */
    predicate Cuts() { op.code == Truncate && o.Moved? }

    /** It wrote, up to this. */
    predicate Writes() { op.code == Write && o.Moved? }

    function End(): nat
      requires Writes()
    {
      op.pos + o.bytes
    }
  }

  /** The operations that end in the run, in this order. */
  ghost function Completions(c: Config, f: File, steps: seq<Step>): seq<Done>
    requires Trace(c, f, steps)
    decreases |steps|
  {
    if steps == [] then []
    else
      (if steps[0].Complete? then [Done(f.inFlight[steps[0].i].op, steps[0].o)] else [])
      + Completions(c, Next(c, f, steps[0]), steps[1..])
  }

  ghost predicate NoCuts(ds: seq<Done>) {
    forall d :: d in ds ==> !d.Cuts()
  }

  /** The base, or how far one of these writes reached, whichever is most. */
  ghost predicate Reaches(base: nat, ds: seq<Done>, x: nat) {
    && base <= x && (forall d :: d in ds && d.Writes() ==> d.End() <= x)
    && (x == base || exists d :: d in ds && d.Writes() && d.End() == x)
  }

  /** Operation k - 1 is the last one that cut the file; 0 if there is none. */
  ghost predicate LastCut(ds: seq<Done>, k: nat) {
    k <= |ds| && NoCuts(ds[k..]) && (k > 0 ==> ds[k - 1].Cuts())
  }

  /**
   * The size of a file that had that size at first: the position of the last cut, or the first size, or
   * how far a write behind that reached, whichever is most.
   */
  ghost predicate SizeIs(first: nat, ds: seq<Done>, x: nat) {
    exists k: nat :: LastCut(ds, k) && Reaches(if k == 0 then first else ds[k - 1].op.pos, ds[k..], x)
  }

  lemma NoCutFrom(ds: seq<Done>, k: nat)
    requires LastCut(ds, k)
    ensures forall i :: k <= i < |ds| ==> !ds[i].Cuts()
  {
    forall i | k <= i < |ds| ensures !ds[i].Cuts() {
      assert ds[k..][i - k] in ds[k..];
    }
  }

  lemma LastCutIsOne(ds: seq<Done>, j: nat, k: nat)
    requires LastCut(ds, j) && LastCut(ds, k)
    ensures j == k
  {
    NoCutFrom(ds, j);
    NoCutFrom(ds, k);
  }

  lemma SizeIsOne(first: nat, ds: seq<Done>, x: nat, y: nat)
    requires SizeIs(first, ds, x) && SizeIs(first, ds, y)
    ensures x == y
  {
    var j: nat :| LastCut(ds, j) && Reaches(if j == 0 then first else ds[j - 1].op.pos, ds[j..], x);
    var k: nat :| LastCut(ds, k) && Reaches(if k == 0 then first else ds[k - 1].op.pos, ds[k..], y);
    LastCutIsOne(ds, j, k);
  }

  /** The greater of two sizes. */
  predicate IsGreater(x: nat, a: nat, b: nat) {
    a <= x && b <= x && (x == a || x == b)
  }

  /** What the end of an operation does to the sizes that the file and the kernel have for it. */
  lemma CompletionSizes(c: Config, f: File, i: nat, o: Outcome)
    requires c.Valid() && Enabled(c, f, Complete(i, o))
    ensures var g, d := Next(c, f, Complete(i, o)), Done(f.inFlight[i].op, o);
            if d.Cuts() then g.logical == g.committed == g.kernelSize == d.op.pos
            else if d.Writes() then
              IsGreater(g.logical, f.logical, d.End()) && IsGreater(g.committed, f.committed, d.End())
              && IsGreater(g.kernelSize, f.kernelSize, d.End())
            else g.logical == f.logical && g.committed == f.committed && g.kernelSize == f.kernelSize
  {
  }

  /** Nothing else changes the logical size; the others follow it down for a flush, and grow for queued writes. */
  lemma OtherSizes(c: Config, f: File, e: Step)
    requires Inv(c, f) && Enabled(c, f, e) && !e.Complete?
    ensures var g := Next(c, f, e);
            && g.logical == f.logical
            && (if e.Dispatch? && f.q[0].code == Flush && e.ok then g.committed == g.kernelSize == g.logical
                else if e.Optimize? then f.committed <= g.committed == g.kernelSize
                else g.committed == f.committed && g.kernelSize == f.kernelSize)
  {
    SpeculateGrows(c, f.committed, f.q, f.committed, 0);
  }

  /** A write in front of others counts as one of them. */
  lemma ReachesBehind(first: nat, then1: nat, d: Done, ds: seq<Done>, x: nat)
    requires Reaches(then1, ds, x)
    requires if d.Writes() then IsGreater(then1, first, d.End()) else then1 == first
    ensures Reaches(first, [d] + ds, x)
  {
    assert d in [d] + ds;
    assert forall e :: e in ds ==> e in [d] + ds;
  }

  /** One operation in front of others. */
  lemma SizeBehind(first: nat, then1: nat, d: Done, ds: seq<Done>, x: nat)
    requires SizeIs(then1, ds, x)
    requires if d.Cuts() then then1 == d.op.pos
             else if d.Writes() then IsGreater(then1, first, d.End()) else then1 == first
    ensures SizeIs(first, [d] + ds, x)
  {
    var all := [d] + ds;
    var k: nat :| LastCut(ds, k) && Reaches(if k == 0 then then1 else ds[k - 1].op.pos, ds[k..], x);
    assert all[k + 1..] == ds[k..] && all[k] == if k == 0 then d else ds[k - 1];
    if k > 0 || d.Cuts() {
      assert LastCut(all, k + 1);
    } else {
      assert ds[0..] == ds && all[0..] == all;
      ReachesBehind(first, then1, d, ds, x);
      assert LastCut(all, 0);
    }
  }

  /**
   * In every run, the logical size is exactly the position of the last successful truncation, or the size
   * at the beginning, or how far a later successful write reached, whichever is most.
   */
  lemma {:induction false} LogicalSizeIs(c: Config, f: File, steps: seq<Step>)
    requires Inv(c, f) && Trace(c, f, steps)
    ensures SizeIs(f.logical, Completions(c, f, steps), After(c, f, steps).logical)
    decreases |steps|
  {
    if steps == [] {
      assert LastCut([], 0);
    } else {
      var e, g := steps[0], Next(c, f, steps[0]);
      StepKeepsInv(c, f, e);
      LogicalSizeIs(c, g, steps[1..]);
      var rest := Completions(c, g, steps[1..]);
      if e.Complete? {
        CompletionSizes(c, f, e.i, e.o);
        SizeBehind(f.logical, g.logical, Done(f.inFlight[e.i].op, e.o), rest, After(c, f, steps).logical);
      } else {
        OtherSizes(c, f, e);
        assert [] + rest == rest;
      }
    }
  }

  // ---- process_queue ----

  function DispatchedAll(c: Config, f: File, ok: bool): File
    decreases |f.q|
  {
    if f.q != [] && MayDispatch(c, f, f.q[0]) then DispatchedAll(c, Dispatched(c, f, ok), ok) else f
  }

  /** truncOk and flushOk say whether the kernel grants the ftruncate of optimize_queue and of a flush. */
  function Processed(c: Config, f: File, truncOk: bool, flushOk: bool): File
    requires c.Valid()
  {
    Quit(DispatchedAll(c, Optimized(c, f, truncOk), flushOk))
  }

  /** How often _completed has been fulfilled, when a close that is still waiting is counted in. */
  function Promised(f: File): nat {
    f.quits + if f.done then 1 else 0
  }

  /** At rest the dispatcher waits for nothing but operations in flight. */
  ghost predicate AtRest(f: File) {
    (f.q != [] ==> f.inFlight != []) && !MayQuit(f)
  }

  lemma {:induction false} DispatchedAllRests(c: Config, f: File, ok: bool)
    requires Inv(c, f)
    ensures var g := DispatchedAll(c, f, ok);
            && Inv(c, g) && (g.q != [] ==> g.inFlight != [] && !MayDispatch(c, g, g.q[0]))
            && |g.q| + |g.inFlight| == |f.q| + |f.inFlight| && g.done == f.done && g.accepted == f.accepted
            && g.quits == f.quits
    decreases |f.q|
  {
    if f.q != [] && MayDispatch(c, f, f.q[0]) {
      DispatchKeepsInv(c, f, ok);
      DispatchedAllRests(c, Dispatched(c, f, ok), ok);
    } else {
      CountsTotal(f.inFlight);
    }
  }

  lemma ProcessRests(c: Config, f: File, truncOk: bool, flushOk: bool)
    requires Inv(c, f)
    ensures var g := Processed(c, f, truncOk, flushOk);
            && Inv(c, g) && AtRest(g)
            && |g.q| + |g.inFlight| == |f.q| + |f.inFlight|
            && (f.done && f.q == [] && f.inFlight == [] ==> g.quits == f.quits + 1)
            && (f.done && (f.q != [] || f.inFlight != []) ==> g.done)
            && Promised(g) == Promised(f)
  {
    OptimizeKeepsInv(c, f, truncOk);
    var h := Optimized(c, f, truncOk);
    DispatchedAllRests(c, h, flushOk);
    var g := DispatchedAll(c, h, flushOk);
    StepKeepsInv(c, g, TryQuit);
    CountsTotal(g.inFlight);
    assert f.q == [] ==> DispatchedAll(c, h, flushOk) == h;
  }

  /** Which operations count as size-changing when they are dispatched. */
  lemma CountedAsChanging(c: Config, f: File, ok: bool)
    requires f.q != []
    ensures var g, op := Dispatched(c, f, ok), f.q[0];
            && |g.inFlight| == |f.inFlight| + 1 && g.inFlight[|f.inFlight|].op == op
            && (g.inFlight[|f.inFlight|].sizeChanging <==>
                match op.code
                case Read => false
                case Write => op.pos + op.len > f.committed
                case Truncate => true
                case Flush => c.fsyncIsExclusive || c.sloppySize)
  {
  }

  lemma {:induction false} CountIsExact(s: seq<InFlight>, k: bool)
    ensures Count(s, k) > 0 <==> exists i :: 0 <= i < |s| && s[i].sizeChanging == k
  {
    if s != [] {
      CountIsExact(s[1..], k);
      if Count(s[1..], k) > 0 {
        var i :| 0 <= i < |s[1..]| && s[1..][i].sizeChanging == k;
        assert s[i + 1].sizeChanging == k;
      }
      forall i | 0 <= i < |s| && s[i].sizeChanging == k ensures Count(s, k) > 0 {
        assert i > 0 ==> s[1..][i - 1].sizeChanging == k;
      }
    }
  }

  /**
   * An operation waits after process_queue only because one that changes the size is in flight, or
   * because it does so itself and something is in flight.
   */
  lemma WaitsForOthers(c: Config, f: File, truncOk: bool, flushOk: bool)
    requires Inv(c, f)
    ensures var g := Processed(c, f, truncOk, flushOk);
            g.q != [] ==>
              || (exists i :: 0 <= i < |g.inFlight| && g.inFlight[i].sizeChanging)
              || (g.inFlight != [] &&
                  match g.q[0].code
                  case Read => false
                  case Write => g.q[0].pos + g.q[0].len > g.committed
                  case Truncate => true
                  case Flush => c.fsyncIsExclusive || c.sloppySize)
  {
    OptimizeKeepsInv(c, f, truncOk);
    var h := Optimized(c, f, truncOk);
    DispatchedAllRests(c, h, flushOk);
    var g := DispatchedAll(c, h, flushOk);
    CountIsExact(g.inFlight, true);
  }

  /** One completion and the processing that follows. */
  function CompletedAndProcessed(c: Config, f: File, i: nat, o: Outcome, truncOk: bool, flushOk: bool): File
    requires c.Valid() && Enabled(c, f, Complete(i, o))
  {
    Processed(c, Completed(f, i, o), truncOk, flushOk)
  }

  /** What the kernel does with one of the operations in flight. */
  datatype Answer = Answer(which: nat, bytes: nat, failed: bool, truncOk: bool, flushOk: bool)

  ghost function Chosen(a: Answer, n: nat): (i: nat)
    requires n > 0
    ensures i < n
  {
    a.which % n
  }

  ghost function OutcomeOf(a: Answer, op: Op): (o: Outcome)
    ensures o.Moved? ==> o.bytes <= op.len
  {
    if a.failed then Failed else Moved(if a.bytes > op.len then op.len else a.bytes)
  }

  ghost function Answered(c: Config, f: File, a: Answer): File
    requires Inv(c, f) && f.inFlight != []
  {
    var i := Chosen(a, |f.inFlight|);
    var o := OutcomeOf(a, f.inFlight[i].op);
    CompleteKeepsInv(c, f, i, o);
    CompletedAndProcessed(c, f, i, o, a.truncOk, a.flushOk)
  }

  lemma CompletionProgress(c: Config, f: File, i: nat, o: Outcome, truncOk: bool, flushOk: bool)
    requires Inv(c, f) && i < |f.inFlight| && (o.Moved? ==> o.bytes <= f.inFlight[i].op.len)
    ensures Enabled(c, f, Complete(i, o))
    ensures var g := CompletedAndProcessed(c, f, i, o, truncOk, flushOk);
            && Inv(c, g) && AtRest(g) && |g.q| + |g.inFlight| == |f.q| + |f.inFlight| - 1
            && Promised(g) == Promised(f)
  {
    CompleteKeepsInv(c, f, i, o);
    var h := Completed(f, i, o);
    assert |h.q| + |h.inFlight| == |f.q| + |f.inFlight| - 1 && h.done == f.done && h.quits == f.quits;
    ProcessRests(c, h, truncOk, flushOk);
  }

  lemma AnswerMakesProgress(c: Config, f: File, a: Answer)
    requires Inv(c, f) && f.inFlight != []
    ensures var g := Answered(c, f, a);
            && Inv(c, g) && AtRest(g) && |g.q| + |g.inFlight| == |f.q| + |f.inFlight| - 1
            && Promised(g) == Promised(f)
  {
    var i := Chosen(a, |f.inFlight|);
    CompletionProgress(c, f, i, OutcomeOf(a, f.inFlight[i].op), a.truncOk, a.flushOk);
  }

  /** The answers are used one after the other, while anything is in flight. */
  ghost function Drained(c: Config, f: File, answers: seq<Answer>): File
    requires Inv(c, f)
    decreases |answers|
  {
    if answers == [] || f.inFlight == [] then f
    else
      AnswerMakesProgress(c, f, answers[0]);
      Drained(c, Answered(c, f, answers[0]), answers[1..])
  }

  /**
   * No deadlock: whatever the kernel answers and in whatever order, as many answers as there are
   * operations bring every one of them to its end, and a closed file is then completed.
   */
  lemma {:induction false} Drains(c: Config, f: File, answers: seq<Answer>)
    requires Inv(c, f) && AtRest(f) && |answers| == |f.q| + |f.inFlight|
    ensures var g := Drained(c, f, answers);
            && Inv(c, g) && g.q == [] && g.inFlight == [] && g.dispatched == g.accepted
            && !g.done && g.quits == Promised(f)
    decreases |answers|
  {
    if f.inFlight != [] {
      AnswerMakesProgress(c, f, answers[0]);
      Drains(c, Answered(c, f, answers[0]), answers[1..]);
    } else {
      CountsTotal(f.inFlight);
    }
  }

  // ---- what the speculative extension is for ----

  /** How many operations stand in front of the first one that must run alone. */
  function Leading(c: Config, q: seq<Op>): nat {
    if q == [] || MustRunAlone(c, q[0]) then 0 else 1 + Leading(c, q[1..])
  }

  lemma {:induction false} SpeculationCovers(c: Config, committed: nat, q: seq<Op>, size: nat, n: nat, i: nat)
    requires i < Leading(c, q)
    ensures Leading(c, q) <= |q|
    ensures var (s, m) := Speculate(c, committed, q, size, n);
            q[i].code == Write && q[i].pos + q[i].len > committed ==> q[i].pos + q[i].len <= s && m > n
    decreases |q|
  {
    var append := q[0].code == Write && q[0].pos + q[0].len > committed;
    var size' := if append then Max(size, q[0].pos + q[0].len) else size;
    var n' := if append then n + 1 else n;
    assert Speculate(c, committed, q, size, n) == Speculate(c, committed, q[1..], size', n');
    SpeculateGrows(c, committed, q[1..], size', n');
    if i > 0 {
      SpeculationCovers(c, committed, q[1..], size', n', i - 1);
    } else {
      LeadingBound(c, q);
    }
  }

  lemma {:induction false} LeadingBound(c: Config, q: seq<Op>)
    ensures Leading(c, q) <= |q|
  {
    if !(q == [] || MustRunAlone(c, q[0])) { LeadingBound(c, q[1..]); }
  }

  /** The operation is a write that reaches behind the committed size. */
  predicate Appends(committed: nat, op: Op) {
    op.code == Write && op.pos + op.len > committed
  }

  /** How many of them stand in front of the first operation that must run alone. */
  function CountAppends(c: Config, committed: nat, q: seq<Op>): nat {
    if q == [] || MustRunAlone(c, q[0]) then 0
    else (if Appends(committed, q[0]) then 1 else 0) + CountAppends(c, committed, q[1..])
  }

  /** The size speculated is one that a write needs, and the writes are counted. */
  lemma {:induction false} SpeculateIsNeeded(c: Config, committed: nat, q: seq<Op>, size: nat, n: nat)
    ensures var (s, m) := Speculate(c, committed, q, size, n);
            && m == n + CountAppends(c, committed, q)
            && (s == size || exists i :: 0 <= i < Leading(c, q) && i < |q| && Appends(committed, q[i])
                                         && q[i].pos + q[i].len == s)
    decreases |q|
  {
    if !(q == [] || MustRunAlone(c, q[0])) {
      var end := q[0].pos + q[0].len;
      var size', n' := size, n;
      if Appends(committed, q[0]) {
        size', n' := Max(size, end), n + 1;
      }
      assert Speculate(c, committed, q, size, n) == Speculate(c, committed, q[1..], size', n');
      SpeculateIsNeeded(c, committed, q[1..], size', n');
      var s := Speculate(c, committed, q, size, n).0;
      if s == size' {
        assert s == size || (Appends(committed, q[0]) && s == end && 0 < Leading(c, q));
      } else {
        var i :| 0 <= i < Leading(c, q[1..]) && i < |q[1..]| && Appends(committed, q[1..][i])
                 && q[1..][i].pos + q[1..][i].len == s;
        assert q[i + 1] == q[1..][i] && i + 1 < Leading(c, q);
      }
    }
  }

  /** S covers all the writes that could go together, and is no more than the longest of them needs. */
  ghost predicate JustCovers(c: Config, f: File, size: nat) {
    && (forall i :: 0 <= i < Leading(c, f.q) && i < |f.q| && Appends(f.committed, f.q[i]) ==>
          f.q[i].pos + f.q[i].len <= size)
    && exists i :: 0 <= i < Leading(c, f.q) && i < |f.q| && Appends(f.committed, f.q[i])
                   && f.q[i].pos + f.q[i].len == size
  }

  /**
   * When optimize_queue asks for more room and for how much: only on an idle file, for more appending
   * writes than may be on their own, or any if the size may be sloppy. It asks for what the longest of
   * them needs; a sloppy size at least doubles.
   */
  lemma SpeculationIsExact(c: Config, f: File)
    requires c.Valid()
    ensures var n, size := CountAppends(c, f.committed, f.q), SpeculativeSize(c, f);
            if f.otherOps == 0 && f.sizeChangingOps == 0 && (n > c.maxSizeChangingOps || (n > 0 && c.sloppySize)) then
              exists least: nat :: JustCovers(c, f, least)
                && size == if c.sloppySize && least < 2 * f.committed then AlignUp(2 * f.committed, c.alignment)
                           else least
            else size == f.committed
  {
    var (size, m) := Speculate(c, f.committed, f.q, f.committed, 0);
    SpeculateIsNeeded(c, f.committed, f.q, f.committed, 0);
    if CountAppends(c, f.committed, f.q) > 0 {
      forall i | 0 <= i < Leading(c, f.q) && i < |f.q| && Appends(f.committed, f.q[i])
        ensures f.q[i].pos + f.q[i].len <= size
      {
        SpeculationCovers(c, f.committed, f.q, f.committed, 0, i);
      }
      SomeAppends(c, f.committed, f.q);
      assert JustCovers(c, f, size);
    }
  }

  lemma {:induction false} SomeAppends(c: Config, committed: nat, q: seq<Op>)
    requires CountAppends(c, committed, q) > 0
    ensures exists i :: 0 <= i < Leading(c, q) && i < |q| && Appends(committed, q[i])
    decreases |q|
  {
    if Appends(committed, q[0]) {
      assert 0 < Leading(c, q);
    } else {
      SomeAppends(c, committed, q[1..]);
      var i :| 0 <= i < Leading(c, q[1..]) && i < |q[1..]| && Appends(committed, q[1..][i]);
      assert q[i + 1] == q[1..][i] && i + 1 < Leading(c, q);
    }
  }

  /** Writes within the committed size do not hold each other up. */
  lemma {:induction false} LeadingDispatched(c: Config, f: File, ok: bool)
    requires f.sizeChangingOps == 0
    requires forall i :: 0 <= i < Leading(c, f.q) && i < |f.q| && f.q[i].code == Write ==>
             f.q[i].pos + f.q[i].len <= f.committed
    requires forall i :: 0 <= i < |f.q| && f.q[i].code == Flush ==> MustRunAlone(c, f.q[i])
    ensures |DispatchedAll(c, f, ok).dispatched| >= |f.dispatched| + Leading(c, f.q)
    decreases |f.q|
  {
    LeadingBound(c, f.q);
    if Leading(c, f.q) > 0 {
      var g := Dispatched(c, f, ok);
      assert g.q == f.q[1..] && g.committed == f.committed;
      forall i | 0 <= i < Leading(c, g.q) && i < |g.q| && g.q[i].code == Write
        ensures g.q[i].pos + g.q[i].len <= g.committed
      {
        assert g.q[i] == f.q[i + 1];
      }
      LeadingDispatched(c, g, ok);
    } else {
      DispatchedOnlyGrows(c, f, ok);
    }
  }

  lemma {:induction false} DispatchedOnlyGrows(c: Config, f: File, ok: bool)
    ensures |DispatchedAll(c, f, ok).dispatched| >= |f.dispatched|
    decreases |f.q|
  {
    if f.q != [] && MayDispatch(c, f, f.q[0]) { DispatchedOnlyGrows(c, Dispatched(c, f, ok), ok); }
  }

  /**
   * If the file is idle and optimize_queue asks for more room and gets it, or no write needs more,
   * every operation in front of the first exclusive one is in flight at once.
   */
  lemma SpeculationUnblocks(c: Config, f: File, flushOk: bool)
    requires Inv(c, f) && f.inFlight == []
    requires var n := Speculate(c, f.committed, f.q, f.committed, 0).1;
             n == 0 || n > c.maxSizeChangingOps || c.sloppySize
    ensures |Processed(c, f, true, flushOk).dispatched| >= |f.dispatched| + Leading(c, f.q)
  {
    CountsTotal(f.inFlight);
    SpeculateGrows(c, f.committed, f.q, f.committed, 0);
    LeadingBound(c, f.q);
    var g := Optimized(c, f, true);
    forall i | 0 <= i < Leading(c, g.q) && i < |g.q| && g.q[i].code == Write
      ensures g.q[i].pos + g.q[i].len <= g.committed
    {
      SpeculationCovers(c, f.committed, f.q, f.committed, 0, i);
    }
    LeadingDispatched(c, g, flushOk);
  }

  // ---- reads into several buffers ----

  const TWO_TO_THE_64: nat := 0x1_0000_0000_0000_0000

  /** The largest file offset and one. */
  const TWO_TO_THE_63: nat := 0x8000_0000_0000_0000

  /** x - y in 64-bit words. */
  function Difference64(x: nat, y: nat): int {
    if x >= y then x - y else TWO_TO_THE_64 - (y - x)
  }

  /** What the first k buffers hold. */
  function Sum(lens: seq<nat>, k: nat): nat
    requires k <= |lens|
  {
    if k == 0 then 0 else Sum(lens, k - 1) + lens[k - 1]
  }

  lemma {:induction false} SumGrows(lens: seq<nat>, j: nat, k: nat)
    requires j <= k <= |lens|
    ensures Sum(lens, j) <= Sum(lens, k)
    decreases k - j
  {
    if j < k { SumGrows(lens, j, k - 1); }
  }

  lemma {:induction false} SameSum(a: seq<nat>, b: seq<nat>, k: nat)
    requires k <= |a| && k <= |b| && forall i :: 0 <= i < k ==> a[i] == b[i]
    ensures Sum(a, k) == Sum(b, k)
  {
    if k > 0 { SameSum(a, b, k - 1); }
  }

  /** k buffers from pos on end at the limit or before, and the next one, if there is one, behind it. */
  ghost predicate FitBefore(pos: nat, lens: seq<nat>, limit: nat, k: nat) {
    k <= |lens| && pos + Sum(lens, k) <= limit && (k < |lens| ==> pos + Sum(lens, k + 1) > limit)
  }

  /** The buffers that are passed to the kernel: the last one with what it holds behind the end. */
  function Passed(pos: nat, lens: seq<nat>, end: nat, k: nat): seq<nat>
    requires k <= |lens| && end < TWO_TO_THE_63
  {
    if k == |lens| then lens
    else
      var last := Difference64(pos + Sum(lens, k + 1), end);
      if last > 0 then lens[..k] + [last] else lens[..k]
  }

  lemma PassedSum(lens: seq<nat>, k: nat, last: int, passed: seq<nat>)
    requires k < |lens| && last >= 0 && passed == if last > 0 then lens[..k] + [last] else lens[..k]
    ensures Sum(passed, |passed|) == Sum(lens, k) + last
  {
    SameSum(passed, lens, k);
  }

  /** So many bytes are those before the end, of a read that has room for total bytes. */
  ghost predicate AllUpTo(asked: int, pos: nat, total: nat, end: nat) {
    asked == if pos + total < end then total else end - pos
  }

  /** A buffer is twice as long as what is left up to the end. */
  ghost predicate TwiceTheRest(len: nat, pos: nat, before: nat, end: nat) {
    len == 2 * (end - pos - before)
  }

  lemma RightLast(pos: nat, before: nat, last: nat, total: nat, end: nat, asked: int)
    requires pos + before <= end < TWO_TO_THE_63 && before + last <= total
    requires asked == before + Difference64(pos + before + last, end)
    ensures AllUpTo(asked, pos, total, end) <==> TwiceTheRest(last, pos, before, end)
  {
  }

  lemma WholeIsRight(pos: nat, total: nat, end: nat)
    requires pos + total <= end
    ensures AllUpTo(total, pos, total, end)
  {
  }

  lemma ShortenedIsRight(pos: nat, lens: seq<nat>, end: nat, k: nat, asked: int)
    requires k < |lens| && pos + Sum(lens, k) <= end < TWO_TO_THE_63
    requires asked == Sum(lens, k) + Difference64(pos + Sum(lens, k + 1), end)
    ensures AllUpTo(asked, pos, Sum(lens, |lens|), end) <==> TwiceTheRest(lens[k], pos, Sum(lens, k), end)
  {
    SumGrows(lens, k + 1, |lens|);
    RightLast(pos, Sum(lens, k), lens[k], Sum(lens, |lens|), end, asked);
  }

  lemma SumOfPassed(pos: nat, lens: seq<nat>, end: nat, k: nat) returns (asked: int)
    requires k <= |lens| && end < TWO_TO_THE_63
    ensures var passed := Passed(pos, lens, end, k); asked == Sum(passed, |passed|)
    ensures asked == Sum(lens, k) + if k < |lens| then Difference64(pos + Sum(lens, k + 1), end) else 0
  {
    var passed := Passed(pos, lens, end, k);
    asked := Sum(passed, |passed|);
    if k < |lens| {
      PassedSum(lens, k, Difference64(pos + Sum(lens, k + 1), end), passed);
    }
  }

  /**
   * A read into several buffers asks for what they hold up to the end, the aligned logical size, if and
   * only if no buffer reaches behind the logical size, or the first that does is twice as long as what
   * was left up to the end.
   */
  lemma PassedIsRight(pos: nat, lens: seq<nat>, logical: nat, end: nat, k: nat) returns (asked: int)
    requires pos < logical <= end < TWO_TO_THE_63 && FitBefore(pos, lens, logical, k)
    ensures var passed := Passed(pos, lens, end, k); asked == Sum(passed, |passed|)
    ensures AllUpTo(asked, pos, Sum(lens, |lens|), end)
            <==> (k < |lens| ==> TwiceTheRest(lens[k], pos, Sum(lens, k), end))
  {
    asked := SumOfPassed(pos, lens, end, k);
    if k == |lens| {
      WholeIsRight(pos, Sum(lens, k), end);
    } else {
      ShortenedIsRight(pos, lens, end, k, asked);
    }
  }

  /** 1024 bytes are asked for instead of 4096 when 5120 are read from the start of a file of 4096 bytes. */
  lemma PassedTooShort()
    ensures FitBefore(0, [5120], 4096, 0) && AlignUp(4096, 512) == 4096
    ensures Passed(0, [5120], 4096, 0) == [1024]
  {
    AlignUpLeast(4096, 512, 4096);
    assert Sum([5120], 1) == 5120;
  }

  /** The loop over the buffers of a read that starts at pos. */
  method CutBuffers(pos: nat, lens: seq<nat>, logical: nat, end: nat)
    returns (passed: seq<nat>, len: nat, ghost k: nat)
    requires pos <= logical <= end < TWO_TO_THE_63
    ensures FitBefore(pos, lens, logical, k) && len == Sum(lens, k) && passed == Passed(pos, lens, end, k)
  {
    var i := 0;
    len := 0;
    while i < |lens| && pos + len + lens[i] <= logical
      invariant i <= |lens| && len == Sum(lens, i) && pos + len <= logical
    {
      len, i := len + lens[i], i + 1;
    }
    k := i;
    passed := lens;
    if i < |lens| {
      var last := Difference64(pos + len + lens[i], end);
      passed := if last > 0 then lens[..i] + [last] else lens[..i];
    }
  }

  // ---- the file object ----

  class AppendChallengedFile {
    const config: Config
    var committedSize: nat
    var logicalSize: nat
    var q: seq<Op>
    var currentSizeChangingOps: nat
    var currentNonSizeChangingOps: nat
    var done: bool
    ghost var closes: nat
    ghost var quits: nat
    ghost var kernelSize: nat
    ghost var inFlight: seq<InFlight>
    ghost var accepted: seq<Op>
    ghost var dispatched: seq<Op>
    ghost var ends: seq<nat>

    ghost function State(): File
      reads this
    {
      File(committedSize, logicalSize, q, currentSizeChangingOps, currentNonSizeChangingOps, done, closes, quits,
           kernelSize, inFlight, accepted, dispatched, ends)
    }

    ghost predicate Valid()
      reads this
    {
      Inv(config, State())
    }

    constructor (c: Config, size: nat)
      requires c.Valid()
      ensures Valid() && State() == Opened(size) && config == c
    {
      config := c;
      committedSize, logicalSize, kernelSize := size, size, size;
      q, currentSizeChangingOps, currentNonSizeChangingOps := [], 0, 0;
      done, closes, quits := false, 0, 0;
      inFlight, accepted, dispatched, ends := [], [], [], [];
    }

    predicate MustRunAloneNow(candidate: Op)
      reads this
    {
      MustRunAlone(config, candidate)
    }

    predicate IsSizeChanging(candidate: Op)
      reads this
    {
      (candidate.code == Write && candidate.pos + candidate.len > committedSize) || MustRunAloneNow(candidate)
    }

    predicate MayDispatchNow(candidate: Op)
      reads this
    {
      if IsSizeChanging(candidate) then currentSizeChangingOps == 0 && currentNonSizeChangingOps == 0
      else currentSizeChangingOps == 0
    }

    /** ok is the kernel's answer to the ftruncate, if one is issued. */
    method OptimizeQueue(ok: bool)
      requires Valid()
      modifies this`committedSize, this`kernelSize
      ensures State() == Optimized(config, old(State()), ok)
    {
      if currentNonSizeChangingOps > 0 || currentSizeChangingOps > 0 {
        return;
      }
      var speculativeSize: nat, nAppendingWrites: nat := committedSize, 0;
      var i := 0;
      while i < |q| && !MustRunAloneNow(q[i])
        invariant i <= |q|
        invariant Speculate(config, committedSize, q, committedSize, 0)
               == Speculate(config, committedSize, q[i..], speculativeSize, nAppendingWrites)
      {
        assert q[i..][0] == q[i] && q[i..][1..] == q[i + 1..];
        if q[i].code == Write && q[i].pos + q[i].len > committedSize {
          speculativeSize := if speculativeSize > q[i].pos + q[i].len then speculativeSize else q[i].pos + q[i].len;
          nAppendingWrites := nAppendingWrites + 1;
        }
        i := i + 1;
      }
      assert i < |q| ==> q[i..][0] == q[i];
      if nAppendingWrites > config.maxSizeChangingOps || (nAppendingWrites > 0 && config.sloppySize) {
        if config.sloppySize && speculativeSize < 2 * committedSize {
          speculativeSize := AlignUp(2 * committedSize, config.alignment);
        }
        if ok {
          committedSize := speculativeSize;
          kernelSize := speculativeSize;
        }
      }
    }

    /** Starts an operation; a flush tries to cut the file first, and ok is the kernel's answer to that. */
    method DispatchFront(ok: bool)
      requires Valid() && q != [] && MayDispatchNow(q[0])
      modifies this
      ensures State() == Dispatched(config, old(State()), ok)
    {
      var candidate := q[0];
      q := q[1..];
      dispatched := dispatched + [candidate];
      var alone := IsSizeChanging(candidate);
      if alone {
        currentSizeChangingOps := currentSizeChangingOps + 1;
      } else {
        currentNonSizeChangingOps := currentNonSizeChangingOps + 1;
      }
      inFlight := inFlight + [InFlight(candidate, alone)];
      if candidate.code == Flush && logicalSize != committedSize && ok {
        committedSize := logicalSize;
        kernelSize := logicalSize;
      }
    }

    method ProcessQueue(truncOk: bool, flushOk: bool)
      requires Valid()
      modifies this
      ensures Valid() && AtRest(State()) && Promised(State()) == old(Promised(State()))
      ensures State() == Processed(config, old(State()), truncOk, flushOk)
    {
      ProcessRests(config, State(), truncOk, flushOk);
      OptimizeKeepsInv(config, State(), truncOk);
      OptimizeQueue(truncOk);
      DispatchWhilePossible(flushOk);
      if done && q == [] && currentNonSizeChangingOps == 0 && currentSizeChangingOps == 0 {
        quits := quits + 1;
        done := false;
      }
    }

    /** The loop of process_queue. */
    method DispatchWhilePossible(flushOk: bool)
      requires Valid()
      modifies this
      ensures State() == DispatchedAll(config, old(State()), flushOk)
    {
      ghost var f := State();
      while q != [] && MayDispatchNow(q[0])
        invariant Valid() && DispatchedAll(config, f, flushOk) == DispatchedAll(config, State(), flushOk)
        decreases |q|
      {
        DispatchKeepsInv(config, State(), flushOk);
        DispatchFront(flushOk);
      }
    }

    method Enqueue(op: Op, truncOk: bool, flushOk: bool)
      requires Valid() && (op.code == Flush ==> MustRunAlone(config, op))
      modifies this
      ensures Valid() && AtRest(State())
      ensures State() == Processed(config, Pushed(old(State()), op), truncOk, flushOk)
    {
      StepKeepsInv(config, State(), Push(op));
      q := q + [op];
      accepted := accepted + [op];
      ProcessQueue(truncOk, flushOk);
    }

    /** A read is cut to the aligned logical size; one that starts behind the logical size reads nothing. */
    method ReadDma(pos: nat, len: nat, readAlignment: nat, truncOk: bool, flushOk: bool) returns (asked: nat)
      requires Valid() && AtRest(State()) && readAlignment > 0
      modifies this
      ensures Valid() && AtRest(State())
      ensures old(logicalSize) <= pos ==> asked == 0 && State() == old(State())
      ensures pos < old(logicalSize) ==>
                && pos + asked <= AlignUp(old(logicalSize), readAlignment) && asked <= len
                && (len <= asked || pos + asked == AlignUp(old(logicalSize), readAlignment))
                && State() == Processed(config, Pushed(old(State()), Op(Read, pos, asked)), truncOk, flushOk)
    {
      if pos >= logicalSize {
        return 0;
      }
      var end := AlignUp(logicalSize, readAlignment);
      asked := (if pos + len < end then pos + len else end) - pos;
      Enqueue(Op(Read, pos, asked), truncOk, flushOk);
    }

    /** read_dma() into several buffers: what the kernel is passed of them. */
    method ReadDmaBuffers(pos: nat, lens: seq<nat>, readAlignment: nat, truncOk: bool, flushOk: bool)
        returns (passed: seq<nat>, ghost k: nat)
      requires Valid() && AtRest(State()) && readAlignment > 0
      requires AlignUp(logicalSize, readAlignment) < TWO_TO_THE_63
      modifies this
      ensures Valid() && AtRest(State())
      ensures old(logicalSize) <= pos ==> passed == [] && State() == old(State())
      ensures pos < old(logicalSize) ==>
                && FitBefore(pos, lens, old(logicalSize), k)
                && passed == Passed(pos, lens, AlignUp(old(logicalSize), readAlignment), k)
                && State() == Processed(config, Pushed(old(State()), Op(Read, pos, Sum(lens, k))), truncOk, flushOk)
    {
      k := 0;
      if pos >= logicalSize {
        return [], 0;
      }
      var len;
      passed, len, k := CutBuffers(pos, lens, logicalSize, AlignUp(logicalSize, readAlignment));
      Enqueue(Op(Read, pos, len), truncOk, flushOk);
    }

    method WriteDma(pos: nat, len: nat, truncOk: bool, flushOk: bool)
      requires Valid()
      modifies this
      ensures Valid() && AtRest(State())
      ensures State() == Processed(config, Pushed(old(State()), Op(Write, pos, len)), truncOk, flushOk)
    {
      Enqueue(Op(Write, pos, len), truncOk, flushOk);
    }

    method TruncateFile(length: nat, truncOk: bool, flushOk: bool)
      requires Valid()
      modifies this
      ensures Valid() && AtRest(State())
      ensures State() == Processed(config, Pushed(old(State()), Op(Truncate, length, 0)), truncOk, flushOk)
    {
      Enqueue(Op(Truncate, length, 0), truncOk, flushOk);
    }

    /** A flush that needs no size change and no exclusion goes straight to the kernel. */
    method FlushFile(truncOk: bool, flushOk: bool) returns (direct: bool)
      requires Valid() && AtRest(State())
      modifies this
      ensures Valid() && AtRest(State())
      ensures direct <==> (old(logicalSize == committedSize) || !config.sloppySize) && !config.fsyncIsExclusive
      ensures direct ==> State() == old(State())
      ensures !direct ==> State() == Processed(config, Pushed(old(State()), Op(Flush, 0, 0)), truncOk, flushOk)
    {
      if (!config.sloppySize || logicalSize == committedSize) && !config.fsyncIsExclusive {
        return true;
      }
      Enqueue(Op(Flush, 0, 0), truncOk, flushOk);
      return false;
    }

    /** The kernel reports the end of an operation. */
    method OnCompletion(i: nat, op: Op, sizeChanging: bool, o: Outcome, truncOk: bool, flushOk: bool)
      requires Valid() && i < |inFlight| && inFlight[i] == InFlight(op, sizeChanging)
      requires o.Moved? ==> o.bytes <= op.len
      modifies this
      ensures Valid() && AtRest(State())
      ensures Enabled(config, old(State()), Complete(i, o))
      ensures State() == CompletedAndProcessed(config, old(State()), i, o, truncOk, flushOk)
    {
      CompleteKeepsInv(config, State(), i, o);
      Settle(i, op, sizeChanging, o);
      ProcessQueue(truncOk, flushOk);
    }

    /** The accounting of a completion. */
    method Settle(i: nat, op: Op, sizeChanging: bool, o: Outcome)
      requires i < |inFlight| && inFlight[i] == InFlight(op, sizeChanging)
      requires if sizeChanging then currentSizeChangingOps > 0 else currentNonSizeChangingOps > 0
      modifies this
      ensures State() == Completed(old(State()), i, o)
    {
      if o.Moved? {
        if op.code == Write {
          CommitSize(op.pos + o.bytes);
          ends := ends + [op.pos + o.bytes];
        } else if op.code == Truncate {
          committedSize, logicalSize, kernelSize, ends := op.pos, op.pos, op.pos, [];
        }
      }
      inFlight := inFlight[..i] + inFlight[i + 1..];
      if sizeChanging {
        currentSizeChangingOps := currentSizeChangingOps - 1;
      } else {
        currentNonSizeChangingOps := currentNonSizeChangingOps - 1;
      }
    }

    method CommitSize(size: nat)
      modifies this`committedSize, this`logicalSize, this`kernelSize
      ensures committedSize == Max(size, old(committedSize)) && logicalSize == Max(size, old(logicalSize))
      ensures kernelSize == Max(size, old(kernelSize))
    {
      committedSize := if size > committedSize then size else committedSize;
      logicalSize := if size > logicalSize then size else logicalSize;
      kernelSize := Max(size, kernelSize);
    }

    /** Asks for completion once everything accepted has ended. */
    method CloseFile(truncOk: bool, flushOk: bool)
      requires Valid()
      modifies this
      ensures Valid() && AtRest(State())
      ensures State() == Processed(config, Closing(old(State())), truncOk, flushOk)
      ensures Promised(State()) == old(quits) + 1
    {
      StepKeepsInv(config, State(), Close);
      done := true;
      closes := closes + 1;
      ProcessQueue(truncOk, flushOk);
    }

    /** The continuation of close: the file is cut to its logical size before it is closed. */
    method FinishClose(ok: bool)
      requires Valid() && inFlight == []
      modifies this`committedSize, this`kernelSize
      ensures Valid() && (ok ==> kernelSize == logicalSize) && (!ok ==> kernelSize == old(kernelSize))
      ensures forall e :: e in ends ==> e <= kernelSize
    {
      if logicalSize != committedSize {
        if ok {
          committedSize := logicalSize;
          kernelSize := logicalSize;
        }
      }
    }
  }
}
