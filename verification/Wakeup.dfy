/**
 * Sleep and wakeup between shards (core/reactor.cc): one reactor that goes to sleep and any number
 * of threads that send to it. Every thread has a store buffer that empties in order and at any time,
 * so the senders' plain loads and stores are as weak as on the hardware the code is written for.
 */
module Wakeup {

  /** Where a sender is in push(); maybe_wakeup(). */
  datatype SenderPc = Idle | Pushed | SawSleeping | Cleared

  /** A store to shared memory: messages becoming visible in the sender's queue, or _sleeping := false. */
  datatype Store = Messages(n: nat) | SleepingFalse

  datatype Sender = Sender(pc: SenderPc, buffer: seq<Store>, visible: nat)

  /**
   * Where the receiver is: running; between its store to _sleeping and the barrier; inside the
   * barrier, with the first k senders done; polling, with the first k queues found empty; through
   * with the queues; with signals blocked; waiting in epoll_pwait.
   */
  datatype ReceiverPc = Running | SetSleeping | Barrier(k: nat) | Polling(k: nat) | QueuesEmpty | SignalsBlocked
    | Waiting

  /**
   * sleeping is _sleeping in memory and stores are the receiver's buffered stores to it. pending is
   * a wakeup signal the kernel holds, handled is what the signal handler has noted.
   */
  datatype State = State(senders: seq<Sender>, sleeping: bool, stores: seq<bool>, pc: ReceiverPc,
                         pending: bool, handled: bool)

  /** What the sender reads: its own latest buffered store to _sleeping, else memory. */
  function LoadSleeping(s: State, i: nat): bool
    requires i < |s.senders|
  {
    if SleepingFalse in s.senders[i].buffer then false else s.sleeping
  }

  /** The oldest store of sender i reaches memory. */
  function Drained(s: State, i: nat): State
    requires i < |s.senders| && s.senders[i].buffer != []
  {
    var p := s.senders[i];
    var q := p.(buffer := p.buffer[1..]);
    match p.buffer[0]
    case Messages(n) => s.(senders := s.senders[i := q.(visible := p.visible + n)])
    case SleepingFalse => s.(senders := s.senders[i := q], sleeping := false)
  }

  /** All stores of sender i reach memory. */
  function Flushed(s: State, i: nat): (t: State)
    requires i < |s.senders|
    ensures |t.senders| == |s.senders|
    decreases |s.senders[i].buffer|
  {
    if s.senders[i].buffer == [] then s else Flushed(Drained(s, i), i)
  }

  datatype Step =
    | Push(i: nat, n: nat) | Check(i: nat) | Clear(i: nat) | Kill(i: nat) | Drain(i: nat)
    | ReceiverDrain | GoToSleep | BarrierStart | BarrierUnavailable | BarrierNext | PollNext(taken: nat)
      | OtherPollerBusy
    | BlockSignals | PollSignals | Wake | OtherEvent | DeliverSignal | PollRunning(i: nat, taken: nat)
      | PollSignalsRunning

  function WithSender(s: State, i: nat, p: Sender): State
    requires i < |s.senders|
  {
    s.(senders := s.senders[i := p])
  }

  /** Back to running: _sleeping := false goes into the receiver's store buffer. */
  function BackToRunning(s: State): State {
    s.(pc := Running, stores := s.stores + [false])
  }

  predicate Enabled(s: State, e: Step) {
    match e
    case Push(i, n) => i < |s.senders| && s.senders[i].pc == Idle && n > 0
    case Check(i) => i < |s.senders| && s.senders[i].pc == Pushed
    case Clear(i) => i < |s.senders| && s.senders[i].pc == SawSleeping
    case Kill(i) => i < |s.senders| && s.senders[i].pc == Cleared
    case Drain(i) => i < |s.senders| && s.senders[i].buffer != []
    case ReceiverDrain => s.stores != []
    case GoToSleep => s.pc == Running
    case BarrierStart => s.pc == SetSleeping
    case BarrierUnavailable => s.pc == SetSleeping
    case BarrierNext => s.pc.Barrier? && s.pc.k <= |s.senders|
    case PollNext(taken) => s.pc.Polling? && s.pc.k <= |s.senders|
                            && (s.pc.k < |s.senders| ==>
                                  taken <= s.senders[s.pc.k].visible && (taken == 0 ==> s.senders[s.pc.k].visible == 0))
    case OtherPollerBusy => s.pc == QueuesEmpty || s.pc == SignalsBlocked
    case BlockSignals => s.pc == QueuesEmpty
    case PollSignals => s.pc == SignalsBlocked
    case Wake => s.pc == Waiting && s.pending
    case OtherEvent => s.pc == Waiting
    case DeliverSignal => s.pending && s.pc != SignalsBlocked && s.pc != Waiting
    case PollRunning(i, taken) => s.pc == Running && i < |s.senders| && taken <= s.senders[i].visible
    case PollSignalsRunning => s.pc == Running
  }

  function Next(s: State, e: Step): State
    requires Enabled(s, e)
  {
    match e
    case Push(i, n) =>
      var p := s.senders[i];
      WithSender(s, i, p.(pc := Pushed, buffer := p.buffer + [Messages(n)]))
    case Check(i) => WithSender(s, i, s.senders[i].(pc := if LoadSleeping(s, i) then SawSleeping else Idle))
    case Clear(i) =>
      var p := s.senders[i];
      WithSender(s, i, p.(pc := Cleared, buffer := p.buffer + [SleepingFalse]))
    case Kill(i) =>
      // the system call empties the sender's store buffer
      var t := Flushed(s, i);
      WithSender(t, i, t.senders[i].(pc := Idle)).(pending := true)
    case Drain(i) => Drained(s, i)
    case ReceiverDrain => s.(sleeping := s.stores[0], stores := s.stores[1..])
    case GoToSleep => s.(pc := SetSleeping, stores := s.stores + [true])
    case BarrierStart =>
      // entering the system call empties the receiver's own store buffer
      s.(pc := Barrier(0), sleeping := if s.stores == [] then s.sleeping else s.stores[|s.stores| - 1], stores := [])
    case BarrierUnavailable => BackToRunning(s)
    case BarrierNext =>
      if s.pc.k == |s.senders| then s.(pc := Polling(0))
      else Flushed(s, s.pc.k).(pc := Barrier(s.pc.k + 1))
    case PollNext(taken) =>
      if s.pc.k == |s.senders| then s.(pc := QueuesEmpty)
      else if taken == 0 then s.(pc := Polling(s.pc.k + 1))
      else
        var p := s.senders[s.pc.k];
        BackToRunning(WithSender(s, s.pc.k, p.(visible := p.visible - taken)))
    case OtherPollerBusy => BackToRunning(s)
    case BlockSignals => s.(pc := SignalsBlocked)
    case PollSignals =>
      if s.handled then BackToRunning(s.(handled := false)) else s.(pc := Waiting)
    case Wake => BackToRunning(s.(pending := false, handled := true))
    case OtherEvent => BackToRunning(s)
    case DeliverSignal => s.(pending := false, handled := true)
    case PollRunning(i, taken) => WithSender(s, i, s.senders[i].(visible := s.senders[i].visible - taken))
    case PollSignalsRunning => s.(handled := false)
  }

  // ---- the invariant ----

  /** The receiver is past its own store to _sleeping and has not decided to stay awake. */
  predicate FallingAsleep(pc: ReceiverPc) {
    pc.Barrier? || pc.Polling? || pc == QueuesEmpty || pc == SignalsBlocked || pc == Waiting
  }

  /** A signal is there or certain to come. */
  ghost predicate WakeComing(s: State) {
    s.pending || s.handled || exists i :: 0 <= i < |s.senders| && s.senders[i].pc == Cleared
  }

  predicate InProtocol(p: Sender) {
    p.pc != Idle
  }

  /** Has the barrier emptied the buffer of sender i since the receiver announced its sleep? */
  predicate Covered(pc: ReceiverPc, i: nat) {
    if pc.Barrier? then i < pc.k else FallingAsleep(pc)
  }

  /** Has the queue of sender i been found empty since then? */
  predicate Scanned(pc: ReceiverPc, i: nat) {
    if pc.Polling? then i < pc.k else pc == QueuesEmpty || pc == SignalsBlocked || pc == Waiting
  }

  ghost predicate HasMessages(b: seq<Store>) {
    exists k :: 0 <= k < |b| && b[k].Messages?
  }

  ghost predicate SenderOk(s: State, i: nat)
    requires i < |s.senders|
  {
    var p := s.senders[i];
    && (SleepingFalse in p.buffer ==> p.pc == Cleared)
    && (Covered(s.pc, i) && HasMessages(p.buffer) ==> InProtocol(p) || WakeComing(s))
    && (Scanned(s.pc, i) && p.visible > 0 ==> InProtocol(p) || WakeComing(s))
  }

  ghost predicate Inv(s: State) {
    && (s.pc == SetSleeping ==> if s.stores == [] then s.sleeping || WakeComing(s) else s.stores[|s.stores| - 1])
    && (FallingAsleep(s.pc) ==> s.stores == [] && (s.sleeping || WakeComing(s)))
    && (s.pc == Waiting ==> !s.handled)
    && (forall i: nat {:trigger SenderOk(s, i)} :: i < |s.senders| ==> SenderOk(s, i))
  }

  lemma DrainedFacts(s: State, i: nat)
    requires i < |s.senders| && s.senders[i].buffer != []
    ensures var t := Drained(s, i);
            && t == s.(senders := t.senders, sleeping := t.sleeping) && |t.senders| == |s.senders|
            && (forall j :: 0 <= j < |s.senders| && j != i ==> t.senders[j] == s.senders[j])
            && t.senders[i].pc == s.senders[i].pc && t.senders[i].buffer == s.senders[i].buffer[1..]
            && (t.sleeping != s.sleeping ==> !t.sleeping && SleepingFalse in s.senders[i].buffer)
            && (t.senders[i].visible > 0 ==> s.senders[i].visible > 0 || HasMessages(s.senders[i].buffer))
            && (SleepingFalse in t.senders[i].buffer ==> SleepingFalse in s.senders[i].buffer)
            && (HasMessages(t.senders[i].buffer) ==> HasMessages(s.senders[i].buffer))
  {
    var b := s.senders[i].buffer;
    assert b == [b[0]] + b[1..];
    if HasMessages(b[1..]) {
      var k :| 0 <= k < |b[1..]| && b[1..][k].Messages?;
      assert b[k + 1].Messages?;
    }
  }

  lemma {:induction false} FlushedFacts(s: State, i: nat)
    requires i < |s.senders|
    ensures var t := Flushed(s, i);
            && t == s.(senders := t.senders, sleeping := t.sleeping)
            && (forall j :: 0 <= j < |s.senders| && j != i ==> t.senders[j] == s.senders[j])
            && t.senders[i].pc == s.senders[i].pc && t.senders[i].buffer == []
            && (t.sleeping != s.sleeping ==> !t.sleeping && SleepingFalse in s.senders[i].buffer)
            && (t.senders[i].visible > 0 ==> s.senders[i].visible > 0 || HasMessages(s.senders[i].buffer))
    decreases |s.senders[i].buffer|
  {
    if s.senders[i].buffer != [] {
      DrainedFacts(s, i);
      FlushedFacts(Drained(s, i), i);
    }
  }

  // ---- every step keeps the invariant ----

  lemma PushKeepsInv(s: State, i: nat, n: nat)
    requires Inv(s) && Enabled(s, Push(i, n))
    ensures Inv(Next(s, Push(i, n)))
  {
    var t := Next(s, Push(i, n));
    assert WakeComing(s) ==> WakeComing(t) by { SameCleared(s, t); }
    forall j: nat | j < |t.senders| ensures SenderOk(t, j) {
      assert SenderOk(s, j);
    }
  }

  lemma SameCleared(s: State, t: State)
    requires |t.senders| == |s.senders| && (s.pending ==> t.pending) && (s.handled ==> t.handled)
    requires forall i :: 0 <= i < |s.senders| && s.senders[i].pc == Cleared ==> t.senders[i].pc == Cleared
    ensures WakeComing(s) ==> WakeComing(t)
  {
  }

  lemma CheckKeepsInv(s: State, i: nat)
    requires Inv(s) && Enabled(s, Check(i))
    ensures Inv(Next(s, Check(i)))
  {
    var t := Next(s, Check(i));
    SameCleared(s, t);
    assert SenderOk(s, i);
    forall j: nat | j < |t.senders| ensures SenderOk(t, j) {
      assert SenderOk(s, j);
    }
  }

  lemma ClearKeepsInv(s: State, i: nat)
    requires Inv(s) && Enabled(s, Clear(i))
    ensures Inv(Next(s, Clear(i)))
  {
    var t := Next(s, Clear(i));
    assert t.senders[i].pc == Cleared;
    forall j: nat | j < |t.senders| ensures SenderOk(t, j) {
      assert SenderOk(s, j);
    }
  }

  lemma KillKeepsInv(s: State, i: nat)
    requires Inv(s) && Enabled(s, Kill(i))
    ensures Inv(Next(s, Kill(i)))
  {
    FlushedFacts(s, i);
    var t := Next(s, Kill(i));
    forall j: nat | j < |t.senders| ensures SenderOk(t, j) {
      assert SenderOk(s, j);
    }
  }

  lemma DrainKeepsInv(s: State, i: nat)
    requires Inv(s) && Enabled(s, Drain(i))
    ensures Inv(Next(s, Drain(i)))
  {
    DrainedFacts(s, i);
    var t := Next(s, Drain(i));
    SameCleared(s, t);
    assert SenderOk(s, i);
    forall j: nat | j < |t.senders| ensures SenderOk(t, j) {
      assert SenderOk(s, j);
    }
  }

  lemma BarrierNextKeepsInv(s: State)
    requires Inv(s) && Enabled(s, BarrierNext)
    ensures Inv(Next(s, BarrierNext))
  {
    var t := Next(s, BarrierNext);
    if s.pc.k < |s.senders| {
      FlushedFacts(s, s.pc.k);
      assert SenderOk(s, s.pc.k);
    }
    SameCleared(s, t);
    forall j: nat | j < |t.senders| ensures SenderOk(t, j) {
      assert SenderOk(s, j);
    }
  }

  lemma PollNextKeepsInv(s: State, taken: nat)
    requires Inv(s) && Enabled(s, PollNext(taken))
    ensures Inv(Next(s, PollNext(taken)))
  {
    var t := Next(s, PollNext(taken));
    SameCleared(s, t);
    forall j: nat | j < |t.senders| ensures SenderOk(t, j) {
      assert SenderOk(s, j);
    }
  }

  lemma SameWake(s: State, t: State, e: Step)
    requires Enabled(s, e) && t == Next(s, e) && (FallingAsleep(t.pc) || t.pc == SetSleeping)
    requires !(e.Push? || e.Check? || e.Clear? || e.Kill? || e.Drain? || e.BarrierNext? || e.PollNext?)
    requires !e.GoToSleep?
    ensures WakeComing(s) ==> WakeComing(t)
  {
  }

  lemma ReceiverKeepsSender(s: State, e: Step, j: nat)
    requires Inv(s) && Enabled(s, e) && j < |s.senders|
    requires !(e.Push? || e.Check? || e.Clear? || e.Kill? || e.Drain? || e.BarrierNext? || e.PollNext?)
    ensures |Next(s, e).senders| == |s.senders| && SenderOk(Next(s, e), j)
  {
    var t := Next(s, e);
    if !e.GoToSleep? && (FallingAsleep(t.pc) || t.pc == SetSleeping) {
      SameWake(s, t, e);
    }
    assert SenderOk(s, j);
  }

  /** The receiver's other steps. */
  lemma ReceiverKeepsInv(s: State, e: Step)
    requires Inv(s) && Enabled(s, e)
    requires !(e.Push? || e.Check? || e.Clear? || e.Kill? || e.Drain? || e.BarrierNext? || e.PollNext?)
    ensures Inv(Next(s, e))
  {
    var t := Next(s, e);
    if !e.GoToSleep? && (FallingAsleep(t.pc) || t.pc == SetSleeping) {
      SameWake(s, t, e);
    }
    forall j: nat | j < |t.senders| ensures SenderOk(t, j) {
      assert |t.senders| == |s.senders|;
      ReceiverKeepsSender(s, e, j);
    }
  }

  lemma StepKeepsInv(s: State, e: Step)
    requires Inv(s) && Enabled(s, e)
    ensures Inv(Next(s, e))
  {
    match e
    case Push(i, n) => PushKeepsInv(s, i, n);
    case Check(i) => CheckKeepsInv(s, i);
    case Clear(i) => ClearKeepsInv(s, i);
    case Kill(i) => KillKeepsInv(s, i);
    case Drain(i) => DrainKeepsInv(s, i);
    case BarrierNext => BarrierNextKeepsInv(s);
    case PollNext(taken) => PollNextKeepsInv(s, taken);
    case _ => ReceiverKeepsInv(s, e);
  }

  // ---- all runs ----

  function Initial(n: nat): State {
    State(seq(n, i => Sender(Idle, [], 0)), false, [], Running, false, false)
  }

  lemma InitialInv(n: nat)
    ensures Inv(Initial(n))
  {
    forall i: nat | i < n ensures SenderOk(Initial(n), i) { }
  }

  ghost predicate Trace(s: State, steps: seq<Step>)
    decreases |steps|
  {
    steps != [] ==> Enabled(s, steps[0]) && Trace(Next(s, steps[0]), steps[1..])
  }

  ghost function After(s: State, steps: seq<Step>): State
    requires Trace(s, steps)
    decreases |steps|
  {
    if steps == [] then s else After(Next(s, steps[0]), steps[1..])
  }

  lemma {:induction false} RunKeepsInv(s: State, steps: seq<Step>)
    requires Inv(s) && Trace(s, steps)
    ensures Inv(After(s, steps))
    decreases |steps|
  {
    if steps != [] {
      StepKeepsInv(s, steps[0]);
      RunKeepsInv(Next(s, steps[0]), steps[1..]);
    }
  }

  /** Sender i has sent something that the receiver has not taken, visible to it yet or not. */
  ghost predicate HasMail(s: State, i: nat)
    requires i < |s.senders|
  {
    s.senders[i].visible > 0 || HasMessages(s.senders[i].buffer)
  }

  /**
   * No lost wakeup: in every interleaving, when the reactor waits and a message for it exists, a
   * wakeup signal is pending or some sender is still between its push and its kill.
   */
  lemma NoLostWakeup(n: nat, steps: seq<Step>, i: nat)
    requires Trace(Initial(n), steps)
    requires var s := After(Initial(n), steps); s.pc == Waiting && i < |s.senders| && HasMail(s, i)
    ensures var s := After(Initial(n), steps);
            s.pending || exists j :: 0 <= j < |s.senders| && InProtocol(s.senders[j])
  {
    InitialInv(n);
    RunKeepsInv(Initial(n), steps);
    var s := After(Initial(n), steps);
    assert SenderOk(s, i);
  }

  /**
   * And a sender that is still on its way does not give up: unless a signal is pending or one is
   * about to be sent, every check of a sender finds the reactor asleep.
   */
  lemma CheckFindsSleeper(n: nat, steps: seq<Step>, j: nat)
    requires Trace(Initial(n), steps)
    requires var s := After(Initial(n), steps); s.pc == Waiting && !s.pending && j < |s.senders|
    requires var s := After(Initial(n), steps);
             s.senders[j].pc == Pushed && forall i :: 0 <= i < |s.senders| ==> s.senders[i].pc != Cleared
    ensures var s := After(Initial(n), steps); Next(s, Check(j)).senders[j].pc == SawSleeping
  {
    InitialInv(n);
    RunKeepsInv(Initial(n), steps);
    assert SenderOk(After(Initial(n), steps), j);
  }

  // ---- messages, signals and what senders read ----

  ghost function Buffered(b: seq<Store>): nat {
    if b == [] then 0 else (if b[0].Messages? then b[0].n else 0) + Buffered(b[1..])
  }

  /** The messages of sender i that the receiver has not taken. */
  ghost function Mail(s: State, i: nat): nat
    requires i < |s.senders|
  {
    s.senders[i].visible + Buffered(s.senders[i].buffer)
  }

  ghost function Sent(e: Step, i: nat): nat {
    if e.Push? && e.i == i then e.n else 0
  }

  ghost function Taken(s: State, e: Step, i: nat): nat {
    match e
    case PollNext(taken) => if s.pc.Polling? && s.pc.k == i then taken else 0
    case PollRunning(j, taken) => if j == i then taken else 0
    case _ => 0
  }

  lemma {:induction false} BufferedMore(b: seq<Store>, x: Store)
    ensures Buffered(b + [x]) == Buffered(b) + if x.Messages? then x.n else 0
  {
    if b == [] {
      assert (b + [x])[1..] == [];
    } else {
      BufferedMore(b[1..], x);
      assert (b + [x])[1..] == b[1..] + [x];
    }
  }

  lemma {:induction false} FlushedMail(s: State, i: nat, j: nat)
    requires i < |s.senders| && j < |s.senders|
    ensures Mail(Flushed(s, i), j) == Mail(s, j)
    decreases |s.senders[i].buffer|
  {
    if s.senders[i].buffer != [] {
      FlushedMail(Drained(s, i), i, j);
    }
  }

  /** A step adds what is sent and takes away what is taken; nothing else changes what there is. */
  lemma StepMail(s: State, e: Step, i: nat)
    requires Enabled(s, e) && i < |s.senders|
    ensures |Next(s, e).senders| == |s.senders| && Mail(Next(s, e), i) + Taken(s, e, i) == Mail(s, i) + Sent(e, i)
  {
    match e
    case Push(j, n) => BufferedMore(s.senders[j].buffer, Messages(n));
    case Clear(j) => BufferedMore(s.senders[j].buffer, SleepingFalse);
    case Kill(j) => FlushedMail(s, j, i);
    case BarrierNext => if s.pc.k < |s.senders| { FlushedMail(s, s.pc.k, i); }
    case _ =>
  }

  ghost function AllSent(steps: seq<Step>, i: nat): nat {
    if steps == [] then 0 else Sent(steps[0], i) + AllSent(steps[1..], i)
  }

  ghost function AllTaken(s: State, steps: seq<Step>, i: nat): nat
    requires Trace(s, steps)
    decreases |steps|
  {
    if steps == [] then 0 else Taken(s, steps[0], i) + AllTaken(Next(s, steps[0]), steps[1..], i)
  }

  /** No message is lost, and none comes from nowhere. */
  lemma {:induction false} NoMessageIsLost(s: State, steps: seq<Step>, i: nat)
    requires Trace(s, steps) && i < |s.senders|
    ensures i < |After(s, steps).senders|
    ensures Mail(After(s, steps), i) + AllTaken(s, steps, i) == Mail(s, i) + AllSent(steps, i)
    decreases |steps|
  {
    if steps != [] {
      StepMail(s, steps[0], i);
      NoMessageIsLost(Next(s, steps[0]), steps[1..], i);
    }
  }

  /** How many signals were sent, and how many reached the receiver. */
  ghost function Kills(steps: seq<Step>): nat {
    if steps == [] then 0 else (if steps[0].Kill? then 1 else 0) + Kills(steps[1..])
  }

  ghost function Signals(steps: seq<Step>): nat {
    if steps == [] then 0 else (if steps[0].Wake? || steps[0].DeliverSignal? then 1 else 0) + Signals(steps[1..])
  }

  lemma StepPending(s: State, e: Step)
    requires Enabled(s, e)
    ensures Next(s, e).pending == if e.Kill? then true else if e.Wake? || e.DeliverSignal? then false else s.pending
  {
    match e
    case Kill(i) => FlushedFacts(s, i);
    case BarrierNext => if s.pc.k < |s.senders| { FlushedFacts(s, s.pc.k); }
    case _ =>
  }

  /** A signal wakes the receiver once: there are no more of them than were sent. */
  lemma {:induction false} SignalsAreKills(s: State, steps: seq<Step>)
    requires Trace(s, steps)
    ensures Signals(steps) + (if After(s, steps).pending then 1 else 0) <= Kills(steps) + if s.pending then 1 else 0
    decreases |steps|
  {
    if steps != [] {
      StepPending(s, steps[0]);
      SignalsAreKills(Next(s, steps[0]), steps[1..]);
    }
  }

  /** A receiver that runs has announced it, or is about to. */
  ghost predicate AnnouncesAwake(s: State) {
    s.pc == Running ==> if s.stores == [] then !s.sleeping else !s.stores[|s.stores| - 1]
  }

  lemma StepAnnounces(s: State, e: Step)
    requires Enabled(s, e) && AnnouncesAwake(s)
    ensures AnnouncesAwake(Next(s, e))
  {
    match e
    case Kill(i) => FlushedFacts(s, i);
    case Drain(i) => DrainedFacts(s, i);
    case _ =>
  }

  lemma {:induction false} RunAnnounces(s: State, steps: seq<Step>)
    requires Trace(s, steps) && AnnouncesAwake(s)
    ensures AnnouncesAwake(After(s, steps))
    decreases |steps|
  {
    if steps != [] {
      StepAnnounces(s, steps[0]);
      RunAnnounces(Next(s, steps[0]), steps[1..]);
    }
  }

  /**
   * A check reads what is in memory, whatever is in the sender's own store buffer; and once a receiver
   * that runs has its stores out, no check finds it asleep, so that it gets no signal.
   */
  lemma CheckReadsMemory(n: nat, steps: seq<Step>, j: nat)
    requires Trace(Initial(n), steps)
    requires var s := After(Initial(n), steps); j < |s.senders| && s.senders[j].pc == Pushed
    ensures var s := After(Initial(n), steps);
            && Next(s, Check(j)).senders[j].pc == (if s.sleeping then SawSleeping else Idle)
            && (s.pc == Running && s.stores == [] ==> Next(s, Check(j)).senders[j].pc == Idle)
  {
    InitialInv(n);
    RunKeepsInv(Initial(n), steps);
    RunAnnounces(Initial(n), steps);
    assert SenderOk(After(Initial(n), steps), j);
  }

  // ---- the barrier is what makes it work ----

  /** The protocol with a barrier that does nothing. */
  function NextWithoutBarrier(s: State, e: Step): State
    requires Enabled(s, e)
  {
    if e == BarrierStart then s.(pc := Polling(0)) else Next(s, e)
  }

  ghost predicate TraceWithoutBarrier(s: State, steps: seq<Step>, t: State)
    decreases |steps|
  {
    if steps == [] then s == t
    else Enabled(s, steps[0]) && TraceWithoutBarrier(NextWithoutBarrier(s, steps[0]), steps[1..], t)
  }

  /** One sender has sent and found the reactor awake, while the reactor's store has not left its buffer. */
  function Missed(pc: ReceiverPc): State {
    State([Sender(Idle, [Messages(1)], 0)], false, [true], pc, false, false)
  }

  lemma MissedFallsAsleep() returns (steps: seq<Step>)
    ensures TraceWithoutBarrier(Missed(Polling(0)), steps, Missed(Waiting))
  {
    steps := [PollSignals];
    assert TraceWithoutBarrier(Missed(SignalsBlocked), steps, Missed(Waiting));
    steps := Prepend(Missed(QueuesEmpty), BlockSignals, Missed(SignalsBlocked), steps, Missed(Waiting));
    steps := Prepend(Missed(Polling(1)), PollNext(0), Missed(QueuesEmpty), steps, Missed(Waiting));
    steps := Prepend(Missed(Polling(0)), PollNext(0), Missed(Polling(1)), steps, Missed(Waiting));
  }

  /** One sender, no buffered stores of its own, with the reactor's store not yet in memory. */
  function OneSender(p: Sender, pc: ReceiverPc): State {
    State([p], false, [true], pc, false, false)
  }

  lemma FallAsleepWithoutBarrier()
    ensures Enabled(Initial(1), GoToSleep)
    ensures var a := NextWithoutBarrier(Initial(1), GoToSleep);
            Enabled(a, BarrierStart)
            && NextWithoutBarrier(a, BarrierStart) == OneSender(Sender(Idle, [], 0), Polling(0))
  {
    assert Initial(1).senders == [Sender(Idle, [], 0)];
    assert [] + [true] == [true];
  }

  lemma SendWithoutBarrier()
    ensures var b := OneSender(Sender(Idle, [], 0), Polling(0));
            Enabled(b, Push(0, 1))
            && NextWithoutBarrier(b, Push(0, 1)) == OneSender(Sender(Pushed, [Messages(1)], 0), Polling(0))
  {
    assert [] + [Messages(1)] == [Messages(1)];
    var p := Sender(Pushed, [Messages(1)], 0);
    assert [Sender(Idle, [], 0)][0 := p] == [p];
  }

  lemma CheckWithoutBarrier()
    ensures var c := OneSender(Sender(Pushed, [Messages(1)], 0), Polling(0));
            Enabled(c, Check(0)) && NextWithoutBarrier(c, Check(0)) == Missed(Polling(0))
  {
    var c := OneSender(Sender(Pushed, [Messages(1)], 0), Polling(0));
    assert !LoadSleeping(c, 0);
    var p := Sender(Idle, [Messages(1)], 0);
    assert c.senders[0 := p] == [p];
  }

  /** One sender, no barrier: the message stays behind while the reactor waits and nobody will signal. */
  lemma WakeupLostWithoutBarrier() returns (steps: seq<Step>, t: State)
    ensures TraceWithoutBarrier(Initial(1), steps, t)
    ensures |t.senders| == 1 && t.pc == Waiting && HasMail(t, 0) && !t.pending && !InProtocol(t.senders[0])
  {
    t := Missed(Waiting);
    assert t.senders[0].buffer[0].Messages?;
    FallAsleepWithoutBarrier();
    SendWithoutBarrier();
    CheckWithoutBarrier();
    var a := NextWithoutBarrier(Initial(1), GoToSleep);
    var b := OneSender(Sender(Idle, [], 0), Polling(0));
    var c := OneSender(Sender(Pushed, [Messages(1)], 0), Polling(0));
    steps := MissedFallsAsleep();
    steps := Prepend(c, Check(0), Missed(Polling(0)), steps, t);
    steps := Prepend(b, Push(0, 1), c, steps, t);
    steps := Prepend(a, BarrierStart, b, steps, t);
    steps := Prepend(Initial(1), GoToSleep, a, steps, t);
  }

  lemma Prepend(s: State, e: Step, u: State, rest: seq<Step>, t: State) returns (steps: seq<Step>)
    requires Enabled(s, e) && u == NextWithoutBarrier(s, e) && TraceWithoutBarrier(u, rest, t)
    ensures TraceWithoutBarrier(s, steps, t)
  {
    steps := [e] + rest;
    assert steps[0] == e && steps[1..] == rest;
  }
}
