/**
 * Promises, futures and continuations (core/future.hh). A promise and its future share one logical
 * value that is stored in the promise, in the continuation or in the future, and every object points
 * at the others; the objects move, die, chain and forward.
 *
 * Net is the reference: a table of channels, each with its value, its producer and its consumer,
 * where a move renames an end and nothing else happens. Every method on the pointer structure is
 * proved to do exactly the table operations its contract names.
 */
module Futures {
  import opened Options

  /** future_state: a value that is not there (any more), awaited, computed or failed. */
  datatype State = Invalid | Pending | Result(value: int) | Failed(error: int) {
    predicate Available() { Result? || Failed? }
  }

  /** The storage of a future_state. owner is the object the storage is part of. */
  class StateCell {
    var st: State
    ghost var owner: object?

    constructor ()
      ensures st == Pending
    {
      st := Pending;
      owner := null;
    }

    method MoveOut() returns (s: State)
      modifies `st
      ensures s == old(st) && st == Invalid
    {
      s := st;
      st := Invalid;
    }
  }

  // ---- the reference: a table of channels ----

  datatype Consumer = Nobody | AFuture(f: Future) | ATask(t: Continuation)

  /** value is awaited, computed or failed. The producer is null once no promise can reach the value. */
  datatype Channel = Channel(value: State, producer: Promise?, consumer: Consumer)

  /**
   * How a channel ends. ForwardedTo is no end of a value: it is in the target now, or the target gets
   * what would have come here.
   */
  datatype Outcome = Delivered(value: State, consumer: Consumer) | ForwardedTo(value: State, target: nat)
                   | Reported(value: State) | Dropped(value: State)

  datatype Net = Net(open: map<nat, Channel>, closed: map<nat, Outcome>)

  /**
   * Forwarded takes the value of c to d, where none was; Redirected makes the producer of c, which has
   * no value yet, that of d.
   */
  datatype Event =
    | Opened(c: nat, channel: Channel)
    | ProducerIs(c: nat, p: Promise?)
    | ConsumerIs(c: nat, k: Consumer)
    | ValueSet(c: nat, v: State)
    | Closed(c: nat, o: Outcome)
    | Forwarded(c: nat, d: nat)
    | Redirected(c: nat, d: nat)

  predicate Legal(n: Net, e: Event) {
    match e
    case Opened(c, ch) => c !in n.open && c !in n.closed && ch.value != Invalid
    case ProducerIs(c, p) => c in n.open
    case ConsumerIs(c, k) => c in n.open
    case ValueSet(c, v) => c in n.open && n.open[c].value == Pending && v.Available()
    case Closed(c, o) =>
      && c in n.open && c !in n.closed && o.value == n.open[c].value && !o.ForwardedTo?
      && (o.Delivered? ==> o.value.Available() && o.consumer == n.open[c].consumer)
      && (o.Reported? ==> o.value.Failed?)
    case Forwarded(c, d) =>
      && c in n.open && d in n.open && c != d && c !in n.closed
      && n.open[c].value.Available() && n.open[d].value == Pending
    case Redirected(c, d) =>
      && c in n.open && d in n.open && c != d && c !in n.closed
      && n.open[c].value == Pending && n.open[c].producer != null
  }

  /** Channel c is not open any more. */
  function Ended(n: Net, c: nat, o: Outcome): Net {
    Net(map d | d in n.open && d != c :: n.open[d], n.closed[c := o])
  }

  function Apply(n: Net, e: Event): Net
    requires Legal(n, e)
  {
    match e
    case Opened(c, ch) => n.(open := n.open[c := ch])
    case ProducerIs(c, p) => n.(open := n.open[c := n.open[c].(producer := p)])
    case ConsumerIs(c, k) => n.(open := n.open[c := n.open[c].(consumer := k)])
    case ValueSet(c, v) => n.(open := n.open[c := n.open[c].(value := v)])
    case Closed(c, o) => Ended(n, c, o)
    case Forwarded(c, d) =>
      var v := n.open[c].value;
      Ended(n.(open := n.open[d := n.open[d].(value := v)]), c, ForwardedTo(v, d))
    case Redirected(c, d) =>
      var p := n.open[c].producer;
      Ended(n.(open := n.open[d := n.open[d].(producer := p)]), c, ForwardedTo(Pending, d))
  }

  predicate Step(n: Net, e: Event, m: Net) {
    Legal(n, e) && m == Apply(n, e)
  }

  predicate Step2(n: Net, e: Event, f: Event, m: Net) {
    Legal(n, e) && Step(Apply(n, e), f, m)
  }

  /** Setting the value of d, and then ending c, is forwarding. */
  lemma SetThenEnded(n: Net, c: nat, d: nat, v: State, cut: bool)
    requires Legal(n, ValueSet(d, v)) && c in n.open && c !in n.closed && n.open[c].value == v
    ensures Legal(n, Forwarded(c, d))
    ensures !cut ==> Ended(Apply(n, ValueSet(d, v)), c, ForwardedTo(v, d)) == Apply(n, Forwarded(c, d))
    ensures cut ==> Step2(n, Forwarded(c, d), ProducerIs(d, null),
                          Ended(Apply(Apply(n, ValueSet(d, v)), ProducerIs(d, null)), c, ForwardedTo(v, d)))
  {
  }

  /** Ending c without its consumer, and then moving its producer to d, is redirecting. */
  lemma DetachedThenEnded(n: Net, c: nat, d: nat, p: Promise, moves: bool)
    requires c in n.open && c !in n.closed && n.open[c].value == Pending && n.open[c].producer == p
    requires moves ==> d in n.open && d != c
    ensures var m := Apply(n, ConsumerIs(c, Nobody));
            if moves then Legal(n, Redirected(c, d)) && Legal(Ended(m, c, ForwardedTo(Pending, d)), ProducerIs(d, p))
                 && Apply(Ended(m, c, ForwardedTo(Pending, d)), ProducerIs(d, p)) == Apply(n, Redirected(c, d))
            else Legal(n, Closed(c, Dropped(Pending)))
                 && Ended(m, c, Dropped(Pending)) == Apply(n, Closed(c, Dropped(Pending)))
  {
  }

  // ---- all runs of the table ----

  ghost predicate Run(n: Net, es: seq<Event>, m: Net)
    decreases |es|
  {
    if es == [] then n == m else Legal(n, es[0]) && Run(Apply(n, es[0]), es[1..], m)
  }

  lemma Step2IsRun(n: Net, e: Event, f: Event, m: Net)
    ensures Step2(n, e, f, m) ==> Run(n, [e, f], m)
  {
    assert [e, f][1..] == [f] && [f][1..] == [];
  }

  /** What the contracts of the methods say, as runs. */
  lemma StepsAreRuns(n: Net, e: Event, f: Event, m: Net)
    ensures Step(n, e, m) ==> Run(n, [e], m)
    ensures Step2(n, e, f, m) ==> Run(n, [e, f], m)
  {
    assert [e][1..] == [];
    Step2IsRun(n, e, f, m);
  }

  lemma {:induction false} RunsCompose(n: Net, es: seq<Event>, m: Net, fs: seq<Event>, k: Net)
    requires Run(n, es, m) && Run(m, fs, k)
    ensures Run(n, es + fs, k)
    decreases |es|
  {
    if es == [] {
      assert es + fs == fs;
    } else {
      RunsCompose(Apply(n, es[0]), es[1..], m, fs, k);
      assert (es + fs)[0] == es[0] && (es + fs)[1..] == es[1..] + fs;
    }
  }

  predicate Wf(n: Net) {
    forall c :: c in n.closed ==> c !in n.open
  }

  /** The event sets a value, which is channel c's from then on. */
  predicate SetsValue(e: Event, c: nat) {
    (e.ValueSet? && e.c == c) || (e.Opened? && e.c == c && e.channel.value.Available())
  }

  function ValueSetBy(e: Event): State
    requires SetsValue(e, e.c)
  {
    if e.ValueSet? then e.v else e.channel.value
  }

  /** The event gives channel c its value, a new one or that of another channel. */
  predicate GivesValue(e: Event, c: nat) {
    SetsValue(e, c) || (e.Forwarded? && e.d == c)
  }

  /** Channel c ends with the event. */
  predicate Ends(e: Event, c: nat) {
    (e.Closed? || e.Forwarded? || e.Redirected?) && e.c == c
  }

  function CountSets(es: seq<Event>, c: nat): nat {
    if es == [] then 0 else (if GivesValue(es[0], c) then 1 else 0) + CountSets(es[1..], c)
  }

  function CountEnds(es: seq<Event>, c: nat): nat {
    if es == [] then 0 else (if Ends(es[0], c) then 1 else 0) + CountEnds(es[1..], c)
  }

  /** The value channel c has or ended with. */
  function ValueOf(n: Net, c: nat): State {
    if c in n.open then n.open[c].value else if c in n.closed then n.closed[c].value else Pending
  }

  function Bit(b: bool): nat {
    if b then 1 else 0
  }

  /** A channel gets a value at most once, and whether it has one says whether it did. */
  lemma {:induction false} SetOnce(n: Net, es: seq<Event>, m: Net, c: nat)
    requires Wf(n) && Run(n, es, m)
    ensures Wf(m) && Bit(ValueOf(n, c).Available()) + CountSets(es, c) == Bit(ValueOf(m, c).Available())
    decreases |es|
  {
    if es != [] {
      SetOnce(Apply(n, es[0]), es[1..], m, c);
    }
  }

  /** A channel ends at most once. */
  lemma {:induction false} EndsOnce(n: Net, es: seq<Event>, m: Net, c: nat)
    requires Wf(n) && Run(n, es, m)
    ensures Bit(c in n.closed) + CountEnds(es, c) == Bit(c in m.closed)
    decreases |es|
  {
    if es != [] {
      EndsOnce(Apply(n, es[0]), es[1..], m, c);
    }
  }

  /** Once set, the value of a channel never changes, open or closed; once ended, its outcome never does. */
  lemma {:induction false} ValueKept(n: Net, es: seq<Event>, m: Net, c: nat)
    requires Wf(n) && Run(n, es, m)
    ensures ValueOf(n, c).Available() ==> ValueOf(m, c) == ValueOf(n, c) && (c in m.open || c in m.closed)
    ensures c in n.closed ==> c in m.closed && m.closed[c] == n.closed[c]
    decreases |es|
  {
    if es != [] {
      ValueKept(Apply(n, es[0]), es[1..], m, c);
    }
  }

  // ---- following a value ----

  /** Channel c has a value, or ended with it other than by handing it on. */
  predicate Holds(n: Net, c: nat) {
    && ValueOf(n, c).Available()
    && (c in n.open || (c in n.closed && !n.closed[c].ForwardedTo?))
  }

  /** Where the value of channel c is after the event. */
  function Onward(e: Event, c: nat): nat {
    if e.Forwarded? && e.c == c then e.d else c
  }

  /** Where the value of channel c is after the events. */
  function Follow(es: seq<Event>, c: nat): nat {
    if es == [] then c else Follow(es[1..], Onward(es[0], c))
  }

  lemma StepHolds(n: Net, e: Event, c: nat)
    requires Wf(n) && Legal(n, e) && Holds(n, c)
    ensures Wf(Apply(n, e)) && Holds(Apply(n, e), Onward(e, c)) && ValueOf(Apply(n, e), Onward(e, c)) == ValueOf(n, c)
  {
  }

  /** However often it is forwarded, a value stays what it is, and in one place. */
  lemma {:induction false} FollowedIsHeld(n: Net, es: seq<Event>, m: Net, c: nat)
    requires Wf(n) && Run(n, es, m) && Holds(n, c)
    ensures Holds(m, Follow(es, c)) && ValueOf(m, Follow(es, c)) == ValueOf(n, c)
    decreases |es|
  {
    if es != [] {
      StepHolds(n, es[0], c);
      FollowedIsHeld(Apply(n, es[0]), es[1..], m, Onward(es[0], c));
    }
  }

  /** Two values never become one. */
  lemma {:induction false} FollowedApart(n: Net, es: seq<Event>, m: Net, c: nat, d: nat)
    requires Wf(n) && Run(n, es, m) && Holds(n, c) && Holds(n, d) && c != d
    ensures Follow(es, c) != Follow(es, d)
    decreases |es|
  {
    if es != [] {
      StepHolds(n, es[0], c);
      StepHolds(n, es[0], d);
      FollowedApart(Apply(n, es[0]), es[1..], m, Onward(es[0], c), Onward(es[0], d));
    }
  }

  /** A value was there already, or was set by an event and has come from there. */
  predicate ComesFrom(n: Net, es: seq<Event>, h: nat, i: nat, c: nat) {
    if i < |es| then SetsValue(es[i], c) && es[i].c == c && Follow(es[i + 1..], c) == h
    else i == |es| && Holds(n, c) && Follow(es, c) == h
  }

  lemma ComesFromLater(n: Net, es: seq<Event>, h: nat, i: nat, c: nat)
    requires es != [] && Legal(n, es[0]) && i < |es| - 1 && ComesFrom(Apply(n, es[0]), es[1..], h, i, c)
    ensures ComesFrom(n, es, h, i + 1, c)
  {
    assert es[1..][i] == es[i + 1] && es[1..][i + 1..] == es[i + 2..];
  }

  /** No value comes from nowhere. */
  lemma {:induction false} HeldComesFrom(n: Net, es: seq<Event>, m: Net, h: nat) returns (i: nat, c: nat)
    requires Wf(n) && Run(n, es, m) && Holds(m, h)
    ensures ComesFrom(n, es, h, i, c)
    decreases |es|
  {
    if es == [] {
      i, c := 0, h;
    } else {
      var n1, e := Apply(n, es[0]), es[0];
      i, c := HeldComesFrom(n1, es[1..], m, h);
      if i < |es| - 1 {
        ComesFromLater(n, es, h, i, c);
        i := i + 1;
      } else if SetsValue(e, c) {
        i := 0;
      } else if e.Forwarded? && e.d == c {
        i, c := |es|, e.c;
      } else {
        i := |es|;
      }
    }
  }

  lemma {:induction false} RunSplits(n: Net, es: seq<Event>, m: Net, i: nat) returns (k: Net)
    requires Wf(n) && Run(n, es, m) && i <= |es|
    ensures Run(n, es[..i], k) && Run(k, es[i..], m) && Wf(k)
    decreases i
  {
    if i == 0 {
      k := n;
      assert es[0..] == es;
    } else {
      k := RunSplits(Apply(n, es[0]), es[1..], m, i - 1);
      assert es[..i][0] == es[0] && es[..i][1..] == es[1..][..i - 1] && es[1..][i - 1..] == es[i..];
    }
  }

  /** Event i sets a value. */
  predicate SetAt(es: seq<Event>, i: nat) {
    i < |es| && SetsValue(es[i], es[i].c)
  }

  /** Where the value that event i sets is in the end. */
  function EndOf(es: seq<Event>, i: nat): nat
    requires SetAt(es, i)
  {
    Follow(es[i + 1..], es[i].c)
  }

  /** The table behind event i of a run, which sets a value. */
  lemma AfterSet(es: seq<Event>, m: Net, i: nat) returns (k: Net)
    requires Run(Net(map[], map[]), es, m) && SetAt(es, i)
    ensures Wf(k) && Run(k, es[i + 1..], m) && Holds(k, es[i].c) && ValueOf(k, es[i].c) == ValueSetBy(es[i])
  {
    var j := RunSplits(Net(map[], map[]), es, m, i);
    assert es[i..][0] == es[i] && es[i..][1..] == es[i + 1..];
    k := Apply(j, es[i]);
  }

  /**
   * In every run from the empty table, a value that was set is, through any number of forwards, in
   * exactly one place: still in one open channel, or at its one end, where it was delivered, reported
   * or dropped, once. It is the value that was set.
   */
  lemma ExactlyOnce(es: seq<Event>, m: Net, i: nat)
    requires Run(Net(map[], map[]), es, m) && SetAt(es, i)
    ensures var h := EndOf(es, i);
            && ValueOf(m, h) == ValueSetBy(es[i]) && CountSets(es, h) == 1
            && if h in m.open then CountEnds(es, h) == 0
               else h in m.closed && !m.closed[h].ForwardedTo? && CountEnds(es, h) == 1
  {
    var h, n := EndOf(es, i), Net(map[], map[]);
    var k := AfterSet(es, m, i);
    FollowedIsHeld(k, es[i + 1..], m, es[i].c);
    SetOnce(n, es, m, h);
    EndsOnce(n, es, m, h);
  }

  /** And no other value is there: every value has an end of its own. */
  lemma EndsApart(es: seq<Event>, m: Net, i: nat, j: nat)
    requires Run(Net(map[], map[]), es, m) && SetAt(es, i) && SetAt(es, j) && i < j
    ensures EndOf(es, i) != EndOf(es, j)
  {
    var k := AfterSet(es, m, i);
    var rest, x := es[i + 1..], j - i - 1;
    var k1 := RunSplits(k, rest, m, x);
    var c := Follow(rest[..x], es[i].c);
    FollowedIsHeld(k, rest[..x], k1, es[i].c);
    assert rest[x] == es[j] && rest[x..][0] == es[j] && rest[x..][1..] == es[j + 1..];
    FollowJoins(rest[..x], rest[x..], es[i].c);
    assert rest == rest[..x] + rest[x..];
    assert es[j].c != c;
    FollowedApart(Apply(k1, es[j]), es[j + 1..], m, c, es[j].c);
  }

  lemma {:induction false} FollowJoins(es: seq<Event>, fs: seq<Event>, c: nat)
    ensures Follow(es + fs, c) == Follow(fs, Follow(es, c))
    decreases |es|
  {
    if es == [] {
      assert es + fs == fs;
    } else {
      assert (es + fs)[0] == es[0] && (es + fs)[1..] == es[1..] + fs;
      FollowJoins(es[1..], fs, Onward(es[0], c));
    }
  }

  /** And nothing else is there: what is held or has ended was set by an event of the run, as the value it is. */
  lemma NothingFromNowhere(es: seq<Event>, m: Net, h: nat) returns (i: nat)
    requires Run(Net(map[], map[]), es, m) && Holds(m, h)
    ensures SetAt(es, i) && EndOf(es, i) == h && ValueOf(m, h) == ValueSetBy(es[i])
  {
    var c;
    i, c := HeldComesFrom(Net(map[], map[]), es, m, h);
    ExactlyOnce(es, m, i);
  }

  /** Who is told to wait for another channel is told right: its producer produces for that one. */
  lemma RedirectedProducer(n: Net, c: nat, d: nat)
    requires Legal(n, Redirected(c, d))
    ensures var m := Apply(n, Redirected(c, d));
            d in m.open && m.open[d].producer == n.open[c].producer && m.open[d].value == n.open[d].value
  {
  }

  // ---- the objects ----

  /** A continuation: the storage for the value it waits for. id is its channel. */
  class Continuation {
    const state: StateCell
    ghost const id: nat

    constructor (ghost c: nat)
      ensures fresh(state) && state.owner == this && state.st == Pending && id == c
    {
      state := new StateCell();
      id := c;
      new;
      state.owner := this;
    }
  }

  /** A channel with its promise, its future and its continuation, and y, a promise that is not alive. */
  datatype Part = Part(c: nat, p: Promise?, f: Future?, t: Continuation?, y: Promise?) {
    predicate Owns(o: object?) {
      o != null && (o == p || o == f || o == t || o == y)
    }
  }

  /** How a future lets go: its channel ends, the value stays with the promise, or a continuation gets it. */
  datatype Ending = Closes(o: Outcome) | Stays | ToTask

  /** cut: the future and its promise part; gone: the future dies; rest: what is left where the value was. */
  datatype Release = Release(k: Part, end: Ending, cut: bool, gone: bool, rest: State)

  /** A future that is constructed from the future of k. */
  datatype Relocation = Relocation(k: Part, y: Future)

  /** The reactor as far as futures see it: the task queue and the reports of ignored exceptions. */
  class Runtime {
    var tasks: seq<Continuation>
    var reported: seq<int>
    ghost var promises: set<Promise>
    ghost var futures: set<Future>
    ghost var net: Net
    ghost var next: nat
    ghost var repr: set<object>

    ghost predicate IsProducer(p: Promise)
      reads this, p
    {
      p.id in net.open && net.open[p.id].producer == p
    }

    ghost predicate IsConsumer(f: Future)
      reads this, f
    {
      f.id in net.open && net.open[f.id].consumer == AFuture(f)
    }

    ghost predicate PromiseOk(p: Promise)
      reads this, repr
    {
      && p in repr && p.local in repr && p.local.owner == p
      && (p.future != null ==> p.future in futures && p.future in repr && p.future.promise == p
                               && p.state == p.local && p.task == null)
      && (p.task != null ==> IsProducer(p) && net.open[p.id].consumer == ATask(p.task))
      && (p.state != null ==> p.state in repr && (p.state == p.local || (p.task != null && p.state == p.task.state)))
      && (IsProducer(p) <==> p.state != null && p.state.st != Invalid)
      && (p.state != p.local ==> !p.local.st.Available())
    }

    ghost predicate FutureOk(f: Future)
      reads this, repr
    {
      && f in repr && f.local in repr && f.local.owner == f
      && (f.promise != null ==> f.promise in promises && f.promise in repr && f.promise.future == f
                                && (IsConsumer(f) <==> IsProducer(f.promise)))
      && (f.promise != null || !IsConsumer(f) ==> !f.local.st.Available())
    }

    ghost predicate ChannelOk(c: nat)
      requires c in net.open
      reads this, repr
    {
      var ch := net.open[c];
      && c < next && ch.value != Invalid
      && (ch.producer != null ==>
            var p := ch.producer;
            p in promises && p in repr && p.id == c && p.state != null && p.state in repr && p.state.st == ch.value)
      && match ch.consumer
         case Nobody => ch.producer != null && ch.producer.future == null && ch.producer.task == null
         case AFuture(f) =>
           && f in futures && f in repr && f.id == c && f.promise == ch.producer && f.local in repr
           && (ch.producer == null ==> f.local.st == ch.value)
           && (ch.producer != null ==> ch.producer.future == f)
         case ATask(t) =>
           && t in repr && t.state in repr && t.state.owner == t && t.id == c && t.state.st == ch.value
           && (ch.producer != null ==> ch.producer.task == t && ch.producer.state == t.state && ch.value == Pending)
           && (ch.producer == null ==> ch.value.Available() && t in tasks)
    }

    ghost predicate TaskOk(t: Continuation)
      reads this, repr
    {
      t in repr && t.id in net.open && net.open[t.id].consumer == ATask(t) && net.open[t.id].producer == null
    }

    ghost predicate TasksOk()
      reads this, repr
    {
      && (forall t {:trigger TaskOk(t)} :: t in tasks ==> TaskOk(t))
      && (forall i, j :: 0 <= i < j < |tasks| ==> tasks[i] != tasks[j])
    }

    ghost predicate Valid()
      reads this, repr
    {
      && this !in repr
      && (forall p {:trigger PromiseOk(p)} :: p in promises ==> PromiseOk(p))
      && (forall f {:trigger FutureOk(f)} :: f in futures ==> FutureOk(f))
      && (forall c {:trigger ChannelOk(c)} :: c in net.open ==> ChannelOk(c))
      && TasksOk()
      && (forall c :: c in net.closed ==> c < next && c !in net.open)
    }

    twostate predicate SamePromise(q: Promise)
      reads q
    {
      q.future == old(q.future) && q.state == old(q.state) && q.task == old(q.task) && q.id == old(q.id)
    }

    twostate predicate SameFuture(g: Future)
      reads g
    {
      g.promise == old(g.promise) && g.id == old(g.id)
    }

    /** Outside the part k, an operation leaves everything alone. */
    twostate predicate OnlyTouches(k: Part)
      reads this, repr
    {
      && repr >= old(repr) && next >= old(next)
      && (forall q: Promise :: q in old(promises) && q in repr && q != k.p ==> q in promises && SamePromise(q))
      && (forall g: Future :: g in old(futures) && g in repr && g != k.f ==> g in futures && SameFuture(g))
      && (forall s: StateCell :: s in old(repr) && !k.Owns(old(s.owner)) ==>
        s.st == old(s.st) && s.owner == old(s.owner))
      && (forall d :: d != k.c ==> (d in net.open <==> d in old(net.open)))
      && (forall d :: d != k.c && d in net.open ==> net.open[d] == old(net.open)[d])
      && (forall u :: u in old(tasks) && u != k.t ==> u in tasks)
      && (k.c in net.open ==>
            var ch := net.open[k.c];
            && (ch.producer in old(promises) ==> ch.producer == k.p)
            && (ch.consumer.AFuture? && ch.consumer.f in old(futures) ==> ch.consumer.f == k.f)
            && (ch.consumer.ATask? ==> ch.consumer.t.id == k.c))
    }

    /** The part k is closed under the links. */
    ghost predicate Component(k: Part)
      reads this, repr
    {
      && (k.p != null ==> k.p in promises && k.p in repr && (k.p.future == null || k.p.future == k.f)
                          && (k.p.task == null || k.p.task == k.t) && (IsProducer(k.p) ==> k.p.id == k.c))
      && (k.f != null ==> k.f in futures && k.f in repr && (k.f.promise == null || k.f.promise == k.p)
                          && (IsConsumer(k.f) ==> k.f.id == k.c))
      && (k.t != null ==> k.t.id == k.c)
      && (k.y != null ==> k.y !in promises)
      && (k.c in net.open ==>
            && (net.open[k.c].producer == null || net.open[k.c].producer == k.p)
            && (net.open[k.c].consumer.AFuture? ==> net.open[k.c].consumer.f == k.f)
            && (net.open[k.c].consumer.ATask? ==> net.open[k.c].consumer.t == k.t))
    }

    twostate lemma KeptPromises(k: Part)
      requires old(Valid()) && old(Component(k)) && OnlyTouches(k)
      ensures forall q {:trigger PromiseOk(q)} :: q in old(promises) && q != k.p ==> PromiseOk(q)
    {
      forall q | q in old(promises) && q != k.p ensures PromiseOk(q) {
        assert old(PromiseOk(q));
        assert old(q.local.owner) == q;
        assert old(IsProducer(q)) ==> old(ChannelOk(q.id));
      }
    }

    twostate lemma KeptFutures(k: Part)
      requires old(Valid()) && old(Component(k)) && OnlyTouches(k)
      ensures forall g {:trigger FutureOk(g)} :: g in old(futures) && g != k.f ==> FutureOk(g)
    {
      forall g | g in old(futures) && g != k.f ensures FutureOk(g) {
        assert old(FutureOk(g));
      }
    }

    twostate lemma KeptChannels(k: Part)
      requires old(Valid()) && old(Component(k)) && OnlyTouches(k)
      ensures forall d {:trigger ChannelOk(d)} :: d in net.open && d != k.c ==> ChannelOk(d)
    {
      forall d | d in net.open && d != k.c ensures ChannelOk(d) {
        assert old(ChannelOk(d));
        assert old(net.open)[d].producer != null ==> old(PromiseOk(net.open[d].producer));
        assert old(net.open)[d].consumer.AFuture? ==> old(FutureOk(net.open[d].consumer.f));
      }
    }

    /** The touched objects, one by one. */
    twostate predicate TouchedOk(k: Part)
      reads this, repr
    {
      && (forall q {:trigger PromiseOk(q)} :: q in promises && (q !in old(promises) || q == k.p) ==> PromiseOk(q))
      && (forall g {:trigger FutureOk(g)} :: g in futures && (g !in old(futures) || g == k.f) ==> FutureOk(g))
      && (k.c in net.open ==> ChannelOk(k.c))
      && TasksOk()
      && (forall d :: d in net.closed ==> d < next && d !in net.open)
    }

    /** Tasks stay in order. */
    twostate lemma SameTasks(k: Part)
      requires old(Valid()) && tasks == old(tasks) && repr >= old(repr)
      requires forall d :: d != k.c ==> (d in net.open <==> d in old(net.open))
      requires forall d :: d != k.c && d in net.open ==> net.open[d] == old(net.open)[d]
      requires k.c !in old(net.open) || old(net.open)[k.c].producer != null || old(net.open)[k.c].consumer.AFuture?
      ensures TasksOk()
    {
      forall t | t in tasks ensures TaskOk(t) {
        assert old(TaskOk(t));
      }
    }

    lemma IdsBelowNext()
      requires Valid()
      ensures next !in net.open && next !in net.closed
    {
      forall c | c in net.open ensures c < next {
        assert ChannelOk(c);
      }
    }

    /** The part a living promise belongs to; without a value it has no channel. */
    ghost function PartOf(p: Promise, y: Promise?): Part
      reads this, p
    {
      Part(if IsProducer(p) then p.id else next, p, p.future, p.task, y)
    }

    ghost predicate WholePart(k: Part)
      reads this, repr
    {
      && k.p != null && k.p in repr && k == PartOf(k.p, k.y) && Component(k) && PromiseOk(k.p)
      && (k.p.id in net.open ==> ChannelOk(k.p.id))
      && (k.f != null ==> FutureOk(k.f) && (IsProducer(k.p) <==> IsConsumer(k.f)))
      && (k.f != null && IsProducer(k.p) ==> k.f.id == k.p.id)
      && (k.c in net.open ==> net.open[k.c].producer == k.p)
    }

    lemma PartOfIsWhole(p: Promise, y: Promise?)
      requires Valid() && p in promises && y !in promises
      ensures WholePart(PartOf(p, y))
    {
      assert PromiseOk(p);
      IdsBelowNext();
      assert p.id in net.open ==> ChannelOk(p.id);
      assert p.future != null ==> FutureOk(p.future);
      assert p.future != null && IsConsumer(p.future) ==> ChannelOk(p.future.id);
    }

    /** With the touched objects checked one by one, the invariant holds again. */
    twostate lemma ValidAgain(k: Part)
      requires old(Valid()) && old(Component(k)) && OnlyTouches(k)
      requires this !in repr && TouchedOk(k)
      ensures Valid()
    {
      KeptPromises(k);
      KeptFutures(k);
      KeptChannels(k);
    }

    /** Back-pointers are mutual. */
    lemma LinksAreMutual(p: Promise, f: Future)
      requires Valid() && p in promises && f in futures
      ensures p.future == f <==> f.promise == p
    {
      assert PromiseOk(p) && FutureOk(f);
    }

    /** The storage of channel c: in its continuation, else in its promise, else in its future. */
    ghost predicate Home(c: nat, s: StateCell)
      reads this
    {
      c in net.open &&
      var ch := net.open[c];
      if ch.consumer.ATask? then s == ch.consumer.t.state
      else if ch.producer != null then s == ch.producer.local
      else ch.consumer.AFuture? && s == ch.consumer.f.local
    }

    /** Every channel keeps its value in exactly one place, and shares it with no other channel. */
    lemma OneHome(c: nat) returns (s: StateCell)
      requires Valid() && c in net.open
      ensures Home(c, s) && s in repr && s.st == net.open[c].value
      ensures forall d, r: StateCell :: Home(d, s) && Home(c, r) ==> d == c && r == s
    {
      assert ChannelOk(c);
      var ch := net.open[c];
      s := if ch.consumer.ATask? then ch.consumer.t.state else if ch.producer != null then ch.producer.local
        else ch.consumer.f.local;
      assert ch.producer != null ==> PromiseOk(ch.producer);
      assert ch.consumer.AFuture? ==> FutureOk(ch.consumer.f);
      forall d | Home(d, s) ensures d == c {
        assert ChannelOk(d);
        assert net.open[d].producer != null ==> PromiseOk(net.open[d].producer);
        assert net.open[d].consumer.AFuture? ==> FutureOk(net.open[d].consumer.f);
      }
    }

    /** And there is no value anywhere else: not in a promise, not in a future, not in the task queue. */
    lemma NoStrays()
      requires Valid()
      ensures forall p :: p in promises && p.local.st.Available() ==> Home(p.id, p.local)
      ensures forall f :: f in futures && f.local.st.Available() ==> Home(f.id, f.local)
      ensures forall t :: t in tasks ==> Home(t.id, t.state)
    {
      forall p | p in promises && p.local.st.Available() ensures Home(p.id, p.local) {
        assert PromiseOk(p) && ChannelOk(p.id);
      }
      forall f | f in futures && f.local.st.Available() ensures Home(f.id, f.local) {
        assert FutureOk(f) && ChannelOk(f.id);
      }
      forall t | t in tasks ensures Home(t.id, t.state) {
        assert TaskOk(t);
      }
    }

    constructor ()
      ensures Valid() && net == Net(map[], map[]) && tasks == [] && reported == []
      ensures fresh(repr)
    {
      tasks, reported, promises, futures, net, next, repr := [], [], {}, {}, Net(map[], map[]), 0, {};
    }

    /** The promises, the futures and their links outside k are as they were. */
    twostate predicate OthersSame(k: Part)
      reads this, repr
    {
      && (forall q: Promise :: q in old(promises) && q in repr && q != k.p ==> SamePromise(q))
      && (forall g: Future :: g in old(futures) && g in repr && g != k.f ==> SameFuture(g))
    }

    twostate predicate SameCell(s: StateCell)
      reads s
    {
      s.st == old(s.st) && s.owner == old(s.owner)
    }

    /** Nothing happened outside k, and no object of k died. */
    twostate predicate OutsideSame(k: Part)
      reads this, repr
    {
      && repr >= old(repr)
      && OthersSame(k)
      && (forall s: StateCell :: s in old(repr) && s in repr && !k.Owns(old(s.owner)) ==> SameCell(s))
    }

    /** k.p has got a future. */
    twostate predicate GotFuture(k: Part)
      reads this, repr
    {
      k.p != null && k.p in repr && k.p.local in repr && k.p.future != null && k.p.future in repr
        && k.p.future.local in repr &&
      var p, f := k.p, k.p.future;
      && OutsideSame(k) && promises == old(promises) && futures == old(futures) + {f} && f !in old(repr)
        && f !in old(futures) && repr == old(repr) + {f, f.local}
      && tasks == old(tasks) && next == old(next)
      && net == (if old(IsProducer(p)) then Apply(old(net), ConsumerIs(old(p.id), AFuture(f))) else old(net))
      && p.state == old(p.state) && p.task == old(p.task) && p.id == old(p.id) && SameCell(p.local)
      && f.promise == p && f.id == p.id && f.local.owner == f && f.local.st == Pending
    }

    twostate lemma GetFutureTouchesOnly(k: Part)
      requires old(Valid()) && old(WholePart(k)) && old(k.p.future) == null && old(k.p.task) == null && GotFuture(k)
      ensures OnlyTouches(k)
    {
    }

    twostate lemma GetFutureOk(k: Part)
      requires old(Valid()) && old(WholePart(k)) && old(k.p.future) == null && old(k.p.task) == null
               && old(k.p.state) != null
      requires GotFuture(k)
      ensures TouchedOk(k)
    {
      SameTasks(k);
      if k.c in net.open {
        assert old(k.c in net.open && ChannelOk(k.c));
      }
    }

    /** The promise k.p got the result v; a continuation went to the task queue with it. */
    twostate predicate GotResult(k: Part, new v: State, new urgent: bool)
      reads this, repr
    {
      k.p != null && k.p in repr && k.p.local in repr && (k.t != null ==> k.t in repr && k.t.state in repr) &&
      var p, t := k.p, k.t;
      && OutsideSame(k) && promises == old(promises) && repr == old(repr) && futures == old(futures)
        && next == old(next)
      && Legal(old(net), ValueSet(old(p.id), v))
      && p.id == old(p.id) && p.future == old(p.future) && p.task == null && p.local.owner == old(p.local.owner)
      && (if t == null then
            && p.state == old(p.state) && p.local.st == v && tasks == old(tasks)
            && net == Apply(old(net), ValueSet(old(p.id), v))
            && (k.f != null ==> k.f in repr && k.f.local in repr && SameFuture(k.f) && SameCell(k.f.local))
          else
            && p.state == null && t.state.st == v && t.state.owner == old(t.state.owner) && SameCell(p.local)
            && tasks == (if urgent then [t] + old(tasks) else old(tasks) + [t])
            && net == Apply(Apply(old(net), ValueSet(old(p.id), v)), ProducerIs(old(p.id), null)))
    }

    /** A promise that can still be set. */
    ghost predicate CanSet(p: Promise)
      reads p, p.state
    {
      p.state != null && p.state.st == Pending
    }

    twostate lemma SetTouchesOnly(k: Part, new v: State, new urgent: bool)
      requires old(Valid()) && old(WholePart(k)) && old(CanSet(k.p)) && GotResult(k, v, urgent)
      ensures OnlyTouches(k)
    {
    }

    twostate lemma SetKeepsTasks(k: Part, new v: State, new urgent: bool)
      requires old(Valid()) && old(WholePart(k)) && old(CanSet(k.p)) && GotResult(k, v, urgent)
      ensures TasksOk()
    {
      forall t | t in tasks ensures TaskOk(t) {
        assert t in old(tasks) ==> old(TaskOk(t));
      }
      if k.t != null {
        assert k.t in old(tasks) ==> old(TaskOk(k.t));
      }
    }

    twostate lemma SetOk(k: Part, new v: State, new urgent: bool)
      requires old(Valid()) && old(WholePart(k)) && old(CanSet(k.p)) && GotResult(k, v, urgent)
      ensures TouchedOk(k)
    {
      SetKeepsTasks(k, v, urgent);
    }

    /** How the channel of a promise that dies without a future ends. */
    static function Abandonment(v: State): Outcome {
      if v.Failed? then Reported(v) else Dropped(v)
    }

    /** What happens to the channel of p when p dies. */
    ghost function DeathOf(p: Promise): (e: Event)
      requires p in promises && Valid() && IsProducer(p)
      ensures Legal(net, e)
      reads this, repr, p
    {
      assert ChannelOk(p.id);
      if p.future != null then ProducerIs(p.id, null) else Closed(p.id, Abandonment(net.open[p.id].value))
    }

    /** The table n without the producer of c, where c ends with o if it has no future. */
    static ghost function Without(n: Net, isProducer: bool, hasFuture: bool, c: nat, o: Outcome): Net
      requires isProducer ==> c in n.open
    {
      if !isProducer then n else if hasFuture then Apply(n, ProducerIs(c, null)) else Ended(n, c, o)
    }

    ghost function NetWithout(p: Promise, o: Outcome): Net
      reads this, p
    {
      Without(net, IsProducer(p), p.future != null, p.id, o)
    }

    /** The promise k.p is dead; its value went to its future, or to the report of ignored exceptions. */
    twostate predicate Died(k: Part, new n: Net)
      reads this, repr
    {
      k.p != null && k.p in repr && k.p.local in repr && (k.f != null ==> k.f in repr && k.f.local in repr) &&
      var p, f := k.p, k.f;
      && OutsideSame(k) && repr == old(repr) && futures == old(futures) && next == old(next) && tasks == old(tasks)
      && p !in promises && (forall q :: q in promises ==> q in old(promises))
        && (forall q :: q in old(promises) && q != p ==> q in promises)
      && net == n && p.local.owner == p
      && (f != null ==> f.promise == null && f.id == old(f.id) && f.local.owner == old(f.local.owner)
                        && old(p.state) != null && f.local.st == old(p.state.st))
    }

    twostate lemma DeathTouchesOnly(k: Part, new o: Outcome)
      requires old(Valid()) && old(WholePart(k)) && k.y == null && k.p in old(promises)
               && Died(k, Without(old(net), old(IsProducer(k.p)), old(k.p.future) != null, old(k.p.id), o))
      ensures OnlyTouches(k)
    {
    }

    twostate lemma DeathOk(k: Part, new o: Outcome)
      requires old(Valid()) && old(WholePart(k)) && k.y == null && k.p in old(promises)
               && Died(k, Without(old(net), old(IsProducer(k.p)), old(k.p.future) != null, old(k.p.id), o))
      ensures TouchedOk(k)
    {
      SameTasks(k);
      if k.c in net.open {
        assert old(k.c in net.open && ChannelOk(k.c));
      }
    }

    /** The part a living future belongs to, with t a continuation for it. */
    ghost function PartOfFuture(f: Future, t: Continuation?): Part
      reads this, f
    {
      Part(if IsConsumer(f) then f.id else next, f.promise, f, t, null)
    }

    ghost predicate WholeFuture(k: Part)
      reads this, repr
    {
      && k.f != null && k.f in repr && k == PartOfFuture(k.f, k.t) && Component(k) && FutureOk(k.f)
      && (k.p != null ==> PromiseOk(k.p) && k.p.future == k.f && k.p.state == k.p.local && k.p.task == null
                          && (IsProducer(k.p) <==> IsConsumer(k.f)) && (IsProducer(k.p) ==> k.p.id == k.f.id))
      && (k.f.id in net.open ==> ChannelOk(k.f.id))
      && (k.p != null && k.p.id in net.open ==> ChannelOk(k.p.id))
      && (k.c in net.open ==> IsConsumer(k.f) && net.open[k.c].producer == k.p && net.open[k.c].value == k.f.Value())
      && k.c !in net.closed
    }

    lemma PartOfFutureIsWhole(f: Future, t: Continuation?)
      requires Valid() && f in futures
      requires t != null ==> t.id == if IsConsumer(f) then f.id else next
      ensures WholeFuture(PartOfFuture(f, t))
    {
      assert FutureOk(f);
      IdsBelowNext();
      if f.promise != null {
        assert PromiseOk(f.promise);
        assert f.promise.id in net.open ==> ChannelOk(f.promise.id);
      }
      assert f.id in net.open ==> ChannelOk(f.id);
    }

    /** The table after a future let go of its value. */
    ghost function NetAfter(r: Release): Net
      requires r.end.ToTask? ==> r.k.t != null
      reads this
    {
      if r.k.c !in net.open then net
      else match r.end
           case Closes(o) => Ended(net, r.k.c, o)
           case Stays => Apply(net, ConsumerIs(r.k.c, Nobody))
           case ToTask => Apply(Apply(net, ConsumerIs(r.k.c, ATask(r.k.t))), ProducerIs(r.k.c, null))
    }

    ghost predicate MayLetGo(r: Release)
      reads this, repr
    {
      WholeFuture(r.k) &&
      var k, v := r.k, r.k.f.Value();
      && (r.gone ==> r.cut || k.p == null)
      && (k.t != null <==> r.end.ToTask?)
      && (if k.c !in net.open then !r.end.ToTask? && r.rest == v
          else match r.end
               case Closes(_) => r.rest == Invalid || (k.p == null && r.gone)
               case Stays => k.p != null && r.cut && r.rest == v
               case ToTask => r.rest == Invalid && !r.gone && v.Available())
    }

    twostate predicate LetGo(r: Release)
      requires old(MayLetGo(r))
      reads this, repr
    {
      var k := r.k;
      k.f != null && k.f in repr && k.f.local in repr && (k.p != null ==> k.p in repr && k.p.local in repr)
      && (k.t != null ==> k.t in repr && k.t.state in repr) &&
      var f, p, t := k.f, k.p, k.t;
      && OutsideSame(k) && promises == old(promises) && next == old(next) && net == old(NetAfter(r))
      && (if r.gone then f !in futures && (forall g :: g in futures ==> g in old(futures))
                         && (forall g :: g in old(futures) && g != f ==> g in futures)
          else futures == old(futures) && f.promise == (if r.cut then null else p))
      && f.id == old(f.id) && f.local.owner == f
      && (p != null ==>
        p.future == (if r.cut then null else f) && p.id == old(p.id) && p.state == old(p.state) && p.task == old(p.task)
                        && p.local.owner == p && p.local.st == r.rest && SameCell(f.local))
      && (p == null ==> f.local.st == r.rest)
      && (t == null ==> repr == old(repr) && tasks == old(tasks))
      && (t != null ==> repr == old(repr) + {t, t.state} && tasks == old(tasks) + [t] && t.state.owner == t
                        && t.state.st == old(k.f.Value()))
    }

    twostate lemma LetGoTouchesOnly(r: Release)
      requires old(Valid()) && old(MayLetGo(r)) && LetGo(r)
      ensures OnlyTouches(r.k)
    {
    }

    twostate lemma LetGoKeepsTasks(r: Release)
      requires old(Valid()) && old(MayLetGo(r)) && LetGo(r)
      ensures TasksOk()
    {
      forall t | t in tasks ensures TaskOk(t) {
        assert t in old(tasks) ==> old(TaskOk(t));
      }
      if r.k.t != null {
        assert r.k.t in old(tasks) ==> old(TaskOk(r.k.t));
      }
    }

    twostate lemma LetGoOk(r: Release)
      requires old(Valid()) && old(MayLetGo(r)) && LetGo(r)
      ensures TouchedOk(r.k)
    {
      LetGoKeepsTasks(r);
    }

    /** The promise k.p has got the continuation k.t, and its future k.f is free. */
    twostate predicate Awaits(k: Part)
      reads this, repr
    {
      k.f != null && k.f in repr && k.f.local in repr && k.p != null && k.p in repr && k.p.local in repr
      && k.t != null && k.t in repr && k.t.state in repr &&
      var f, p, t := k.f, k.p, k.t;
      && OutsideSame(k) && promises == old(promises) && futures == old(futures) && next == old(next)
        && tasks == old(tasks)
      && repr == old(repr) + {t, t.state} && k.c in old(net.open) && net == Apply(old(net), ConsumerIs(k.c, ATask(t)))
      && f.promise == null && f.id == old(f.id) && SameCell(f.local)
      && p.future == null && p.task == t && p.state == t.state && p.id == old(p.id) && SameCell(p.local)
      && t.state.owner == t && t.state.st == Pending
    }

    twostate lemma AwaitTouchesOnly(k: Part)
      requires old(Valid()) && old(WholeFuture(k)) && old(k.f.Value()) == Pending && Awaits(k)
      ensures OnlyTouches(k)
    {
    }

    twostate lemma AwaitOk(k: Part)
      requires old(Valid()) && old(WholeFuture(k)) && old(k.f.Value()) == Pending && Awaits(k)
      ensures TouchedOk(k)
    {
      SameTasks(k);
    }

    /** m.y was constructed from m.k.f: the state came along if it was in the future, and the promise follows. */
    twostate predicate FutureMoved(m: Relocation)
      reads this, repr
    {
      m.k.f != null && m.k.f in repr && m.k.f.local in repr && m.y in repr && m.y.local in repr
      && (m.k.p != null ==> m.k.p in repr && m.k.p.local in repr) &&
      var x, y, p, k := m.k.f, m.y, m.k.p, m.k;
      && OutsideSame(k) && promises == old(promises) && next == old(next) && tasks == old(tasks)
      && futures == old(futures) + {y} && repr == old(repr) + {y, y.local}
      && net == (if old(IsConsumer(x)) then Apply(old(net), ConsumerIs(old(x.id), AFuture(y))) else old(net))
      && x.promise == null && y.promise == p && x.id == old(x.id) && y.id == x.id && y.local.owner == y
        && x.local.owner == x
      && (p != null ==>
        p.future == y && p.state == old(p.state) && p.task == old(p.task) && p.id == old(p.id) && SameCell(p.local)
                        && SameCell(x.local) && y.local.st == Pending)
      && (p == null ==> y.local.st == old(x.local.st) && x.local.st == Invalid)
    }

    twostate lemma FutureMoveTouchesOnly(m: Relocation)
      requires old(Valid()) && old(WholeFuture(m.k)) && m.k.t == null && m.y !in old(futures)
               && old(m.y.local.owner) == m.y && FutureMoved(m)
      ensures OnlyTouches(m.k)
    {
    }

    twostate lemma FutureMoveOk(m: Relocation)
      requires old(Valid()) && old(WholeFuture(m.k)) && m.k.t == null && m.y !in old(futures)
               && old(m.y.local.owner) == m.y && FutureMoved(m)
      ensures TouchedOk(m.k)
    {
      SameTasks(m.k);
    }

    /** k.y was constructed from k.p: the state came along if it was in k.p, and the future follows. */
    twostate predicate Moved(k: Part)
      reads this, repr
    {
      k.p != null && k.y != null && k.p in repr && k.y in repr && k.p.local in repr && k.y.local in repr
      && (k.y.future != null ==> k.y.future in repr) &&
      var x, y := k.p, k.y;
      && promises == old(promises) + {y} && repr == old(repr) + {y, y.local}
      && futures == old(futures) && tasks == old(tasks) && next == old(next)
      && net == (if old(IsProducer(x)) then Apply(old(net), ProducerIs(old(x.id), y)) else old(net))
      && y.id == old(x.id) && x.id == old(x.id) && y.local.owner == y && x.local.owner == old(x.local.owner)
      && y.future == old(x.future) && y.task == old(x.task)
      && y.state == (if old(x.state) == x.local then y.local else old(x.state))
      && y.local.st == (if old(x.state) == x.local then old(x.local.st) else Pending)
      && x.local.st == (if old(x.state) == x.local then Invalid else old(x.local.st))
      && x.future == null && x.state == null && x.task == null
      && (y.future != null ==> y.future.promise == y && y.future.id == old(x.future.id))
      && OthersSame(k)
      && (forall s: StateCell :: s in old(repr) && s in repr && s != x.local && s != y.local ==> SameCell(s))
    }

    twostate lemma MoveTouchesOnly(k: Part)
      requires old(Valid()) && k.y != null && old(k.y.local.owner) == k.y && k.p in old(promises)
               && k.y !in old(promises) && old(WholePart(k)) && Moved(k)
      ensures OnlyTouches(k)
    {
    }

    twostate lemma MovedPromises(k: Part)
      requires old(Valid()) && k.y != null && old(k.y.local.owner) == k.y && k.p in old(promises)
               && k.y !in old(promises) && old(WholePart(k)) && Moved(k)
      ensures PromiseOk(k.p) && PromiseOk(k.y)
    {
    }

    twostate lemma MovedFuture(k: Part)
      requires old(Valid()) && k.y != null && old(k.y.local.owner) == k.y && k.p in old(promises)
               && k.y !in old(promises) && old(WholePart(k)) && Moved(k)
      ensures k.f != null ==> FutureOk(k.f)
    {
    }

    twostate lemma MovedChannel(k: Part)
      requires old(Valid()) && k.y != null && old(k.y.local.owner) == k.y && k.p in old(promises)
               && k.y !in old(promises) && old(WholePart(k)) && Moved(k)
      ensures k.c in net.open ==> ChannelOk(k.c)
    {
    }

    twostate lemma MoveOk(k: Part)
      requires old(Valid()) && k.y != null && old(k.y.local.owner) == k.y && k.p in old(promises)
               && k.y !in old(promises) && old(WholePart(k)) && Moved(k)
      ensures TouchedOk(k)
    {
      MovedPromises(k);
      MovedFuture(k);
      MovedChannel(k);
      SameTasks(k);
    }

    /** The reactor runs a continuation: run_and_dispose hands the value to its function. */
    method RunNext() returns (t: Continuation, s: State)
      requires Valid() && tasks != []
      modifies this, repr
      ensures Valid() && repr == old(repr) && promises == old(promises) && futures == old(futures)
      ensures t == old(tasks[0]) && tasks == old(tasks[1..]) && reported == old(reported)
      ensures Step(old(net), Closed(t.id, Delivered(s, ATask(t))), net)
    {
      t := tasks[0];
      assert TaskOk(tasks[0]);
      assert ChannelOk(t.id);
      tasks := tasks[1..];
      s := t.state.MoveOut();
      ghost var e := Closed(t.id, Delivered(s, ATask(t)));
      net := Apply(net, e);
      assert forall i :: 0 <= i < |tasks| ==> tasks[i] == old(tasks)[i + 1];
      forall u | u in tasks ensures TaskOk(u) {
        assert old(TaskOk(u));
      }
      ValidAgain(Part(t.id, null, null, t, null));
    }
  }

  class Promise {
    var future: Future?
    const local: StateCell
    var state: StateCell?
    var task: Continuation?
    ghost var id: nat

    /** promise(): a new channel, awaited, with nobody waiting. */
    constructor (w: Runtime)
      requires w.Valid()
      modifies w
      ensures w.Valid() && fresh(w.repr - old(w.repr)) && w.repr >= old(w.repr) && this in w.promises
              && w.IsProducer(this)
      ensures w.tasks == old(w.tasks) && w.reported == old(w.reported)
      ensures Step(old(w.net), Opened(id, Channel(Pending, this, Nobody)), w.net)
    {
      local := new StateCell();
      future, task, id := null, null, w.next;
      state := local;
      new;
      local.owner := this;
      Join(w);
    }

    ghost method Join(w: Runtime)
      requires w.Valid() && this !in w.promises && future == null && task == null && state == local
               && local.st == Pending
      requires local.owner == this && id == w.next && this !in w.repr && local !in w.repr
      modifies w
      ensures w.Valid() && w.repr == old(w.repr) + {this, local} && w.promises == old(w.promises) + {this}
              && w.IsProducer(this)
      ensures w.tasks == old(w.tasks) && w.reported == old(w.reported) && w.futures == old(w.futures)
      ensures Step(old(w.net), Opened(id, Channel(Pending, this, Nobody)), w.net)
    {
      w.IdsBelowNext();
      w.promises, w.repr, w.next := w.promises + {this}, w.repr + {this, local}, w.next + 1;
      w.net := Apply(w.net, Opened(id, Channel(Pending, this, Nobody)));
      w.SameTasks(Part(id, null, null, null, null));
      w.ValidAgain(Part(id, null, null, null, null));
    }

    /** promise(promise&&). */
    constructor Move(x: Promise, w: Runtime)
      requires w.Valid() && x in w.promises
      modifies w, x, x.local, if x.future == null then {} else {x.future}
      ensures w.Valid() && fresh(w.repr - old(w.repr)) && w.repr >= old(w.repr) && this in w.promises
              && !w.IsProducer(x)
      ensures w.tasks == old(w.tasks) && w.reported == old(w.reported)
      ensures id == old(x.id)
      ensures if old(w.IsProducer(x)) then Step(old(w.net), ProducerIs(id, this), w.net) else w.net == old(w.net)
    {
      local := new StateCell();
      future, state, task, id := null, null, null, 0;
      new;
      local.owner := this;
      TakeOver(x, w);
    }

    /** The body of the move constructor: the state moves along if it is in x, and the future follows. */
    method MoveLinks(x: Promise)
      requires x != this && x.local != local
      modifies this, local, x, x.local, if x.future == null then {} else {x.future}
      ensures future == old(x.future) && task == old(x.task)
              && (future != null ==> future.promise == this && future.id == old(x.future.id))
      ensures state == if old(x.state) == x.local then local else old(x.state)
      ensures local.st == if old(x.state) == x.local then old(x.local.st) else Pending
      ensures x.local.st == if old(x.state) == x.local then Invalid else old(x.local.st)
      ensures x.future == null && x.state == null && x.task == null
      ensures id == old(x.id) && x.id == old(x.id) && local.owner == old(local.owner)
              && x.local.owner == old(x.local.owner)
    {
      local.st := Pending;
      future, state, task := x.future, x.state, x.task;
      if state == x.local {
        state := local;
        local.st := x.local.MoveOut();
      }
      x.future, x.state, x.task := null, null, null;
      if future != null {
        future.promise := this;
      }
      id := x.id;
    }

    method MoveFrom(x: Promise, w: Runtime)
      requires x in w.promises && x in w.repr && x.local in w.repr
               && (x.future != null ==> x.future in w.futures && x.future in w.repr)
      requires this !in w.promises && local.owner == this && local != x.local && w !in w.repr && x.local.owner == x
      modifies w, this, local, x, x.local, if x.future == null then {} else {x.future}
      ensures w.Moved(old(w.PartOf(x, this))) && w.reported == old(w.reported)
    {
      ghost var isProducer := w.IsProducer(x);
      MoveLinks(x);
      w.net := if isProducer then Apply(w.net, ProducerIs(id, this)) else w.net;
      w.promises, w.repr := w.promises + {this}, w.repr + {this, local};
    }

    /** A promise that is not alive is constructed from x. */
    method TakeOver(x: Promise, w: Runtime)
      requires w.Valid() && x in w.promises && this !in w.promises && local.owner == this
      modifies w, this, local, x, x.local, if x.future == null then {} else {x.future}
      ensures w.Valid() && w.repr == old(w.repr) + {this, local} && w.promises == old(w.promises) + {this}
              && !w.IsProducer(x)
      ensures w.futures == old(w.futures) && w.tasks == old(w.tasks) && w.reported == old(w.reported)
      ensures id == old(x.id)
      ensures if old(w.IsProducer(x)) then Step(old(w.net), ProducerIs(id, this), w.net) else w.net == old(w.net)
    {
      ghost var k := w.PartOf(x, this);
      w.PartOfIsWhole(x, this);
      MoveFrom(x, w);
      w.MoveTouchesOnly(k);
      w.MoveOk(k);
      w.ValidAgain(k);
    }

    method LinkFuture(w: Runtime) returns (f: Future)
      requires this in w.promises && this in w.repr && local in w.repr && w !in w.repr
      modifies w, this
      ensures w.GotFuture(old(w.PartOf(this, null))) && w.reported == old(w.reported) && f == future && fresh(f)
              && fresh(f.local)
    {
      f := new Future.Raw(id);
      f.promise := this;
      future := f;
      w.net := if w.IsProducer(this) then Apply(w.net, ConsumerIs(id, AFuture(f))) else w.net;
      w.futures, w.repr := w.futures + {f}, w.repr + {f, f.local};
    }

    /** get_future(). */
    method GetFuture(w: Runtime) returns (f: Future)
      requires w.Valid() && this in w.promises && future == null && state != null && task == null
      modifies w, this
      ensures w.Valid() && fresh(f) && f in w.futures && f.id == id && w.repr >= old(w.repr)
              && fresh(w.repr - old(w.repr))
      ensures w.promises == old(w.promises) && w.futures == old(w.futures) + {f}
      ensures w.tasks == old(w.tasks) && w.reported == old(w.reported) && id == old(id) && future == f
              && f.promise == this
      ensures if old(w.IsProducer(this)) then Step(old(w.net), ConsumerIs(id, AFuture(f)), w.net)
              else w.net == old(w.net)
    {
      ghost var k := w.PartOf(this, null);
      w.PartOfIsWhole(this, null);
      f := LinkFuture(w);
      w.GetFutureTouchesOnly(k);
      w.GetFutureOk(k);
      w.ValidAgain(k);
    }

    method MakeReady(v: State, urgent: bool, w: Runtime)
      requires this in w.promises && this in w.repr && local in w.repr && state != null && state in w.repr
               && w !in w.repr
      requires (task == null ==> state == local)
               && (task != null ==> task in w.repr && state == task.state && local != state)
      requires Legal(w.net, ValueSet(id, v)) && state.owner == if task == null then this as object else task as object
      requires future != null ==> future in w.repr && future.local in w.repr && future.local != state
      modifies w, this, state
      ensures w.GotResult(old(w.PartOf(this, null)), v, urgent) && w.reported == old(w.reported)
    {
      state.st := v;
      w.net := Apply(w.net, ValueSet(id, v));
      if task != null {
        state := null;
        w.tasks := if urgent then [task] + w.tasks else w.tasks + [task];
        task := null;
        w.net := Apply(w.net, ProducerIs(id, null));
      }
    }

    /** set_value, set_exception and their urgent forms: store the result, then make_ready. */
    method Set(v: State, urgent: bool, w: Runtime)
      requires w.Valid() && this in w.promises && state != null && state.st == Pending && v.Available()
      modifies w, this, state
      ensures w.Valid() && w.repr == old(w.repr) && w.promises == old(w.promises) && w.futures == old(w.futures)
      ensures w.reported == old(w.reported) && id == old(id)
      ensures if old(task) == null then Step(old(w.net), ValueSet(id, v), w.net)
              else Step2(old(w.net), ValueSet(id, v), ProducerIs(id, null), w.net)
      ensures w.tasks == if old(task) == null then old(w.tasks) else if urgent then [old(task)] + old(w.tasks)
              else old(w.tasks) + [old(task)]
    {
      ghost var k := w.PartOf(this, null);
      w.PartOfIsWhole(this, null);
      MakeReady(v, urgent, w);
      w.SetTouchesOnly(k, v, urgent);
      w.SetOk(k, v, urgent);
      w.ValidAgain(k);
    }

    method Leave(ghost n: Net, w: Runtime)
      requires this in w.promises && this in w.repr && local in w.repr && w !in w.repr && local.owner == this
      requires future != null ==> state == local && future in w.repr && future.local in w.repr && future.local != local
                                  && future.local.owner == future
      requires state != null ==> state in w.repr && state.owner != null && w.PartOf(this, null).Owns(state.owner)
      modifies w, this, if state == null then {} else {state}, if future == null then {} else {future, future.local}
      ensures w.Died(old(w.PartOf(this, null)), n)
      ensures w.reported == if old(future) == null && old(state) != null && old(state.st).Failed?
                            then old(w.reported) + [old(state.st).error] else old(w.reported)
    {
      if future != null {
        future.local.st := state.MoveOut();
        future.promise := null;
      } else if state != null && state.st.Failed? {
        w.reported := w.reported + [state.st.error];
        state.st := Invalid;
      }
      w.promises, w.net := w.promises - {this}, n;
    }

    /** abandoned(), the body of the destructor. o is history: how the channel ends if there is no future. */
    method Die(ghost o: Outcome, w: Runtime)
      requires w.Valid() && this in w.promises
      modifies w, this, if state == null then {} else {state}, if future == null then {} else {future, future.local}
      ensures w.Valid() && w.repr == old(w.repr) && this !in w.promises && w.promises == old(w.promises) - {this}
      ensures w.futures == old(w.futures) && w.tasks == old(w.tasks) && local.owner == this
      ensures w.net == old(w.NetWithout(this, o))
      ensures w.reported == if old(future) == null && old(state) != null && old(state.st).Failed?
                            then old(w.reported) + [old(state.st).error] else old(w.reported)
    {
      ghost var k := w.PartOf(this, null);
      w.PartOfIsWhole(this, null);
      Leave(w.NetWithout(this, o), w);
      w.DeathTouchesOnly(k, o);
      w.DeathOk(k, o);
      w.ValidAgain(k);
    }

    /** The destructor. */
    method Abandon(w: Runtime)
      requires w.Valid() && this in w.promises
      modifies w, this, if state == null then {} else {state}, if future == null then {} else {future, future.local}
      ensures w.Valid() && w.repr == old(w.repr) && this !in w.promises && w.promises == old(w.promises) - {this}
      ensures w.futures == old(w.futures) && w.tasks == old(w.tasks) && local.owner == this
      ensures if old(w.IsProducer(this)) then Step(old(w.net), old(w.DeathOf(this)), w.net)
              else w.net == old(w.net)
      ensures w.reported == if old(future) == null && old(state) != null && old(state.st).Failed?
                            then old(w.reported) + [old(state.st).error] else old(w.reported)
    {
      ghost var o := if w.IsProducer(this) then Runtime.Abandonment(w.net.open[id].value) else Dropped(Pending);
      assert w.IsProducer(this) ==> Legal(w.net, w.DeathOf(this));
      Die(o, w);
    }

    /** operator=: destroy, and construct again in place. */
    method Replace(x: Promise, ghost o: Outcome, w: Runtime)
      requires w.Valid() && this in w.promises && x in w.promises && x != this
      modifies w, this, local, if state == null then {} else {state}, if future == null then {}
        else {future, future.local}
      modifies x, x.local, if x.future == null then {} else {x.future}
      ensures w.Valid() && w.repr == old(w.repr) && w.promises == old(w.promises) && !w.IsProducer(x)
      ensures w.futures == old(w.futures) && w.tasks == old(w.tasks) && id == old(x.id)
      ensures if old(w.IsProducer(x)) then Step(old(w.NetWithout(this, o)), ProducerIs(id, this), w.net)
              else w.net == old(w.NetWithout(this, o))
      ensures w.reported == if old(future) == null && old(state) != null && old(state.st).Failed?
                            then old(w.reported) + [old(state.st).error] else old(w.reported)
    {
      w.PartOfIsWhole(this, null);
      w.PartOfIsWhole(x, null);
      Die(o, w);
      TakeOver(x, w);
      assert forall p :: p in w.promises <==> p in old(w.promises);
    }

    /** Assignment by a user: what was here is lost unless a future has it. */
    method Assign(x: Promise, w: Runtime)
      requires w.Valid() && this in w.promises && x in w.promises
      modifies w, this, local, if state == null then {} else {state}, if future == null then {}
        else {future, future.local}
      modifies x, x.local, if x.future == null then {} else {x.future}
      ensures w.Valid() && w.repr == old(w.repr) && w.promises == old(w.promises) && (x != this ==> !w.IsProducer(x))
      ensures w.futures == old(w.futures) && w.tasks == old(w.tasks)
      ensures x != this ==> id == old(x.id)
      ensures x == this ==> w.net == old(w.net) && w.reported == old(w.reported)
      ensures x != this ==>
                && (match (old(w.IsProducer(this)), old(w.IsProducer(x)))
                    case (true, true) => Step2(old(w.net), old(w.DeathOf(this)), ProducerIs(id, this), w.net)
                    case (true, false) => Step(old(w.net), old(w.DeathOf(this)), w.net)
                    case (false, true) => Step(old(w.net), ProducerIs(id, this), w.net)
                    case (false, false) => w.net == old(w.net))
                && w.reported == if old(future) == null && old(state) != null && old(state.st).Failed?
                                 then old(w.reported) + [old(state.st).error] else old(w.reported)
    {
      if x != this {
        ghost var o := if w.IsProducer(this) then Runtime.Abandonment(w.net.open[id].value) else Dropped(Pending);
        assert w.IsProducer(this) ==> Legal(w.net, w.DeathOf(this));
        Replace(x, o, w);
      }
    }
  }

  class Future {
    var promise: Promise?
    const local: StateCell
    ghost var id: nat

    constructor Raw(ghost c: nat)
      ensures fresh(local) && local.owner == this && local.st == Pending && id == c && promise == null
    {
      local := new StateCell();
      promise, id := null, c;
      new;
      local.owner := this;
    }

    /** state(): where the value of this future is. */
    function Storage(): (s: StateCell)
      reads this, promise
    {
      if promise == null || promise.state == null then local else promise.state
    }

    ghost function Value(): State
      reads this, promise, Storage()
    {
      Storage().st
    }

    /** make_ready_future and make_exception_future: a value that no promise produces. */
    constructor Ready(v: State, w: Runtime)
      requires w.Valid() && v.Available()
      modifies w
      ensures w.Valid() && fresh(w.repr - old(w.repr)) && w.repr >= old(w.repr) && this in w.futures && promise == null
      ensures w.tasks == old(w.tasks) && w.reported == old(w.reported) && w.promises == old(w.promises) && Value() == v
      ensures Step(old(w.net), Opened(id, Channel(v, null, AFuture(this))), w.net)
    {
      local := new StateCell();
      promise, id := null, w.next;
      new;
      local.owner := this;
      local.st := v;
      Join(w);
    }

    ghost method Join(w: Runtime)
      requires w.Valid() && this !in w.futures && promise == null && local.st.Available() && local.owner == this
               && id == w.next
      requires this !in w.repr && local !in w.repr
      modifies w
      ensures w.Valid() && w.repr == old(w.repr) + {this, local} && w.futures == old(w.futures) + {this}
              && w.promises == old(w.promises)
      ensures w.tasks == old(w.tasks) && w.reported == old(w.reported)
      ensures Step(old(w.net), Opened(id, Channel(local.st, null, AFuture(this))), w.net)
    {
      w.IdsBelowNext();
      w.futures, w.repr, w.next := w.futures + {this}, w.repr + {this, local}, w.next + 1;
      w.net := Apply(w.net, Opened(id, Channel(local.st, null, AFuture(this))));
      w.SameTasks(Part(id, null, null, null, null));
      w.ValidAgain(Part(id, null, null, null, null));
    }

    method MoveLinks(x: Future, ghost m: Relocation, w: Runtime)
      requires x == m.k.f && w.WholeFuture(m.k) && m.y == this && m.k.f != null && m.k.f != this && m.k.t == null
               && m.k.f.local != local
      requires w !in w.repr && local.st == Pending && local.owner == this && this !in w.futures && m.k.f in w.futures
      requires local !in w.repr && (m.k.p == null || m.k.p.local != local)
      modifies w, this, local, m.k.f, m.k.f.local, if m.k.p == null then {} else {m.k.p}
      ensures w.FutureMoved(m) && w.reported == old(w.reported)
    {
      ghost var isConsumer := w.IsConsumer(m.k.f);
      Relink(x);
      w.net := if isConsumer then Apply(w.net, ConsumerIs(id, AFuture(this))) else w.net;
      w.futures, w.repr := w.futures + {this}, w.repr + {this, local};
    }

    /** The body of the move constructor: the state moves along if it is in x, and the promise follows. */
    method Relink(x: Future)
      requires x != this && x.local != local && local.st == Pending
      modifies this, local, x, x.local, if x.promise == null then {} else {x.promise}
      ensures promise == old(x.promise) && x.promise == null && id == old(x.id) && x.id == old(x.id)
      ensures promise != null ==> promise.future == this && promise.state == old(x.promise.state)
                                  && promise.task == old(x.promise.task) && promise.id == old(x.promise.id)
      ensures local.st == if old(x.promise) == null then old(x.local.st) else Pending
      ensures x.local.st == if old(x.promise) == null then Invalid else old(x.local.st)
      ensures local.owner == old(local.owner) && x.local.owner == old(x.local.owner)
    {
      promise := x.promise;
      if promise == null {
        local.st := x.local.MoveOut();
      }
      x.promise := null;
      if promise != null {
        promise.future := this;
      }
      id := x.id;
    }

    /** future(future&&). */
    constructor Move(x: Future, w: Runtime)
      requires w.Valid() && x in w.futures
      modifies w, x, x.local, if x.promise == null then {} else {x.promise}
      ensures w.Valid() && fresh(w.repr - old(w.repr)) && w.repr >= old(w.repr) && this in w.futures && !w.IsConsumer(x)
      ensures w.tasks == old(w.tasks) && w.reported == old(w.reported) && w.promises == old(w.promises)
              && id == old(x.id)
      ensures if old(w.IsConsumer(x)) then Step(old(w.net), ConsumerIs(id, AFuture(this)), w.net)
              else w.net == old(w.net)
    {
      local := new StateCell();
      promise, id := null, 0;
      new;
      local.owner := this;
      TakeOver(x, w);
    }

    method TakeOver(x: Future, w: Runtime)
      requires w.Valid() && x in w.futures && this !in w.futures && promise == null && local.st == Pending
               && local.owner == this
      requires local !in w.repr
      modifies w, this, local, x, x.local, if x.promise == null then {} else {x.promise}
      ensures w.Valid() && w.repr == old(w.repr) + {this, local} && w.futures == old(w.futures) + {this}
              && !w.IsConsumer(x)
      ensures w.tasks == old(w.tasks) && w.reported == old(w.reported) && w.promises == old(w.promises)
              && id == old(x.id)
      ensures if old(w.IsConsumer(x)) then Step(old(w.net), ConsumerIs(id, AFuture(this)), w.net)
              else w.net == old(w.net)
    {
      w.PartOfFutureIsWhole(x, null);
      ghost var m := Relocation(w.PartOfFuture(x, null), this);
      MoveLinks(x, m, w);
      w.FutureMoveTouchesOnly(m);
      w.FutureMoveOk(m);
      w.ValidAgain(m.k);
    }

    method HandOver(t: Continuation, ghost r: Release, w: Runtime)
      requires w.MayLetGo(r) && r.k.f == this && r.k.t == t && !r.cut && !r.gone && r.rest == Invalid && r.end == ToTask
      requires w !in w.repr && this in w.futures && t.state != Storage() && t.state != local && t.state.owner == t
      requires t !in w.repr && t.state !in w.repr && r.k.c in w.net.open
      modifies w, Storage(), t.state
      ensures w.LetGo(r) && w.reported == old(w.reported)
    {
      ghost var n := w.NetAfter(r);
      t.state.st := Storage().MoveOut();
      w.net, w.tasks, w.repr := n, w.tasks + [t], w.repr + {t, t.state};
    }

    method Wait(t: Continuation, w: Runtime)
      requires w.WholeFuture(w.PartOfFuture(this, t)) && promise != null && w.IsConsumer(this) && this in w.futures
      requires w !in w.repr && t !in w.repr && t.state !in w.repr && t.state.owner == t && t.state.st == Pending
      modifies w, this, promise
      ensures w.Awaits(old(w.PartOfFuture(this, t))) && w.reported == old(w.reported)
    {
      promise.state := t.state;
      promise.task := t;
      promise.future := null;
      promise := null;
      w.net, w.repr := Apply(w.net, ConsumerIs(id, ATask(t))), w.repr + {t, t.state};
    }

    /**
     * schedule(): an available value goes to the task queue in the new continuation t; otherwise
     * the promise gets t.
     */
    method Schedule(w: Runtime) returns (t: Continuation)
      requires w.Valid() && this in w.futures
      requires Value().Available() || (Value() == Pending && promise != null)
      modifies w, this, Storage(), if promise == null then {} else {promise}
      ensures w.Valid() && fresh(t) && fresh(w.repr - old(w.repr)) && w.repr >= old(w.repr)
      ensures w.promises == old(w.promises) && w.futures == old(w.futures) && w.reported == old(w.reported)
              && id == old(id)
      ensures if old(Value()).Available()
              then Step2(old(w.net), ConsumerIs(id, ATask(t)), ProducerIs(id, null), w.net)
                && w.tasks == old(w.tasks) + [t]
              else Step(old(w.net), ConsumerIs(id, ATask(t)), w.net) && w.tasks == old(w.tasks)
    {
      w.PartOfFutureIsWhole(this, null);
      t := new Continuation(id);
      if Storage().st.Available() {
        ScheduleReady(t, w);
      } else {
        SchedulePending(t, w);
      }
    }

    method ScheduleReady(t: Continuation, w: Runtime)
      requires w.Valid() && this in w.futures && Value().Available() && t.id == id
      requires t !in w.repr && t.state !in w.repr && t.state.owner == t
      modifies w, Storage(), t.state
      ensures w.Valid() && w.repr == old(w.repr) + {t, t.state} && w.promises == old(w.promises)
              && w.futures == old(w.futures)
      ensures w.reported == old(w.reported) && w.tasks == old(w.tasks) + [t]
      ensures Step2(old(w.net), ConsumerIs(id, ATask(t)), ProducerIs(id, null), w.net)
    {
      w.PartOfFutureIsWhole(this, null);
      w.PartOfFutureIsWhole(this, t);
      ghost var r := Release(w.PartOfFuture(this, t), ToTask, false, false, Invalid);
      HandOver(t, r, w);
      w.LetGoTouchesOnly(r);
      w.LetGoOk(r);
      w.ValidAgain(r.k);
    }

    method SchedulePending(t: Continuation, w: Runtime)
      requires w.Valid() && this in w.futures && Value() == Pending && promise != null && t.id == id
      requires t !in w.repr && t.state !in w.repr && t.state.owner == t && t.state.st == Pending
      modifies w, this, promise
      ensures w.Valid() && w.repr == old(w.repr) + {t, t.state} && w.promises == old(w.promises)
              && w.futures == old(w.futures)
      ensures w.reported == old(w.reported) && w.tasks == old(w.tasks) && id == old(id)
      ensures Step(old(w.net), ConsumerIs(id, ATask(t)), w.net)
    {
      w.PartOfFutureIsWhole(this, null);
      w.PartOfFutureIsWhole(this, t);
      ghost var k := w.PartOfFuture(this, t);
      Wait(t, w);
      w.AwaitTouchesOnly(k);
      w.AwaitOk(k);
      w.ValidAgain(k);
    }

    method Take(ghost r: Release, w: Runtime) returns (s: State)
      requires w.MayLetGo(r) && r.k.f == this && r.k.t == null && r.cut && !r.gone && r.rest == Invalid
               && w !in w.repr && this in w.futures
      modifies w, this, Storage(), if promise == null then {} else {promise}
      ensures w.LetGo(r) && w.reported == old(w.reported) && s == old(Value())
    {
      var st := Storage();
      ghost var n := w.NetAfter(r);
      if promise != null {
        promise.future := null;
        promise := null;
      }
      s := st.MoveOut();
      w.net := n;
    }

    /** get_available_state(), the end of get(), get_exception() and then(). */
    method GetAvailableState(w: Runtime) returns (s: State)
      requires w.Valid() && this in w.futures && Value().Available()
      modifies w, this, Storage(), if promise == null then {} else {promise}
      ensures w.Valid() && w.repr == old(w.repr) && w.promises == old(w.promises) && w.futures == old(w.futures)
      ensures w.tasks == old(w.tasks) && w.reported == old(w.reported) && id == old(id) && s == old(Value())
      ensures Step(old(w.net), Closed(id, Delivered(s, AFuture(this))), w.net)
    {
      w.PartOfFutureIsWhole(this, null);
      ghost var r :=
            Release(w.PartOfFuture(this, null), Closes(Delivered(Value(), AFuture(this))), true, false, Invalid);
      s := Take(r, w);
      w.LetGoTouchesOnly(r);
      w.LetGoOk(r);
      w.ValidAgain(r.k);
    }

    method Leave(ghost r: Release, w: Runtime)
      requires w.MayLetGo(r) && r.k.f == this && r.k.t == null && r.cut && r.gone && w !in w.repr && this in w.futures
      requires r.rest == if Value().Failed? then Invalid else Value()
      modifies w, this, Storage(), if promise == null then {} else {promise}
      ensures w.LetGo(r)
      ensures w.reported == if old(Value()).Failed? then old(w.reported) + [old(Value()).error] else old(w.reported)
    {
      ghost var n := w.NetAfter(r);
      if promise != null {
        promise.future := null;
      }
      var st := Storage();
      if st.st.Failed? {
        w.reported := w.reported + [st.st.error];
        st.st := Invalid;
      }
      w.net, w.futures := n, w.futures - {this};
    }

    /** How a dying future leaves its value. */
    ghost function EndOfLife(): Ending
      reads this, promise, Storage()
    {
      if Value().Failed? then Closes(Reported(Value())) else if promise != null then Stays else Closes(Dropped(Value()))
    }

    /** The destructor: an exception nobody looked at is reported; any other value stays with the promise. */
    method Destroy(w: Runtime)
      requires w.Valid() && this in w.futures
      modifies w, this, Storage(), if promise == null then {} else {promise}
      ensures w.Valid() && w.repr == old(w.repr) && w.promises == old(w.promises) && this !in w.futures
              && w.tasks == old(w.tasks)
      ensures w.reported == if old(Value()).Failed? then old(w.reported) + [old(Value()).error] else old(w.reported)
      ensures id == old(id)
      ensures !old(w.IsConsumer(this)) ==> w.net == old(w.net)
      ensures old(w.IsConsumer(this)) ==>
                Step(old(w.net), match old(EndOfLife()) case Closes(o) => Closed(id, o)
                  case _ => ConsumerIs(id, Nobody), w.net)
    {
      w.PartOfFutureIsWhole(this, null);
      ghost var r := Release(w.PartOfFuture(this, null), EndOfLife(), true, true, if Value().Failed? then Invalid
            else Value());
      Leave(r, w);
      w.LetGoTouchesOnly(r);
      w.LetGoOk(r);
      w.ValidAgain(r.k);
    }

    method Empty(ghost r: Release, w: Runtime)
      requires w.MayLetGo(r) && r.k.f == this && r.k.t == null && !r.cut && !r.gone && r.rest == Invalid
               && w !in w.repr && this in w.futures
      modifies w, Storage()
      ensures w.LetGo(r) && w.reported == old(w.reported)
    {
      ghost var n := w.NetAfter(r);
      var st := Storage();
      st.st := Invalid;
      w.net := n;
    }

    /** The end of future_state::forward_to: the state is spent, the links stay. */
    method Discard(ghost target: nat, w: Runtime)
      requires w.Valid() && this in w.futures && Value().Available()
      modifies w, Storage()
      ensures w.Valid() && w.repr == old(w.repr) && w.promises == old(w.promises) && w.futures == old(w.futures)
      ensures w.tasks == old(w.tasks) && w.reported == old(w.reported)
      ensures w.net == Ended(old(w.net), id, ForwardedTo(old(Value()), target))
    {
      w.PartOfFutureIsWhole(this, null);
      ghost var r := Release(w.PartOfFuture(this, null), Closes(ForwardedTo(Value(), target)), false, false, Invalid);
      Empty(r, w);
      w.LetGoTouchesOnly(r);
      w.LetGoOk(r);
      w.ValidAgain(r.k);
    }

    method Unlink(ghost r: Release, w: Runtime)
      requires w.MayLetGo(r) && r.k.f == this && r.k.t == null && r.cut && !r.gone && r.rest == Value()
               && promise != null && w !in w.repr
      modifies w, this, promise
      ensures w.LetGo(r) && w.reported == old(w.reported)
    {
      ghost var n := w.NetAfter(r);
      promise.future := null;
      promise := null;
      w.net := n;
    }

    /** The future and its promise part; the awaited value stays with the promise. */
    method Detach(w: Runtime)
      requires w.Valid() && this in w.futures && promise != null && Value() == Pending
      modifies w, this, promise
      ensures w.Valid() && w.repr == old(w.repr) && w.promises == old(w.promises) && w.futures == old(w.futures)
      ensures w.tasks == old(w.tasks) && w.reported == old(w.reported)
      ensures old(promise) in w.promises && promise == null && w.IsProducer(old(promise))
              && old(promise).id == id == old(id) && old(promise).future == null
      ensures old(promise).task == null && old(promise).state == old(promise).local
              && old(promise).local.owner == old(promise)
      ensures Step(old(w.net), ConsumerIs(id, Nobody), w.net)
    {
      w.PartOfFutureIsWhole(this, null);
      ghost var r := Release(w.PartOfFuture(this, null), Stays, true, false, Value());
      Unlink(r, w);
      w.LetGoTouchesOnly(r);
      w.LetGoOk(r);
      w.ValidAgain(r.k);
    }

    method ForwardReady(pr: Promise, urgent: bool, w: Runtime)
      requires w.Valid() && this in w.futures && pr in w.promises
      requires Value().Available() && pr.state != null && pr.state.st == Pending
      modifies w, Storage(), pr, pr.state
      ensures w.Valid() && w.repr == old(w.repr) && w.promises == old(w.promises) && w.futures == old(w.futures)
      ensures w.reported == old(w.reported)
      ensures var c, d := id, old(pr.id);
              if old(pr.task) == null then Step(old(w.net), Forwarded(c, d), w.net)
              else Step2(old(w.net), Forwarded(c, d), ProducerIs(d, null), w.net)
      ensures w.tasks == if old(pr.task) == null then old(w.tasks)
                         else if urgent then [old(pr.task)] + old(w.tasks) else old(w.tasks) + [old(pr.task)]
    {
      var v := Storage().st;
      w.PartOfFutureIsWhole(this, null);
      w.PartOfIsWhole(pr, null);
      ghost var d := pr.id;
      ghost var n, task := w.net, pr.task;
      pr.Set(v, urgent, w);
      Discard(d, w);
      SetThenEnded(n, id, d, v, task != null);
    }

    method ForwardPending(pr: Promise, w: Runtime)
      requires w.Valid() && this in w.futures && pr in w.promises && promise != null && Value() == Pending
               && pr != promise
      modifies w, this, promise, promise.local, pr, pr.local, if pr.future == null then {} else {pr.future}
      ensures w.Valid() && w.repr == old(w.repr) && w.promises == old(w.promises) && w.futures == old(w.futures)
      ensures w.reported == old(w.reported) && w.tasks == old(w.tasks) && promise == null
      ensures var c, d := old(id), old(pr.id);
              if old(w.IsProducer(pr)) then Step(old(w.net), Redirected(c, d), w.net)
              else Step(old(w.net), Closed(c, Dropped(Pending)), w.net)
    {
      var p := promise;
      ghost var n := w.net;
      w.PartOfFutureIsWhole(this, null);
      Detach(w);
      w.PartOfIsWhole(pr, null);
      w.PartOfIsWhole(p, null);
      ghost var d := pr.id;
      ghost var isProducer := w.IsProducer(pr);
      p.Replace(pr, if isProducer then ForwardedTo(Pending, d) else Dropped(Pending), w);
      DetachedThenEnded(n, id, d, p, isProducer);
    }

    /**
     * forward_to: whatever this future gets, pr gets. The channel of the future ends; its value is
     * set in the channel of pr, or its promise becomes the producer of the channel of pr.
     */
    method ForwardTo(pr: Promise, urgent: bool, w: Runtime)
      requires w.Valid() && this in w.futures && pr in w.promises
      requires Value().Available() || (Value() == Pending && promise != null)
      requires Value().Available() ==> pr.state != null && pr.state.st == Pending
      modifies w, this, local, if promise == null then {} else {promise, promise.local}
      modifies pr, pr.local, if pr.state == null then {} else {pr.state}, if pr.future == null then {} else {pr.future}
      ensures w.Valid() && w.repr == old(w.repr) && w.promises == old(w.promises) && w.futures == old(w.futures)
      ensures w.reported == old(w.reported)
      ensures var c, d, v := old(id), old(pr.id), old(Value());
              if v.Available() then
                if old(pr.task) == null then Step(old(w.net), Forwarded(c, d), w.net)
                else Step2(old(w.net), Forwarded(c, d), ProducerIs(d, null), w.net)
              else if old(promise) == pr then Step(old(w.net), ConsumerIs(c, Nobody), w.net)
              else if old(w.IsProducer(pr)) then Step(old(w.net), Redirected(c, d), w.net)
              else Step(old(w.net), Closed(c, Dropped(Pending)), w.net)
      ensures w.tasks == if !old(Value()).Available() || old(pr.task) == null then old(w.tasks)
                         else if urgent then [old(pr.task)] + old(w.tasks) else old(w.tasks) + [old(pr.task)]
    {
      w.PartOfFutureIsWhole(this, null);
      if Storage().st.Available() {
        ForwardReady(pr, urgent, w);
      } else if pr == promise {
        Detach(w);
      } else {
        ForwardPending(pr, w);
      }
    }
  }
}
