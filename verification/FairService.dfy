/**
 * What the fair queue (core/fair_queue.hh) does over whole runs of arrivals, dispatches and ends of
 * requests: requests of a class go in the order they came, the counters are right, and classes that have
 * requests are served in the ratio of their shares.
 */
module FairService {
  import opened FairQueues

  // ---- what a request costs ----

  /** How much of the two limits a request takes, both brought to one denominator. */
  function Demand(r: Request, cfg: Config): real {
    r.weight as real * cfg.maxBytesCount as real + r.size as real * cfg.maxReqCount as real
  }

  function Limits(cfg: Config): real {
    cfg.maxReqCount as real * cfg.maxBytesCount as real
  }

  lemma DividedTimes(x: real, y: real)
    requires y != 0.0
    ensures x / y * y == x
  {
  }

  lemma SumOfParts(w: real, a: real, s: real, b: real)
    requires a != 0.0 && b != 0.0
    ensures (w / a + s / b) * (a * b) == w * b + s * a
  {
    DividedTimes(w, a);
    DividedTimes(s, b);
    var x, y := w / a, s / b;
    assert x * a == w && y * b == s;
    assert (x + y) * (a * b) == x * a * b + y * b * a;
  }

  /** The cost of a request is its demand, in parts of the limits, divided by the shares. */
  lemma CostIsDemand(r: Request, shares: nat, cfg: Config)
    requires cfg.Valid() && shares > 0
    ensures RequestCost(r, shares, cfg) * shares as real * Limits(cfg) == Demand(r, cfg)
  {
    var a, b := cfg.maxReqCount as real, cfg.maxBytesCount as real;
    var x := r.weight as real / a + r.size as real / b;
    DividedTimes(x, shares as real);
    SumOfParts(r.weight as real, a, r.size as real, b);
  }

  /** So it is in inverse ratio to the shares. */
  lemma CostPerShare(r: Request, j: nat, k: nat, cfg: Config)
    requires cfg.Valid() && j > 0 && k > 0
    ensures RequestCost(r, j, cfg) * j as real == RequestCost(r, k, cfg) * k as real
  {
    var x := r.weight as real / cfg.maxReqCount as real + r.size as real / cfg.maxBytesCount as real;
    DividedTimes(x, j as real);
    DividedTimes(x, k as real);
  }

  // ---- runs ----

  datatype Step =
    | Arrive(c: nat, r: Request)
    | Serve(growth: real)
    | Finish(r: Request)
    | Enroll(shares: nat)
    | Reshare(c: nat, shares: nat)

  ghost predicate Enabled(s: State, cfg: Config, e: Step) {
    match e
    case Arrive(c, r) => c < |s.shares|
    case Serve(growth) => CanDispatch(s, cfg) && s.handles != []
    case Reshare(c, shares) => c < |s.shares|
    case _ => true
  }

  ghost function Next(s: State, cfg: Config, e: Step): State
    requires cfg.Valid() && Ok(s) && Enabled(s, cfg, e)
  {
    match e
    case Arrive(c, r) => Enqueue(s, c, r)
    case Serve(growth) => DispatchOne(s, IdealCost(s, cfg, growth))
    case Finish(r) => Finished(s, r)
    case Enroll(shares) => Register(s, shares)
    case Reshare(c, shares) => s.(shares := s.shares[c := if shares > 0 then shares else 1])
  }

  ghost predicate Run(s: State, cfg: Config, es: seq<Step>, t: State)
    requires cfg.Valid()
    decreases |es|
  {
    Ok(s) && if es == [] then s == t else Enabled(s, cfg, es[0]) && Run(Next(s, cfg, es[0]), cfg, es[1..], t)
  }

  function Serves(growths: seq<real>): seq<Step> {
    seq(|growths|, i requires 0 <= i < |growths| => Serve(growths[i]))
  }

  lemma ServesRest(growths: seq<real>)
    requires growths != []
    ensures Serves(growths) != [] && Serves(growths)[0] == Serve(growths[0])
    ensures Serves(growths)[1..] == Serves(growths[1..])
  {
  }

  /** A round of dispatches is a run, which goes on until nothing is queued or a limit is reached. */
  lemma {:induction false} DispatchesAreARun(s: State, cfg: Config, growths: seq<real>, t: State)
    requires cfg.Valid() && Dispatches(s, cfg, growths, t)
    ensures Run(s, cfg, Serves(growths), t)
    ensures t.queued == 0 || t.executing >= cfg.capacity || t.reqCount >= cfg.maxReqCount
            || t.bytesCount >= cfg.maxBytesCount
    decreases |growths|
  {
    if growths != [] {
      ServesRest(growths);
      DispatchesAreARun(DispatchOne(s, IdealCost(s, cfg, growths[0])), cfg, growths[1..], t);
    }
  }

  /** Each dispatch is made below the three limits, so that there are never more requests than the capacity. */
  lemma {:induction false} CapacityIsKept(s: State, cfg: Config, es: seq<Step>, t: State)
    requires cfg.Valid() && Run(s, cfg, es, t)
    ensures es != [] && es[0].Serve? ==>
              s.executing < cfg.capacity && s.reqCount < cfg.maxReqCount && s.bytesCount < cfg.maxBytesCount
    ensures s.executing <= cfg.capacity ==> t.executing <= cfg.capacity
    decreases |es|
  {
    if es != [] {
      StepCounters(s, cfg, es[0]);
      CapacityIsKept(Next(s, cfg, es[0]), cfg, es[1..], t);
    }
  }

  // ---- the counters ----

  /** What a request counts for: itself, its weight and its size. */
  datatype Count = Count(requests: int, weight: int, size: int) {
    function Plus(r: Request): Count {
      Count(requests + 1, weight + r.weight, size + r.size)
    }

    function Minus(r: Request): Count {
      Count(requests - 1, weight - r.weight, size - r.size)
    }
  }

  ghost function Executing(s: State): Count {
    Count(s.executing, s.reqCount, s.bytesCount)
  }

  ghost function NewlyDispatched(s: State, t: State): seq<(nat, Request)>
    requires s.dispatched <= t.dispatched
  {
    t.dispatched[|s.dispatched|..]
  }

  /** n, with what was dispatched. */
  ghost function WithDispatched(n: Count, ds: seq<(nat, Request)>): Count
    decreases |ds|
  {
    if ds == [] then n else WithDispatched(n.Plus(ds[0].1), ds[1..])
  }

  /** n, without what ended. */
  ghost function WithoutFinished(n: Count, es: seq<Step>): Count
    decreases |es|
  {
    if es == [] then n
    else WithoutFinished(if es[0].Finish? then n.Minus(es[0].r) else n, es[1..])
  }

  /** One step counts the request it dispatches or that ended, and nothing else. */
  lemma StepCounters(s: State, cfg: Config, e: Step)
    requires cfg.Valid() && Ok(s) && Enabled(s, cfg, e)
    ensures var t := Next(s, cfg, e);
            && Ok(t) && s.dispatched <= t.dispatched
            && (if e.Serve? then
                  NewlyDispatched(s, t) == [(s.handles[0], NextRequest(s).0)]
                  && Executing(t) == Executing(s).Plus(NextRequest(s).0)
                else NewlyDispatched(s, t) == []
                     && Executing(t) == if e.Finish? then Executing(s).Minus(e.r) else Executing(s))
  {
    match e
    case Arrive(c, r) => EnqueueKeepsOk(s, c, r);
    case Serve(growth) =>
      DispatchKeepsOk(s, IdealCost(s, cfg, growth));
      DispatchTakesOldest(s, IdealCost(s, cfg, growth));
    case Enroll(shares) => RegisterKeepsOk(s, shares);
    case _ =>
  }

  lemma {:induction false} DispatchedPlus(n: Count, r: Request, ds: seq<(nat, Request)>)
    ensures WithDispatched(n.Plus(r), ds) == WithDispatched(n, ds).Plus(r)
    decreases |ds|
  {
    if ds != [] {
      assert n.Plus(r).Plus(ds[0].1) == n.Plus(ds[0].1).Plus(r);
      DispatchedPlus(n.Plus(ds[0].1), r, ds[1..]);
    }
  }

  lemma {:induction false} DispatchedMinus(n: Count, r: Request, ds: seq<(nat, Request)>)
    ensures WithDispatched(n.Minus(r), ds) == WithDispatched(n, ds).Minus(r)
    decreases |ds|
  {
    if ds != [] {
      assert n.Minus(r).Plus(ds[0].1) == n.Plus(ds[0].1).Minus(r);
      DispatchedMinus(n.Plus(ds[0].1), r, ds[1..]);
    }
  }

  lemma {:induction false} FinishedPlus(n: Count, r: Request, es: seq<Step>)
    ensures WithoutFinished(n.Plus(r), es) == WithoutFinished(n, es).Plus(r)
    decreases |es|
  {
    if es != [] {
      if es[0].Finish? {
        assert n.Plus(r).Minus(es[0].r) == n.Minus(es[0].r).Plus(r);
        FinishedPlus(n.Minus(es[0].r), r, es[1..]);
      } else {
        FinishedPlus(n, r, es[1..]);
      }
    }
  }

  /** Over any run, what is executing is what was, with what was dispatched and without what ended. */
  lemma {:induction false} CountersAreRight(s: State, cfg: Config, es: seq<Step>, t: State)
    requires cfg.Valid() && Run(s, cfg, es, t)
    ensures s.dispatched <= t.dispatched
    ensures Executing(t) == WithDispatched(WithoutFinished(Executing(s), es), NewlyDispatched(s, t))
    decreases |es|
  {
    if es != [] {
      var e, u := es[0], Next(s, cfg, es[0]);
      StepCounters(s, cfg, e);
      CountersAreRight(u, cfg, es[1..], t);
      var ds, all := NewlyDispatched(u, t), NewlyDispatched(s, t);
      assert all == NewlyDispatched(s, u) + ds;
      if e.Serve? {
        assert all[0] == (s.handles[0], NextRequest(s).0) && all[1..] == ds;
        FinishedPlus(Executing(s), NextRequest(s).0, es[1..]);
      }
    }
  }

  // ---- first come, first served ----

  /** The requests of class c among these. */
  ghost function OfClass(ds: seq<(nat, Request)>, c: nat): seq<Request> {
    if ds == [] then []
    else OfClass(ds[..|ds| - 1], c) + if ds[|ds| - 1].0 == c then [ds[|ds| - 1].1] else []
  }

  ghost function ArrivedFor(es: seq<Step>, c: nat): seq<Request> {
    if es == [] then []
    else (if es[0].Arrive? && es[0].c == c then [es[0].r] else []) + ArrivedFor(es[1..], c)
  }

  /** Everything that ever came for class c, in order. */
  ghost function History(s: State, c: nat): seq<Request>
    requires c < |s.queues|
  {
    OfClass(s.dispatched, c) + s.queues[c]
  }

  lemma AppendTwice(h: seq<Request>, a: seq<Request>, b: seq<Request>)
    ensures h + a + b == h + (a + b) && h + [] == h
  {
  }

  lemma OneMoreOfClass(ds: seq<(nat, Request)>, h: nat, r: Request, c: nat)
    ensures OfClass(ds + [(h, r)], c) == OfClass(ds, c) + if h == c then [r] else []
  {
    assert (ds + [(h, r)])[..|ds|] == ds;
  }

  /** A request goes from the front of its class's queue to the end of what was dispatched. */
  lemma ServeHistory(s: State, t: State, h: nat, c: nat)
    requires h < |s.queues| && c < |s.queues| && s.queues[h] != []
    requires t.queues == s.queues[h := s.queues[h][1..]] && t.dispatched == s.dispatched + [(h, s.queues[h][0])]
    ensures History(t, c) == History(s, c)
  {
    OneMoreOfClass(s.dispatched, h, s.queues[h][0], c);
    if h == c {
      assert s.queues[h] == [s.queues[h][0]] + s.queues[h][1..];
    }
  }

  lemma ArriveHistory(s: State, t: State, a: nat, r: Request, c: nat)
    requires a < |s.queues| && c < |s.queues|
    requires t.queues == s.queues[a := s.queues[a] + [r]] && t.dispatched == s.dispatched
    ensures History(t, c) == History(s, c) + if a == c then [r] else []
  {
  }

  lemma ArrivedOne(e: Step, c: nat)
    ensures ArrivedFor([e], c) == if e.Arrive? && e.c == c then [e.r] else []
  {
    assert [e][1..] == [];
  }

  lemma StepHistory(s: State, cfg: Config, e: Step, c: nat)
    requires cfg.Valid() && Ok(s) && Enabled(s, cfg, e) && c < |s.queues|
    ensures var t := Next(s, cfg, e);
            c < |t.queues| && History(t, c) == History(s, c) + ArrivedFor([e], c)
  {
    ArrivedOne(e, c);
    AppendTwice(History(s, c), [], []);
    match e {
      case Arrive(a, r) => ArriveHistory(s, Enqueue(s, a, r), a, r, c);
      case Serve(growth) =>
        DispatchTakesOldest(s, IdealCost(s, cfg, growth));
        ServeHistory(s, DispatchOne(s, IdealCost(s, cfg, growth)), s.handles[0], c);
      case _ =>
    }
  }

  lemma ArrivedFirst(es: seq<Step>, c: nat)
    requires es != []
    ensures ArrivedFor(es, c) == ArrivedFor([es[0]], c) + ArrivedFor(es[1..], c)
  {
    assert [es[0]][1..] == [];
  }

  /** No request is lost, and those of a class are dispatched in the order in which they came. */
  lemma {:induction false} FirstComeFirstServed(s: State, cfg: Config, es: seq<Step>, t: State, c: nat)
    requires cfg.Valid() && Run(s, cfg, es, t) && c < |s.queues|
    ensures c < |t.queues| && History(t, c) == History(s, c) + ArrivedFor(es, c)
    decreases |es|
  {
    if es == [] {
      AppendTwice(History(s, c), [], []);
    } else {
      StepHistory(s, cfg, es[0], c);
      FirstComeFirstServed(Next(s, cfg, es[0]), cfg, es[1..], t, c);
      ArrivedFirst(es, c);
      AppendTwice(History(s, c), ArrivedFor([es[0]], c), ArrivedFor(es[1..], c));
    }
  }

  // ---- fairness ----

  /** Class c has requests in every state of the run, and its shares stay what they are. */
  ghost predicate Backlogged(s: State, cfg: Config, es: seq<Step>, t: State, c: nat)
    requires cfg.Valid() && Run(s, cfg, es, t)
    decreases |es|
  {
    && c < |s.queues| && s.queues[c] != []
    && (es != [] ==>
          && !(es[0].Reshare? && es[0].c == c)
          && Backlogged(Next(s, cfg, es[0]), cfg, es[1..], t, c))
  }

  /** No dispatch of the run costs more than most. */
  ghost predicate CostsAtMost(s: State, cfg: Config, es: seq<Step>, t: State, most: real)
    requires cfg.Valid() && Run(s, cfg, es, t)
    decreases |es|
  {
    es != [] ==>
      && (es[0].Serve? ==> 0.0 <= IdealCost(s, cfg, es[0].growth) <= most)
      && CostsAtMost(Next(s, cfg, es[0]), cfg, es[1..], t, most)
  }

  /** The step dispatches a request of class c. */
  ghost predicate ServesClass(s: State, e: Step, c: nat) {
    e.Serve? && s.handles != [] && s.handles[0] == c
  }

  /** What a class has accumulated grows by the cost of its own requests when they are dispatched, and only then. */
  lemma StepAccumulates(s: State, cfg: Config, e: Step, c: nat)
    requires cfg.Valid() && Ok(s) && Enabled(s, cfg, e) && c < |s.queues|
    ensures var t := Next(s, cfg, e);
            && c < |t.queues| && c < |t.acc|
            && t.acc[c] == s.acc[c] + (if ServesClass(s, e, c) then IdealCost(s, cfg, e.growth) else 0.0)
            && (!(e.Reshare? && e.c == c) ==> t.shares[c] == s.shares[c])
  {
    match e
    case Serve(growth) => DispatchTakesOldest(s, IdealCost(s, cfg, growth));
    case _ =>
  }

  /** Of two classes with requests, the one that is served has accumulated no more than the other. */
  lemma {:induction false} AccumulatedStayClose(s: State, cfg: Config, es: seq<Step>, t: State, c: nat, d: nat,
        most: real)
    requires cfg.Valid() && Run(s, cfg, es, t) && c != d && most >= 0.0
    requires Backlogged(s, cfg, es, t, c) && Backlogged(s, cfg, es, t, d) && CostsAtMost(s, cfg, es, t, most)
    ensures c < |t.acc| && d < |t.acc|
    ensures t.acc[c] - t.acc[d] <= if s.acc[c] - s.acc[d] > most then s.acc[c] - s.acc[d] else most
    decreases |es|
  {
    if es != [] {
      StepCounters(s, cfg, es[0]);
      StepAccumulates(s, cfg, es[0], c);
      StepAccumulates(s, cfg, es[0], d);
      if es[0].Serve? {
        TopIsLeastOfAll(s);
      }
      AccumulatedStayClose(Next(s, cfg, es[0]), cfg, es[1..], t, c, d, most);
    }
  }

  /** The demand of the request of class c that the step dispatches, if it does, weighted with the growth with time. */
  ghost function Served(s: State, cfg: Config, e: Step, c: nat): real
    requires Ok(s)
  {
    if ServesClass(s, e, c) then e.growth * Demand(NextRequest(s).0, cfg) else 0.0
  }

  /** The demand of the requests of class c that are dispatched, weighted with the growth with time. */
  ghost function Service(s: State, cfg: Config, es: seq<Step>, t: State, c: nat): real
    requires cfg.Valid() && Run(s, cfg, es, t)
    decreases |es|
  {
    if es == [] then 0.0
    else Served(s, cfg, es[0], c) + Service(Next(s, cfg, es[0]), cfg, es[1..], t, c)
  }

  function InUnits(x: real, shares: nat, cfg: Config): real {
    x * shares as real * Limits(cfg)
  }

  /** v is x, times the shares and the limits. */
  ghost predicate AreUnits(v: real, x: real, shares: nat, cfg: Config) {
    v == InUnits(x, shares, cfg)
  }

  lemma UnitsAdd(v: real, w: real, x: real, y: real, z: real, shares: nat, cfg: Config)
    requires AreUnits(v, x, shares, cfg) && AreUnits(w, y, shares, cfg) && z == x + y
    ensures AreUnits(v + w, z, shares, cfg)
  {
    var u := shares as real * Limits(cfg);
    assert v == x * u && w == y * u && InUnits(z, shares, cfg) == z * u;
  }

  lemma NoUnits(x: real, shares: nat, cfg: Config)
    requires x == 0.0
    ensures AreUnits(0.0, x, shares, cfg)
  {
  }

  lemma CostInUnits(r: Request, shares: nat, cfg: Config, growth: real, x: real)
    requires cfg.Valid() && shares > 0 && x == growth * RequestCost(r, shares, cfg)
    ensures AreUnits(growth * Demand(r, cfg), x, shares, cfg)
  {
    CostIsDemand(r, shares, cfg);
    var cost := RequestCost(r, shares, cfg);
    assert (growth * cost) * shares as real * Limits(cfg) == growth * (cost * shares as real * Limits(cfg));
  }

  lemma StepServes(s: State, cfg: Config, e: Step, c: nat, grown: real)
    requires cfg.Valid() && Ok(s) && Enabled(s, cfg, e) && c < |s.queues|
    requires grown == if ServesClass(s, e, c) then IdealCost(s, cfg, e.growth) else 0.0
    ensures AreUnits(Served(s, cfg, e, c), grown, s.shares[c], cfg)
  {
    if ServesClass(s, e, c) {
      CostInUnits(NextRequest(s).0, s.shares[c], cfg, e.growth, grown);
    } else {
      NoUnits(grown, s.shares[c], cfg);
    }
  }

  /** The service of a class is what it accumulates, times its shares. */
  lemma {:induction false} ServiceIsAccumulated(s: State, cfg: Config, es: seq<Step>, t: State, c: nat)
      returns (grown: real)
    requires cfg.Valid() && Run(s, cfg, es, t) && Backlogged(s, cfg, es, t, c)
    ensures c < |t.acc| && grown == t.acc[c] - s.acc[c]
    ensures AreUnits(Service(s, cfg, es, t, c), grown, s.shares[c], cfg)
    decreases |es|
  {
    grown := 0.0;
    if es == [] {
      NoUnits(grown, s.shares[c], cfg);
    } else {
      var u, first := Next(s, cfg, es[0]), Next(s, cfg, es[0]).acc[c] - s.acc[c];
      StepAccumulates(s, cfg, es[0], c);
      StepServes(s, cfg, es[0], c, first);
      var rest := ServiceIsAccumulated(u, cfg, es[1..], t, c);
      grown := first + rest;
      UnitsAdd(Served(s, cfg, es[0], c), Service(u, cfg, es[1..], t, c), first, rest, grown, s.shares[c], cfg);
    }
  }

  function PerShare(x: real, shares: nat): real
    requires shares > 0
  {
    x / shares as real
  }

  lemma UnitsPerShare(x: real, shares: nat, cfg: Config)
    requires shares > 0
    ensures PerShare(InUnits(x, shares, cfg), shares) == x * Limits(cfg)
  {
    var k := shares as real;
    assert InUnits(x, shares, cfg) == (x * Limits(cfg)) * k;
  }

  lemma TimesLimits(x: real, y: real, z: real, cfg: Config)
    requires x - y <= z
    ensures x * Limits(cfg) - y * Limits(cfg) <= z * Limits(cfg)
  {
    var l, gap := Limits(cfg), z - (x - y);
    assert l >= 0.0;
    assert gap * l >= 0.0;
    assert z * l - (x * l - y * l) == gap * l;
  }

  /** How much more than most x can still get than y, when it is so far ahead. */
  function Lead(ahead: real, most: real): real {
    if ahead > most then 0.0 else most - ahead
  }

  /** A class with j shares that got x has got more, for its shares, than one with k that got y, by at most lead. */
  ghost predicate AheadAtMost(x: real, j: nat, y: real, k: nat, lead: real, cfg: Config)
    requires j > 0 && k > 0
  {
    PerShare(x, j) - PerShare(y, k) <= lead * Limits(cfg)
  }

  lemma ServedClose(v: real, x: real, j: nat, w: real, y: real, k: nat, cfg: Config, lead: real)
    requires j > 0 && k > 0 && AreUnits(v, x, j, cfg) && AreUnits(w, y, k, cfg) && x - y <= lead
    ensures AheadAtMost(v, j, w, k, lead, cfg)
  {
    UnitsPerShare(x, j, cfg);
    UnitsPerShare(y, k, cfg);
    TimesLimits(x, y, lead, cfg);
  }

  /**
   * Two classes that have requests throughout: of what is dispatched, measured by its demand and divided by
   * the shares, one gets more than the other by no more than one request costs at most, and less if it
   * was ahead at the beginning.
   */
  lemma FairlyServed(s: State, cfg: Config, es: seq<Step>, t: State, c: nat, d: nat, most: real)
    requires cfg.Valid() && Run(s, cfg, es, t) && c != d && most >= 0.0
    requires Backlogged(s, cfg, es, t, c) && Backlogged(s, cfg, es, t, d) && CostsAtMost(s, cfg, es, t, most)
    ensures AheadAtMost(Service(s, cfg, es, t, c), s.shares[c], Service(s, cfg, es, t, d), s.shares[d],
                        Lead(s.acc[c] - s.acc[d], most), cfg)
  {
    AccumulatedStayClose(s, cfg, es, t, c, d, most);
    var x := ServiceIsAccumulated(s, cfg, es, t, c);
    var y := ServiceIsAccumulated(s, cfg, es, t, d);
    var v, w := Service(s, cfg, es, t, c), Service(s, cfg, es, t, d);
    ServedClose(v, x, s.shares[c], w, y, s.shares[d], cfg, Lead(s.acc[c] - s.acc[d], most));
  }

  /** Two classes that start alike are served alike, but for one request at most. */
  lemma FairlyServedAlike(s: State, cfg: Config, es: seq<Step>, t: State, c: nat, d: nat, most: real)
    requires cfg.Valid() && Run(s, cfg, es, t) && c != d && most >= 0.0
    requires Backlogged(s, cfg, es, t, c) && Backlogged(s, cfg, es, t, d) && CostsAtMost(s, cfg, es, t, most)
    requires s.acc[c] == s.acc[d]
    ensures var x, y := Service(s, cfg, es, t, c), Service(s, cfg, es, t, d);
            && AheadAtMost(x, s.shares[c], y, s.shares[d], most, cfg)
            && AheadAtMost(y, s.shares[d], x, s.shares[c], most, cfg)
  {
    FairlyServed(s, cfg, es, t, c, d, most);
    FairlyServed(s, cfg, es, t, d, c, most);
  }
}
