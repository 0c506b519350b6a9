/**
 * The k-way merge of the metrics of all shards (core/prometheus.cc): every shard has a list of metric
 * families that is sorted by name, and an iterator with one position per shard goes through the union.
 */
module Prometheus {
  import opened Options
  import opened Sequences

  type Name = seq<Byte>

  // ---- the order of names ----

  /** sstring::compare(): the common part byte by byte, then the lengths. */
  function Compare(a: Name, b: Name): (r: int) {
    if a == [] && b == [] then 0
    else if a == [] then -1
    else if b == [] then 1
    else if a[0] != b[0] then (if a[0] < b[0] then -1 else 1)
    else Compare(a[1..], b[1..])
  }

  predicate Less(a: Name, b: Name) {
    Compare(a, b) < 0
  }

  predicate Le(a: Name, b: Name) {
    Compare(a, b) <= 0
  }

  lemma {:induction false} CompareIsTotal(a: Name, b: Name)
    ensures Compare(a, b) == 0 <==> a == b
    ensures Compare(b, a) == -Compare(a, b)
    decreases |a|
  {
    if a != [] && b != [] && a[0] == b[0] {
      CompareIsTotal(a[1..], b[1..]);
      assert a == [a[0]] + a[1..] && b == [b[0]] + b[1..];
    }
  }

  lemma {:induction false} CompareTransitive(a: Name, b: Name, c: Name)
    requires Le(a, b) && Le(b, c)
    ensures Le(a, c) && (Less(a, b) || Less(b, c) ==> Less(a, c))
    decreases |a|
  {
    if a != [] && b != [] && c != [] && a[0] == b[0] == c[0] {
      CompareTransitive(a[1..], b[1..], c[1..]);
    }
  }

  /** The least name after n. */
  function After(n: Name): Name {
    n + [0]
  }

  lemma {:induction false} AfterIsNext(n: Name, x: Name)
    ensures Le(After(n), x) <==> Less(n, x)
    decreases |n|
  {
    if n == [] {
      assert After(n)[1..] == [];
      assert x != [] ==> Compare([], x[1..]) <= 0;
    } else if x != [] {
      assert After(n)[1..] == After(n[1..]);
      AfterIsNext(n[1..], x[1..]);
    }
  }

  // ---- the data of the shards ----

  type Value = int
  type MetricId = nat

  datatype FamilyInfo = FamilyInfo(name: Name, description: string)
  datatype FamilyMetadata = FamilyMetadata(mf: FamilyInfo, metrics: seq<MetricId>)
  datatype Shard = Shard(metadata: seq<FamilyMetadata>, values: seq<seq<Value>>)

  function NameAt(shard: Shard, i: nat): Name
    requires i < |shard.metadata|
  {
    shard.metadata[i].mf.name
  }

  ghost predicate Sorted(shard: Shard) {
    forall i, j {:trigger NameAt(shard, i), NameAt(shard, j)} :: 0 <= i < j < |shard.metadata| ==>
      Less(NameAt(shard, i), NameAt(shard, j))
  }

  /** One value for every metric; the families come out of an ordered map. */
  ghost predicate GoodShard(shard: Shard) {
    && Sorted(shard) && |shard.values| == |shard.metadata|
    && (forall i {:trigger shard.values[i]} :: 0 <= i < |shard.metadata| ==>
      |shard.values[i]| == |shard.metadata[i].metrics|)
  }

  ghost predicate Good(families: seq<Shard>) {
    forall s {:trigger families[s]} :: 0 <= s < |families| ==> GoodShard(families[s])
  }

  /** Family i of shard s is called n. */
  ghost predicate At(families: seq<Shard>, s: nat, i: nat, n: Name) {
    s < |families| && i < |families[s].metadata| && NameAt(families[s], i) == n
  }

  /** One of the first k shards has a family called n. */
  ghost predicate Occurs(families: seq<Shard>, k: nat, n: Name) {
    exists s: nat, i: nat :: s < k && At(families, s, i, n)
  }

  /** The metrics with their values. */
  function Zip(values: seq<Value>, metrics: seq<MetricId>): (r: seq<(Value, MetricId)>)
    requires |values| == |metrics|
    ensures |r| == |values|
  {
    seq(|values|, i requires 0 <= i < |values| => (values[i], metrics[i]))
  }

  /** All metrics of the families called n among the first k of a shard. */
  ghost function MetricsOf(shard: Shard, n: Name, k: nat): seq<(Value, MetricId)>
    requires GoodShard(shard) && k <= |shard.metadata|
  {
    if k == 0 then [] else
      MetricsOf(shard, n, k - 1)
      + if NameAt(shard, k - 1) == n then Zip(shard.values[k - 1], shard.metadata[k - 1].metrics) else []
  }

  /** All metrics of the families called n on the first k shards. */
  ghost function AllMetrics(families: seq<Shard>, n: Name, k: nat): seq<(Value, MetricId)>
    requires Good(families) && k <= |families|
  {
    if k == 0 then [] else AllMetrics(families, n, k - 1) + MetricsOf(families[k - 1], n, |families[k - 1].metadata|)
  }

  /** What a family is said to be is what the first shard that has it says. */
  ghost predicate InfoIs(families: seq<Shard>, n: Name, info: FamilyInfo) {
    exists s: nat, i: nat :: At(families, s, i, n) && !Occurs(families, s, n) && families[s].metadata[i].mf == info
  }

  /** Position p is that of the first name in the shard that is at least from. */
  ghost predicate AtBound(shard: Shard, from: Name, p: nat) {
    && p <= |shard.metadata|
    && (forall i {:trigger NameAt(shard, i)} :: 0 <= i < p ==> Less(NameAt(shard, i), from))
    && (forall i {:trigger NameAt(shard, i)} :: p <= i < |shard.metadata| ==> Le(from, NameAt(shard, i)))
  }

  lemma {:induction false} NoMetrics(shard: Shard, n: Name, k: nat)
    requires GoodShard(shard) && k <= |shard.metadata|
    requires forall i {:trigger NameAt(shard, i)} :: 0 <= i < k ==> NameAt(shard, i) != n
    ensures MetricsOf(shard, n, k) == []
  {
    if k > 0 {
      NoMetrics(shard, n, k - 1);
    }
  }

  lemma {:induction false} OneFamily(shard: Shard, n: Name, p: nat, k: nat)
    requires GoodShard(shard) && p < k <= |shard.metadata| && NameAt(shard, p) == n
    requires forall i {:trigger NameAt(shard, i)} :: 0 <= i < k && i != p ==> NameAt(shard, i) != n
    ensures MetricsOf(shard, n, k) == Zip(shard.values[p], shard.metadata[p].metrics)
  {
    if p == k - 1 {
      NoMetrics(shard, n, k - 1);
    } else {
      OneFamily(shard, n, p, k - 1);
    }
  }

  /** In a sorted shard only the family at the bound can be the one called n, for an n that is not above it. */
  lemma OnlyHead(shard: Shard, from: Name, p: nat, n: Name)
    requires GoodShard(shard) && AtBound(shard, from, p) && Le(from, n)
             && (p < |shard.metadata| ==> Le(n, NameAt(shard, p)))
    ensures forall i {:trigger NameAt(shard, i)} :: 0 <= i < |shard.metadata| && i != p ==> NameAt(shard, i) != n
    ensures MetricsOf(shard, n, |shard.metadata|) ==
            if p < |shard.metadata|
              && NameAt(shard, p) == n then Zip(shard.values[p], shard.metadata[p].metrics) else []
  {
    forall i {:trigger NameAt(shard, i)} | 0 <= i < |shard.metadata| && i != p
      ensures NameAt(shard, i) != n
    {
      if i < p {
        CompareTransitive(NameAt(shard, i), from, n);
      } else {
        CompareTransitive(n, NameAt(shard, p), NameAt(shard, i));
      }
      CompareIsTotal(n, n);
    }
    if p < |shard.metadata| && NameAt(shard, p) == n {
      OneFamily(shard, n, p, |shard.metadata|);
    } else {
      NoMetrics(shard, n, |shard.metadata|);
    }
  }

  // ---- one pass over the shards ----

  /** The range of the 32-bit size of a family. */
  const SIZE_RANGE: nat := 0x1_0000_0000

  function Size32(n: nat): nat {
    n % SIZE_RANGE
  }

  lemma SizeAdds(a: nat, b: nat)
    ensures Size32(Size32(a) + b) == Size32(a + b)
  {
  }

  /** What an iterator shows; without a name it is at the end. */
  datatype MetricFamily = MetricFamily(name: Option<Name>, size: nat, info: Option<FamilyInfo>)

  const NO_FAMILY := MetricFamily(None, 0, None)

  /** A family with one shard more: the lesser name wins, equal names add up. */
  function Merged(m: MetricFamily, metadata: FamilyMetadata): MetricFamily {
    var cmp := if m.name == None then -1 else Compare(metadata.mf.name, m.name.value);
    if cmp < 0 then MetricFamily(Some(metadata.mf.name), Size32(|metadata.metrics|), Some(metadata.mf))
    else if cmp == 0 then m.(size := Size32(m.size + |metadata.metrics|))
    else m
  }

  /** The families at the positions in the first k shards, merged. */
  function Scan(families: seq<Shard>, positions: seq<nat>, k: nat): MetricFamily
    requires k <= |families| == |positions|
  {
    if k == 0 then NO_FAMILY
    else if positions[k - 1] >= |families[k - 1].metadata| then Scan(families, positions, k - 1)
    else Merged(Scan(families, positions, k - 1), families[k - 1].metadata[positions[k - 1]])
  }

  lemma {:induction false} ScanSame(families: seq<Shard>, p: seq<nat>, q: seq<nat>, k: nat)
    requires k <= |families| == |p| == |q| && forall s :: 0 <= s < k ==> p[s] == q[s]
    ensures Scan(families, p, k) == Scan(families, q, k)
  {
    if k > 0 {
      ScanSame(families, p, q, k - 1);
    }
  }

  ghost predicate AllAtBound(families: seq<Shard>, from: Name, positions: seq<nat>) {
    && |positions| == |families|
    && forall s {:trigger positions[s]} :: 0 <= s < |families| ==> AtBound(families[s], from, positions[s])
  }

  /** name is that of the least family from `from` on in the first k shards, if there is one. */
  ghost predicate LeastFrom(families: seq<Shard>, from: Name, k: nat, name: Option<Name>) {
    match name
    case None => forall x :: Occurs(families, k, x) ==> Less(x, from)
    case Some(n) => Occurs(families, k, n) && Le(from, n) && forall x :: Occurs(families, k, x) ==>
      Less(x, from) || Le(n, x)
  }

  /** m shows the least name from `from` on in the first k shards, with the number of all its metrics there. */
  ghost predicate Shows(families: seq<Shard>, from: Name, k: nat, m: MetricFamily)
    requires Good(families) && k <= |families|
  {
    && LeastFrom(families, from, k, m.name)
    && match m.name
       case None => m == NO_FAMILY
       case Some(n) =>
         && m.size == Size32(|AllMetrics(families, n, k)|) && m.info.Some?
         && InfoIs(families, n, m.info.value)
  }

  lemma {:induction false} NotThere(families: seq<Shard>, n: Name, k: nat)
    requires Good(families) && k <= |families| && !Occurs(families, k, n)
    ensures AllMetrics(families, n, k) == []
  {
    if k > 0 {
      assert forall s: nat, i: nat :: s < k - 1 && At(families, s, i, n) ==> s < k && At(families, s, i, n);
      NotThere(families, n, k - 1);
      assert forall i: nat {:trigger NameAt(families[k - 1], i)} ::
               i < |families[k - 1].metadata| && NameAt(families[k - 1], i) == n ==> At(families, k - 1, i, n);
      NoMetrics(families[k - 1], n, |families[k - 1].metadata|);
    }
  }

  /** A name of the first k shards is one of the first k - 1, or below `from`, or not below the head of the last one. */
  lemma LastShard(families: seq<Shard>, from: Name, p: nat, k: nat, x: Name)
    requires Good(families) && 0 < k <= |families| && AtBound(families[k - 1], from, p) && Occurs(families, k, x)
    ensures Occurs(families, k - 1, x) || Less(x, from)
            || (p < |families[k - 1].metadata| && Le(NameAt(families[k - 1], p), x))
  {
    var s: nat, i: nat :| s < k && At(families, s, i, x);
    if s < k - 1 {
      assert Occurs(families, k - 1, x);
    } else if i > p {
      assert Less(NameAt(families[s], p), NameAt(families[s], i));
    } else if i == p {
      CompareIsTotal(x, x);
    }
  }

  /** A pass over the shards ends with the least name from `from` on. */
  lemma {:induction false} ScanShows(families: seq<Shard>, from: Name, positions: seq<nat>, k: nat)
    requires Good(families) && AllAtBound(families, from, positions) && k <= |families|
    ensures Shows(families, from, k, Scan(families, positions, k))
  {
    if k > 0 {
      ScanShows(families, from, positions, k - 1);
      var shard, p, m := families[k - 1], positions[k - 1], Scan(families, positions, k - 1);
      if p >= |shard.metadata| {
        SkipShows(families, from, p, k, m);
      } else {
        MergeShows(families, from, p, k, m);
      }
    }
  }

  lemma OccursMore(families: seq<Shard>, k: nat, x: Name)
    requires k > 0
    ensures Occurs(families, k - 1, x) ==> Occurs(families, k, x)
  {
  }

  /** A shard whose names are all below, or a family above what is shown, does not matter. */
  lemma SkipLeast(families: seq<Shard>, from: Name, p: nat, k: nat, name: Option<Name>)
    requires Good(families) && 0 < k <= |families| && LeastFrom(families, from, k - 1, name)
             && AtBound(families[k - 1], from, p)
    requires p < |families[k - 1].metadata| ==> name.Some? && Le(name.value, NameAt(families[k - 1], p))
    ensures LeastFrom(families, from, k, name)
  {
    forall x | Occurs(families, k, x)
      ensures Less(x, from) || (name.Some? && Le(name.value, x))
    {
      LastShard(families, from, p, k, x);
      if p < |families[k - 1].metadata| && Le(NameAt(families[k - 1], p), x) {
        CompareTransitive(name.value, NameAt(families[k - 1], p), x);
      }
    }
    if name.Some? {
      OccursMore(families, k, name.value);
    }
  }

  lemma SkipShows(families: seq<Shard>, from: Name, p: nat, k: nat, m: MetricFamily)
    requires Good(families) && 0 < k <= |families| && Shows(families, from, k - 1, m)
             && AtBound(families[k - 1], from, p)
    requires p < |families[k - 1].metadata| ==> m.name.Some? && Less(m.name.value, NameAt(families[k - 1], p))
    ensures Shows(families, from, k, m)
  {
    SkipLeast(families, from, p, k, m.name);
    if m.name.Some? {
      OnlyHead(families[k - 1], from, p, m.name.value);
      if p < |families[k - 1].metadata| {
        CompareIsTotal(m.name.value, NameAt(families[k - 1], p));
      }
    }
  }

  lemma MergeShows(families: seq<Shard>, from: Name, p: nat, k: nat, m: MetricFamily)
    requires Good(families) && 0 < k <= |families| && Shows(families, from, k - 1, m)
    requires AtBound(families[k - 1], from, p) && p < |families[k - 1].metadata|
    ensures Shows(families, from, k, Merged(m, families[k - 1].metadata[p]))
  {
    var h := NameAt(families[k - 1], p);
    if m.name == None || Compare(h, m.name.value) < 0 {
      NewLeast(families, from, p, k, m.name);
      OnlyHead(families[k - 1], from, p, h);
    } else {
      CompareIsTotal(h, m.name.value);
      if h == m.name.value {
        SkipLeast(families, from, p, k, m.name);
        OnlyHead(families[k - 1], from, p, h);
        SizeAdds(|AllMetrics(families, h, k - 1)|, |families[k - 1].metadata[p].metrics|);
      } else {
        SkipShows(families, from, p, k, m);
      }
    }
  }

  /** A name that is less than the least one so far is the new least one, and on none of the shards before. */
  lemma NewLeast(families: seq<Shard>, from: Name, p: nat, k: nat, name: Option<Name>)
    requires Good(families) && 0 < k <= |families| && LeastFrom(families, from, k - 1, name)
    requires AtBound(families[k - 1], from, p) && p < |families[k - 1].metadata|
    requires name.Some? ==> Less(NameAt(families[k - 1], p), name.value)
    ensures var h := NameAt(families[k - 1], p);
            && LeastFrom(families, from, k, Some(h)) && AllMetrics(families, h, k - 1) == []
            && InfoIs(families, h, families[k - 1].metadata[p].mf) && Le(h, h)
  {
    var h := NameAt(families[k - 1], p);
    assert At(families, k - 1, p, h);
    CompareIsTotal(h, h);
    forall x | Occurs(families, k - 1, x)
      ensures x != h && (Less(x, from) || Le(h, x))
    {
      if Less(x, from) {
        CompareTransitive(x, from, h);
      } else {
        CompareTransitive(h, name.value, x);
      }
    }
    forall x | Occurs(families, k, x)
      ensures Less(x, from) || Le(h, x)
    {
      LastShard(families, from, p, k, x);
    }
    NotThere(families, h, k - 1);
  }

  // ---- one step ----

  /** A position, after the family called name was shown. */
  function Advanced(shard: Shard, p: nat, name: Option<Name>): nat {
    if name.Some? && p < |shard.metadata| && Compare(NameAt(shard, p), name.value) <= 0 then p + 1 else p
  }

  ghost predicate AllAdvanced(families: seq<Shard>, was: seq<nat>, now: seq<nat>, name: Option<Name>) {
    |was| == |now| == |families| && forall s {:trigger now[s]} :: 0 <= s < |now| ==>
      now[s] == Advanced(families[s], was[s], name)
  }

  lemma HeadIsNotBelow(families: seq<Shard>, from: Name, n: Name, s: nat, p: nat)
    requires LeastFrom(families, from, |families|, Some(n)) && s < |families| && AtBound(families[s], from, p)
    ensures p < |families[s].metadata| ==> Le(n, NameAt(families[s], p))
  {
    if p < |families[s].metadata| {
      var h := NameAt(families[s], p);
      assert At(families, s, p, h);
      CompareIsTotal(from, h);
    }
  }

  /** A shard that is at its head goes past it, the others stay: all are at the bound of the next name. */
  lemma StepBound(families: seq<Shard>, from: Name, n: Name, was: seq<nat>, now: seq<nat>)
    requires Good(families) && AllAtBound(families, from, was) && LeastFrom(families, from, |families|, Some(n))
    requires AllAdvanced(families, was, now, Some(n))
    ensures AllAtBound(families, After(n), now)
  {
    forall s {:trigger now[s]} | 0 <= s < |families|
      ensures AtBound(families[s], After(n), now[s])
    {
      assert AtBound(families[s], from, was[s]);
      HeadIsNotBelow(families, from, n, s, was[s]);
      ShardStep(families[s], from, n, was[s]);
    }
  }

  lemma ShardStep(shard: Shard, from: Name, n: Name, p: nat)
    requires GoodShard(shard) && AtBound(shard, from, p) && Le(from, n)
             && (p < |shard.metadata| ==> Le(n, NameAt(shard, p)))
    ensures AtBound(shard, After(n), Advanced(shard, p, Some(n)))
  {
    forall i {:trigger NameAt(shard, i)} | 0 <= i < |shard.metadata|
      ensures if i < Advanced(shard, p, Some(n)) then Less(NameAt(shard, i), After(n))
              else Le(After(n), NameAt(shard, i))
    {
      var x := NameAt(shard, i);
      AfterIsNext(n, x);
      CompareIsTotal(After(n), x);
      CompareIsTotal(n, x);
      if i < p {
        CompareTransitive(x, from, n);
      } else if i > p {
        CompareTransitive(n, NameAt(shard, p), x);
      } else {
        CompareIsTotal(x, n);
      }
    }
  }

  /** What is ahead after a step: all that was, but the name that was shown. */
  lemma StepNames(families: seq<Shard>, from: Name, n: Name, x: Name)
    requires LeastFrom(families, from, |families|, Some(n)) && Occurs(families, |families|, x)
    ensures Le(After(n), x) <==> (Le(from, x) && x != n)
  {
    AfterIsNext(n, x);
    CompareIsTotal(n, x);
    CompareIsTotal(from, x);
    if Less(n, x) {
      CompareTransitive(from, n, x);
    }
  }

  /** How many families are ahead, counted on every shard. */
  ghost function Left(families: seq<Shard>, positions: seq<nat>, k: nat): int
    requires k <= |families| == |positions|
  {
    if k == 0 then 0 else Left(families, positions, k - 1) + |families[k - 1].metadata| - positions[k - 1]
  }

  lemma {:induction false} LeftLess(families: seq<Shard>, was: seq<nat>, now: seq<nat>, name: Option<Name>, k: nat)
    requires k <= |families| && AllAdvanced(families, was, now, name)
    ensures Left(families, now, k) <= Left(families, was, k)
    ensures (exists s {:trigger now[s]} :: 0 <= s < k && now[s] > was[s]) ==>
            Left(families, now, k) < Left(families, was, k)
  {
    if k > 0 {
      LeftLess(families, was, now, name, k - 1);
      assert now[k - 1] == Advanced(families[k - 1], was[k - 1], name);
    }
  }

  lemma {:induction false} LeftNatural(families: seq<Shard>, from: Name, positions: seq<nat>, k: nat)
    requires k <= |families| && AllAtBound(families, from, positions)
    ensures Left(families, positions, k) >= 0
  {
    if k > 0 {
      LeftNatural(families, from, positions, k - 1);
      assert AtBound(families[k - 1], from, positions[k - 1]);
    }
  }

  lemma StepMoves(families: seq<Shard>, from: Name, n: Name, was: seq<nat>, now: seq<nat>)
    requires Good(families) && AllAtBound(families, from, was) && LeastFrom(families, from, |families|, Some(n))
    requires AllAdvanced(families, was, now, Some(n))
    ensures Left(families, now, |families|) < Left(families, was, |families|)
  {
    var s: nat, i: nat :| s < |families| && At(families, s, i, n);
    var p := was[s];
    assert AtBound(families[s], from, p);
    HeadIsNotBelow(families, from, n, s, p);
    CompareIsTotal(n, n);
    CompareIsTotal(from, n);
    assert now[s] == p + 1;
    LeftLess(families, was, now, Some(n), |families|);
  }

  // ---- ranges ----

  /** The names from `from` on and before the name of the second iterator, if it has one. */
  ghost predicate Between(from: Name, end: Option<Name>, n: Name) {
    Le(from, n) && (end.Some? ==> Less(n, end.value))
  }

  /** Steps from an iterator that shows first get to one that shows last. */
  ghost predicate Reaches(first: Option<Name>, last: Option<Name>) {
    last == None || (first.Some? && Le(first.value, last.value))
  }

  /** Once an iterator is past the end of a range, so it is forever: it never equals the end. */
  lemma PastForever(families: seq<Shard>, from: Name, first: Option<Name>, next: Option<Name>, last: Option<Name>)
    requires !Reaches(first, last) && LeastFrom(families, from, |families|, first)
    requires LeastFrom(families, if first.Some? then After(first.value) else from, |families|, next)
    ensures first != last && !Reaches(next, last)
  {
    if first.Some? {
      CompareIsTotal(first.value, last.value);
      if next.Some? {
        AfterIsNext(first.value, next.value);
        CompareIsTotal(last.value, next.value);
        CompareTransitive(last.value, first.value, next.value);
      }
    } else if next.Some? {
      CompareIsTotal(from, next.value);
    }
  }

  /** The last byte is one more, where 255 becomes 0. */
  function Bumped(p: Name): Name
    requires p != []
  {
    p[..|p| - 1] + [(p[|p| - 1] as int + 1) % 256]
  }

  lemma {:induction false} PrefixIsInterval(p: Name, n: Name)
    requires p != [] && p[|p| - 1] != 255
    ensures p <= n <==> Le(p, n) && Less(n, Bumped(p))
    decreases |p|
  {
    if |p| == 1 {
      if n != [] {
        assert Compare([], n[1..]) <= 0 && Compare(n[1..], []) >= 0;
        assert Bumped(p)[1..] == [] && p[1..] == [];
      }
    } else if n != [] {
      assert Bumped(p)[1..] == Bumped(p[1..]);
      PrefixIsInterval(p[1..], n[1..]);
      assert p == [p[0]] + p[1..] && n == [n[0]] + n[1..];
    }
  }

  /** The names a request for name is for: all if it is empty, with prefix those that start with it, else it. */
  ghost predicate Wanted(name: Name, prefix: bool, n: Name) {
    if prefix then name <= n else name == [] || n == name
  }

  /** From `first` on the iterator goes through exactly the wanted names, and gets to the end. */
  ghost predicate RangeIsRight(families: seq<Shard>, name: Name, prefix: bool, from: Name, first: Option<Name>,
        last: Option<Name>) {
    && Reaches(first, last)
    && forall n :: Occurs(families, |families|, n) ==> (Between(from, last, n) <==> Wanted(name, prefix, n))
  }

  /** No name starts with p, and none is between the wrapped end of the range and p. */
  ghost predicate NothingNear(families: seq<Shard>, p: Name)
    requires p != []
  {
    forall n :: Occurs(families, |families|, n) ==> !(p <= n) && !(Le(Bumped(p), n) && Less(n, p))
  }

  /** Before the least name from `bound` on there is nothing from `bound` on. */
  lemma BeforeLeast(families: seq<Shard>, bound: Name, last: Option<Name>, n: Name)
    requires LeastFrom(families, bound, |families|, last) && Occurs(families, |families|, n)
    ensures (last.Some? ==> Less(n, last.value)) <==> Less(n, bound)
  {
    if last.Some? {
      CompareIsTotal(last.value, n);
      if Less(n, bound) {
        CompareTransitive(n, bound, last.value);
      }
    }
  }

  lemma PrefixRangeIsRight(families: seq<Shard>, p: Name, first: Option<Name>, last: Option<Name>)
    requires p != [] && p[|p| - 1] != 255
    requires LeastFrom(families, p, |families|, first) && LeastFrom(families, Bumped(p), |families|, last)
    ensures RangeIsRight(families, p, true, p, first, last)
  {
    forall n | Occurs(families, |families|, n)
      ensures Between(p, last, n) <==> p <= n
    {
      BeforeLeast(families, Bumped(p), last, n);
      PrefixIsInterval(p, n);
    }
    if last.Some? {
      PrefixIsInterval(p, p);
      CompareTransitive(p, Bumped(p), last.value);
      BeforeLeast(families, p, first, last.value);
      CompareIsTotal(p, last.value);
      if first.Some? {
        CompareIsTotal(first.value, last.value);
      }
    }
  }

  lemma {:induction false} WrappedIsLess(p: Name)
    requires p != [] && p[|p| - 1] == 255
    ensures Less(Bumped(p), p)
    decreases |p|
  {
    if |p| > 1 {
      assert Bumped(p)[1..] == Bumped(p[1..]);
      WrappedIsLess(p[1..]);
    }
  }

  lemma NothingBetween(families: seq<Shard>, p: Name, last: Option<Name>, n: Name)
    requires p != [] && Less(Bumped(p), p)
    requires LeastFrom(families, Bumped(p), |families|, last) && Occurs(families, |families|, n)
    ensures !Between(p, last, n)
  {
    BeforeLeast(families, Bumped(p), last, n);
    CompareIsTotal(n, p);
    if Less(n, Bumped(p)) {
      CompareTransitive(n, Bumped(p), p);
    }
  }

  /** A name before p puts the end of the range before its start. */
  lemma EndBeforeStart(families: seq<Shard>, p: Name, first: Option<Name>, last: Option<Name>, n: Name)
    requires p != [] && LeastFrom(families, p, |families|, first) && LeastFrom(families, Bumped(p), |families|, last)
    requires Occurs(families, |families|, n)
    ensures Le(Bumped(p), n) && Less(n, p) ==> !Reaches(first, last)
  {
    BeforeLeast(families, Bumped(p), last, n);
    CompareIsTotal(Bumped(p), n);
    if last.Some? && first.Some? {
      CompareIsTotal(n, last.value);
      CompareIsTotal(last.value, p);
      CompareIsTotal(first.value, last.value);
      if Less(n, p) && Le(last.value, n) {
        CompareTransitive(last.value, n, p);
        CompareTransitive(last.value, p, first.value);
      }
    }
  }

  /** A prefix that ends in the byte 255 is looked up with an end before its start. */
  lemma WrappedRange(families: seq<Shard>, p: Name, first: Option<Name>, last: Option<Name>)
    requires p != [] && p[|p| - 1] == 255
    requires LeastFrom(families, p, |families|, first) && LeastFrom(families, Bumped(p), |families|, last)
    ensures RangeIsRight(families, p, true, p, first, last) <==> NothingNear(families, p)
  {
    WrappedIsLess(p);
    forall n | Occurs(families, |families|, n)
      ensures !Between(p, last, n)
      ensures Reaches(first, last) ==> !(Le(Bumped(p), n) && Less(n, p))
    {
      NothingBetween(families, p, last, n);
      EndBeforeStart(families, p, first, last, n);
    }
    if NothingNear(families, p) && last.Some? {
      CompareIsTotal(last.value, p);
      BeforeLeast(families, p, first, last.value);
      if first.Some? {
        CompareIsTotal(first.value, last.value);
      }
    }
  }

  /** The byte 255, an underscore and an x: a name as it is made of a group and a metric. */
  const LATE_NAME: Name := [255, 95, 120]

  /** An input of the last lemma: a family has the prefix, and is not found. */
  lemma WrappedRangeMissesName()
    ensures var families := [Shard([FamilyMetadata(FamilyInfo(LATE_NAME, ""), [1])], [[7]])];
            && Good(families) && Occurs(families, |families|, LATE_NAME) && Wanted([255], true, LATE_NAME)
            && forall first, last ::
                 LeastFrom(families, [255], |families|, first) && LeastFrom(families, Bumped([255]), |families|, last)
                 ==> !Between([255], last, LATE_NAME) && !RangeIsRight(families, [255], true, [255], first, last)
  {
    var families := [Shard([FamilyMetadata(FamilyInfo(LATE_NAME, ""), [1])], [[7]])];
    assert At(families, 0, 0, LATE_NAME);
    forall first, last | LeastFrom(families, [255], |families|, first)
      && LeastFrom(families, Bumped([255]), |families|, last)
      ensures !Between([255], last, LATE_NAME) && !RangeIsRight(families, [255], true, [255], first, last)
    {
      WrappedIsLess([255]);
      NothingBetween(families, [255], last, LATE_NAME);
    }
  }

  // ---- the iterator ----

  /** One family of the output, and the metrics the function given to foreach_metric() was called with. */
  datatype Entry = Entry(family: MetricFamily, metrics: seq<(Value, MetricId)>)

  class MetricFamilyIterator {
    const families: seq<Shard>
    var positions: seq<nat>
    var info: MetricFamily
    /** The names ahead are those from this one on. */
    ghost var from: Name

    ghost predicate Placed()
      reads this
    {
      Good(families) && (positions == [] || AllAtBound(families, from, positions))
    }

    ghost predicate Valid()
      reads this
    {
      Placed() && info == Shown()
    }

    /** It has a position on every shard. */
    ghost predicate Full()
      reads this
    {
      Valid() && |positions| == |families|
    }

    /** What the positions show. */
    function Shown(): MetricFamily
      requires positions == [] || |positions| == |families|
      reads this
    {
      if positions == [] then NO_FAMILY else Scan(families, positions, |families|)
    }

    predicate End()
      reads this
    {
      positions == [] || info.name == None
    }

    /** The position on shard s goes past the name shown. */
    method Advance(s: nat)
      requires s < |positions| == |families|
      modifies `positions
      ensures positions == old(positions)[s := Advanced(families[s], old(positions)[s], info.name)]
      ensures Scan(families, positions, s) == Scan(families, old(positions), s)
    {
      if info.name.Some? && positions[s] < |families[s].metadata|
         && Compare(NameAt(families[s], positions[s]), info.name.value) <= 0 {
        positions := positions[s := positions[s] + 1];
      }
      ScanSame(families, old(positions), positions, s);
    }

    /** The loop over the shards: each is advanced past the name shown, and the least name of all is found. */
    method Pass() returns (newName: Option<Name>, newInfo: Option<FamilyInfo>)
      requires |positions| == |families|
      modifies `positions, `info
      ensures AllAdvanced(families, old(positions), positions, info.name) && info.name == old(info.name)
      ensures MetricFamily(newName, info.size, newInfo) == Scan(families, positions, |families|)
    {
      ghost var was := positions;
      newName, newInfo := None, None;
      info := info.(size := 0);
      for s := 0 to |positions|
        invariant |positions| == |families| && info.name == old(info.name)
        invariant forall t {:trigger positions[t]} :: 0 <= t < |positions| ==>
                  positions[t] == if t < s then Advanced(families[t], was[t], info.name) else was[t]
        invariant MetricFamily(newName, info.size, newInfo) == Scan(families, positions, s)
      {
        Advance(s);
        if positions[s] < |families[s].metadata| {
          var metadata := families[s].metadata[positions[s]];
          var cmp := if newName == None then -1 else Compare(metadata.mf.name, newName.value);
          if cmp < 0 {
            newName, newInfo := Some(metadata.mf.name), Some(metadata.mf);
            info := info.(size := 0);
          }
          if cmp <= 0 {
            info := info.(size := Size32(info.size + |metadata.metrics|));
          }
        }
      }
    }

    /** next(), also for a new iterator that shows nothing yet. */
    method Next()
      requires Placed() && (info == NO_FAMILY || Valid())
      modifies `positions, `info, `from
      ensures Valid() && |positions| == |old(positions)|
      ensures from == if old(info).name.Some? then After(old(info).name.value) else old(from)
      ensures old(info).name == None ==> positions == old(positions)
      ensures old(info).name.Some? ==>
              |positions| == |families|
                && Left(families, positions, |families|) < Left(families, old(positions), |families|)
    {
      if positions == [] {
        return;
      }
      ghost var was, shown := positions, info.name;
      var newName, newInfo := Pass();
      info := MetricFamily(newName, info.size, newInfo);
      Stepped(families, from, was, positions, shown);
      if shown.Some? {
        from := After(shown.value);
      }
    }

    /** An iterator over all families, or with no shards the one at the end. */
    constructor (families: seq<Shard>, shards: nat)
      requires Good(families) && (shards == 0 || shards == |families|)
      ensures Valid() && fresh(this) && this.families == families && |positions| == shards && from == []
    {
      this.families := families;
      positions := seq(shards, _ => 0);
      info := NO_FAMILY;
      from := [];
      new;
      Next();
    }

    /** An iterator at given positions. */
    constructor AtPositions(families: seq<Shard>, positions: seq<nat>, ghost from: Name)
      requires Good(families) && AllAtBound(families, from, positions)
      ensures Full() && fresh(this) && this.families == families && this.positions == positions && this.from == from
    {
      this.families := families;
      this.positions := positions;
      info := NO_FAMILY;
      this.from := from;
      new;
      Next();
    }

    /** The copy, and the move: what is shown is not copied but found again. */
    constructor Copy(o: MetricFamilyIterator)
      requires o.Valid()
      ensures Valid() && fresh(this) && families == o.families && positions == o.positions && from == o.from
              && info == o.info
    {
      families := o.families;
      positions := o.positions;
      info := NO_FAMILY;
      from := o.from;
      new;
      Next();
    }

    /** The postfix ++: a copy of the iterator as it was is returned. */
    method PostIncrement() returns (previous: MetricFamilyIterator)
      requires Valid()
      modifies `positions, `info, `from
      ensures Valid() && |positions| == |old(positions)|
      ensures from == if old(info).name.Some? then After(old(info).name.value) else old(from)
      ensures previous.Valid() && fresh(previous) && previous.families == families
      ensures previous.positions == old(positions) && previous.from == old(from) && previous.info == old(info)
    {
      previous := new MetricFamilyIterator.Copy(this);
      Next();
    }

    /** operator==. */
    predicate Equals(o: MetricFamilyIterator)
      reads this, o
    {
      if End() then o.End()
      else if o.End() then false
      else info.name == o.info.name
    }

    /** The metrics of the family shown that shard s has: those at its position, if it is that family there. */
    method MetricsOnShard(s: nat) returns (visited: seq<(Value, MetricId)>)
      requires Full() && info.name.Some? && s < |families|
      ensures visited == MetricsOf(families[s], info.name.value, |families[s].metadata|)
    {
      ghost var n := info.name.value;
      ScanShows(families, from, positions, |families|);
      HeadIsNotBelow(families, from, n, s, positions[s]);
      OnlyHead(families[s], from, positions[s], n);
      visited := [];
      if positions[s] < |families[s].metadata| {
        var metadata := families[s].metadata[positions[s]];
        if metadata.mf.name == info.name.value {
          visited := Zip(families[s].values[positions[s]], metadata.metrics);
        }
      }
    }

    /** foreach_metric(): the metrics the function is called with. */
    method ForeachMetric() returns (visited: seq<(Value, MetricId)>)
      requires Full() && info.name.Some?
      ensures visited == AllMetrics(families, info.name.value, |families|)
    {
      visited := [];
      for s := 0 to |positions|
        invariant visited == AllMetrics(families, info.name.value, s)
      {
        var found := MetricsOnShard(s);
        visited := visited + found;
      }
    }
  }

  /** All shards were advanced past the family that was shown, if there was one. */
  lemma Stepped(families: seq<Shard>, from: Name, was: seq<nat>, now: seq<nat>, shown: Option<Name>)
    requires Good(families) && AllAtBound(families, from, was) && AllAdvanced(families, was, now, shown)
    requires shown.Some? ==> shown == Scan(families, was, |families|).name
    ensures AllAtBound(families, if shown.Some? then After(shown.value) else from, now)
    ensures if shown.Some? then Left(families, now, |families|) < Left(families, was, |families|) else now == was
  {
    if shown.Some? {
      ScanShows(families, from, was, |families|);
      StepBound(families, from, shown.value, was, now);
      StepMoves(families, from, shown.value, was, now);
    } else {
      assert forall s {:trigger now[s]} :: 0 <= s < |now| ==> now[s] == was[s];
    }
  }

  /** boost::range::upper_bound() with the comparison of lower_bound() or, if strict, of upper_bound(). */
  method UpperBound(shard: Shard, name: Name, strict: bool) returns (p: nat)
    requires GoodShard(shard)
    ensures AtBound(shard, if strict then After(name) else name, p)
  {
    ghost var bound := if strict then After(name) else name;
    var high: nat;
    p, high := 0, |shard.metadata|;
    while p < high
      invariant p <= high <= |shard.metadata|
      invariant forall i {:trigger NameAt(shard, i)} :: 0 <= i < p ==> Less(NameAt(shard, i), bound)
      invariant forall i {:trigger NameAt(shard, i)} :: high <= i < |shard.metadata| ==> Le(bound, NameAt(shard, i))
    {
      var mid := (p + high) / 2;
      var x := NameAt(shard, mid);
      var above := Less(name, x) || (!strict && name == x);
      AboveIsBound(shard, name, strict, mid);
      if above {
        high := mid;
      } else {
        p := mid + 1;
      }
    }
  }

  /** The comparison tells on which side of the bound a name is, and all that is beyond it. */
  lemma AboveIsBound(shard: Shard, name: Name, strict: bool, mid: nat)
    requires GoodShard(shard) && mid < |shard.metadata|
    ensures var bound := if strict then After(name) else name;
            if Less(name, NameAt(shard, mid)) || (!strict && name == NameAt(shard, mid))
            then forall i {:trigger NameAt(shard, i)} :: mid <= i < |shard.metadata| ==> Le(bound, NameAt(shard, i))
            else forall i {:trigger NameAt(shard, i)} :: 0 <= i <= mid ==> Less(NameAt(shard, i), bound)
  {
    var bound, x := if strict then After(name) else name, NameAt(shard, mid);
    AfterIsNext(name, x);
    CompareIsTotal(name, x);
    CompareIsTotal(bound, x);
    forall i {:trigger NameAt(shard, i)} | 0 <= i < |shard.metadata|
      ensures mid <= i && Le(bound, x) ==> Le(bound, NameAt(shard, i))
      ensures i <= mid && Less(x, bound) ==> Less(NameAt(shard, i), bound)
    {
      if mid < i && Le(bound, x) {
        CompareTransitive(bound, x, NameAt(shard, i));
      } else if i < mid && Less(x, bound) {
        CompareTransitive(NameAt(shard, i), x, bound);
      }
    }
  }

  /** find_bound(): lower_bound(), or upper_bound() if strict. */
  method FindBound(families: seq<Shard>, name: Name, strict: bool) returns (it: MetricFamilyIterator)
    requires Good(families)
    ensures fresh(it) && it.Full() && it.families == families && it.from == if strict then After(name) else name
  {
    ghost var from := if strict then After(name) else name;
    var positions := [];
    for s := 0 to |families|
      invariant |positions| == s
      invariant forall t {:trigger positions[t]} :: 0 <= t < s ==> AtBound(families[t], from, positions[t])
    {
      var p := UpperBound(families[s], name, strict);
      positions := positions + [p];
    }
    it := new MetricFamilyIterator.AtPositions(families, positions, from);
  }

  /** get_range(). */
  method GetRange(families: seq<Shard>, name: Name, prefix: bool)
        returns (first: MetricFamilyIterator, last: MetricFamilyIterator)
    requires Good(families)
    ensures fresh(first) && fresh(last) && first.Full() && last.Valid() && first.families == last.families == families
    ensures RangeIsRight(families, name, prefix, first.from, first.info.name, last.info.name)
            <==> (prefix && name != [] && name[|name| - 1] == 255 ==> NothingNear(families, name))
  {
    if name == [] {
      first := new MetricFamilyIterator(families, |families|);
      last := new MetricFamilyIterator(families, 0);
    } else if prefix {
      first := FindBound(families, name, false);
      last := FindBound(families, Bumped(name), false);
      ScanShows(families, first.from, first.positions, |families|);
      ScanShows(families, last.from, last.positions, |families|);
      if name[|name| - 1] == 255 {
        WrappedRange(families, name, first.info.name, last.info.name);
      } else {
        PrefixRangeIsRight(families, name, first.info.name, last.info.name);
      }
    } else {
      first := FindBound(families, name, false);
      ScanShows(families, name, first.positions, |families|);
      last := new MetricFamilyIterator.Copy(first);
      if first.End() || first.info.name != Some(name) {
        NoSuchName(families, name, first.info.name);
      } else {
        last.Next();
        ScanShows(families, last.from, last.positions, |families|);
        OneName(families, name, last.info.name);
      }
    }
  }

  lemma NoSuchName(families: seq<Shard>, name: Name, first: Option<Name>)
    requires name != [] && LeastFrom(families, name, |families|, first) && first != Some(name)
    ensures RangeIsRight(families, name, false, name, first, first)
  {
    CompareIsTotal(name, name);
    if first.Some? {
      CompareIsTotal(first.value, first.value);
      CompareIsTotal(first.value, name);
    }
    forall n | Occurs(families, |families|, n)
      ensures !Between(name, first, n) && n != name
    {
      BeforeLeast(families, name, first, n);
      CompareIsTotal(name, n);
    }
  }

  lemma OneName(families: seq<Shard>, name: Name, last: Option<Name>)
    requires name != [] && LeastFrom(families, name, |families|, Some(name))
             && LeastFrom(families, After(name), |families|, last)
    ensures RangeIsRight(families, name, false, name, Some(name), last)
  {
    forall n | Occurs(families, |families|, n)
      ensures Between(name, last, n) <==> n == name
    {
      BeforeLeast(families, After(name), last, n);
      StepNames(families, name, name, n);
      CompareIsTotal(After(name), n);
      CompareIsTotal(name, n);
    }
    if last.Some? {
      AfterIsNext(name, last.value);
    }
  }

  // ---- going through a range ----

  ghost predicate Named(entries: seq<Entry>, n: Name) {
    exists i :: 0 <= i < |entries| && entries[i].family.name == Some(n)
  }

  /** An entry has all metrics of its family, of all shards in order, and their number. */
  ghost predicate GoodEntry(families: seq<Shard>, e: Entry)
    requires Good(families)
  {
    && e.family.name.Some? && e.metrics == AllMetrics(families, e.family.name.value, |families|)
    && e.family.size == Size32(|e.metrics|)
    && e.family.info.Some? && InfoIs(families, e.family.name.value, e.family.info.value)
  }

  /** The entries have increasing names, so every name once. */
  ghost predicate Increasing(entries: seq<Entry>) {
    forall i, j {:trigger entries[i], entries[j]} :: 0 <= i < j < |entries| ==>
      entries[i].family.name.Some? && entries[j].family.name.Some?
        && Less(entries[i].family.name.value, entries[j].family.name.value)
  }

  /** The entries are good and increasing, and those of the names from `start` on, before `last` and before `from`. */
  ghost predicate Listed(families: seq<Shard>, entries: seq<Entry>, start: Name, from: Name, last: Option<Name>)
    requires Good(families)
  {
    && (forall i {:trigger entries[i]} :: 0 <= i < |entries| ==>
          GoodEntry(families, entries[i]) && Less(entries[i].family.name.value, from)
            && Occurs(families, |families|, entries[i].family.name.value))
    && Increasing(entries)
    && forall x :: Occurs(families, |families|, x) ==> (Named(entries, x) <==> Between(start, last, x) && Less(x, from))
  }

  /** What one round of the loop does to a name. */
  lemma WalkName(families: seq<Shard>, start: Name, from: Name, n: Name, last: Option<Name>, x: Name)
    requires LeastFrom(families, from, |families|, Some(n)) && Le(start, from) && (last.Some? ==> Less(n, last.value))
    requires Occurs(families, |families|, x)
    ensures Between(start, last, x) && Less(x, After(n)) <==> (Between(start, last, x) && Less(x, from)) || x == n
    ensures Less(x, from) ==> Less(x, n) && Less(x, After(n))
  {
    StepNames(families, from, n, x);
    CompareIsTotal(After(n), x);
    CompareIsTotal(from, x);
    CompareTransitive(start, from, n);
    if Less(x, from) {
      CompareTransitive(x, from, n);
    }
  }

  lemma NamedMore(entries: seq<Entry>, e: Entry, x: Name)
    ensures Named(entries + [e], x) <==> Named(entries, x) || e.family.name == Some(x)
  {
    var more := entries + [e];
    if Named(entries, x) {
      var i :| 0 <= i < |entries| && entries[i].family.name == Some(x);
      assert more[i].family.name == Some(x);
    }
    assert more[|entries|] == e;
  }

  lemma WalkStep(families: seq<Shard>, entries: seq<Entry>, start: Name, from: Name, e: Entry, last: Option<Name>)
    requires Good(families) && Listed(families, entries, start, from, last) && GoodEntry(families, e)
    requires LeastFrom(families, from, |families|, e.family.name) && Le(start, from)
    requires last.Some? ==> Less(e.family.name.value, last.value)
    ensures Listed(families, entries + [e], start, After(e.family.name.value), last)
    ensures Le(start, After(e.family.name.value))
  {
    var more, n := entries + [e], e.family.name.value;
    forall x | Occurs(families, |families|, x)
      ensures Named(more, x) <==> Between(start, last, x) && Less(x, After(n))
    {
      NamedMore(entries, e, x);
      WalkName(families, start, from, n, last, x);
    }
    forall i {:trigger entries[i]} | 0 <= i < |entries|
      ensures Less(entries[i].family.name.value, n) && Less(entries[i].family.name.value, After(n))
    {
      WalkName(families, start, from, n, last, entries[i].family.name.value);
    }
    AfterIsAbove(start, from, n);
    OneMore(families, entries, e, After(n));
  }

  lemma AfterIsAbove(start: Name, from: Name, n: Name)
    requires Le(start, from) && Le(from, n)
    ensures Less(n, After(n)) && Le(start, After(n))
  {
    AfterIsNext(n, n);
    CompareIsTotal(n, n);
    CompareIsTotal(After(n), n);
    CompareTransitive(start, from, n);
    CompareTransitive(start, n, After(n));
  }

  /** The entries with one more, whose name is above theirs. */
  lemma OneMore(families: seq<Shard>, entries: seq<Entry>, e: Entry, bound: Name)
    requires Good(families) && Increasing(entries) && GoodEntry(families, e)
    requires Occurs(families, |families|, e.family.name.value) && Less(e.family.name.value, bound)
    requires forall i {:trigger entries[i]} :: 0 <= i < |entries| ==>
               && GoodEntry(families, entries[i]) && Occurs(families, |families|, entries[i].family.name.value)
               && Less(entries[i].family.name.value, e.family.name.value) && Less(entries[i].family.name.value, bound)
    ensures var more := entries + [e];
            && Increasing(more)
            && forall i {:trigger more[i]} :: 0 <= i < |more| ==>
                 && GoodEntry(families, more[i]) && Less(more[i].family.name.value, bound)
                 && Occurs(families, |families|, more[i].family.name.value)
  {
    var more := entries + [e];
    assert forall i {:trigger more[i]} :: 0 <= i < |entries| ==> more[i] == entries[i];
    assert more[|entries|] == e;
  }

  /** The end is still ahead. */
  lemma StillReaches(families: seq<Shard>, from: Name, n: Name, next: Option<Name>, last: Option<Name>)
    requires LeastFrom(families, from, |families|, Some(n)) && LeastFrom(families, After(n), |families|, next)
    requires Reaches(Some(n), last) && last != Some(n) && (last.Some? ==> Occurs(families, |families|, last.value))
    ensures Reaches(next, last) && (last.Some? ==> Less(n, last.value))
  {
    if last.Some? {
      CompareIsTotal(n, last.value);
      AfterIsNext(n, last.value);
      BeforeLeast(families, After(n), next, last.value);
      CompareIsTotal(After(n), last.value);
      if next.Some? {
        CompareIsTotal(next.value, last.value);
      }
    }
  }

  /** At the end of the range nothing of it is ahead. */
  lemma WalkEnds(families: seq<Shard>, entries: seq<Entry>, start: Name, from: Name, last: Option<Name>)
    requires Good(families) && Listed(families, entries, start, from, last)
             && LeastFrom(families, from, |families|, last)
    ensures forall x :: Named(entries, x) <==> Occurs(families, |families|, x) && Between(start, last, x)
  {
    forall x | Occurs(families, |families|, x)
      ensures Named(entries, x) <==> Between(start, last, x)
    {
      BeforeLeast(families, from, last, x);
    }
  }

  /** A wait makes the loop go on with a copy of its iterator. */
  method CopyIf(it: MetricFamilyIterator, copy: bool) returns (r: MetricFamilyIterator)
    requires it.Full()
    ensures r.Full() && r.families == it.families && r.from == it.from && r.positions == it.positions
    ensures r.info == it.info && (r == it || fresh(r))
  {
    r := it;
    if copy {
      r := new MetricFamilyIterator.Copy(it);
    }
  }

  /**
   * do_for_each() over a range: every family is visited once, in the order of the names, with all its
   * metrics on all shards. When the function has to wait the iterator is moved.
   */
  method Walk(first: MetricFamilyIterator, last: MetricFamilyIterator, waits: seq<bool>) returns (entries: seq<Entry>)
    requires first.Full() && last.Valid() && first.families == last.families && Reaches(first.info.name, last.info.name)
    ensures Increasing(entries) && forall i {:trigger entries[i]} :: 0 <= i < |entries| ==>
            GoodEntry(first.families, entries[i])
    ensures forall x :: Named(entries, x) <==>
            Occurs(first.families, |first.families|, x) && Between(first.from, last.info.name, x)
  {
    var families := first.families;
    var it := new MetricFamilyIterator.Copy(first);
    entries := [];
    EndOccurs(last);
    CompareIsTotal(first.from, first.from);
    NothingListed(families, first.from, last.info.name);
    while !it.Equals(last)
      invariant fresh(it) && it.Full() && it.families == families && Le(first.from, it.from)
      invariant Reaches(it.info.name, last.info.name) && Listed(families, entries, first.from, it.from, last.info.name)
      decreases Left(families, it.positions, |families|)
    {
      ScanShows(families, it.from, it.positions, |families|);
      ghost var from, n := it.from, it.info.name.value;
      var visited := it.ForeachMetric();
      var e := Entry(it.info, visited);
      it.Next();
      ScanShows(families, it.from, it.positions, |families|);
      LeftNatural(families, it.from, it.positions, |families|);
      StillReaches(families, from, n, it.info.name, last.info.name);
      WalkStep(families, entries, first.from, from, e, last.info.name);
      entries := entries + [e];
      it := CopyIf(it, |entries| < |waits| && waits[|entries|]);
    }
    ScanShows(families, it.from, it.positions, |families|);
    WalkEnds(families, entries, first.from, it.from, last.info.name);
  }

  lemma EndOccurs(last: MetricFamilyIterator)
    requires last.Valid()
    ensures last.info.name.Some? ==> Occurs(last.families, |last.families|, last.info.name.value)
  {
    if last.positions != [] {
      ScanShows(last.families, last.from, last.positions, |last.families|);
    }
  }

  lemma NothingListed(families: seq<Shard>, start: Name, last: Option<Name>)
    requires Good(families)
    ensures Listed(families, [], start, start, last)
  {
    forall x | Occurs(families, |families|, x)
      ensures !(Between(start, last, x) && Less(x, start))
    {
      CompareIsTotal(start, x);
    }
  }

  /**
   * The output of a request: exactly the families it is for, unless the name is a prefix that ends in
   * the byte 255 and there are names near it.
   */
  method WriteRepresentation(families: seq<Shard>, name: Name, prefix: bool, waits: seq<bool>)
        returns (entries: seq<Entry>)
    requires Good(families) && (prefix && name != [] && name[|name| - 1] == 255 ==> NothingNear(families, name))
    ensures Increasing(entries) && forall i {:trigger entries[i]} :: 0 <= i < |entries| ==>
            GoodEntry(families, entries[i])
    ensures forall x :: Named(entries, x) <==> Occurs(families, |families|, x) && Wanted(name, prefix, x)
  {
    var first, last := GetRange(families, name, prefix);
    entries := Walk(first, last, waits);
  }
}
