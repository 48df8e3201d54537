/**
  Normalisation of address properties (src/ats/gnunet-service-ats_normalization.c), called when
  an address is added or updated (src/ats/gnunet-service-ats_addresses.c).  Doubles are modelled
  as reals, and an average of integers as the integer below it.
 */
module Normalization {
  import opened Common

  const QUEUE_LENGTH: nat := 3
  const UNDEFINED: nat := 0xFFFF_FFFF_FFFF_FFFF
  const UINT64: nat := 0x1_0000_0000_0000_0000
  const UINT32_MAX: nat := 0xFFFF_FFFF

  /** Delay, distance, inbound and outbound utilisation. */
  const PROPERTIES: nat := 4

  type Property = i: nat | i < PROPERTIES
  type Value = v: nat | v < UINT64
  type Values = v: seq<Value> | |v| == PROPERTIES witness [0, 0, 0, 0]
  type Queue = q: seq<Value> | |q| == QUEUE_LENGTH witness [0, 0, 0]

  datatype Info = Info(queue: Queue, index: nat, avg: Value, norm: real)

  type Infos = v: seq<Info> | |v| == PROPERTIES witness [Info([0, 0, 0], 0, 0, 0.0), Info([0, 0, 0], 0, 0, 0.0),
                                                         Info([0, 0, 0], 0, 0, 0.0), Info([0, 0, 0], 0, 0, 0.0)]

  datatype Address = Address(props: Values, infos: Infos)

  datatype Range = Range(min: Values, max: Values)

  type Id = nat
  type Addresses = map<Id, Address>

  // ----- The running average -----

  function Defined(q: seq<Value>): nat {
    if q == [] then 0 else (if q[0] != UNDEFINED then 1 else 0) + Defined(q[1..])
  }

  function SumDefined(q: seq<Value>): nat {
    if q == [] then 0 else (if q[0] != UNDEFINED then q[0] else 0) + SumDefined(q[1..])
  }

  /** The mean of the defined samples, rounded down; undefined when there is none. */
  function Mean(q: seq<Value>): nat {
    if Defined(q) == 0 then UNDEFINED else SumDefined(q) / Defined(q)
  }

  lemma {:induction false} MeanBounds(q: seq<Value>)
    ensures Defined(q) <= |q| && SumDefined(q) <= Defined(q) * (UNDEFINED - 1)
  {
    if q != [] {
      MeanBounds(q[1..]);
    }
  }

  lemma DivideBound(sum: nat, count: nat, bound: nat)
    requires count > 0 && sum <= count * bound
    ensures sum / count <= bound
  {
    var q := sum / count;
    assert q * count <= sum;
    Cancel(q, bound, count);
  }

  lemma Cancel(a: nat, b: nat, c: nat)
    requires c > 0
    ensures a * c <= c * b ==> a <= b
  {
    if a > b {
      assert a * c >= (b + 1) * c;
    }
  }

  lemma MeanIsValue(q: seq<Value>)
    ensures Mean(q) < UINT64
  {
    MeanBounds(q);
    if Defined(q) > 0 {
      DivideBound(SumDefined(q), Defined(q), UNDEFINED - 1);
    }
  }

  /** The next sample replaces the oldest one, and the average follows. */
  function Averaged(ni: Info, current: Value): Info
    requires ni.index < QUEUE_LENGTH
  {
    var queue: Queue := ni.queue[ni.index := current];
    MeanIsValue(queue);
    Info(queue, (ni.index + 1) % QUEUE_LENGTH, Mean(queue), ni.norm)
  }

  /** update_avg */
  method UpdateAvg(current: Value, ni: Info) returns (r: Info)
    requires ni.index < QUEUE_LENGTH
    ensures r == Averaged(ni, current)
  {
    var queue: Queue := ni.queue[ni.index := current];
    var index := ni.index + 1;
    if index == QUEUE_LENGTH {
      index := 0;
    }
    var sum, count, c := 0, 0, 0;
    while c < QUEUE_LENGTH
      invariant c <= QUEUE_LENGTH
      invariant sum + SumDefined(queue[c..]) == SumDefined(queue)
      invariant count + Defined(queue[c..]) == Defined(queue)
    {
      assert queue[c..][1..] == queue[c + 1..];
      if queue[c] != UNDEFINED {
        count := count + 1;
        sum := sum + queue[c];
      }
      c := c + 1;
    }
    MeanIsValue(queue);
    NoneDefined(queue, ni.index);
    r := Info(queue, index, if count == 0 then current else sum / count, ni.norm);
  }

  lemma {:induction false} NoneDefined(q: seq<Value>, i: nat)
    requires i < |q|
    ensures Defined(q) == 0 ==> q[i] == UNDEFINED
  {
    if i > 0 {
      NoneDefined(q[1..], i - 1);
    }
  }

  /** The last sample whose number is s modulo the queue length. */
  function Latest(history: seq<Value>, s: nat): Value {
    var n := |history|;
    if n == 0 then UNDEFINED
    else if (n - 1) % QUEUE_LENGTH == s then history[n - 1]
    else Latest(history[..n - 1], s)
  }

  /** The queue is the ring that the samples of the history fill. */
  ghost predicate Ring(ni: Info, history: seq<Value>) {
    ni.index == |history| % QUEUE_LENGTH && ni.queue == [Latest(history, 0), Latest(history, 1), Latest(history, 2)]
  }

  function Recent(history: seq<Value>): seq<Value> {
    history[if |history| < QUEUE_LENGTH then 0 else |history| - QUEUE_LENGTH..]
  }

  lemma RingStep(ni: Info, history: seq<Value>, current: Value)
    requires Ring(ni, history)
    ensures Ring(Averaged(ni, current), history + [current])
  {
    assert (history + [current])[..|history|] == history;
  }

  function One(v: Value): nat { if v != UNDEFINED then 1 else 0 }

  function Worth(v: Value): nat { if v != UNDEFINED then v else 0 }

  lemma OneSum(a: Value)
    ensures SumDefined([a]) == Worth(a) && Defined([a]) == One(a)
  {
    assert [a][1..] == [];
  }

  lemma TwoSums(a: Value, b: Value)
    ensures SumDefined([a, b]) == Worth(a) + Worth(b) && Defined([a, b]) == One(a) + One(b)
  {
    assert [a, b][1..] == [b];
    OneSum(b);
  }

  lemma ThreeSums(a: Value, b: Value, c: Value)
    ensures SumDefined([a, b, c]) == Worth(a) + Worth(b) + Worth(c) && Defined([a, b, c]) == One(a) + One(b) + One(c)
  {
    assert [a, b, c][1..] == [b, c];
    TwoSums(b, c);
  }

  /** The mean of three samples, of which the greatest 64-bit number stands for none. */
  lemma MeanOfThree(a: Value, b: Value, c: Value)
    ensures var none := 0xFFFF_FFFF_FFFF_FFFF;
            var count := (if a != none then 1 else 0) + (if b != none then 1 else 0) + (if c != none then 1 else 0);
            var sum := (if a != none then a else 0) + (if b != none then b else 0) + (if c != none then c else 0);
            Mean([a, b, c]) == if count == 0 then none else sum / count
  {
    ThreeSums(a, b, c);
  }

  lemma LatestThree(history: seq<Value>)
    requires |history| >= 3
    ensures var n := |history|;
            && Latest(history, (n - 1) % 3) == history[n - 1]
            && Latest(history, (n - 2) % 3) == history[n - 2]
            && Latest(history, (n - 3) % 3) == history[n - 3]
  {
    var n := |history|;
    var h, g := history[..n - 1], history[..n - 2];
    assert h[..n - 2] == g;
    assert Latest(g, (n - 3) % 3) == history[n - 3];
    assert Latest(h, (n - 2) % 3) == history[n - 2];
    assert Latest(h, (n - 3) % 3) == Latest(g, (n - 3) % 3);
  }

  lemma RingOfThree(ni: Info, h: seq<Value>, a: Value, b: Value, c: Value)
    requires Ring(ni, h) && |h| >= 3 && a == h[|h| - 3] && b == h[|h| - 2] && c == h[|h| - 1]
    ensures ni.queue == [a, b, c] || ni.queue == [b, c, a] || ni.queue == [c, a, b]
  {
    LatestThree(h);
    var n := |h|;
    if n % 3 == 0 {
      assert (n - 1) % 3 == 2 && (n - 2) % 3 == 1 && (n - 3) % 3 == 0;
    } else if n % 3 == 1 {
      assert (n - 1) % 3 == 0 && (n - 2) % 3 == 2 && (n - 3) % 3 == 1;
    } else {
      assert (n - 1) % 3 == 1 && (n - 2) % 3 == 0 && (n - 3) % 3 == 2;
    }
  }

  /** Whatever its phase, the average is that of the last three samples. */
  lemma RingMean(ni: Info, history: seq<Value>)
    requires Ring(ni, history)
    ensures Mean(ni.queue) == Mean(Recent(history))
  {
    var n, h, u := |history|, history, UNDEFINED;
    if n >= 3 {
      var a, b, c := h[n - 3], h[n - 2], h[n - 1];
      assert Recent(h) == [a, b, c];
      RingOfThree(ni, h, a, b, c);
      ThreeSums(a, b, c);
      ThreeSums(b, c, a);
      ThreeSums(c, a, b);
    } else {
      ShortRing(ni, h);
      assert Recent(h) == h;
      ThreeSums(if n > 0 then h[0] else u, if n > 1 then h[1] else u, u);
      if n == 1 {
        OneSum(h[0]);
        assert h == [h[0]];
      } else if n == 2 {
        TwoSums(h[0], h[1]);
        assert h == [h[0], h[1]];
      }
    }
  }

  lemma ShortRing(ni: Info, h: seq<Value>)
    requires Ring(ni, h) && |h| < 3
    ensures ni.queue == [if |h| > 0 then h[0] else UNDEFINED, if |h| > 1 then h[1] else UNDEFINED, UNDEFINED]
  {
    if |h| == 1 {
      assert h[..0] == [];
      assert Latest(h, 0) == h[0] && Latest(h, 1) == UNDEFINED && Latest(h, 2) == UNDEFINED;
    } else if |h| == 2 {
      assert h[..1][..0] == [];
      assert Latest(h[..1], 0) == h[0] && Latest(h[..1], 2) == UNDEFINED && Latest(h, 1) == h[1];
    }
  }

  /** In every run the average is the mean of the last three samples that are defined. */
  lemma AverageOfRecent(ni: Info, history: seq<Value>, current: Value)
    requires Ring(ni, history)
    ensures Averaged(ni, current).avg == Mean(Recent(history + [current]))
  {
    RingStep(ni, history, current);
    RingMean(Averaged(ni, current), history + [current]);
  }

  // ----- The normal form -----

  /** The difference of two unsigned 64-bit numbers. */
  function Minus(a: Value, b: Value): Value {
    if a >= b then a - b else a + UINT64 - b
  }

  /** update_norm */
  function Norm(min: Value, max: Value, avg: Value): real {
    if min < max then 1.0 + (Minus(avg, min) as real) / ((max - min) as real) else 1.0
  }

  lemma FractionInUnit(a: nat, b: nat)
    requires b > 0
    ensures a as real / b as real >= 0.0
    ensures a as real / b as real <= 1.0 <==> a <= b
  {
  }

  /**
    What a norm is: its excess over 1 is to the average's excess over the minimum, in unsigned 64-bit
    numbers, as 1 is to the width of the range; without a range it is 1.
   */
  predicate IsNorm(norm: real, min: Value, max: Value, avg: Value) {
    if min < max then
      (norm - 1.0) * ((max - min) as real)
      == (if avg >= min then (avg - min) as real else (avg + 0x1_0000_0000_0000_0000 - min) as real)
    else norm == 1.0
  }

  lemma Quotient(x: real, n: real, d: real)
    requires d > 0.0
    ensures x * d == n <==> x == n / d
  {
  }

  /** update_norm computes the norm, and there is only one. */
  lemma NormIs(min: Value, max: Value, avg: Value, x: real)
    ensures IsNorm(x, min, max, avg) <==> x == Norm(min, max, avg)
  {
    if min < max {
      Quotient(x - 1.0, Minus(avg, min) as real, (max - min) as real);
    }
  }

  /** It is 1 at the lower end of the range and 2 at the upper. */
  lemma NormAtEnds(min: Value, max: Value)
    requires min < max
    ensures Norm(min, max, min) == 1.0 && Norm(min, max, max) == 2.0
  {
    NormIs(min, max, min, 1.0);
    NormIs(min, max, max, 2.0);
  }

  /** The norm is in the documented range exactly when the average lies in the range of values. */
  lemma NormInRange(min: Value, max: Value, avg: Value)
    ensures 1.0 <= Norm(min, max, avg) <= 2.0 <==> min >= max || min <= avg <= max
  {
    if min < max {
      FractionInUnit(Minus(avg, min), max - min);
    }
  }

  /** Norms keep the order of the averages in that range, strictly. */
  lemma NormMonotone(min: Value, max: Value, a: Value, b: Value)
    requires min <= a <= b <= max
    ensures Norm(min, max, a) <= Norm(min, max, b)
    ensures Norm(min, max, a) < Norm(min, max, b) <==> a < b
  {
    if min < max {
      FractionMonotone(a - min, b - min, max - min);
    }
  }

  lemma FractionMonotone(a: nat, b: nat, c: nat)
    requires a <= b && c > 0
    ensures a as real / c as real <= b as real / c as real
    ensures a as real / c as real < b as real / c as real <==> a < b
  {
  }

  ghost predicate Normalised(a: Address, range: Range) {
    forall i: Property :: IsNorm(a.infos[i].norm, range.min[i], range.max[i], a.infos[i].avg)
  }

  /** update_property takes the outbound average from the inbound utilisation. */
  function Sample(props: Values, i: Property): Value {
    props[if i == 3 then 2 else i]
  }

  ghost predicate Indexed(a: Address) {
    forall i: Property :: a.infos[i].index < QUEUE_LENGTH
  }

  function Sampled(a: Address): Address
    requires Indexed(a)
  {
    a.(infos := [Averaged(a.infos[0], Sample(a.props, 0)), Averaged(a.infos[1], Sample(a.props, 1)),
                 Averaged(a.infos[2], Sample(a.props, 2)), Averaged(a.infos[3], Sample(a.props, 3))])
  }

  function Renormed(a: Address, range: Range): Address {
    a.(infos := seq(PROPERTIES, i requires 0 <= i < PROPERTIES =>
                  a.infos[i].(norm := Norm(range.min[i], range.max[i], a.infos[i].avg))))
  }

  lemma RenormedIs(a: Address, range: Range)
    ensures Normalised(Renormed(a, range), range)
    ensures Normalised(a, range) ==> Renormed(a, range) == a
  {
    forall i: Property
      ensures IsNorm(Renormed(a, range).infos[i].norm, range.min[i], range.max[i], Renormed(a, range).infos[i].avg)
    {
      NormIs(range.min[i], range.max[i], a.infos[i].avg, Norm(range.min[i], range.max[i], a.infos[i].avg));
    }
    if Normalised(a, range) {
      forall i: Property ensures Renormed(a, range).infos[i] == a.infos[i] {
        assert IsNorm(a.infos[i].norm, range.min[i], range.max[i], a.infos[i].avg);
        NormIs(range.min[i], range.max[i], a.infos[i].avg, a.infos[i].norm);
      }
      assert Renormed(a, range).infos == a.infos;
    }
  }

  // ----- The range -----

  const EMPTY_RANGE: Range := Range([UNDEFINED, UINT32_MAX, UINT32_MAX, UINT32_MAX], [0, 0, 0, 0])

  function Widened(range: Range, props: Values): Range {
    Range(seq(PROPERTIES, i requires 0 <= i < PROPERTIES => if props[i] < range.min[i] then props[i] else range.min[i]),
          seq(PROPERTIES, i requires 0 <= i < PROPERTIES => if props[i] > range.max[i] then props[i] else range.max[i]))
  }

  /** The values of all addresses lie in the range. */
  ghost predicate Within(range: Range, addrs: Addresses) {
    forall id, i: Property | id in addrs :: range.min[i] <= addrs[id].props[i] <= range.max[i]
  }

  /** Each limit is that of the empty set or the value of some address. */
  ghost predicate Attained(range: Range, addrs: Addresses) {
    forall i: Property ::
      && (range.min[i] == EMPTY_RANGE.min[i] || exists id :: id in addrs && addrs[id].props[i] == range.min[i])
      && (range.max[i] == EMPTY_RANGE.max[i] || exists id :: id in addrs && addrs[id].props[i] == range.max[i])
  }

  /** No limit is beyond that of the empty set. */
  ghost predicate Below(range: Range) {
    forall i: Property :: range.min[i] <= EMPTY_RANGE.min[i] && range.max[i] >= EMPTY_RANGE.max[i]
  }

  ghost predicate IsRange(range: Range, addrs: Addresses) {
    Within(range, addrs) && Attained(range, addrs) && Below(range)
  }

  /** There is only one such range. */
  lemma RangeUnique(a: Range, b: Range, addrs: Addresses)
    requires IsRange(a, addrs) && IsRange(b, addrs)
    ensures a == b
  {
    forall i: Property ensures a.min[i] == b.min[i] && a.max[i] == b.max[i] {
    }
    assert a.min == b.min && a.max == b.max;
  }

  lemma EmptyIsRange()
    ensures IsRange(EMPTY_RANGE, map[])
  {
  }

  lemma WidenedIsRange(range: Range, addrs: Addresses, id: Id, a: Address)
    requires IsRange(range, addrs) && id !in addrs
    ensures IsRange(Widened(range, a.props), addrs[id := a])
  {
    var wide, more := Widened(range, a.props), addrs[id := a];
    forall i: Property
      ensures wide.min[i] == EMPTY_RANGE.min[i] || exists k :: k in more && more[k].props[i] == wide.min[i]
      ensures wide.max[i] == EMPTY_RANGE.max[i] || exists k :: k in more && more[k].props[i] == wide.max[i]
    {
      assert more[id].props[i] == a.props[i];
      if k :| k in addrs && addrs[k].props[i] == range.min[i] {
        assert more[k].props[i] == range.min[i];
      }
      if k :| k in addrs && addrs[k].props[i] == range.max[i] {
        assert more[k].props[i] == range.max[i];
      }
    }
  }

  // ----- The store -----

  ghost predicate AllNormalised(addrs: Addresses, range: Range) {
    forall id | id in addrs :: Normalised(addrs[id], range) && Indexed(addrs[id])
  }

  /** Every address in the form that the range gives it. */
  function AllRenormed(addrs: Addresses, range: Range): (r: Addresses)
    ensures r.Keys == addrs.Keys
  {
    map id | id in addrs :: Renormed(addrs[id], range)
  }

  lemma AllRenormedIs(addrs: Addresses, range: Range)
    requires forall id | id in addrs :: Indexed(addrs[id])
    ensures AllNormalised(AllRenormed(addrs, range), range)
    ensures IsRange(range, addrs) ==> IsRange(range, AllRenormed(addrs, range))
  {
    var after := AllRenormed(addrs, range);
    forall id | id in addrs ensures Normalised(after[id], range) && Indexed(after[id]) {
      RenormedIs(addrs[id], range);
      forall i: Property ensures after[id].infos[i].index < QUEUE_LENGTH {
        assert addrs[id].infos[i].index < QUEUE_LENGTH;
      }
    }
    if IsRange(range, addrs) {
      SameProps(range, addrs, after);
    }
  }

  lemma SameProps(range: Range, a: Addresses, b: Addresses)
    requires IsRange(range, a) && a.Keys == b.Keys && forall id | id in a :: a[id].props == b[id].props
    ensures IsRange(range, b)
  {
    forall i: Property
      ensures range.min[i] == EMPTY_RANGE.min[i] || exists id :: id in b && b[id].props[i] == range.min[i]
      ensures range.max[i] == EMPTY_RANGE.max[i] || exists id :: id in b && b[id].props[i] == range.max[i]
    {
      if id :| id in a && a[id].props[i] == range.min[i] {
        assert b[id].props[i] == range.min[i];
      }
      if id :| id in a && a[id].props[i] == range.max[i] {
        assert b[id].props[i] == range.max[i];
      }
    }
  }

  /** Renormalising one address is enough when the others are in form already. */
  lemma OneIsEnough(addrs: Addresses, id: Id, range: Range)
    requires id in addrs && forall k | k in addrs && k != id :: Normalised(addrs[k], range)
    ensures addrs[id := Renormed(addrs[id], range)] == AllRenormed(addrs, range)
  {
    forall k | k in addrs && k != id ensures Renormed(addrs[k], range) == addrs[k] {
      RenormedIs(addrs[k], range);
    }
  }

  lemma SampledIndexed(a: Address)
    requires Indexed(a)
    ensures Indexed(Sampled(a))
  {
  }

  const UNKNOWN: Info := Info([UNDEFINED, UNDEFINED, UNDEFINED], 0, 0, 0.0)

  /** create_address: no sample yet. */
  function Fresh(props: Values): (a: Address)
    ensures Indexed(a)
  {
    Address(props, [UNKNOWN, UNKNOWN, UNKNOWN, UNKNOWN])
  }

  lemma PutTwice(addrs: Addresses, id: Id, a: Address, b: Address)
    ensures var one: Addresses := addrs[id := a];
            one[id := b] == addrs[id := b]
  {
  }

  /** The samples of one property that a history of values gives. */
  function Samples(history: seq<Values>, i: Property): (r: seq<Value>)
    ensures |r| == |history|
  {
    seq(|history|, j requires 0 <= j < |history| => Sample(history[j], i))
  }

  /** All rings of an address hold its history, and all averages are those of the last three samples. */
  ghost predicate Remembers(a: Address, history: seq<Values>) {
    forall i: Property :: Ring(a.infos[i], Samples(history, i)) && AverageIs(a.infos[i], Samples(history, i))
  }

  ghost predicate AverageIs(ni: Info, samples: seq<Value>) {
    samples != [] ==> ni.avg == Mean(Recent(samples))
  }

  /** Where the samples of a property come from: the outbound utilisation is sampled from the inbound one. */
  function Source(i: Property): Property {
    [0, 1, 2, 2][i]
  }

  /** Each ring takes the current value of its source, and the average follows. */
  lemma SamplesTaken(a: Address, i: Property)
    requires Indexed(a)
    ensures Sampled(a).props == a.props
    ensures Sampled(a).infos[i].queue == a.infos[i].queue[a.infos[i].index := a.props[Source(i)]]
    ensures Sampled(a).infos[i].avg == Mean(Sampled(a).infos[i].queue)
  {
    SampledInfo(a, i);
  }

  /** The last three samples of the address, of which there may be fewer, and their mean. */
  lemma AverageOfHistory(a: Address, history: seq<Values>, i: Property)
    requires Remembers(a, history) && history != []
    ensures var n, j, none := |history|, Source(i), 0xFFFF_FFFF_FFFF_FFFF;
            a.infos[i].avg == Mean([if n < 3 then none else history[n - 3][j],
                                    if n < 2 then none else history[n - 2][j],
                                    history[n - 1][j]])
  {
    var samples := Samples(history, i);
    assert Ring(a.infos[i], samples) && AverageIs(a.infos[i], samples);
    var n, j := |history|, Source(i);
    forall k | 0 <= k < n ensures samples[k] == history[k][j] {
    }
    RecentIs(samples);
  }

  lemma RecentIs(samples: seq<Value>)
    requires samples != []
    ensures var n := |samples|;
            Mean(Recent(samples)) == Mean([if n < 3 then UNDEFINED else samples[n - 3],
                                           if n < 2 then UNDEFINED else samples[n - 2],
                                           samples[n - 1]])
  {
    var n, u := |samples|, UNDEFINED;
    var c := samples[n - 1];
    if n == 1 {
      assert Recent(samples) == [c];
      OneSum(c);
      ThreeSums(u, u, c);
    } else if n == 2 {
      assert Recent(samples) == [samples[0], c];
      TwoSums(samples[0], c);
      ThreeSums(u, samples[0], c);
    } else {
      assert Recent(samples) == [samples[n - 3], samples[n - 2], c];
    }
  }

  lemma FreshRemembers(props: Values)
    ensures Remembers(Fresh(props), [])
  {
    forall i: Property ensures Ring(Fresh(props).infos[i], Samples([], i)) {
      assert Samples([], i) == [];
    }
  }

  lemma SampledInfo(a: Address, i: Property)
    requires Indexed(a)
    ensures Sampled(a).infos[i] == Averaged(a.infos[i], Sample(a.props, i))
  {
  }

  lemma SampledRemembers(a: Address, history: seq<Values>)
    requires Indexed(a) && Remembers(a, history)
    ensures Remembers(Sampled(a), history + [a.props])
  {
    forall i: Property
      ensures Ring(Sampled(a).infos[i], Samples(history + [a.props], i))
      ensures AverageIs(Sampled(a).infos[i], Samples(history + [a.props], i))
    {
      var h, v := Samples(history, i), Sample(a.props, i);
      assert Samples(history + [a.props], i) == h + [v];
      assert Ring(a.infos[i], h);
      SampledInfo(a, i);
      RingStep(a.infos[i], h, v);
      AverageOfRecent(a.infos[i], h, v);
    }
  }

  lemma RenormedRemembers(a: Address, range: Range, history: seq<Values>)
    requires Remembers(a, history)
    ensures Remembers(Renormed(a, range), history)
  {
    forall i: Property
      ensures Ring(Renormed(a, range).infos[i], Samples(history, i))
      ensures AverageIs(Renormed(a, range).infos[i], Samples(history, i))
    {
      assert Ring(a.infos[i], Samples(history, i)) && AverageIs(a.infos[i], Samples(history, i));
    }
  }

  type Histories = map<Id, seq<Values>>

  ghost predicate AllRemember(addrs: Addresses, histories: Histories) {
    addrs.Keys == histories.Keys && forall id | id in addrs :: Remembers(addrs[id], histories[id])
  }

  /** One more sample of one address, and new norms for all. */
  lemma UpdateRemembers(addrs: Addresses, histories: Histories, id: Id, range: Range)
    requires AllRemember(addrs, histories) && id in addrs && Indexed(addrs[id])
    ensures var more: Histories := histories[id := histories[id] + [addrs[id].props]];
            AllRemember(AllRenormed(addrs[id := Sampled(addrs[id])], range), more)
  {
    SampledRemembers(addrs[id], histories[id]);
    var sampled: Addresses := addrs[id := Sampled(addrs[id])];
    var more: Histories := histories[id := histories[id] + [addrs[id].props]];
    forall k | k in sampled ensures Remembers(Renormed(sampled[k], range), more[k]) {
      RenormedRemembers(sampled[k], range, more[k]);
    }
  }

  lemma BeginHistory(histories: Histories, id: Id, props: Values)
    ensures var begun: Histories := histories[id := []];
            begun[id := begun[id] + [props]] == histories[id := [props]]
  {
    assert [] + [props] == [props];
  }

  /** Other values do not touch the rings. */
  lemma NewValuesRemember(a: Address, props: Values, history: seq<Values>)
    requires Remembers(a, history)
    ensures Remembers(a.(props := props), history)
  {
    forall i: Property
      ensures Ring(a.(props := props).infos[i], Samples(history, i))
      ensures AverageIs(a.(props := props).infos[i], Samples(history, i))
    {
      assert Ring(a.infos[i], Samples(history, i)) && AverageIs(a.infos[i], Samples(history, i));
    }
  }

  class AddressBook {
    var addresses: Addresses
    var range: Range

    /** For each address the values that were sampled, oldest first. */
    ghost var histories: Histories

    /**
      Every norm is what the stored range makes of the average, every average is the mean of the
      last three defined samples, and the range covers all values.
     */
    ghost predicate Valid()
      reads this
    {
      AllNormalised(addresses, range) && Within(range, addresses) && AllRemember(addresses, histories)
    }

    /** GAS_normalization_start */
    constructor ()
      ensures Valid() && addresses == map[] && IsRange(range, addresses)
      ensures range == Range([0xFFFF_FFFF_FFFF_FFFF, 0xFFFF_FFFF, 0xFFFF_FFFF, 0xFFFF_FFFF], [0, 0, 0, 0])
    {
      addresses, range, histories := map[], EMPTY_RANGE, map[];
    }

    /** The iteration with find_min_max_it. */
    method FindRange() returns (r: Range)
      ensures IsRange(r, addresses)
    {
      r := EMPTY_RANGE;
      var todo := addresses.Keys;
      ghost var done: Addresses := map[];
      EmptyIsRange();
      while todo != {}
        invariant todo <= addresses.Keys && done == map id | id in addresses && id !in todo :: addresses[id]
        invariant IsRange(r, done)
      {
        var id :| id in todo;
        WidenedIsRange(r, done, id, addresses[id]);
        r := Widened(r, addresses[id].props);
        todo, done := todo - {id}, done[id := addresses[id]];
      }
      assert done == addresses;
    }

    /** The iteration with normalize_address. */
    method NormaliseAll()
      modifies `addresses
      ensures addresses == AllRenormed(old(addresses), range)
    {
      var todo := addresses.Keys;
      while todo != {}
        invariant todo <= old(addresses).Keys == addresses.Keys
        invariant forall id | id in addresses ::
                    addresses[id] == if id in todo then old(addresses)[id] else Renormed(old(addresses)[id], range)
      {
        var id :| id in todo;
        addresses := addresses[id := Renormed(addresses[id], range)];
        todo := todo - {id};
      }
    }

    /** The four calls of update_avg. */
    static method TakeSamples(a: Address) returns (r: Address)
      requires Indexed(a)
      ensures r == Sampled(a)
    {
      var delay := UpdateAvg(a.props[0], a.infos[0]);
      var distance := UpdateAvg(a.props[1], a.infos[1]);
      var inbound := UpdateAvg(a.props[2], a.infos[2]);
      var outbound := UpdateAvg(a.props[2], a.infos[3]);
      r := a.(infos := [delay, distance, inbound, outbound]);
    }

    /**
      GAS_normalization_update_property.  It renormalises one address or all, and either way all
      addresses end in the form that the exact range of the values gives them.
     */
    method UpdateProperty(id: Id)
      requires id in addresses && forall k | k in addresses :: Indexed(addresses[k])
      requires forall k | k in addresses && k != id :: Normalised(addresses[k], range)
      modifies `addresses, `range
      ensures addresses == AllRenormed(old(addresses)[id := Sampled(old(addresses)[id])], range)
      ensures IsRange(range, addresses) && AllNormalised(addresses, range)
    {
      var a := TakeSamples(addresses[id]);
      SampledIndexed(addresses[id]);
      addresses := addresses[id := a];
      ghost var sampled := addresses;
      var now := FindRange();
      AllRenormedIs(sampled, now);
      if now != range {
        range := now;
        NormaliseAll();
      } else {
        OneIsEnough(sampled, id, range);
        addresses := addresses[id := Renormed(addresses[id], range)];
      }
    }

    /** The same, with the sample added to the history. */
    method UpdateAndRemember(id: Id)
      requires id in addresses && forall k | k in addresses :: Indexed(addresses[k])
      requires forall k | k in addresses && k != id :: Normalised(addresses[k], range)
      requires AllRemember(addresses, histories)
      modifies this
      ensures addresses == AllRenormed(old(addresses)[id := Sampled(old(addresses)[id])], range)
      ensures IsRange(range, addresses) && Valid()
      ensures histories == old(histories)[id := old(histories)[id] + [old(addresses)[id].props]]
    {
      UpdateProperty(id);
      UpdateRemembers(old(addresses), histories, id, range);
      histories := histories[id := histories[id] + [old(addresses)[id].props]];
    }

    /** GAS_addresses_add, as far as it concerns properties; a known address is refused. */
    method Add(id: Id, props: Values)
      requires Valid()
      modifies this
      ensures Valid()
      ensures id in old(addresses) ==> addresses == old(addresses) && range == old(range)
      ensures id !in old(addresses) ==> IsRange(range, addresses)
      ensures id !in old(addresses) ==>
                addresses == AllRenormed(old(addresses)[id := Sampled(Fresh(props))], range)
      ensures histories == if id in old(addresses) then old(histories) else old(histories)[id := [props]]
    {
      if id in addresses {
        return;
      }
      FreshRemembers(props);
      addresses, histories := addresses[id := Fresh(props)], histories[id := []];
      PutTwice(old(addresses), id, Fresh(props), Sampled(Fresh(props)));
      BeginHistory(old(histories), id, props);
      UpdateAndRemember(id);
    }

    /** GAS_addresses_update; an address that is unknown, or not known to the solver, is refused. */
    method Update(id: Id, props: Values, solved: bool)
      requires Valid()
      modifies this
      ensures Valid()
      ensures id !in old(addresses) || !solved ==> addresses == old(addresses) && range == old(range)
      ensures id in old(addresses) && solved ==> IsRange(range, addresses)
      ensures id in old(addresses) && solved ==>
                addresses == AllRenormed(old(addresses)[id := Sampled(old(addresses)[id].(props := props))], range)
      ensures if id !in old(addresses) || !solved then histories == old(histories)
              else id in old(histories) && histories == old(histories)[id := old(histories)[id] + [props]]
    {
      if id !in addresses || !solved {
        return;
      }
      var a := addresses[id].(props := props);
      NewValuesRemember(addresses[id], props, histories[id]);
      addresses := addresses[id := a];
      PutTwice(old(addresses), id, a, Sampled(a));
      UpdateAndRemember(id);
    }

    /** GAS_addresses_destroy: the range and the other addresses stay as they are. */
    method Destroy(id: Id)
      requires Valid()
      modifies `addresses, `histories
      ensures Valid() && addresses == old(addresses) - {id} && histories == old(histories) - {id}
    {
      if id in addresses {
        addresses := addresses - {id};
      }
      histories := histories - {id};
    }
  }

  // ----- A norm out of range -----

  const NEAR: Values := [0, 0, 0, 0]
  const MIDDLE: Values := [0, 5, 0, 0]
  const FAR: Values := [0, 9, 0, 0]

  lemma ExampleMean()
    ensures Mean([0, 0, 9]) == 3
  {
    ThreeSums(0, 0, 9);
  }

  lemma ExampleSamples(h: seq<Values>)
    requires h == [NEAR, NEAR, FAR]
    ensures Samples(h, 1) == [0, 0, 9]
  {
  }

  lemma ExampleAverage(ni: Info, h: seq<Values>)
    requires h == [NEAR, NEAR, FAR] && AverageIs(ni, Samples(h, 1))
    ensures ni.avg == 3
  {
    ExampleSamples(h);
    var samples: seq<Value> := [0, 0, 9];
    assert Recent(samples) == samples;
    ExampleMean();
  }

  function PropsOf(addrs: Addresses): (r: map<Id, Values>) {
    map id | id in addrs :: addrs[id].props
  }

  lemma ExampleRange(range: Range, addrs: Addresses)
    requires IsRange(range, addrs) && PropsOf(addrs) == map[1 := FAR, 2 := MIDDLE]
    ensures range.min[1] == 5 && range.max[1] == 9
  {
    var props := PropsOf(addrs);
    assert 1 in props && 2 in props && addrs[1].props == FAR && addrs[2].props == MIDDLE;
    assert range.min[1] <= addrs[2].props[1] && addrs[1].props[1] <= range.max[1];
    forall id | id in addrs ensures id == 1 || id == 2 {
      assert id in props;
    }
  }

  lemma RenormedProps(addrs: Addresses, id: Id, a: Address, range: Range)
    requires Indexed(a)
    ensures PropsOf(AllRenormed(addrs[id := Sampled(a)], range)) == PropsOf(addrs)[id := a.props]
  {
  }

  /** An address in a book, as the example sees it: values, history and norm. */
  lemma ExampleNorm(addrs: Addresses, histories: Histories, range: Range)
    requires AllNormalised(addrs, range) && AllRemember(addrs, histories) && IsRange(range, addrs)
    requires PropsOf(addrs) == map[1 := FAR, 2 := MIDDLE] && 1 in histories && histories[1] == [NEAR, NEAR, FAR]
    ensures 1 in addrs && range.min[1] == 5 && range.max[1] == 9 && addrs[1].infos[1].avg == 3
    ensures !(1.0 <= addrs[1].infos[1].norm <= 2.0)
  {
    assert 1 in PropsOf(addrs);
    ExampleRange(range, addrs);
    assert Remembers(addrs[1], histories[1]);
    assert AverageIs(addrs[1].infos[1], Samples(histories[1], 1));
    ExampleAverage(addrs[1].infos[1], histories[1]);
    assert Normalised(addrs[1], range);
    NormIs(5, 9, 3, addrs[1].infos[1].norm);
    NormInRange(5, 9, 3);
  }

  /** An update, as far as values and history are concerned. */
  method See(book: AddressBook, id: Id, props: Values)
    requires book.Valid() && id in book.addresses
    modifies book
    ensures book.Valid() && IsRange(book.range, book.addresses)
    ensures PropsOf(book.addresses) == PropsOf(old(book.addresses))[id := props]
    ensures id in old(book.histories) && book.histories == old(book.histories)[id := old(book.histories)[id] + [props]]
  {
    ghost var was := book.addresses;
    book.Update(id, props, true);
    RenormedProps(was, id, was[id].(props := props), book.range);
  }

  method Meet(book: AddressBook, id: Id, props: Values)
    requires book.Valid() && id !in book.addresses
    modifies book
    ensures book.Valid() && IsRange(book.range, book.addresses)
    ensures PropsOf(book.addresses) == PropsOf(old(book.addresses))[id := props]
    ensures book.histories == old(book.histories)[id := [props]]
  {
    ghost var was := book.addresses;
    book.Add(id, props);
    RenormedProps(was, id, Fresh(props), book.range);
  }

  /** The first address, and a second one. */
  method ExampleBook() returns (book: AddressBook)
    ensures fresh(book) && book.Valid() && PropsOf(book.addresses) == map[1 := NEAR, 2 := MIDDLE]
    ensures book.histories == map[1 := [NEAR], 2 := [MIDDLE]]
  {
    book := new AddressBook();
    Meet(book, 1, NEAR);
    assert PropsOf(book.addresses) == map[1 := NEAR];
    assert 2 !in PropsOf(book.addresses);
    Meet(book, 2, MIDDLE);
  }

  /** The first address seen once more. */
  method ExampleTwice() returns (book: AddressBook)
    ensures fresh(book) && book.Valid() && PropsOf(book.addresses) == map[1 := NEAR, 2 := MIDDLE]
    ensures book.histories == map[1 := [NEAR, NEAR], 2 := [MIDDLE]]
  {
    book := ExampleBook();
    assert 1 in PropsOf(book.addresses);
    See(book, 1, NEAR);
    SecondUpdate(PropsOf(book.addresses), book.histories);
  }

  lemma SecondUpdate(props: map<Id, Values>, histories: Histories)
    requires props == map[1 := NEAR, 2 := MIDDLE][1 := NEAR]
    requires histories == map[1 := [NEAR], 2 := [MIDDLE]][1 := [NEAR] + [NEAR]]
    ensures props == map[1 := NEAR, 2 := MIDDLE] && histories == map[1 := [NEAR, NEAR], 2 := [MIDDLE]]
  {
    assert [NEAR] + [NEAR] == [NEAR, NEAR];
  }

  /**
    An address at distance 0, again 0 and then 9, beside one at distance 5: the average of 3 is
    below the range from 5 to 9, and the norm is not between 1 and 2.
   */
  method NormOutOfRange() returns (book: AddressBook)
    ensures fresh(book) && book.Valid() && 1 in book.addresses
    ensures book.range.min[1] == 5 && book.range.max[1] == 9 && book.addresses[1].infos[1].avg == 3
    ensures !(1.0 <= book.addresses[1].infos[1].norm <= 2.0)
  {
    book := ExampleTwice();
    assert 1 in PropsOf(book.addresses);
    See(book, 1, FAR);
    LastUpdate(PropsOf(book.addresses), book.histories);
    ExampleNorm(book.addresses, book.histories, book.range);
  }

  lemma LastUpdate(props: map<Id, Values>, histories: Histories)
    requires props == map[1 := NEAR, 2 := MIDDLE][1 := FAR]
    requires histories == map[1 := [NEAR, NEAR], 2 := [MIDDLE]][1 := [NEAR, NEAR] + [FAR]]
    ensures props == map[1 := FAR, 2 := MIDDLE] && 1 in histories && histories[1] == [NEAR, NEAR, FAR]
  {
  }
}
