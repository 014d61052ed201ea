/**
 Metric calculation: counters over raw event lists, and interpolated percentiles over
 exact reals.
 */
module Metrics {
  import opened Reals
  import opened Sequences
  import opened Wrappers

  // ---------- counters ----------

  function Tally(counts: map<string, int>, key: string, amount: int): map<string, int> {
    counts[key := (if key in counts then counts[key] else 0) + amount]
  }

  /** How often each key occurs. */
  function CountAll(keys: seq<string>): map<string, int> {
    if keys == [] then map[]
    else Tally(CountAll(keys[..|keys| - 1]), keys[|keys| - 1], 1)
  }

  /** The sum of the amounts paired with each key. */
  function WeighAll(keys: seq<string>, amounts: seq<int>): map<string, int>
    requires |keys| == |amounts|
  {
    if keys == [] then map[]
    else
      var n := |keys| - 1;
      Tally(WeighAll(keys[..n], amounts[..n]), keys[n], amounts[n])
  }

  function Sum(xs: seq<int>): int {
    if xs == [] then 0 else Sum(xs[..|xs| - 1]) + xs[|xs| - 1]
  }

  lemma CountSnoc(keys: seq<string>, key: string)
    ensures CountAll(keys + [key]) == Tally(CountAll(keys), key, 1)
  {
    DropLast(keys, key);
  }

  lemma WeighSnoc(keys: seq<string>, amounts: seq<int>, key: string, amount: int)
    requires |keys| == |amounts|
    ensures WeighAll(keys + [key], amounts + [amount]) == Tally(WeighAll(keys, amounts), key, amount)
    ensures Sum(amounts + [amount]) == Sum(amounts) + amount
  {
    DropLast(keys, key);
    DropLast(amounts, amount);
  }

  /** Every key that occurs is counted, with the number of its occurrences, and no other. */
  lemma {:induction false} CountIsMultiplicity(keys: seq<string>)
    ensures CountAll(keys).Keys == set k <- keys
    ensures forall k <- keys :: CountAll(keys)[k] == multiset(keys)[k]
  {
    if keys == [] {
    } else {
      var init, last := keys[..|keys| - 1], keys[|keys| - 1];
      CountIsMultiplicity(init);
      assert keys == init + [last];
    }
  }

  /** The amounts at the positions where `key` stands. */
  function AmountsOf(keys: seq<string>, amounts: seq<int>, key: string): seq<int>
    requires |keys| == |amounts|
  {
    if keys == [] then []
    else
      var rest := AmountsOf(keys[1..], amounts[1..], key);
      if keys[0] == key then [amounts[0]] + rest else rest
  }

  lemma SumCons(x: int, xs: seq<int>)
    ensures Sum([x] + xs) == x + Sum(xs)
    decreases |xs|
  {
    if xs == [] {
      assert [x] + xs == [] + [x];
    } else {
      assert ([x] + xs)[..|xs|] == [x] + xs[..|xs| - 1];
      SumCons(x, xs[..|xs| - 1]);
    }
  }

  lemma {:induction false} AmountsSnoc(keys: seq<string>, amounts: seq<int>, last: string, amount: int, key: string)
    requires |keys| == |amounts|
    ensures AmountsOf(keys + [last], amounts + [amount], key)
         == AmountsOf(keys, amounts, key) + if last == key then [amount] else []
  {
    if keys == [] {
      assert keys + [last] == [last] && amounts + [amount] == [amount];
      assert AmountsOf([last], [amount], key) == if last == key then [amount] + AmountsOf([], [], key) else [];
    } else {
      assert (keys + [last])[1..] == keys[1..] + [last] && (amounts + [amount])[1..] == amounts[1..] + [amount];
      AmountsSnoc(keys[1..], amounts[1..], last, amount, key);
    }
  }

  lemma {:induction false} WeightOfKey(keys: seq<string>, amounts: seq<int>, key: string)
    requires |keys| == |amounts|
    ensures key in WeighAll(keys, amounts) <==> key in keys
    ensures Sum(AmountsOf(keys, amounts, key)) == if key in keys then WeighAll(keys, amounts)[key] else 0
  {
    if keys == [] {
    } else {
      hide AmountsOf, WeighAll, Sum;
      var n := |keys| - 1;
      WeightOfKey(keys[..n], amounts[..n], key);
      assert keys == keys[..n] + [keys[n]] && amounts == amounts[..n] + [amounts[n]];
      AmountsSnoc(keys[..n], amounts[..n], keys[n], amounts[n], key);
      WeighSnoc(keys[..n], amounts[..n], keys[n], amounts[n]);
      var before := AmountsOf(keys[..n], amounts[..n], key);
      SumSnoc(before, amounts[n]);
      assert before + [] == before;
    }
  }

  lemma SumSnoc(xs: seq<int>, x: int)
    ensures Sum(xs + [x]) == Sum(xs) + x
  {
    DropLast(xs, x);
  }

  /** Every key that occurs is weighed, with the sum of the amounts at its positions, and no other. */
  lemma WeightIsPositionalSum(keys: seq<string>, amounts: seq<int>)
    requires |keys| == |amounts|
    ensures WeighAll(keys, amounts).Keys == set k <- keys
    ensures forall k <- keys :: WeighAll(keys, amounts)[k] == Sum(AmountsOf(keys, amounts, k))
  {
    forall k ensures k in WeighAll(keys, amounts) <==> k in keys
      ensures k in keys ==> WeighAll(keys, amounts)[k] == Sum(AmountsOf(keys, amounts, k))
    {
      WeightOfKey(keys, amounts, k);
    }
  }

  /** The values of a table, in the order in which `keys` lists it. */
  function Listed(table: map<string, int>, keys: seq<string>): seq<int>
    requires forall k <- keys :: k in table
  {
    seq(|keys|, i requires 0 <= i < |keys| => table[keys[i]])
  }

  /** Raising the value of one listed key raises the sum by as much. */
  lemma {:induction false} RaiseListed(table: map<string, int>, keys: seq<string>, key: string, amount: int)
    requires Distinct(keys) && (forall k <- keys :: k in table) && key in table
    ensures forall k <- keys :: k in table[key := table[key] + amount]
    ensures Sum(Listed(table[key := table[key] + amount], keys))
         == Sum(Listed(table, keys)) + if key in keys then amount else 0
  {
    var raised := table[key := table[key] + amount];
    if keys == [] {
    } else {
      var init, last := keys[..|keys| - 1], keys[|keys| - 1];
      RaiseListed(table, init, key, amount);
      assert Listed(table, keys)[..|init|] == Listed(table, init);
      assert Listed(raised, keys)[..|init|] == Listed(raised, init);
      assert keys == init + [last];
      assert forall i :: 0 <= i < |init| ==> init[i] == keys[i];
    }
  }

  lemma {:induction false} ZeroListed(table: map<string, int>, keys: seq<string>)
    requires forall k <- keys :: k in table && table[k] == 0
    ensures Sum(Listed(table, keys)) == 0
  {
    if keys == [] {
    } else {
      var init := keys[..|keys| - 1];
      assert Listed(table, keys)[..|init|] == Listed(table, init);
      ZeroListed(table, init);
    }
  }

  /** Added over any listing of the different keys, the weights total all amounts. */
  lemma WeightsTotal(keys: seq<string>, amounts: seq<int>, listing: seq<string>)
    requires |keys| == |amounts| && Distinct(listing) && forall k :: k in listing <==> k in keys
    ensures forall k <- listing :: k in WeighAll(keys, amounts)
    ensures Sum(Listed(WeighAll(keys, amounts), listing)) == Sum(amounts)
  {
    WeightIsPositionalSum(keys, amounts);
    PaddedTotal(keys, amounts, listing);
    assert Listed(Padded(keys, amounts, listing), listing) == Listed(WeighAll(keys, amounts), listing);
  }

  /** The weights over a listing, zero where a key has not occurred. */
  function Padded(keys: seq<string>, amounts: seq<int>, listing: seq<string>): map<string, int>
    requires |keys| == |amounts|
  {
    var weights := WeighAll(keys, amounts);
    map k <- listing :: if k in weights then weights[k] else 0
  }

  lemma {:induction false} PaddedTotal(keys: seq<string>, amounts: seq<int>, listing: seq<string>)
    requires |keys| == |amounts| && Distinct(listing) && forall k <- keys :: k in listing
    ensures Sum(Listed(Padded(keys, amounts, listing), listing)) == Sum(amounts)
  {
    if keys == [] {
      ZeroListed(Padded(keys, amounts, listing), listing);
    } else {
      var n := |keys| - 1;
      var before := Padded(keys[..n], amounts[..n], listing);
      PaddedTotal(keys[..n], amounts[..n], listing);
      RaiseListed(before, listing, keys[n], amounts[n]);
      assert keys[n] in listing;
      assert Padded(keys, amounts, listing) == before[keys[n] := before[keys[n]] + amounts[n]];
    }
  }

  // ---------- percentiles ----------

  predicate Ordered(xs: seq<real>) {
    forall i, j :: 0 <= i < j < |xs| ==> xs[i] <= xs[j]
  }

  function Insert(xs: seq<real>, x: real): seq<real> {
    if xs == [] then [x]
    else if x <= xs[0] then [x] + xs
    else [xs[0]] + Insert(xs[1..], x)
  }

  function Sort(xs: seq<real>): seq<real> {
    if xs == [] then [] else Insert(Sort(xs[..|xs| - 1]), xs[|xs| - 1])
  }

  lemma {:induction false} InsertKeeps(xs: seq<real>, x: real)
    ensures multiset(Insert(xs, x)) == multiset(xs) + multiset{x}
    ensures |Insert(xs, x)| == |xs| + 1
    ensures forall y <- Insert(xs, x) :: y == x || y in xs
  {
    if xs == [] || x <= xs[0] {
      assert Insert(xs, x) == [x] + xs;
    } else {
      InsertKeeps(xs[1..], x);
      assert xs == [xs[0]] + xs[1..];
    }
  }

  lemma {:induction false} InsertOrders(xs: seq<real>, x: real)
    requires Ordered(xs)
    ensures Ordered(Insert(xs, x))
  {
    if xs == [] || x <= xs[0] {
      assert Insert(xs, x) == [x] + xs;
    } else {
      InsertOrders(xs[1..], x);
      InsertKeeps(xs[1..], x);
      var rest := Insert(xs[1..], x);
      forall i | 0 <= i < |rest| ensures xs[0] <= rest[i] {
        assert rest[i] in rest;
      }
    }
  }

  /** Sorting yields an ordered permutation. */
  lemma {:induction false} SortIsOrderedPermutation(xs: seq<real>)
    ensures Ordered(Sort(xs)) && multiset(Sort(xs)) == multiset(xs) && |Sort(xs)| == |xs|
  {
    if xs == [] {
    } else {
      var init := xs[..|xs| - 1];
      SortIsOrderedPermutation(init);
      InsertOrders(Sort(init), xs[|xs| - 1]);
      InsertKeeps(Sort(init), xs[|xs| - 1]);
      assert xs == init + [xs[|xs| - 1]];
    }
  }

  /** Linear interpolation between the two samples around `position`. */
  function Interpolate(ordered: seq<real>, position: real): real
    requires 0.0 <= position <= (|ordered| - 1) as real
  {
    var lower, upper := position.Floor, Ceiling(position);
    if lower == upper then ordered[lower]
    else ordered[lower] + (ordered[upper] - ordered[lower]) * (position - lower as real)
  }

  datatype PercentileError = BadProportion

  function PercentileOrdered(ordered: seq<real>, proportion: real, minimumSamples: nat := 1)
    : Result<Option<real>, PercentileError>
    requires minimumSamples > 0
  {
    if |ordered| < minimumSamples then Ok(None)
    else if !(0.0 <= proportion <= 1.0) then Err(BadProportion)
    else if |ordered| == 1 then Ok(Some(ordered[0]))
    else
      PositionInRange(|ordered|, proportion);
      Ok(Some(Interpolate(ordered, Position(|ordered|, proportion))))
  }

  function Percentile(values: seq<real>, proportion: real, minimumSamples: nat := 1)
    : Result<Option<real>, PercentileError>
    requires minimumSamples > 0
  {
    if |values| < minimumSamples then Ok(None) else PercentileOrdered(Sort(values), proportion, minimumSamples)
  }

  function Position(n: nat, proportion: real): real {
    (n - 1) as real * proportion
  }

  lemma PositionInRange(n: nat, proportion: real)
    requires n >= 1 && 0.0 <= proportion <= 1.0
    ensures 0.0 <= Position(n, proportion) <= (n - 1) as real
  {
    FractionOf((n - 1) as real, proportion);
  }

  lemma ScaleUp(x: real, p: real, q: real)
    requires p <= q && x >= 0.0
    ensures x * p <= x * q
  {}

  /** Interpolation stays between its two neighbors. */
  lemma InterpolateBetween(ordered: seq<real>, x: real)
    requires Ordered(ordered) && 0.0 <= x <= (|ordered| - 1) as real
    ensures ordered[x.Floor] <= Interpolate(ordered, x) <= ordered[Ceiling(x)]
  {
    var lower, upper := x.Floor, Ceiling(x);
    if lower != upper {
      Blend(ordered[lower], ordered[upper], x - lower as real);
    }
  }

  lemma Blend(a: real, b: real, f: real)
    requires a <= b && 0.0 <= f <= 1.0
    ensures a <= a + (b - a) * f <= b
  {}

  lemma BlendMonotone(a: real, b: real, f: real, g: real)
    requires a <= b && f <= g
    ensures (b - a) * f <= (b - a) * g
  {}

  lemma InterpolateMonotone(ordered: seq<real>, x: real, y: real)
    requires Ordered(ordered) && 0.0 <= x <= y <= (|ordered| - 1) as real
    ensures Interpolate(ordered, x) <= Interpolate(ordered, y)
  {
    InterpolateBetween(ordered, x);
    InterpolateBetween(ordered, y);
    if x.Floor == y.Floor && Ceiling(x) == Ceiling(y) && x.Floor != Ceiling(x) {
      BlendMonotone(ordered[x.Floor], ordered[Ceiling(x)], x - x.Floor as real, y - x.Floor as real);
    } else if x.Floor != y.Floor {
      assert Ceiling(x) <= y.Floor;
    }
  }

  /** A larger proportion never gives a smaller percentile, and all lie within the sample. */
  lemma PercentileMonotone(ordered: seq<real>, p: real, q: real)
    requires ordered != [] && Ordered(ordered) && 0.0 <= p <= q <= 1.0
    ensures var a, b := PercentileOrdered(ordered, p), PercentileOrdered(ordered, q);
            && a.Ok? && b.Ok? && a.value.Some? && b.value.Some?
            && ordered[0] <= a.value.value <= b.value.value <= ordered[|ordered| - 1]
  {
    if |ordered| > 1 {
      var x, y := Position(|ordered|, p), Position(|ordered|, q);
      PositionsInOrder(|ordered|, p, q);
      InterpolateWithinSample(ordered, x, y);
    }
  }

  lemma PositionsInOrder(n: nat, p: real, q: real)
    requires n >= 1 && 0.0 <= p <= q <= 1.0
    ensures 0.0 <= Position(n, p) <= Position(n, q) <= (n - 1) as real
  {
    PositionInRange(n, p);
    PositionInRange(n, q);
    ScaleUp((n - 1) as real, p, q);
  }

  lemma InterpolateWithinSample(ordered: seq<real>, x: real, y: real)
    requires ordered != [] && Ordered(ordered) && 0.0 <= x <= y <= (|ordered| - 1) as real
    ensures ordered[0] <= Interpolate(ordered, x) <= Interpolate(ordered, y) <= ordered[|ordered| - 1]
  {
    InterpolateMonotone(ordered, x, y);
    InterpolateBetween(ordered, x);
    InterpolateBetween(ordered, y);
  }

  /** The percentile depends on the sample only, not on the order it arrived in. */
  lemma PercentileIgnoresOrder(a: seq<real>, b: seq<real>, proportion: real, minimumSamples: nat)
    requires multiset(a) == multiset(b) && minimumSamples > 0
    ensures Percentile(a, proportion, minimumSamples) == Percentile(b, proportion, minimumSamples)
  {
    assert |multiset(a)| == |a| && |multiset(b)| == |b|;
    SortIsOrderedPermutation(a);
    SortIsOrderedPermutation(b);
    SortedIsUnique(Sort(a), Sort(b));
  }

  lemma SameFirst(a: seq<real>, b: seq<real>)
    requires Ordered(a) && Ordered(b) && multiset(a) == multiset(b) && a != [] && b != []
    ensures a[0] == b[0]
  {
    assert a[0] in multiset(b) && b[0] in multiset(a);
  }

  lemma {:induction false} SortedIsUnique(a: seq<real>, b: seq<real>)
    requires Ordered(a) && Ordered(b) && multiset(a) == multiset(b)
    ensures a == b
  {
    assert |multiset(a)| == |a| && |multiset(b)| == |b|;
    if a == [] {
      assert b == [];
    } else {
      assert a == [a[0]] + a[1..] && b == [b[0]] + b[1..];
      SameFirst(a, b);
      RestOf(a);
      RestOf(b);
      SortedIsUnique(a[1..], b[1..]);
    }
  }

  /**
     The percentile of any sample, by any ordered listing of it: with too few values none, for a
     proportion outside [0, 1] an error, and otherwise the point at `k + f` of the positions
     0 to n - 1, on the straight line between its two neighbors.
   */
  lemma PercentileIsOnTheLine(values: seq<real>, ordered: seq<real>, p: real, minimum: nat, k: nat, f: real)
    requires minimum > 0 && multiset(ordered) == multiset(values)
    requires forall i, j :: 0 <= i < j < |ordered| ==> ordered[i] <= ordered[j]
    ensures |values| < minimum ==> Percentile(values, p, minimum) == Ok(None)
    ensures |values| >= minimum && (p < 0.0 || p > 1.0) ==> Percentile(values, p, minimum) == Err(BadProportion)
    ensures |values| >= minimum && 0.0 <= p <= 1.0 && 0.0 <= f < 1.0 && k as real + f == (|values| - 1) as real * p ==>
              && k < |ordered| && (f > 0.0 ==> k + 1 < |ordered|)
              && Percentile(values, p, minimum)
                 == Ok(Some(if f == 0.0 then ordered[k] else (1.0 - f) * ordered[k] + f * ordered[k + 1]))
  {
    hide Percentile, Interpolate, Position;
    PercentileOfListing(values, ordered, p, minimum);
    if |values| >= minimum && 0.0 <= p <= 1.0 && 0.0 <= f < 1.0 && k as real + f == (|values| - 1) as real * p {
      PositionIs(|values|, p, k as real + f);
      PointOnTheLine(ordered, k, f);
    }
  }

  lemma PositionIs(n: nat, p: real, x: real)
    requires n >= 1 && 0.0 <= p <= 1.0 && x == (n - 1) as real * p
    ensures Position(n, p) == x <= (n - 1) as real
  {
    PositionInRange(n, p);
  }

  lemma PercentileOfListing(values: seq<real>, ordered: seq<real>, p: real, minimum: nat)
    requires minimum > 0 && multiset(ordered) == multiset(values) && Ordered(ordered)
    ensures |ordered| == |values|
    ensures |values| < minimum ==> Percentile(values, p, minimum) == Ok(None)
    ensures |values| >= minimum && (p < 0.0 || p > 1.0) ==> Percentile(values, p, minimum) == Err(BadProportion)
    ensures |values| >= minimum && 0.0 <= p <= 1.0 ==>
              && 0.0 <= Position(|values|, p) <= (|values| - 1) as real
              && Percentile(values, p, minimum)
                 == Ok(Some(if |values| == 1 then ordered[0] else Interpolate(ordered, Position(|values|, p))))
  {
    hide Sort, Interpolate, Position;
    SortIsListing(values, ordered);
    if |values| >= minimum && 0.0 <= p <= 1.0 {
      PositionInRange(|values|, p);
    }
  }

  /** Sorting finds the one ordered listing. */
  lemma SortIsListing(values: seq<real>, ordered: seq<real>)
    requires Ordered(ordered) && multiset(ordered) == multiset(values)
    ensures Sort(values) == ordered && |ordered| == |values|
  {
    SortIsOrderedPermutation(values);
    SortedIsUnique(Sort(values), ordered);
  }

  lemma PointOnTheLine(ordered: seq<real>, k: nat, f: real)
    requires 0.0 <= f < 1.0 && k as real + f <= (|ordered| - 1) as real
    ensures k < |ordered| && (f > 0.0 ==> k + 1 < |ordered|)
    ensures Interpolate(ordered, k as real + f)
         == if f == 0.0 then ordered[k] else (1.0 - f) * ordered[k] + f * ordered[k + 1]
  {
    NeighborsOf(k, f);
    hide Ceiling;
    if f > 0.0 {
      WeightedMean(ordered[k], ordered[k + 1], f);
    }
  }

  lemma NeighborsOf(k: nat, f: real)
    requires 0.0 <= f < 1.0
    ensures (k as real + f).Floor == k && Ceiling(k as real + f) == if f == 0.0 then k else k + 1
  {}

  lemma WeightedMean(a: real, b: real, f: real)
    ensures a + (b - a) * f == (1.0 - f) * a + f * b
  {}

  lemma MiddlePair(values: seq<real>, ordered: seq<real>, lower: nat)
    requires |values| == 2 * lower + 2 && multiset(ordered) == multiset(values) && Ordered(ordered)
    ensures |ordered| == |values|
    ensures Percentile(values, 0.5) == Ok(Some((ordered[lower] + ordered[lower + 1]) / 2.0))
  {
    hide Percentile, Interpolate, Position, Ordered;
    PercentileOfListing(values, ordered, 0.5, 1);
    assert lower as real + 0.5 == (|values| - 1) as real * 0.5;
    PositionIs(|values|, 0.5, lower as real + 0.5);
    PointHalfway(ordered, lower, 0.5);
  }

  lemma PointHalfway(ordered: seq<real>, k: nat, f: real)
    requires k + 1 < |ordered| && f == 0.5
    ensures Interpolate(ordered, k as real + f) == (ordered[k] + ordered[k + 1]) / 2.0
  {
    PointOnTheLine(ordered, k, f);
  }

  /** The median is the middle value, or the mean of the two in the middle. */
  lemma MedianIsInTheMiddle(values: seq<real>, ordered: seq<real>, half: nat)
    requires values != [] && multiset(ordered) == multiset(values)
    requires forall i, j :: 0 <= i < j < |ordered| ==> ordered[i] <= ordered[j]
    ensures |ordered| == |values|
    ensures |values| == 2 * half + 1 ==> Percentile(values, 0.5) == Ok(Some(ordered[half]))
    ensures |values| == 2 * half ==> Percentile(values, 0.5) == Ok(Some((ordered[half - 1] + ordered[half]) / 2.0))
  {
    hide Percentile;
    PercentileOfListing(values, ordered, 0.5, 1);
    if |values| == 2 * half + 1 {
      PercentileIsOnTheLine(values, ordered, 0.5, 1, half, 0.0);
    } else if |values| == 2 * half {
      MiddlePair(values, ordered, half - 1);
    }
  }

  lemma RestOf(a: seq<real>)
    requires a != []
    ensures multiset(a[1..]) == multiset(a) - multiset{a[0]}
  {
    assert a == [a[0]] + a[1..];
  }

  // ---------- snapshots ----------

  lemma NothingCounted()
    ensures CountAll([]) == map[] && WeighAll([], []) == map[] && Sum([]) == 0
  {}

  datatype Snapshot = Snapshot(
    generated: nat,
    uniqueDelivered: nat,
    deliveryRatio: Option<real>,
    receiverDeliveries: nat,
    receiverDeliveryRatio: Option<real>,
    acknowledgmentRatio: Option<real>,
    medianMs: Option<real>,
    p95Ms: Option<real>,
    p99Ms: Option<real>,
    rfTransmissions: nat,
    rfPerDelivery: Option<real>,
    relayTransmissions: nat,
    duplicates: nat,
    failedReceptions: nat,
    dropsByReason: map<string, int>,
    observedAirtimeMs: int,
    perNodeTransmitCounts: map<string, int>,
    perNodeAirtimeMs: map<string, int>,
    eventLoopLagMs: Option<real>,
    receiversPerBroadcast: map<nat, nat>)

  function Ratio(a: nat, b: nat): Option<real> {
    if b == 0 then None else Some(a as real / b as real)
  }

  /** A ratio is undefined exactly for denominator zero, and otherwise solves x * b = a. */
  lemma RatioSolves(a: nat, b: nat, x: real)
    ensures Ratio(a, b) == None <==> b == 0
    ensures b > 0 ==> (Ratio(a, b) == Some(x) <==> x * b as real == a as real)
  {}

  lemma RatioIsFraction(a: nat, b: nat)
    requires a <= b && b > 0
    ensures Ratio(a, b).Some? && 0.0 <= Ratio(a, b).value <= 1.0
  {}

  function OrNone(r: Result<Option<real>, PercentileError>): Option<real> {
    if r.Ok? then r.value else None
  }

  /** The scalar inputs of a calculation, before anything is derived from raw lists. */
  datatype Scalars = Scalars(
    generated: nat, delivered: nat, acknowledged: nat, acknowledgmentExpected: nat,
    relayTransmissions: nat, duplicates: nat, failedReceptions: nat, lag: Option<real>,
    receiverDeliveries: nat, receiverOpportunities: nat, receiversPerBroadcast: map<nat, nat>)

  function Assemble(s: Scalars, latencies: seq<real>, rfCount: nat, drops: map<string, int>, airtime: int,
                    transmits: map<string, int>, airtimes: map<string, int>): Snapshot {
    var ordered := Sort(latencies);
    Snapshot(
      s.generated, s.delivered, Ratio(s.delivered, s.generated),
      s.receiverDeliveries, Ratio(s.receiverDeliveries, s.receiverOpportunities),
      Ratio(s.acknowledged, s.acknowledgmentExpected),
      OrNone(PercentileOrdered(ordered, 0.5)), OrNone(PercentileOrdered(ordered, 0.95, 20)),
      OrNone(PercentileOrdered(ordered, 0.99, 100)),
      rfCount, Ratio(rfCount, s.delivered), s.relayTransmissions, s.duplicates, s.failedReceptions,
      drops, airtime, transmits, airtimes, s.lag, s.receiversPerBroadcast)
  }

  /** Everything derived from the raw lists; the strict pairing fails on unequal lengths. */
  method CalculateFromLists(s: Scalars, latencies: seq<real>, transmitters: seq<string>, airtimes: seq<int>,
                            drops: seq<string>)
    returns (r: Result<Snapshot, ()>)
    ensures r.Ok? <==> |transmitters| == |airtimes|
    ensures r.Ok? ==> r.value == Assemble(s, latencies, |transmitters|, CountAll(drops), Sum(airtimes),
                                          CountAll(transmitters), WeighAll(transmitters, airtimes))
    ensures r.Ok? ==>
              && r.value.dropsByReason.Keys == (set d <- drops)
              && (forall d <- drops :: r.value.dropsByReason[d] == multiset(drops)[d])
              && r.value.perNodeTransmitCounts.Keys == (set t <- transmitters)
              && (forall t <- transmitters :: r.value.perNodeTransmitCounts[t] == multiset(transmitters)[t])
              && r.value.perNodeAirtimeMs.Keys == (set t <- transmitters)
              && (forall t <- transmitters ::
                    r.value.perNodeAirtimeMs[t] == Sum(AmountsOf(transmitters, airtimes, t)))
  {
    CountIsMultiplicity(drops);
    CountIsMultiplicity(transmitters);
    hide CountAll, WeighAll, Sum, AmountsOf, Sort, Ratio, PercentileOrdered, OrNone;
    if |transmitters| != |airtimes| {
      return Err(());
    }
    var byTransmitter: map<string, int> := map[];
    var counts: map<string, int> := map[];
    var total := 0;
    NothingCounted();
    for i := 0 to |transmitters|
      invariant byTransmitter == WeighAll(transmitters[..i], airtimes[..i])
      invariant counts == CountAll(transmitters[..i]) && total == Sum(airtimes[..i])
    {
      assert transmitters[..i + 1] == transmitters[..i] + [transmitters[i]];
      assert airtimes[..i + 1] == airtimes[..i] + [airtimes[i]];
      WeighSnoc(transmitters[..i], airtimes[..i], transmitters[i], airtimes[i]);
      CountSnoc(transmitters[..i], transmitters[i]);
      byTransmitter := Tally(byTransmitter, transmitters[i], airtimes[i]);
      counts := Tally(counts, transmitters[i], 1);
      total := total + airtimes[i];
    }
    assert transmitters[..|transmitters|] == transmitters && airtimes[..|airtimes|] == airtimes;
    WeightIsPositionalSum(transmitters, airtimes);
    return Ok(Assemble(s, latencies, |transmitters|, CountAll(drops), total, counts, byTransmitter));
  }
}
