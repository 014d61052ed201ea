/**
 The generation schedule of a traffic run: how many messages each source offers, when,
 and in which order the merged schedule submits them. Times are exact reals.
 */
module Schedule {
  import opened Reals
  import opened Sequences

  datatype SourceTiming = Aligned | EvenlyStaggered | DeterministicJitter

  datatype Flow = Flow(sources: seq<string>, messagesPerMinute: real, timing: SourceTiming)

  /** What the request's own validation promises of a flow. */
  predicate Admissible(flow: Flow) {
    flow.sources != [] && flow.messagesPerMinute > 0.0
  }

  function Interval(flow: Flow): real
    requires Admissible(flow)
  {
    60.0 / flow.messagesPerMinute
  }

  function MessagesPerSource(duration: real, messagesPerMinute: real): (n: nat)
    ensures n >= 1
  {
    var offered := Ceiling(duration * messagesPerMinute / 60.0);
    if offered > 1 then offered else 1
  }

  // ---------- how many, and how late ----------

  lemma IntervalTimesRate(rate: real)
    requires rate > 0.0
    ensures 60.0 / rate > 0.0 && (60.0 / rate) * rate == 60.0
  {}

  lemma ScaleIsMonotone(x: real, y: real, c: real)
    requires c > 0.0
    ensures x < y <==> x * c < y * c
  {}

  /** The messages of a source are exactly the ticks that start before the duration is over. */
  lemma TicksInsideDuration(duration: real, rate: real, k: nat)
    requires duration > 0.0 && rate > 0.0
    ensures k < MessagesPerSource(duration, rate) <==> (k as real) * (60.0 / rate) < duration
  {
    var interval := 60.0 / rate;
    IntervalTimesRate(rate);
    TickBeforeEnd(k as real, interval, rate, duration);
    var offered := duration * rate / 60.0;
    ScaleIsMonotone(0.0, duration, rate);
    BelowCeiling(k, offered);
  }

  lemma Reassociate(x: real, y: real, z: real)
    ensures (x * y) * z == x * (y * z)
  {}

  lemma TickBeforeEnd(k: real, interval: real, rate: real, duration: real)
    requires rate > 0.0 && interval * rate == 60.0
    ensures k * interval < duration <==> k * 60.0 < duration * rate
  {
    ScaleIsMonotone(k * interval, duration, rate);
    Reassociate(k, interval, rate);
  }

  lemma BelowCeiling(k: nat, x: real)
    requires x > 0.0
    ensures k < (if Ceiling(x) > 1 then Ceiling(x) else 1) <==> k as real < x
  {}

  /** `jitter` is the seeded random stream, one number in [0, 1) per source. */
  function SourceOffsets(flow: Flow, jitter: seq<real>): (offsets: seq<real>)
    requires Admissible(flow) && |jitter| == |flow.sources|
    ensures |offsets| == |flow.sources|
  {
    var n, interval := |flow.sources|, Interval(flow);
    match flow.timing
    case Aligned => seq(n, _ => 0.0)
    case EvenlyStaggered => seq(n, i => (i as real) * interval / (n as real))
    case DeterministicJitter => seq(n, i requires 0 <= i < n => jitter[i] * interval)
  }

  predicate UnitInterval(jitter: seq<real>) {
    forall i :: 0 <= i < |jitter| ==> 0.0 <= jitter[i] < 1.0
  }

  lemma FractionBelow(i: nat, n: nat, interval: real)
    requires i < n && interval > 0.0
    ensures 0.0 <= (i as real) * interval / (n as real) < interval
  {
    var x := (i as real) * interval / (n as real);
    assert x * (n as real) == (i as real) * interval;
    ScaleIsMonotone(i as real, n as real, interval);
    ScaleIsMonotone(x, interval, n as real);
    if x < 0.0 {
      ScaleIsMonotone(x, 0.0, n as real);
    }
  }

  lemma OffsetsBelowInterval(flow: Flow, jitter: seq<real>, i: nat)
    requires Admissible(flow) && |jitter| == |flow.sources| && UnitInterval(jitter) && i < |flow.sources|
    ensures 0.0 <= SourceOffsets(flow, jitter)[i] < Interval(flow)
    ensures flow.timing.Aligned? ==> SourceOffsets(flow, jitter)[i] == 0.0
  {
    IntervalTimesRate(flow.messagesPerMinute);
    var interval := Interval(flow);
    match flow.timing
    case Aligned =>
    case EvenlyStaggered => FractionBelow(i, |flow.sources|, interval);
    case DeterministicJitter =>
      FractionOf(interval, jitter[i]);
      assert SourceOffsets(flow, jitter)[i] == jitter[i] * interval;
  }

  /** Aligned flows stay strictly inside the duration; the others overrun by less than one interval. */
  lemma GenerationBound(flow: Flow, jitter: seq<real>, duration: real, i: nat, k: nat)
    requires Admissible(flow) && |jitter| == |flow.sources| && UnitInterval(jitter)
    requires duration > 0.0 && i < |flow.sources| && k < MessagesPerSource(duration, flow.messagesPerMinute)
    ensures var at := SourceOffsets(flow, jitter)[i] + (k as real) * Interval(flow);
            at < duration + Interval(flow) && (flow.timing.Aligned? ==> at < duration)
  {
    OffsetsBelowInterval(flow, jitter, i);
    TicksInsideDuration(duration, flow.messagesPerMinute, k);
  }

  // ---------- the merged order ----------

  /** One cadence of the merge: a source of a flow. */
  datatype Cadence = Cadence(offset: real, interval: real)

  /** `cadences[f][s]` belongs to source `s` of flow `f`; `messages[f]` to all of its sources. */
  datatype Plan = Plan(cadences: seq<seq<Cadence>>, messages: seq<nat>)

  predicate ValidPlan(p: Plan) {
    && |p.messages| == |p.cadences|
    && (forall f :: 0 <= f < |p.messages| ==> p.messages[f] > 0)
    && (forall f, s :: 0 <= f < |p.cadences| && 0 <= s < |p.cadences[f]| ==> p.cadences[f][s].interval > 0.0)
  }

  /** The plan of a request; sources are unique within a flow, so positions identify them. */
  function PlanOf(flows: seq<Flow>, jitter: seq<seq<real>>, duration: real): (p: Plan)
    requires |jitter| == |flows|
    requires forall f :: 0 <= f < |flows| ==> Admissible(flows[f]) && |jitter[f]| == |flows[f].sources|
  {
    var cadences := seq(|flows|, f requires 0 <= f < |flows| =>
      var offsets := SourceOffsets(flows[f], jitter[f]);
      seq(|offsets|, s requires 0 <= s < |offsets| => Cadence(offsets[s], Interval(flows[f]))));
    var messages := seq(|flows|, f requires 0 <= f < |flows| =>
                        MessagesPerSource(duration, flows[f].messagesPerMinute));
    Plan(cadences, messages)
  }

  lemma PlanOfIsValid(flows: seq<Flow>, jitter: seq<seq<real>>, duration: real)
    requires |jitter| == |flows|
    requires forall f :: 0 <= f < |flows| ==> Admissible(flows[f]) && |jitter[f]| == |flows[f].sources|
    ensures ValidPlan(PlanOf(flows, jitter, duration))
  {
    forall f | 0 <= f < |flows| ensures Interval(flows[f]) > 0.0 {
      IntervalTimesRate(flows[f].messagesPerMinute);
    }
  }

  datatype Tick = Tick(flow: nat, source: nat, tick: nat)

  predicate Planned(p: Plan, t: Tick) {
    && |p.messages| == |p.cadences| && t.flow < |p.cadences|
    && t.source < |p.cadences[t.flow]| && t.tick < p.messages[t.flow]
  }

  function At(p: Plan, t: Tick): real
    requires t.flow < |p.cadences| && t.source < |p.cadences[t.flow]|
  {
    var c := p.cadences[t.flow][t.source];
    c.offset + (t.tick as real) * c.interval
  }

  /** Earlier, or at the same time with the smaller flow and source position. */
  predicate Before(p: Plan, a: Tick, b: Tick)
    requires Planned(p, a) && Planned(p, b)
  {
    || At(p, a) < At(p, b)
    || (At(p, a) == At(p, b) && (a.flow < b.flow || (a.flow == b.flow && a.source < b.source)))
  }

  ghost predicate Sorted(p: Plan, order: seq<Tick>)
    requires forall t <- order :: Planned(p, t)
  {
    forall i, j :: 0 <= i < j < |order| ==> Before(p, order[i], order[j])
  }

  type Key = (nat, nat)

  predicate KeyPlanned(p: Plan, k: Key) {
    k.0 < |p.cadences| && k.1 < |p.cadences[k.0]|
  }

  /** The keys of the merge: every source of every flow. */
  function AllKeys(p: Plan): set<Key>
    requires |p.messages| == |p.cadences|
  {
    set t <- AllTicks(p, |p.cadences|) | t.tick == 0 :: (t.flow, t.source)
  }

  predicate Pending(p: Plan, next: map<Key, nat>) {
    && |p.messages| == |p.cadences|
    && forall k <- next :: KeyPlanned(p, k) && next[k] < p.messages[k.0]
  }

  function NextOf(next: map<Key, nat>, k: Key): Tick
    requires k in next
  {
    Tick(k.0, k.1, next[k])
  }

  /** The pending key whose next tick comes first. */
  method Earliest(p: Plan, next: map<Key, nat>) returns (best: Key)
    requires Pending(p, next) && next.Keys != {}
    ensures IsEarliest(p, next, best)
  {
    best :| best in next;
    var left := next.Keys - {best};
    while left != {}
      invariant left <= next.Keys && best in next && best !in left
      invariant forall k <- next.Keys - left :: k != best ==> Before(p, NextOf(next, best), NextOf(next, k))
      decreases left
    {
      var k :| k in left;
      if Before(p, NextOf(next, k), NextOf(next, best)) {
        best := k;
      }
      left := left - {k};
    }
  }

  /** Ticks already submitted: those of finished keys, and those before a pending key's next. */
  predicate Emitted(p: Plan, next: map<Key, nat>, t: Tick) {
    Planned(p, t) && ((t.flow, t.source) in next ==> t.tick < next[(t.flow, t.source)])
  }

  ghost predicate Merging(p: Plan, next: map<Key, nat>, order: seq<Tick>) {
    && Pending(p, next)
    && (forall t :: t in order <==> Emitted(p, next, t))
    && Sorted(p, order)
    && (forall t <- order, k <- next :: Before(p, t, NextOf(next, k)))
  }

  function Advance(p: Plan, next: map<Key, nat>, key: Key): map<Key, nat>
    requires Pending(p, next) && key in next
  {
    if next[key] + 1 == p.messages[key.0] then next - {key} else next[key := next[key] + 1]
  }

  ghost predicate IsEarliest(p: Plan, next: map<Key, nat>, key: Key) {
    Pending(p, next) && key in next && forall k <- next :: k != key ==> Before(p, NextOf(next, key), NextOf(next, k))
  }

  lemma AdvanceEmits(p: Plan, next: map<Key, nat>, key: Key)
    requires Pending(p, next) && key in next
    ensures Pending(p, Advance(p, next, key))
    ensures forall t :: Emitted(p, Advance(p, next, key), t) <==> Emitted(p, next, t) || t == NextOf(next, key)
  {}

  lemma NextIsLater(p: Plan, next: map<Key, nat>, key: Key)
    requires ValidPlan(p) && IsEarliest(p, next, key)
    ensures var after := Advance(p, next, key);
            Pending(p, after) && forall k <- after :: Before(p, NextOf(next, key), NextOf(after, k))
  {
    AdvanceEmits(p, next, key);
    NextTickIsLater(p, key, next[key]);
    hide At;
  }

  lemma NextTickIsLater(p: Plan, key: Key, tick: nat)
    requires ValidPlan(p) && KeyPlanned(p, key)
    ensures At(p, Tick(key.0, key.1, tick)) < At(p, Tick(key.0, key.1, tick + 1))
  {
    ScaleIsMonotone(tick as real, (tick + 1) as real, p.cadences[key.0][key.1].interval);
  }

  lemma BeforeIsTransitive(p: Plan, a: Tick, b: Tick, c: Tick)
    requires Planned(p, a) && Planned(p, b) && Planned(p, c) && Before(p, a, b) && Before(p, b, c)
    ensures Before(p, a, c)
  {}

  lemma MergeStep(p: Plan, next: map<Key, nat>, order: seq<Tick>, key: Key)
    requires ValidPlan(p) && Merging(p, next, order) && IsEarliest(p, next, key)
    ensures Merging(p, Advance(p, next, key), order + [NextOf(next, key)])
    ensures NextOf(next, key) !in order
  {
    var t, after := NextOf(next, key), Advance(p, next, key);
    var longer := order + [t];
    AdvanceEmits(p, next, key);
    NextIsLater(p, next, key);
    assert forall x :: x in longer <==> x in order || x == t;
    forall x <- longer, k <- after ensures Before(p, x, NextOf(after, k)) {
      if x != t {
        BeforeIsTransitive(p, x, t, NextOf(after, k));
      }
    }
    assert forall i :: 0 <= i < |order| ==> order[i] in order;
  }

  /** Before the loop every key waits with its first tick, and nothing has been submitted. */
  lemma StartMerging(p: Plan, next: map<Key, nat>)
    requires ValidPlan(p) && next.Keys == AllKeys(p) && forall k <- next :: next[k] == 0
    ensures Merging(p, next, [])
  {
    AllTicksMembers(p, |p.cadences|);
    forall t | Planned(p, t) ensures (t.flow, t.source) in next {
      assert Tick(t.flow, t.source, 0) in AllTicks(p, |p.cadences|);
    }
  }

  /** Ordered by the times their cadences give, then by flow, then by source. */
  ghost predicate Chronological(p: Plan, order: seq<Tick>)
    requires forall t <- order :: t.flow < |p.cadences| && t.source < |p.cadences[t.flow]|
  {
    forall i, j :: 0 <= i < j < |order| ==>
      var a, b := order[i], order[j];
      var atA := p.cadences[a.flow][a.source].offset + a.tick as real * p.cadences[a.flow][a.source].interval;
      var atB := p.cadences[b.flow][b.source].offset + b.tick as real * p.cadences[b.flow][b.source].interval;
      && atA <= atB
      && (atA == atB ==> a.flow < b.flow || (a.flow == b.flow && a.source < b.source))
  }

  lemma SortedIsChronological(p: Plan, order: seq<Tick>)
    requires (forall t <- order :: Planned(p, t)) && Sorted(p, order)
    ensures Chronological(p, order)
  {
    forall i, j | 0 <= i < j < |order| ensures Before(p, order[i], order[j]) {
      assert order[i] in order && order[j] in order;
    }
  }

  /** Submits every tick of every source exactly once, in chronological order. */
  method MergedSchedule(p: Plan) returns (order: seq<Tick>)
    requires ValidPlan(p)
    ensures forall t :: t in order <==> Planned(p, t)
    ensures forall t :: t in order <==>
              t.flow < |p.cadences| && t.source < |p.cadences[t.flow]| && t.tick < p.messages[t.flow]
    ensures Sorted(p, order) && Chronological(p, order)
  {
    AllTicksMembers(p, |p.cadences|);
    var next: map<Key, nat> := map k <- AllKeys(p) :: 0;
    order := [];
    ghost var left := Elements(AllTicks(p, |p.cadences|));
    StartMerging(p, next);
    hide Planned, AllTicks, Sorted, Advance, IsEarliest, Chronological;
    while next.Keys != {}
      invariant Merging(p, next, order)
      invariant left == Elements(AllTicks(p, |p.cadences|)) - Elements(order)
      decreases left
    {
      var key := Earliest(p, next);
      MergeStep(p, next, order, key);
      var t := NextOf(next, key);
      left := left - {t};
      order := order + [t];
      next := Advance(p, next, key);
    }
    EmittedAll(p, next, order);
  }

  /** With no key left every planned tick has been submitted. */
  lemma EmittedAll(p: Plan, next: map<Key, nat>, order: seq<Tick>)
    requires ValidPlan(p) && Merging(p, next, order) && next.Keys == {}
    ensures forall t :: t in order <==> Planned(p, t)
    ensures forall t :: t in order <==>
              t.flow < |p.cadences| && t.source < |p.cadences[t.flow]| && t.tick < p.messages[t.flow]
    ensures Sorted(p, order) && Chronological(p, order)
  {
    SortedIsChronological(p, order);
  }

  /** The offset of source `s`, as its timing asks for it. */
  ghost predicate OffsetOf(flow: Flow, jitter: seq<real>, s: nat, offset: real)
    requires s < |flow.sources| == |jitter| && flow.messagesPerMinute > 0.0
  {
    match flow.timing
    case Aligned => offset == 0.0
    case EvenlyStaggered => offset * |flow.sources| as real == s as real * (60.0 / flow.messagesPerMinute)
    case DeterministicJitter => offset == jitter[s] * (60.0 / flow.messagesPerMinute)
  }

  lemma OffsetsFollowTiming(flow: Flow, jitter: seq<real>, s: nat)
    requires Admissible(flow) && |jitter| == |flow.sources| && s < |flow.sources|
    ensures OffsetOf(flow, jitter, s, SourceOffsets(flow, jitter)[s])
  {
    if flow.timing.EvenlyStaggered? {
      Quotient(s as real * Interval(flow), |flow.sources| as real);
    }
  }

  lemma Quotient(x: real, n: real)
    requires n > 0.0
    ensures x / n * n == x
  {}

  /**
     What the merged schedule of a request submits: tick `k` of source `s` of flow `f` exactly
     when it starts inside the duration, at its source's offset plus `k` intervals; aligned
     flows end inside the duration, the others less than one interval later.
   */
  lemma SubmittedTicks(flows: seq<Flow>, jitter: seq<seq<real>>, duration: real, order: seq<Tick>, f: nat, s: nat,
                       k: nat)
    requires |jitter| == |flows| && duration > 0.0
    requires forall f :: 0 <= f < |flows| ==> Admissible(flows[f]) && |jitter[f]| == |flows[f].sources|
    requires forall t :: t in order <==> Planned(PlanOf(flows, jitter, duration), t)
    ensures Tick(f, s, k) in order
       <==> f < |flows| && s < |flows[f].sources| && k as real * (60.0 / flows[f].messagesPerMinute) < duration
    ensures Tick(f, s, k) in order ==>
              var c := PlanOf(flows, jitter, duration).cadences[f][s];
              && c.interval == 60.0 / flows[f].messagesPerMinute && OffsetOf(flows[f], jitter[f], s, c.offset)
              && (UnitInterval(jitter[f]) ==>
                    var at := c.offset + k as real * c.interval;
                    0.0 <= at < duration + c.interval && (flows[f].timing.Aligned? ==> at < duration))
  {
    hide SourceOffsets, MessagesPerSource, OffsetOf, Interval;
    PlanOfReads(flows, jitter, duration, Tick(f, s, k));
    hide PlanOf;
    if f < |flows| && s < |flows[f].sources| {
      TicksInsideDuration(duration, flows[f].messagesPerMinute, k);
      OffsetsFollowTiming(flows[f], jitter[f], s);
      if UnitInterval(jitter[f]) && Tick(f, s, k) in order {
        TicksInWindow(flows[f], jitter[f], duration, s, k);
      }
    }
  }

  /** The plan of a request, read at one tick. */
  lemma PlanOfReads(flows: seq<Flow>, jitter: seq<seq<real>>, duration: real, t: Tick)
    requires |jitter| == |flows|
    requires forall f :: 0 <= f < |flows| ==> Admissible(flows[f]) && |jitter[f]| == |flows[f].sources|
    ensures var p, f := PlanOf(flows, jitter, duration), t.flow;
            && (Planned(p, t) <==> f < |flows| && t.source < |flows[f].sources|
                                   && t.tick < MessagesPerSource(duration, flows[f].messagesPerMinute))
            && (Planned(p, t) ==>
                  p.cadences[f][t.source] == Cadence(SourceOffsets(flows[f], jitter[f])[t.source],
                                                     60.0 / flows[f].messagesPerMinute))
  {}

  lemma TicksInWindow(flow: Flow, jitter: seq<real>, duration: real, s: nat, k: nat)
    requires Admissible(flow) && |jitter| == |flow.sources| && UnitInterval(jitter) && duration > 0.0
    requires s < |flow.sources| && k < MessagesPerSource(duration, flow.messagesPerMinute)
    ensures var at := SourceOffsets(flow, jitter)[s] + k as real * (60.0 / flow.messagesPerMinute);
            && 0.0 <= at < duration + 60.0 / flow.messagesPerMinute
            && (flow.timing.Aligned? ==> at < duration)
  {
    OffsetsBelowInterval(flow, jitter, s);
    GenerationBound(flow, jitter, duration, s, k);
    IntervalTimesRate(flow.messagesPerMinute);
    hide SourceOffsets, MessagesPerSource;
    ScaleIsMonotone(0.0, k as real, Interval(flow));
  }

  // ---------- counting ----------

  function SourceTicks(f: nat, s: nat, n: nat): seq<Tick> {
    seq(n, k requires 0 <= k < n => Tick(f, s, k))
  }

  function FlowTicks(f: nat, sources: nat, n: nat): seq<Tick> {
    if sources == 0 then [] else FlowTicks(f, sources - 1, n) + SourceTicks(f, sources - 1, n)
  }

  /** Every planned tick of the first `n` flows, flow by flow. */
  function AllTicks(p: Plan, n: nat): seq<Tick>
    requires n <= |p.cadences| && |p.messages| == |p.cadences|
  {
    if n == 0 then [] else AllTicks(p, n - 1) + FlowTicks(n - 1, |p.cadences[n - 1]|, p.messages[n - 1])
  }

  function MaximumSequence(p: Plan, n: nat): nat
    requires n <= |p.cadences| && |p.messages| == |p.cadences|
  {
    if n == 0 then 0 else MaximumSequence(p, n - 1) + |p.cadences[n - 1]| * p.messages[n - 1]
  }

  lemma {:induction false} FlowTicksMembers(f: nat, sources: nat, n: nat)
    ensures var ts := FlowTicks(f, sources, n);
            && |ts| == sources * n && Distinct(ts)
            && forall t :: t in ts <==> t.flow == f && t.source < sources && t.tick < n
  {
    if sources == 0 {
    } else {
      FlowTicksMembers(f, sources - 1, n);
      var init, row := FlowTicks(f, sources - 1, n), SourceTicks(f, sources - 1, n);
      assert forall k :: 0 <= k < |init| ==> init[k] in init;
      assert forall k: nat :: k < n ==> row[k] == Tick(f, sources - 1, k);
      forall t ensures t in row <==> t.flow == f && t.source == sources - 1 && t.tick < n {
        if t.flow == f && t.source == sources - 1 && t.tick < n {
          assert row[t.tick] == t;
        }
      }
      assert sources * n == (sources - 1) * n + n;
    }
  }

  lemma {:induction false} AllTicksMembers(p: Plan, n: nat)
    requires n <= |p.cadences| && |p.messages| == |p.cadences|
    ensures var ts := AllTicks(p, n);
            && |ts| == MaximumSequence(p, n) && Distinct(ts)
            && forall t :: t in ts <==> Planned(p, t) && t.flow < n
  {
    if n == 0 {
    } else {
      AllTicksMembers(p, n - 1);
      FlowTicksMembers(n - 1, |p.cadences[n - 1]|, p.messages[n - 1]);
      var init, row := AllTicks(p, n - 1), FlowTicks(n - 1, |p.cadences[n - 1]|, p.messages[n - 1]);
      assert forall k :: 0 <= k < |init| ==> init[k] in init;
      assert forall k :: 0 <= k < |row| ==> row[k] in row;
    }
  }

  lemma {:induction false} DistinctMultiplicity<T>(s: seq<T>, x: T)
    requires Distinct(s)
    ensures multiset(s)[x] == if x in s then 1 else 0
  {
    if s == [] {
    } else {
      var init := s[..|s| - 1];
      assert s == init + [s[|s| - 1]];
      DistinctMultiplicity(init, x);
    }
  }

  lemma SameMembersIsPermutation<T>(a: seq<T>, b: seq<T>)
    requires Distinct(a) && Distinct(b) && forall x :: x in a <==> x in b
    ensures multiset(a) == multiset(b) && |a| == |b|
  {
    forall x ensures multiset(a)[x] == multiset(b)[x] {
      DistinctMultiplicity(a, x);
      DistinctMultiplicity(b, x);
    }
    assert |multiset(a)| == |a| && |multiset(b)| == |b|;
  }

  lemma SortedIsDistinct(p: Plan, order: seq<Tick>)
    requires (forall t <- order :: Planned(p, t)) && Sorted(p, order)
    ensures Distinct(order)
  {
    forall i, j | 0 <= i < j < |order| ensures order[i] != order[j] {
      assert Before(p, order[i], order[j]);
    }
  }

  /** Two ticks of one source are ordered as their numbers are. */
  lemma SameSourceInOrder(p: Plan, a: Tick, b: Tick)
    requires ValidPlan(p) && Planned(p, a) && Planned(p, b) && Before(p, a, b)
    requires a.flow == b.flow && a.source == b.source
    ensures a.tick < b.tick
  {
    ScaleIsMonotone(a.tick as real, b.tick as real, p.cadences[a.flow][a.source].interval);
  }

  /**
     A sorted order with the planned ticks as members is a permutation of the plan, has
     exactly the announced length, and gives each source its ticks in order.
   */
  lemma ScheduleIsPermutation(p: Plan, order: seq<Tick>)
    requires ValidPlan(p) && (forall t :: t in order <==> Planned(p, t)) && Sorted(p, order)
    ensures multiset(order) == multiset(AllTicks(p, |p.cadences|))
    ensures |order| == MaximumSequence(p, |p.cadences|)
    ensures forall i, j :: 0 <= i < j < |order| && order[i].flow == order[j].flow && order[i].source == order[j].source
              ==> order[i].tick < order[j].tick
  {
    AllTicksMembers(p, |p.cadences|);
    SortedIsDistinct(p, order);
    SameMembersIsPermutation(order, AllTicks(p, |p.cadences|));
    forall i, j | 0 <= i < j < |order| && order[i].flow == order[j].flow && order[i].source == order[j].source
      ensures order[i].tick < order[j].tick
    {
      SameSourceInOrder(p, order[i], order[j]);
    }
  }
}
