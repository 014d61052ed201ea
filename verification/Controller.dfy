/**
 The traffic controller: handlers that update message records and incremental counters
 in place, live metrics read from the counters, and the final recomputation from records
 and raw lists.

 `Records()` reads the run off the fields as a ledger value. Every method says which ledger
 function it performs, and `Valid` ties each counter to a recount over that ledger.
 */
module Controller {
  import opened Airtime
  import opened Evidence
  import opened Ledger
  import opened Metrics
  import opened Orphans
  import opened Sequences
  import opened Wrappers

  const LIVE_SAMPLE: nat := 2048

  /** The last `n` elements, as a bounded deque keeps them. */
  function Last<T>(s: seq<T>, n: nat): seq<T> {
    if |s| <= n then s else s[|s| - n..]
  }

  lemma LastSnoc<T>(s: seq<T>, x: T, n: nat)
    requires n > 0
    ensures Last(s + [x], n) == Last(Last(s, n) + [x], n)
  {}

  // ---------- recounting the ledger ----------

  /** The counters the controller keeps about its message records. */
  datatype Counters = Counters(
    generated: nat, submitted: nat, failed: nat, transmitted: nat, acknowledged: nat,
    receivers: nat, opportunities: nat, delivered: set<nat>)

  function DeliveredSequences(ms: seq<Message>): set<nat> {
    set m <- ms | m.deliveredTo != [] :: m.sequence
  }

  function CountersOf(cfg: Config, ms: seq<Message>): Counters {
    Counters(|ms|, Total(ms, Submitted), Total(ms, SubmissionFailed), Total(ms, Transmitted), Total(ms, Acknowledged),
             Total(ms, Receivers), Offered(cfg, |ms|), DeliveredSequences(ms))
  }

  lemma CountersSnoc(cfg: Config, ms: seq<Message>, m: Message)
    ensures CountersOf(cfg, ms + [m]) ==
      var c := CountersOf(cfg, ms);
      Counters(c.generated + 1, c.submitted + Submitted(m), c.failed + SubmissionFailed(m),
               c.transmitted + Transmitted(m),
               c.acknowledged + Acknowledged(m), c.receivers + Receivers(m), c.opportunities + Opportunities(cfg),
               if m.deliveredTo != [] then c.delivered + {m.sequence} else c.delivered)
  {
    TotalSnoc(ms, m, Submitted);
    TotalSnoc(ms, m, SubmissionFailed);
    TotalSnoc(ms, m, Transmitted);
    TotalSnoc(ms, m, Acknowledged);
    TotalSnoc(ms, m, Receivers);
    DeliveredSnoc(ms, m);
  }

  /** Replacing one record by one that loses no receivers. */
  lemma CountersUpdate(cfg: Config, ms: seq<Message>, i: nat, m: Message)
    requires i < |ms| && m.sequence == ms[i].sequence && (ms[i].deliveredTo != [] ==> m.deliveredTo != [])
    ensures var c, d := CountersOf(cfg, ms), CountersOf(cfg, ms[i := m]);
            && d.generated == c.generated && d.opportunities == c.opportunities
            && d.submitted + Submitted(ms[i]) == c.submitted + Submitted(m)
            && d.failed + SubmissionFailed(ms[i]) == c.failed + SubmissionFailed(m)
            && d.transmitted + Transmitted(ms[i]) == c.transmitted + Transmitted(m)
            && d.acknowledged + Acknowledged(ms[i]) == c.acknowledged + Acknowledged(m)
            && d.receivers + Receivers(ms[i]) == c.receivers + Receivers(m)
            && (d.delivered == if m.deliveredTo != [] then c.delivered + {m.sequence} else c.delivered)
            && (m.deliveredTo == ms[i].deliveredTo ==> d.delivered == c.delivered)
  {
    TotalUpdate(ms, i, m, Submitted);
    TotalUpdate(ms, i, m, SubmissionFailed);
    TotalUpdate(ms, i, m, Transmitted);
    TotalUpdate(ms, i, m, Acknowledged);
    TotalUpdate(ms, i, m, Receivers);
    DeliveredUpdate(ms, i, m);
  }

  lemma DeliveredUpdate(ms: seq<Message>, i: nat, m: Message)
    requires i < |ms| && m.sequence == ms[i].sequence && (ms[i].deliveredTo != [] ==> m.deliveredTo != [])
    ensures DeliveredSequences(ms[i := m])
         == if m.deliveredTo != [] then DeliveredSequences(ms) + {m.sequence} else DeliveredSequences(ms)
    ensures m.deliveredTo == ms[i].deliveredTo ==> DeliveredSequences(ms[i := m]) == DeliveredSequences(ms)
  {
    var next := ms[i := m];
    assert forall k :: 0 <= k < |ms| && k != i ==> next[k] == ms[k];
    forall s | s in DeliveredSequences(ms) ensures s in DeliveredSequences(next) {
      var k :| 0 <= k < |ms| && ms[k].deliveredTo != [] && ms[k].sequence == s;
      assert next[k] in next;
    }
    assert next[i] in next;
    assert ms[i] in ms;
  }

  /** Distinct sequences make counting delivered messages and collecting their sequences agree. */
  lemma {:induction false} DeliveredSize(ms: seq<Message>)
    requires forall i :: 0 <= i < |ms| ==> ms[i].sequence == i + 1
    ensures |DeliveredSequences(ms)| == Total(ms, Delivered)
    ensures forall s <- DeliveredSequences(ms) :: s <= |ms|
  {
    if ms == [] {
    } else {
      var init, last := ms[..|ms| - 1], ms[|ms| - 1];
      hide DeliveredSequences, Total;
      DeliveredSize(init);
      DeliveredSnoc(init, last);
      TotalSnoc(init, last, Delivered);
      assert init + [last] == ms;
    }
  }

  lemma DeliveredSnoc(ms: seq<Message>, m: Message)
    ensures DeliveredSequences(ms + [m])
         == if m.deliveredTo != [] then DeliveredSequences(ms) + {m.sequence} else DeliveredSequences(ms)
  {
    assert forall x :: x in ms + [m] <==> x in ms || x == m;
  }

  function Transmitters(ts: seq<Transmission>): seq<string> {
    seq(|ts|, i requires 0 <= i < |ts| => ts[i].transmitter)
  }

  function Airtimes(ts: seq<Transmission>): seq<int> {
    seq(|ts|, i requires 0 <= i < |ts| => ts[i].airtimeMs)
  }

  function RelayCount(ts: seq<Transmission>): nat {
    if ts == [] then 0 else RelayCount(ts[..|ts| - 1]) + if ts[|ts| - 1].relayed then 1 else 0
  }

  lemma TransmissionSnoc(ts: seq<Transmission>, t: Transmission)
    ensures Transmitters(ts + [t]) == Transmitters(ts) + [t.transmitter]
    ensures Airtimes(ts + [t]) == Airtimes(ts) + [t.airtimeMs]
    ensures RelayCount(ts + [t]) == RelayCount(ts) + if t.relayed then 1 else 0
  {
    DropLast(ts, t);
  }

  /** The counters and lists the controller keeps about RF transmissions. */
  datatype Radio = Radio(
    transmitters: seq<string>, airtimes: seq<int>, relays: nat, count: nat, airtime: int,
    perNodeCount: map<string, int>, perNodeAirtime: map<string, int>)

  function RadioOf(ts: seq<Transmission>): Radio {
    var transmitters, airtimes := Transmitters(ts), Airtimes(ts);
    Radio(transmitters, airtimes, RelayCount(ts), |ts|, Sum(airtimes), CountAll(transmitters),
          WeighAll(transmitters, airtimes))
  }

  lemma RadioSnoc(ts: seq<Transmission>, t: Transmission)
    ensures RadioOf(ts + [t]) ==
      var r := RadioOf(ts);
      Radio(r.transmitters + [t.transmitter], r.airtimes + [t.airtimeMs], r.relays + (if t.relayed then 1 else 0),
            r.count + 1, r.airtime + t.airtimeMs, Tally(r.perNodeCount, t.transmitter, 1),
            Tally(r.perNodeAirtime, t.transmitter, t.airtimeMs))
  {
    TransmissionSnoc(ts, t);
    CountSnoc(Transmitters(ts), t.transmitter);
    WeighSnoc(Transmitters(ts), Airtimes(ts), t.transmitter, t.airtimeMs);
  }

  /** Different receivers of each broadcast, by sequence; empty for direct traffic. */
  function ReceiversPerBroadcast(cfg: Config, ms: seq<Message>): map<nat, nat> {
    if cfg.kind == DirectText || ms == [] then map[]
    else
      var m := ms[|ms| - 1];
      ReceiversPerBroadcast(cfg, ms[..|ms| - 1])[|ms| := |set node <- m.deliveredTo | node != m.source|]
  }

  function ExpectedAcknowledgments(cfg: Config, submitted: nat): nat {
    if cfg.kind == DirectText && cfg.acknowledgmentRequested then submitted else 0
  }

  /** The metrics of a run, counted from its records and raw lists alone. */
  function Recount(r: Run): Snapshot {
    var s := Scalars(
      |r.messages|, Total(r.messages, Delivered), Total(r.messages, Acknowledged),
      ExpectedAcknowledgments(r.cfg, Total(r.messages, Submitted)),
      RelayCount(r.transmissions), r.duplicates, r.failedReceptions, r.lag,
      Total(r.messages, Receivers), Offered(r.cfg, |r.messages|), ReceiversPerBroadcast(r.cfg, r.messages));
    var transmitters, airtimes := Transmitters(r.transmissions), Airtimes(r.transmissions);
    Assemble(s, r.latencies, |r.transmissions|, CountAll(r.drops), Sum(airtimes), CountAll(transmitters),
             WeighAll(transmitters, airtimes))
  }

  // ---------- what a recount reports, field by field ----------

  /** Messages, those delivered anywhere, and each receiver of each of them. */
  lemma RecountedMessages(r: Run)
    requires Consistent(r)
    ensures var s := Recount(r);
            && s.generated == |r.messages|
            && s.uniqueDelivered == |set i | 0 <= i < |r.messages| && r.messages[i].deliveredTo != []|
            && s.receiverDeliveries
               == |set i, node | 0 <= i < |r.messages| && node in r.messages[i].deliveredTo :: (i, node)|
            && s.duplicates == r.duplicates && s.failedReceptions == r.failedReceptions && s.eventLoopLagMs == r.lag
  {
    TotalsRead(r.messages);
    AllSound(r);
    ReceiversRead(r.messages);
  }

  lemma AllSound(r: Run)
    requires Consistent(r)
    ensures forall m <- r.messages :: NoRepeats(m.deliveredTo)
  {}

  /** The four ratios, each undefined exactly when there is nothing to divide by. */
  lemma RecountedRatios(r: Run)
    requires Consistent(r)
    ensures var s := Recount(r);
            var offered := |r.messages| * (if r.cfg.kind == DirectText then 1 else if r.cfg.nodes == {} then 0
                                           else |r.cfg.nodes| - 1);
            var acknowledged := |set i | 0 <= i < |r.messages| && r.messages[i].acknowledged|;
            var submitted := |set i | 0 <= i < |r.messages| && r.messages[i].submitted|;
            var expected := if r.cfg.kind == DirectText && r.cfg.acknowledgmentRequested then submitted else 0;
            && s.deliveryRatio == Quotient(s.uniqueDelivered, s.generated)
            && s.receiverDeliveryRatio == Quotient(s.receiverDeliveries, offered)
            && s.acknowledgmentRatio == Quotient(acknowledged, expected)
            && s.rfPerDelivery == Quotient(s.rfTransmissions, s.uniqueDelivered)
  {
    TotalsRead(r.messages);
    OfferedReads(r.cfg, |r.messages|);
    hide Total, Offered, Consistent, Sort, PercentileOrdered, CountAll, WeighAll, Sum, RelayCount;
  }

  function Quotient(a: int, b: int): Option<real> {
    if b == 0 then None else Some(a as real / b as real)
  }

  /** Latencies: the median of any sample, the 95th percentile of at least 20 and the 99th of at least 100. */
  lemma RecountedLatencies(r: Run)
    ensures var s := Recount(r);
            && Percentile(r.latencies, 0.5) == Ok(s.medianMs)
            && Percentile(r.latencies, 0.95, 20) == Ok(s.p95Ms)
            && Percentile(r.latencies, 0.99, 100) == Ok(s.p99Ms)
  {
    SortIsOrderedPermutation(r.latencies);
    hide Sort, CountAll, WeighAll, Sum, Total, Offered, RelayCount, Interpolate;
  }

  /** Frames on the air, those relayed, their airtime in all and by transmitter, and drops by reason. */
  lemma RecountedRadio(r: Run)
    ensures var s, ts := Recount(r), r.transmissions;
            && s.rfTransmissions == |ts|
            && s.relayTransmissions == |set i | 0 <= i < |ts| && ts[i].relayed|
            && s.observedAirtimeMs == Sum(seq(|ts|, i requires 0 <= i < |ts| => ts[i].airtimeMs))
            && s.perNodeTransmitCounts.Keys == (set t <- ts :: t.transmitter) == s.perNodeAirtimeMs.Keys
            && (forall node <- s.perNodeTransmitCounts ::
                  s.perNodeTransmitCounts[node] == |set i | 0 <= i < |ts| && ts[i].transmitter == node|)
            && s.dropsByReason.Keys == (set d <- r.drops)
            && (forall d <- r.drops :: s.dropsByReason[d] == multiset(r.drops)[d])
  {
    var ts := r.transmissions;
    RelaysRead(ts);
    CountIsMultiplicity(r.drops);
    CountIsMultiplicity(Transmitters(ts));
    WeightIsPositionalSum(Transmitters(ts), Airtimes(ts));
    TransmittersRead(ts);
    hide Sort, CountAll, WeighAll, Sum, Total, Offered, RelayCount, PercentileOrdered, OrNone, Ratio;
    forall node ensures multiset(Transmitters(ts))[node] == |set i | 0 <= i < |ts| && ts[i].transmitter == node| {
      OccurrencesRead(ts, node);
    }
  }

  /** By transmitter: the airtimes of its own frames. */
  lemma RecountedAirtime(r: Run, node: string)
    requires node in Recount(r).perNodeAirtimeMs
    ensures Recount(r).perNodeAirtimeMs[node] == Sum(AirtimesOf(r.transmissions, node))
  {
    var ts := r.transmissions;
    WeightIsPositionalSum(Transmitters(ts), Airtimes(ts));
    AirtimesRead(ts, node);
    hide Sort, CountAll, WeighAll, Sum, Total, Offered, RelayCount, PercentileOrdered, OrNone, Ratio;
  }

  function AirtimesOf(ts: seq<Transmission>, node: string): seq<int> {
    if ts == [] then []
    else (if ts[0].transmitter == node then [ts[0].airtimeMs] else []) + AirtimesOf(ts[1..], node)
  }

  lemma {:induction false} AirtimesRead(ts: seq<Transmission>, node: string)
    ensures AmountsOf(Transmitters(ts), Airtimes(ts), node) == AirtimesOf(ts, node)
  {
    if ts == [] {
    } else {
      AirtimesRead(ts[1..], node);
      assert Transmitters(ts)[1..] == Transmitters(ts[1..]) && Airtimes(ts)[1..] == Airtimes(ts[1..]);
    }
  }

  lemma TransmittersRead(ts: seq<Transmission>)
    ensures (set k <- Transmitters(ts)) == set t <- ts :: t.transmitter
  {
    forall i | 0 <= i < |ts| ensures Transmitters(ts)[i] in (set t <- ts :: t.transmitter) {
      assert ts[i] in ts;
    }
    forall t <- ts ensures t.transmitter in Transmitters(ts) {
      var i :| 0 <= i < |ts| && ts[i] == t;
      assert Transmitters(ts)[i] == t.transmitter;
    }
  }

  lemma {:induction false} OccurrencesRead(ts: seq<Transmission>, node: string)
    ensures multiset(Transmitters(ts))[node] == |set i | 0 <= i < |ts| && ts[i].transmitter == node|
  {
    if ts == [] {
    } else {
      var n := |ts| - 1;
      OccurrencesRead(ts[..n], node);
      assert Transmitters(ts) == Transmitters(ts[..n]) + [ts[n].transmitter];
      var before := set i | 0 <= i < n && ts[..n][i].transmitter == node;
      OneMorePosition(before, (set i | 0 <= i < |ts| && ts[i].transmitter == node), n, ts[n].transmitter == node);
    }
  }

  lemma {:induction false} RelaysRead(ts: seq<Transmission>)
    ensures RelayCount(ts) == |set i | 0 <= i < |ts| && ts[i].relayed|
  {
    if ts == [] {
    } else {
      var n := |ts| - 1;
      RelaysRead(ts[..n]);
      var before := set i | 0 <= i < n && ts[..n][i].relayed;
      OneMorePosition(before, (set i | 0 <= i < |ts| && ts[i].relayed), n, ts[n].relayed);
    }
  }

  /** Receivers of each broadcast by its number, the first being 1; nothing for direct messages. */
  lemma RecountedReceivers(r: Run)
    requires Consistent(r)
    ensures var s := Recount(r);
            if r.cfg.kind == DirectText then s.receiversPerBroadcast == map[]
            else
              && (forall n :: n in s.receiversPerBroadcast <==> 1 <= n <= |r.messages|)
              && (forall i :: 0 <= i < |r.messages| ==>
                    s.receiversPerBroadcast[i + 1] == |r.messages[i].deliveredTo|)
  {
    forall m <- r.messages ensures Sound(r.cfg, m) {}
    ReceiversByNumber(r.cfg, r.messages);
    hide Sort, CountAll, WeighAll, Sum, Total, Offered, RelayCount, PercentileOrdered, OrNone, Ratio;
    hide ReceiversPerBroadcast;
  }

  lemma {:induction false} ReceiversByNumber(cfg: Config, ms: seq<Message>)
    requires forall m <- ms :: Sound(cfg, m)
    ensures var table := ReceiversPerBroadcast(cfg, ms);
            if cfg.kind == DirectText then table == map[]
            else
              && (forall n :: n in table <==> 1 <= n <= |ms|)
              && (forall i :: 0 <= i < |ms| ==> table[i + 1] == |ms[i].deliveredTo|)
  {
    if ms == [] {
    } else {
      var last := ms[|ms| - 1];
      ReceiversByNumber(cfg, ms[..|ms| - 1]);
      assert last in ms && Sound(cfg, last);
      DistinctNodes(last.deliveredTo);
      hide Sound;
      if cfg.kind == BroadcastText {
        assert (set node <- last.deliveredTo | node != last.source) == set n | n in last.deliveredTo;
      }
    }
  }

  lemma {:induction false} DistinctNodes(nodes: seq<string>)
    requires NoRepeats(nodes)
    ensures |set n | n in nodes| == |nodes|
  {
    if nodes == [] {
    } else {
      var init, last := nodes[..|nodes| - 1], nodes[|nodes| - 1];
      DistinctNodes(init);
      assert nodes == init + [last];
      assert (set n | n in nodes) == (set n | n in init) + {last};
      assert last !in init;
    }
  }

  /** A frame is published under a run and sequence exactly when it transmits that admitted message. */
  lemma PublishedExactly(r: Run, e: Event, sequence: nat)
    requires Consistent(r) && e.RfTransmission?
    ensures Correlation(r, e.packet, e.transmitter) == Some((r.cfg.runId, sequence))
       <==> exists i: nat :: Establishes(r, e, i, WasTransmitted) && r.messages[i].sequence == sequence
    ensures Correlation(r, e.packet, e.transmitter).Some?
       <==> exists i: nat :: Establishes(r, e, i, WasTransmitted)
  {
    forall i: nat ensures Establishes(r, e, i, WasTransmitted) <==>
      Accepts(r) && i < |r.messages| && r.messages[i].submitted && Identify(r, e.packet, Some(e.transmitter)) == Some(i)
    {
      CarriesIsIdentify(r, e.packet, e.transmitter, i);
    }
    hide Identify, Establishes, Consistent, Accepts;
  }

  lemma PhaseKeepsConsistent(r: Run, state: RunState, phase: Phase)
    requires Consistent(r)
    ensures Consistent(r.(state := state, phase := phase))
  {}

  /** The run and sequence that a transmission is published under: those of the admitted message it carries. */
  function Correlation(r: Run, p: Packet, transmitter: string): Option<(string, nat)> {
    var found := Identify(r, p, Some(transmitter));
    if !Accepts(r) || found.None? || found.value >= |r.messages| || !r.messages[found.value].submitted then None
    else Some((r.cfg.runId, r.messages[found.value].sequence))
  }

  /** What a finished run reports. */
  datatype RunResult = RunResult(
    state: RunState, requested: nat, submitted: nat, submissionFailed: nat, transmitted: nat, delivered: nat,
    messages: seq<Message>, metrics: Snapshot)

  function ResultOf(r: Run, state: RunState): RunResult {
    RunResult(state, |r.messages|, Total(r.messages, Submitted), Total(r.messages, SubmissionFailed),
              Total(r.messages, Transmitted), Total(r.messages, Delivered), r.messages, Recount(r))
  }

  /** The reported counts add up exactly when the run it was made from had no orphaned message. */
  ghost predicate AddsUpUnlessOrphaned(before: Run, result: RunResult) {
    Keyed(before.messages, before.pending) ==>
      (result.requested == result.submitted + result.submissionFailed <==> !HasOrphan(before))
  }

  lemma FinishedAddsUpExactly(before: Run, now: real, result: RunResult)
    requires Consistent(before)
    requires var end := OnAdmissionTimeout(before.(phase := Finalizing), now);
             result == ResultOf(end.(phase := Terminal, state := result.state), result.state)
    ensures AddsUpUnlessOrphaned(before, result)
  {
    hide Consistent, Keyed, HasOrphan, Recount, OnAdmissionTimeout, Total;
    if Keyed(before.messages, before.pending) {
      FinalizationAddsUpExactly(before, now);
    }
  }

  lemma ResultIgnoresPhase(r: Run, state: RunState)
    ensures ResultOf(r.(phase := Terminal, state := state), state) == ResultOf(r, state)
  {}

  /** One end of the drain's wait: events handled during it, and the time it ended. */
  datatype Wake = Wake(events: seq<Event>, now: real)

  /** All events handled during some wakes. */
  function EventsOf(wakes: seq<Wake>): seq<Event> {
    if wakes == [] then [] else EventsOf(wakes[..|wakes| - 1]) + wakes[|wakes| - 1].events
  }

  /** Wakes that come after the present are also legal later, up to the first of them. */
  lemma WaitIsLegal(r: Run, wakes: seq<Wake>, now: real, later: real)
    requires r.cfg.nodes <= r.cfg.hardwareIds.Keys && WakesLegal(r, wakes, now)
    requires wakes == [] || later <= wakes[0].now
    ensures WakesLegal(r, wakes, later)
  {}

  lemma EventsSnoc(wakes: seq<Wake>, i: nat)
    requires i < |wakes|
    ensures EventsOf(wakes[..i + 1]) == EventsOf(wakes[..i]) + wakes[i].events
  {
    assert wakes[..i + 1][..i] == wakes[..i];
  }

  ghost predicate DrainLegal(r: Run, events: seq<Event>)
    requires r.cfg.nodes <= r.cfg.hardwareIds.Keys
  {
    Legal(r, events) && forall e <- events :: IsHandler(e)
  }

  /** The wakes happen one after the other, at non-decreasing times. */
  ghost predicate WakesLegal(r: Run, wakes: seq<Wake>, now: real)
    requires r.cfg.nodes <= r.cfg.hardwareIds.Keys
    decreases |wakes|
  {
    wakes == [] ||
    (now <= wakes[0].now && DrainLegal(r, wakes[0].events)
     && After(r, wakes[0].events).cfg.nodes <= After(r, wakes[0].events).cfg.hardwareIds.Keys
     && WakesLegal(After(r, wakes[0].events), wakes[1..], wakes[0].now))
  }

  lemma HandlerKeepsLengths(r: Run, e: Event)
    requires r.cfg.nodes <= r.cfg.hardwareIds.Keys && Enabled(r, e) && IsHandler(e)
    ensures Step(r, e).lengths == r.lengths
  {
    hide RequestId, Identify, Correlated, Answered, ProperOrigin, Growth, Settle, Applicable, Accepts, WithAlias;
    if e.RfTransmission? || e.LinkDrop? {
      AliasChangesPackets(r, e.packet, Some(e.transmitter));
    }
  }

  /** Handlers submit nothing, so the drain's windows do not move under it. */
  lemma {:induction false} DrainKeepsMaxima(r: Run, events: seq<Event>)
    requires Consistent(r) && DrainLegal(r, events)
    ensures After(r, events).lengths == r.lengths && After(r, events).cfg == r.cfg
    decreases |events|
  {
    if events == [] {
    } else {
      hide Enabled, Step;
      assert events[0] in events;
      HandlerKeepsLengths(r, events[0]);
      StepKeepsConsistent(r, events[0]);
      DrainKeepsMaxima(Step(r, events[0]), events[1..]);
    }
  }

  class TrafficController {
    /** The modem's airtime and retransmission delay as functions of the packet length. */
    const airtimeOf: nat -> int
    const delayOf: nat -> int
    const hopLimit: nat

    var cfg: Config
    var state: RunState
    var phase: Phase
    var generatedMessages: seq<Message>
    var messagesByPacket: map<(int, int), nat>
    var pendingSubmissions: map<Key, nat>
    var routingTerminalSequences: set<nat>
    var deliveredSequences: set<nat>
    var latenciesMs: seq<real>
    var liveLatenciesMs: seq<real>
    var rfTransmitters: seq<string>
    var airtimesMs: seq<int>
    var relayTransmissions: nat
    var duplicates: nat
    var failedReceptions: nat
    var latestFailedReceptions: map<string, int>
    var latestDuplicateReceptions: map<string, int>
    var dropReasons: seq<string>
    var dropCounts: map<string, int>
    var eventLoopLagMs: Option<real>
    var generatedCount: nat
    var submittedCount: nat
    var submissionFailedCount: nat
    var transmittedCount: nat
    var uniqueDeliveries: nat
    var receiverDeliveries: nat
    var receiverOpportunities: nat
    var acknowledgments: nat
    var rfTransmissionCount: nat
    var observedAirtimeMs: int
    var perNodeTransmitCounts: map<string, int>
    var perNodeAirtimeMs: map<string, int>
    var maximumPacketAirtimeMs: int
    var maximumRetransmissionDelayMs: int
    var lastActivity: real

    /** What the radio lists and the maxima were made from. */
    ghost var transmissions: seq<Transmission>
    ghost var lengths: seq<nat>

    ghost predicate Valid()
      reads this
    {
      Consistent(Records()) && CountersAgree()
    }

    /** The run these fields record. */
    ghost function Records(): Run
      reads this
    {
      Run(cfg, generatedMessages, messagesByPacket, pendingSubmissions, routingTerminalSequences, transmissions,
          dropReasons, latenciesMs, duplicates, failedReceptions, latestFailedReceptions, latestDuplicateReceptions,
          eventLoopLagMs, lengths, lastActivity, state, phase)
    }

    /** Every incremental value is what a recount over the records gives. */
    ghost predicate CountersAgree()
      reads this
    {
      MessagesAgree() && RadioAgree() && DropsAgree() && LatenciesAgree() && MaximaAgree()
    }

    ghost predicate MessagesAgree()
      reads `cfg, `generatedMessages, `uniqueDeliveries
      reads `generatedCount, `submittedCount, `submissionFailedCount, `transmittedCount, `acknowledgments
      reads `receiverDeliveries, `receiverOpportunities, `deliveredSequences
    {
      MessageCounters() == CountersOf(cfg, generatedMessages) && uniqueDeliveries == |deliveredSequences|
    }

    ghost predicate RadioAgree()
      reads `transmissions, `rfTransmitters, `airtimesMs, `relayTransmissions, `rfTransmissionCount, `observedAirtimeMs
      reads `perNodeTransmitCounts, `perNodeAirtimeMs
    {
      RadioCounters() == RadioOf(transmissions)
    }

    ghost predicate DropsAgree()
      reads `dropCounts, `dropReasons
    {
      dropCounts == CountAll(dropReasons)
    }

    ghost predicate LatenciesAgree()
      reads `liveLatenciesMs, `latenciesMs
    {
      liveLatenciesMs == Last(latenciesMs, LIVE_SAMPLE)
    }

    ghost predicate MaximaAgree()
      reads `lengths, `maximumPacketAirtimeMs, `maximumRetransmissionDelayMs
    {
      && maximumPacketAirtimeMs == RunningMax(lengths, airtimeOf)
      && maximumRetransmissionDelayMs == RunningMax(lengths, delayOf)
    }

    ghost function MessageCounters(): Counters
      reads `generatedCount, `submittedCount, `submissionFailedCount, `transmittedCount, `acknowledgments
      reads `receiverDeliveries, `receiverOpportunities, `deliveredSequences
    {
      Counters(generatedCount, submittedCount, submissionFailedCount, transmittedCount, acknowledgments,
               receiverDeliveries, receiverOpportunities, deliveredSequences)
    }

    ghost function RadioCounters(): Radio
      reads `rfTransmitters, `airtimesMs, `relayTransmissions, `rfTransmissionCount, `observedAirtimeMs
      reads `perNodeTransmitCounts, `perNodeAirtimeMs
    {
      Radio(rfTransmitters, airtimesMs, relayTransmissions, rfTransmissionCount, observedAirtimeMs,
            perNodeTransmitCounts, perNodeAirtimeMs)
    }

    predicate AcceptsRunEvents(allowFailed: bool := false)
      reads this
    {
      && (phase == Generating || phase == Draining)
      && (state == Running || state == Stopping || (allowFailed && state == Failed))
    }

    constructor (airtimeOf: nat -> int, delayOf: nat -> int, hopLimit: nat, cfg: Config, failed: map<string, int>,
                 duplicate: map<string, int>, now: real)
      requires cfg.nodes <= cfg.hardwareIds.Keys
      ensures Valid() && Records() == Start(cfg, failed, duplicate, now)
      ensures this.airtimeOf == airtimeOf && this.delayOf == delayOf && this.hopLimit == hopLimit
    {
      this.airtimeOf, this.delayOf, this.hopLimit := airtimeOf, delayOf, hopLimit;
      this.cfg, state, phase := cfg, Running, Generating;
      generatedMessages, messagesByPacket, pendingSubmissions := [], map[], map[];
      routingTerminalSequences, deliveredSequences, latenciesMs, liveLatenciesMs := {}, {}, [], [];
      rfTransmitters, airtimesMs, relayTransmissions, duplicates, failedReceptions := [], [], 0, 0, 0;
      latestFailedReceptions, latestDuplicateReceptions := failed, duplicate;
      dropReasons, dropCounts, eventLoopLagMs := [], map[], None;
      generatedCount, submittedCount, submissionFailedCount, transmittedCount := 0, 0, 0, 0;
      uniqueDeliveries, receiverDeliveries, receiverOpportunities, acknowledgments := 0, 0, 0, 0;
      rfTransmissionCount, observedAirtimeMs, perNodeTransmitCounts, perNodeAirtimeMs := 0, 0, map[], map[];
      maximumPacketAirtimeMs, maximumRetransmissionDelayMs, lastActivity := 0, 0, now;
      transmissions, lengths := [], [];
    }

    /** Looks a packet up and files answers under the message they name. */
    method MessageForPacketIdentity(p: Packet, transmitter: Option<string>) returns (found: Option<nat>)
      modifies this`messagesByPacket
      ensures Records() == WithAlias(old(Records()), p, transmitter)
      ensures found == Identify(old(Records()), p, transmitter)
    {
      var requestId: Option<int> := None;
      if p.port == Some(Routing) && p.requestId != 0 {
        requestId := Some(p.requestId);
      } else if p.port == Some(Unknown) && p.rxTime != 0 && transmitter.Some?
                && transmitter.value in cfg.hardwareIds && cfg.hardwareIds[transmitter.value] == p.origin {
        requestId := Some(p.rxTime);
      }
      if requestId.Some? && (p.destination, requestId.value) in messagesByPacket {
        var response := messagesByPacket[(p.destination, requestId.value)];
        messagesByPacket := messagesByPacket[(p.origin, p.id) := response];
        return Some(response);
      }
      return if (p.origin, p.id) in messagesByPacket then Some(messagesByPacket[(p.origin, p.id)]) else None;
    }

    method NoteTransmission(t: Transmission)
      requires RadioAgree()
      modifies this`rfTransmitters, this`airtimesMs, this`rfTransmissionCount, this`observedAirtimeMs
      modifies this`perNodeTransmitCounts, this`perNodeAirtimeMs, this`relayTransmissions, this`transmissions
      ensures transmissions == old(transmissions) + [t] && RadioAgree()
    {
      hide RadioOf, Tally;
      RadioSnoc(transmissions, t);
      transmissions := transmissions + [t];
      rfTransmitters := rfTransmitters + [t.transmitter];
      airtimesMs := airtimesMs + [t.airtimeMs];
      rfTransmissionCount := rfTransmissionCount + 1;
      observedAirtimeMs := observedAirtimeMs + t.airtimeMs;
      perNodeTransmitCounts := Tally(perNodeTransmitCounts, t.transmitter, 1);
      perNodeAirtimeMs := Tally(perNodeAirtimeMs, t.transmitter, t.airtimeMs);
      if t.relayed {
        relayTransmissions := relayTransmissions + 1;
      }
    }

    method MarkTransmitted(i: nat)
      requires MessagesAgree() && i < |generatedMessages|
      modifies this`generatedMessages, this`transmittedCount
      ensures MessagesAgree()
      ensures generatedMessages == old(generatedMessages[i := generatedMessages[i].(transmitted := true)])
    {
      hide DeliveredSequences, Total, Offered;
      var m := generatedMessages[i];
      CountersUpdate(cfg, generatedMessages, i, m.(transmitted := true));
      if !m.transmitted {
        generatedMessages := generatedMessages[i := m.(transmitted := true)];
        transmittedCount := transmittedCount + 1;
      }
    }

    method RecordRfTransmission(transmitter: string, p: Packet, airtimeMs: int, now: real)
      returns (correlation: Option<(string, nat)>)
      requires Valid() && transmitter in cfg.nodes
      modifies this
      ensures Valid() && Records() == OnRfTransmission(old(Records()), transmitter, p, airtimeMs, now)
      ensures correlation == Correlation(old(Records()), p, transmitter)
    {
      AliasKeepsConsistent(Records(), p, Some(transmitter));
      RfKeepsConsistent(Records(), transmitter, p, airtimeMs, now);
      assert transmitter in cfg.hardwareIds;
      hide Consistent, MessagesAgree, RadioAgree, DropsAgree, LatenciesAgree, MaximaAgree, WithAlias, Identify,
          TransmissionEffect;
      if !AcceptsRunEvents() {
        return None;
      }
      var found := MessageForPacketIdentity(p, Some(transmitter));
      if found.None? {
        return None;
      }
      var t := Transmission(transmitter, airtimeMs, p.origin != cfg.hardwareIds[transmitter]);
      correlation := CountTransmission(found.value, t, now);
    }

    method CountTransmission(i: nat, t: Transmission, now: real) returns (correlation: Option<(string, nat)>)
      requires CountersAgree() && i < |generatedMessages|
      modifies this
      ensures CountersAgree() && Records() == TransmissionEffect(old(Records()), i, t, now)
      ensures correlation == if old(generatedMessages)[i].submitted
                             then Some((cfg.runId, old(generatedMessages)[i].sequence)) else None
    {
      hide MessagesAgree, RadioAgree, DropsAgree, LatenciesAgree, MaximaAgree;
      if !generatedMessages[i].submitted {
        return None;
      }
      MarkTransmitted(i);
      NoteTransmission(t);
      lastActivity := now;
      return Some((cfg.runId, generatedMessages[i].sequence));
    }

    method RecordDrop(transmitter: string, p: Packet, reason: string, now: real)
      requires Valid() && transmitter in cfg.nodes
      modifies this
      ensures Valid() && Records() == OnLinkDrop(old(Records()), transmitter, p, reason, now)
    {
      hide Consistent, MessagesAgree, RadioAgree, DropsAgree, LatenciesAgree, MaximaAgree, WithAlias, Identify;
      AliasKeepsConsistent(Records(), p, Some(transmitter));
      DropKeepsConsistent(Records(), transmitter, p, reason, now);
      if !AcceptsRunEvents() {
        return;
      }
      var found := MessageForPacketIdentity(p, Some(transmitter));
      if found.None? || !generatedMessages[found.value].submitted {
        return;
      }
      NoteDrop(reason);
      lastActivity := now;
    }

    method NoteDrop(reason: string)
      requires DropsAgree()
      modifies this`dropReasons, this`dropCounts
      ensures dropReasons == old(dropReasons) + [reason] && DropsAgree()
    {
      CountSnoc(dropReasons, reason);
      dropReasons := dropReasons + [reason];
      dropCounts := Tally(dropCounts, reason, 1);
    }

    /** Gives a message its admission outcome, once. */
    method ResolveSubmission(i: nat, error: Option<string>, now: real)
      requires MessagesAgree() && i < |generatedMessages|
      modifies this`generatedMessages, this`submittedCount, this`submissionFailedCount, this`lastActivity
      ensures MessagesAgree()
      ensures generatedMessages == old(generatedMessages[i := Settle(generatedMessages[i], error)])
      ensures lastActivity == if Unresolved(old(generatedMessages)[i]) then now else old(lastActivity)
    {
      hide DeliveredSequences, Total, Offered;
      var m := generatedMessages[i];
      CountersUpdate(cfg, generatedMessages, i, Settle(m, error));
      if m.submitted || m.submissionError.Some? {
        return;
      }
      if error.None? {
        generatedMessages := generatedMessages[i := m.(submitted := true)];
        submittedCount := submittedCount + 1;
      } else {
        generatedMessages := generatedMessages[i := m.(submissionError := error)];
        submissionFailedCount := submissionFailedCount + 1;
      }
      lastActivity := now;
    }

    method RecordQueueStatus(node: string, packetId: int, result: int, now: real)
      requires Valid()
      modifies this
      ensures Valid() && Records() == OnQueueStatus(old(Records()), node, packetId, result, now)
    {
      hide Consistent, MessagesAgree, RadioAgree, DropsAgree, LatenciesAgree, MaximaAgree;
      QueueStatusKeepsConsistent(Records(), node, packetId, result, now);
      if !AcceptsRunEvents() || packetId == 0 || (node, packetId) !in pendingSubmissions {
        return;
      }
      ResolvePending((node, packetId), pendingSubmissions[(node, packetId)],
                     if QueueSuccess(result) then None else Some(QUEUE_REJECTED), now);
    }

    method ResolvePending(key: Key, i: nat, error: Option<string>, now: real)
      requires MessagesAgree() && i < |generatedMessages|
      modifies this`pendingSubmissions
      modifies this`generatedMessages, this`submittedCount, this`submissionFailedCount, this`lastActivity
      ensures MessagesAgree() && Records() == AdmissionEffect(old(Records()), key, i, error, now)
    {
      hide MessagesAgree, Settle;
      pendingSubmissions := pendingSubmissions - {key};
      ResolveSubmission(i, error, now);
    }

    method NoteLatency(latency: real)
      requires LatenciesAgree()
      modifies this`latenciesMs, this`liveLatenciesMs
      ensures LatenciesAgree() && latenciesMs == old(latenciesMs) + [latency]
    {
      LastSnoc(latenciesMs, latency, LIVE_SAMPLE);
      latenciesMs := latenciesMs + [latency];
      liveLatenciesMs := Last(liveLatenciesMs + [latency], LIVE_SAMPLE);
    }

    method MarkDelivered(i: nat, node: string, latency: real)
      requires MessagesAgree() && i < |generatedMessages|
      modifies this`generatedMessages, this`receiverDeliveries, this`deliveredSequences, this`uniqueDeliveries
      ensures MessagesAgree()
      ensures var m := old(generatedMessages)[i];
              var first := if m.latencyMs.None? then Some(latency) else m.latencyMs;
              generatedMessages == old(generatedMessages)[i := m.(deliveredTo := m.deliveredTo + [node],
                                                                  latencyMs := first)]
    {
      hide DeliveredSequences, Total;
      var m := generatedMessages[i];
      var first := if m.latencyMs.None? then Some(latency) else m.latencyMs;
      var updated := m.(deliveredTo := m.deliveredTo + [node], latencyMs := first);
      CountersUpdate(cfg, generatedMessages, i, updated);
      generatedMessages := generatedMessages[i := updated];
      receiverDeliveries := receiverDeliveries + 1;
      if m.sequence !in deliveredSequences {
        deliveredSequences := deliveredSequences + {m.sequence};
        uniqueDeliveries := uniqueDeliveries + 1;
      } else {
        assert deliveredSequences + {m.sequence} == deliveredSequences;
      }
    }

    /** A text message exposed by a node's firmware. */
    method HandleTextDelivery(node: string, p: Packet, now: real)
      requires Valid() && node in cfg.nodes
      modifies this
      ensures Valid() && Records() == OnTextDelivery(old(Records()), node, p, now)
    {
      hide Consistent, MessagesAgree, RadioAgree, DropsAgree, LatenciesAgree, MaximaAgree, DeliveryEffect;
      DeliveryKeepsConsistent(Records(), node, p, now);
      if !AcceptsRunEvents() || p.identifier.None? || p.identifier.value.0 != cfg.runId
          || (p.origin, p.id) !in messagesByPacket {
        return;
      }
      var i := messagesByPacket[(p.origin, p.id)];
      if i >= |generatedMessages| || generatedMessages[i].sequence != p.identifier.value.1 {
        return;
      }
      CountDelivery(i, node, now);
    }

    method CountDelivery(i: nat, node: string, now: real)
      requires CountersAgree() && i < |generatedMessages|
      modifies this
      ensures CountersAgree() && Records() == DeliveryEffect(old(Records()), node, i, now)
    {
      hide MessagesAgree, RadioAgree, DropsAgree, LatenciesAgree, MaximaAgree, FirstDelivery;
      var m := generatedMessages[i];
      var applicable := if cfg.kind == DirectText then node == m.destination else node != m.source;
      if !m.submitted || !applicable {
        return;
      }
      if node in m.deliveredTo {
        if !cfg.sampled {
          duplicates := duplicates + 1;
        }
        return;
      }
      CountFirstDelivery(i, node, now);
    }

    method CountFirstDelivery(i: nat, node: string, now: real)
      requires MessagesAgree() && LatenciesAgree() && i < |generatedMessages|
      modifies this`generatedMessages, this`receiverDeliveries, this`deliveredSequences, this`uniqueDeliveries
      modifies this`latenciesMs, this`liveLatenciesMs, this`lastActivity
      ensures MessagesAgree() && LatenciesAgree() && Records() == FirstDelivery(old(Records()), node, i, now)
    {
      hide MessagesAgree, LatenciesAgree;
      var latency := (now - generatedMessages[i].generatedAt) * 1000.0;
      MarkDelivered(i, node, latency);
      NoteLatency(latency);
      lastActivity := now;
    }

    method MarkAcknowledged(i: nat)
      requires MessagesAgree() && i < |generatedMessages|
      modifies this`generatedMessages, this`acknowledgments
      ensures MessagesAgree()
      ensures generatedMessages == old(generatedMessages[i := generatedMessages[i].(acknowledged := true)])
    {
      hide DeliveredSequences, Total, Offered;
      var m := generatedMessages[i];
      CountersUpdate(cfg, generatedMessages, i, m.(acknowledged := true));
      if !m.acknowledged {
        generatedMessages := generatedMessages[i := m.(acknowledged := true)];
        acknowledgments := acknowledgments + 1;
      }
    }

    /** A rate-limit error takes back a submission that never reached the air. */
    method RecordPretransmissionRejection(node: string, i: nat, now: real)
      requires MessagesAgree() && i < |generatedMessages|
      requires generatedMessages[i].submitted ==> generatedMessages[i].submissionError.None?
      modifies this`generatedMessages, this`pendingSubmissions, this`submittedCount, this`submissionFailedCount,
          this`lastActivity
      ensures MessagesAgree()
      ensures Records() == Reject(old(Records()), node, i, now)
    {
      hide MessagesAgree;
      var m := generatedMessages[i];
      if m.submissionError.Some? {
        return;
      }
      TakeBack(i);
      pendingSubmissions := pendingSubmissions - {(node, m.packetId)};
      lastActivity := now;
    }

    /** The message counts as failed instead of submitted or pending. */
    method TakeBack(i: nat)
      requires MessagesAgree() && i < |generatedMessages| && generatedMessages[i].submissionError.None?
      modifies this`generatedMessages, this`submittedCount, this`submissionFailedCount
      ensures MessagesAgree()
      ensures var rejected := old(generatedMessages)[i].(submitted := false, submissionError := Some(RATE_LIMITED));
              generatedMessages == old(generatedMessages)[i := rejected]
    {
      hide DeliveredSequences, Total, Offered;
      var m := generatedMessages[i];
      var rejected := m.(submitted := false, submissionError := Some(RATE_LIMITED));
      CountersUpdate(cfg, generatedMessages, i, rejected);
      if m.submitted {
        submittedCount := submittedCount - 1;
      }
      generatedMessages := generatedMessages[i := rejected];
      submissionFailedCount := submissionFailedCount + 1;
    }

    /** An acknowledgment or routing error that a node's firmware reports for a request. */
    method HandleRoutingResponse(node: string, requestId: int, error: RoutingError, responseOrigin: int, now: real)
      requires Valid()
      modifies this
      ensures Valid() && Records() == OnRoutingResponse(old(Records()), node, requestId, error, responseOrigin, now)
    {
      RoutingKeepsConsistent(Records(), node, requestId, error, responseOrigin, now);
      if !AcceptsRunEvents() || requestId == 0 || node !in cfg.hardwareIds
          || (cfg.hardwareIds[node], requestId) !in messagesByPacket {
        return;
      }
      var i := messagesByPacket[(cfg.hardwareIds[node], requestId)];
      assert Sound(cfg, generatedMessages[i]);
      hide Consistent, MessagesAgree, RadioAgree, DropsAgree, LatenciesAgree, MaximaAgree, RoutingEffect;
      ApplyRoutingResponse(node, i, error, responseOrigin, now);
    }

    method ApplyRoutingResponse(node: string, i: nat, error: RoutingError, responseOrigin: int, now: real)
      requires CountersAgree() && i < |generatedMessages| && node in cfg.hardwareIds
      requires generatedMessages[i].submitted ==> generatedMessages[i].submissionError.None?
      requires cfg.kind == DirectText ==> generatedMessages[i].destination in cfg.hardwareIds
      modifies this
      ensures CountersAgree() && Records() == RoutingEffect(old(Records()), node, i, error, responseOrigin, now)
    {
      hide MessagesAgree, RadioAgree, DropsAgree, LatenciesAgree, MaximaAgree, ErrorEffect, AcknowledgmentEffect;
      var m := generatedMessages[i];
      if error != RateLimitExceeded && !m.transmitted {
        return;
      }
      if error != NoError {
        RecordRoutingError(node, i, error, now);
        return;
      }
      if cfg.kind == DirectText {
        if responseOrigin != cfg.hardwareIds[m.destination] {
          return;
        }
      } else if responseOrigin == cfg.hardwareIds[node] {
        return;
      }
      CountAcknowledgment(i, now);
    }

    method CountAcknowledgment(i: nat, now: real)
      requires MessagesAgree() && i < |generatedMessages|
      modifies this`generatedMessages, this`acknowledgments, this`lastActivity
      ensures MessagesAgree() && Records() == AcknowledgmentEffect(old(Records()), i, now)
    {
      hide MessagesAgree;
      MarkAcknowledged(i);
      lastActivity := now;
    }

    method RecordRoutingError(node: string, i: nat, error: RoutingError, now: real)
      requires MessagesAgree() && i < |generatedMessages|
      requires DropsAgree()
      requires generatedMessages[i].submitted ==> generatedMessages[i].submissionError.None?
      modifies this`generatedMessages, this`pendingSubmissions, this`submittedCount, this`submissionFailedCount
      modifies this`lastActivity, this`routingTerminalSequences, this`dropReasons, this`dropCounts
      ensures MessagesAgree() && DropsAgree()
      ensures Records() == ErrorEffect(old(Records()), node, i, error, now)
    {
      hide MessagesAgree, DropsAgree, Reject, NoteError;
      var m := generatedMessages[i];
      if !m.transmitted {
        RecordPretransmissionRejection(node, i, now);
      }
      NoteRoutingError(m.sequence, error, now);
    }

    method NoteRoutingError(sequence: nat, error: RoutingError, now: real)
      requires DropsAgree()
      modifies this`lastActivity, this`routingTerminalSequences, this`dropReasons, this`dropCounts
      ensures DropsAgree() && Records() == NoteError(old(Records()), sequence, error, now)
    {
      hide DropsAgree;
      routingTerminalSequences := routingTerminalSequences + {sequence};
      NoteDrop(ErrorName(error));
      lastActivity := now;
    }

    /**
     One submission. The identifier is the one allocation handed out, so no earlier message
     of this source has it; `gatewayError` is what the gateway's send raised, if it did.
     */
    method Submit(source: string, destination: string, packetId: int, length: nat, gatewayError: Option<string>,
                  now: real)
      requires Valid() && phase == Generating && source in cfg.nodes
      requires cfg.kind == DirectText ==> destination in cfg.nodes
      requires forall i :: 0 <= i < |generatedMessages| ==> KeyOf(generatedMessages[i]) != (source, packetId)
      modifies this
      ensures Valid() && Records() == OnSubmit(old(Records()), source, destination, packetId, length, gatewayError, now)
    {
      SubmitKeepsConsistent(Records(), source, destination, packetId, length, gatewayError, now);
      assert source in cfg.hardwareIds;
      hide Consistent, MessagesAgree, RadioAgree, DropsAgree, LatenciesAgree, MaximaAgree, OnSubmit;
      var i := |generatedMessages|;
      var m := Message(i + 1, source, destination, packetId, now, false, None, false, [], false, None);
      SubmitMessage(m, length, gatewayError, now);
    }

    method SubmitMessage(m: Message, length: nat, gatewayError: Option<string>, now: real)
      requires CountersAgree() && m.source in cfg.hardwareIds
      requires m == Message(|generatedMessages| + 1, m.source, m.destination, m.packetId, now, false, None, false,
                            [], false, None)
      modifies this
      ensures CountersAgree()
      ensures Records() == OnSubmit(old(Records()), m.source, m.destination, m.packetId, length, gatewayError, now)
    {
      hide MessagesAgree, RadioAgree, DropsAgree, LatenciesAgree, MaximaAgree, AdmissionEffect;
      var i := |generatedMessages|;
      EnterMessage(m, length, now);
      if gatewayError.Some? {
        ResolvePending(KeyOf(m), i, gatewayError, now);
      }
    }

    /** Files a new message under its keys before it is handed to the gateway. */
    method EnterMessage(m: Message, length: nat, now: real)
      requires MessagesAgree() && MaximaAgree() && m.source in cfg.hardwareIds
      requires !m.submitted && m.submissionError.None? && !m.transmitted && !m.acknowledged && m.deliveredTo == []
      modifies this`generatedMessages, this`generatedCount, this`receiverOpportunities, this`messagesByPacket
      modifies this`pendingSubmissions, this`lengths, this`maximumPacketAirtimeMs, this`maximumRetransmissionDelayMs
      modifies this`lastActivity
      ensures MessagesAgree() && MaximaAgree()
      ensures Records() == EntryEffect(old(Records()), m, length, now)
    {
      hide MessagesAgree, MaximaAgree;
      var i := |generatedMessages|;
      AddMessage(m);
      messagesByPacket := messagesByPacket[(cfg.hardwareIds[m.source], m.packetId) := i];
      pendingSubmissions := pendingSubmissions[KeyOf(m) := i];
      NoteLength(length);
      lastActivity := now;
    }

    method AddMessage(m: Message)
      requires MessagesAgree()
      requires !m.submitted && m.submissionError.None? && !m.transmitted && !m.acknowledged && m.deliveredTo == []
      modifies this`generatedMessages, this`generatedCount, this`receiverOpportunities
      ensures MessagesAgree() && generatedMessages == old(generatedMessages) + [m]
    {
      CountersSnoc(cfg, generatedMessages, m);
      generatedMessages := generatedMessages + [m];
      generatedCount := generatedCount + 1;
      receiverOpportunities := receiverOpportunities + Opportunities(cfg);
    }

    method NoteLength(length: nat)
      requires MaximaAgree()
      modifies this`lengths, this`maximumPacketAirtimeMs, this`maximumRetransmissionDelayMs
      ensures MaximaAgree() && lengths == old(lengths) + [length]
    {
      RunningMaxSnoc(lengths, length, airtimeOf);
      RunningMaxSnoc(lengths, length, delayOf);
      lengths := lengths + [length];
      maximumPacketAirtimeMs := Max(maximumPacketAirtimeMs, airtimeOf(length));
      maximumRetransmissionDelayMs := Max(maximumRetransmissionDelayMs, delayOf(length));
    }

    /** Native statistics are totals; only their growth since the last sample counts. */
    method RecordFailedReceptions(node: string, total: int)
      requires Valid()
      modifies this`latestFailedReceptions, this`failedReceptions
      ensures Valid() && Records() == OnFailedTotal(old(Records()), node, total)
    {
      hide MessagesAgree, RadioAgree, DropsAgree, LatenciesAgree, MaximaAgree, Sound;
      if !AcceptsRunEvents(true) {
        return;
      }
      var known := node in latestFailedReceptions;
      var previous := if known then latestFailedReceptions[node] else total;
      latestFailedReceptions := latestFailedReceptions[node := total];
      if known {
        failedReceptions := failedReceptions + Max(0, total - previous);
      }
    }

    method RecordDuplicateReceptions(node: string, total: int)
      requires Valid()
      modifies this`latestDuplicateReceptions, this`duplicates
      ensures Valid() && Records() == OnDuplicateTotal(old(Records()), node, total)
    {
      hide MessagesAgree, RadioAgree, DropsAgree, LatenciesAgree, MaximaAgree, Sound;
      if !AcceptsRunEvents(true) {
        return;
      }
      var known := node in latestDuplicateReceptions;
      var previous := if known then latestDuplicateReceptions[node] else total;
      latestDuplicateReceptions := latestDuplicateReceptions[node := total];
      if known {
        duplicates := duplicates + Max(0, total - previous);
      }
    }

    method SetEventLoopLag(ms: real)
      requires Valid()
      modifies this`eventLoopLagMs
      ensures Valid()
      ensures Records() == if Accepts(old(Records())) then old(Records()).(lag := Some(ms)) else old(Records())
    {
      hide MessagesAgree, RadioAgree, DropsAgree, LatenciesAgree, MaximaAgree, Sound;
      if AcceptsRunEvents() {
        eventLoopLagMs := Some(ms);
      }
    }

    /** Every admission still open fails with a timeout, whatever order the table yields them in. */
    method FinalizePendingSubmissions(now: real)
      requires Valid()
      modifies this`generatedMessages, this`pendingSubmissions, this`submittedCount, this`submissionFailedCount,
          this`lastActivity
      ensures Valid() && Records() == OnAdmissionTimeout(old(Records()), now)
    {
      hide Consistent, MessagesAgree, RadioAgree, DropsAgree, LatenciesAgree, MaximaAgree, OnAdmissionTimeout;
      TimeoutKeepsConsistent(Records(), now);
      EmptyPendingTable(now);
    }

    method EmptyPendingTable(now: real)
      requires MessagesAgree() && forall k <- pendingSubmissions :: pendingSubmissions[k] < |generatedMessages|
      modifies this`generatedMessages, this`pendingSubmissions, this`submittedCount, this`submissionFailedCount,
          this`lastActivity
      ensures MessagesAgree() && Records() == OnAdmissionTimeout(old(Records()), now)
    {
      hide MessagesAgree, TimedOut;
      TimeOutAll(now);
      pendingSubmissions := map[];
    }

    method TimeOutAll(now: real)
      requires MessagesAgree() && forall k <- pendingSubmissions :: pendingSubmissions[k] < |generatedMessages|
      modifies this`generatedMessages, this`submittedCount, this`submissionFailedCount, this`lastActivity
      ensures MessagesAgree()
      ensures TimingOut(old(generatedMessages), pendingSubmissions.Values, old(lastActivity), now)
    {
      hide MessagesAgree, TimedOut, Settle;
      var keys := pendingSubmissions.Keys;
      TimedOutNone(generatedMessages);
      ghost var done: set<nat> := {};
      while keys != {}
        invariant keys <= pendingSubmissions.Keys
        invariant done == (set k <- pendingSubmissions.Keys - keys :: pendingSubmissions[k])
        invariant MessagesAgree() && TimingOut(old(generatedMessages), done, old(lastActivity), now)
        decreases keys
      {
        var k :| k in keys;
        keys := keys - {k};
        TimeOutOne(pendingSubmissions[k], old(generatedMessages), done, old(lastActivity), now);
        done := done + {pendingSubmissions[k]};
      }
      assert done == pendingSubmissions.Values;
    }

    ghost predicate TimingOut(before: seq<Message>, done: set<nat>, activity: real, now: real)
      reads `generatedMessages, `lastActivity
    {
      && generatedMessages == TimedOut(before, done) && |generatedMessages| == |before|
      && lastActivity == if generatedMessages == before then activity else now
    }

    method TimeOutOne(i: nat, ghost before: seq<Message>, ghost done: set<nat>, ghost activity: real, now: real)
      requires MessagesAgree() && TimingOut(before, done, activity, now) && i < |before|
      modifies this`generatedMessages, this`submittedCount, this`submissionFailedCount, this`lastActivity
      ensures MessagesAgree() && TimingOut(before, done + {i}, activity, now)
    {
      hide MessagesAgree, TimedOut;
      TimedOutOneMore(before, done, i);
      ResolveSubmission(i, Some(ADMISSION_TIMEOUT), now);
    }

    // ---------- any event, any run ----------

    /** The handler for an event that a node or the medium reports. */
    method Dispatch(e: Event)
      requires Valid() && Enabled(Records(), e) && IsHandler(e)
      modifies this
      ensures Valid() && Records() == Step(old(Records()), e)
    {
      hide Consistent, CountersAgree, OnSubmit, OnQueueStatus, OnRfTransmission, OnLinkDrop, OnTextDelivery,
          OnRoutingResponse;
      hide OnFailedTotal, OnDuplicateTotal, OnAdmissionTimeout, Accepts;
      match e
      case QueueStatus(node, packetId, result, now) => RecordQueueStatus(node, packetId, result, now);
      case RfTransmission(transmitter, packet, airtimeMs, now) =>
        var _ := RecordRfTransmission(transmitter, packet, airtimeMs, now);
      case LinkDrop(transmitter, packet, reason, now) => RecordDrop(transmitter, packet, reason, now);
      case TextDelivery(node, packet, now) => HandleTextDelivery(node, packet, now);
      case RoutingResponse(node, requestId, error, origin, now) =>
        HandleRoutingResponse(node, requestId, error, origin, now);
      case FailedTotal(node, total) => RecordFailedReceptions(node, total);
      case DuplicateTotal(node, total) => RecordDuplicateReceptions(node, total);
      case EventLoopLag(ms) => SetEventLoopLag(ms);
    }

    /** The handler or run-loop step for an event. */
    method Handle(e: Event)
      requires Valid() && Enabled(Records(), e)
      modifies this
      ensures Valid() && Records() == Step(old(Records()), e)
    {
      hide Consistent, CountersAgree, OnSubmit, OnQueueStatus, OnRfTransmission, OnLinkDrop, OnTextDelivery,
          OnRoutingResponse;
      hide OnFailedTotal, OnDuplicateTotal, OnAdmissionTimeout, Accepts;
      if IsHandler(e) {
        Dispatch(e);
        return;
      }
      match e
      case Submit(source, destination, packetId, length, gatewayError, now) =>
        Submit(source, destination, packetId, length, gatewayError, now);
      case AdmissionTimeout(now) => FinalizePendingSubmissions(now);
      case BeginDrain => EnterState(state, Draining);
      case ChangeState(s) => EnterState(s, phase);
      case BeginFinalizing(now) =>
        EnterState(state, Finalizing);
        FinalizePendingSubmissions(now);
      case Freeze(final) => EnterState(final, Terminal);
    }

    method EnterState(newState: RunState, newPhase: Phase)
      requires Valid()
      modifies this`state, this`phase
      ensures Valid() && Records() == old(Records()).(state := newState, phase := newPhase)
    {
      hide Consistent, MessagesAgree, RadioAgree, DropsAgree, LatenciesAgree, MaximaAgree;
      PhaseKeepsConsistent(Records(), newState, newPhase);
      state, phase := newState, newPhase;
    }

    /** Over any legal run the fields record exactly what the ledger semantics says. */
    method HandleAll(events: seq<Event>)
      requires Valid() && Legal(Records(), events)
      modifies this
      ensures Valid() && Records() == After(old(Records()), events)
    {
      var i := 0;
      while i < |events|
        invariant 0 <= i <= |events| && Valid() && Legal(Records(), events[i..])
        invariant After(Records(), events[i..]) == After(old(Records()), events)
      {
        assert events[i..][0] == events[i] && events[i..][1..] == events[i + 1..];
        Handle(events[i]);
        i := i + 1;
      }
    }

    // ---------- draining ----------

    method UnresolvedDirectMessages() returns (unresolved: nat)
      requires Valid()
      ensures unresolved == if cfg.kind == DirectText then UnresolvedCount(Records(), |generatedMessages|) else 0
    {
      if cfg.kind != DirectText {
        return 0;
      }
      unresolved := 0;
      for i := 0 to |generatedMessages|
        invariant unresolved == UnresolvedCount(Records(), i)
      {
        var m := generatedMessages[i];
        if m.submissionError.Some? || m.sequence in routingTerminalSequences {
          continue;
        }
        var delivered := m.destination in m.deliveredTo;
        if !m.submitted || !delivered {
          unresolved := unresolved + 1;
        } else if cfg.acknowledgmentRequested && !m.acknowledged {
          unresolved := unresolved + 1;
        }
      }
    }

    method ReadyToSettle() returns (ready: bool)
      requires Valid()
      ensures ready == Settled(Records())
    {
      var unresolved := UnresolvedDirectMessages();
      ready := pendingSubmissions == map[] && unresolved == 0;
    }

    /** The handlers that run while the drain is suspended. */
    method HandleWake(wake: Wake)
      requires Valid() && DrainLegal(Records(), wake.events)
      modifies this
      ensures Valid() && Records() == After(old(Records()), wake.events)
      ensures cfg == old(cfg) && maximumPacketAirtimeMs == old(maximumPacketAirtimeMs)
      ensures maximumRetransmissionDelayMs == old(maximumRetransmissionDelayMs)
    {
      DrainKeepsMaxima(Records(), wake.events);
      hide Consistent, Legal, After;
      HandleAll(wake.events);
    }

    lemma RecordsAreConsistent()
      requires Valid()
      ensures Consistent(Records())
      ensures var r := Records();
              && r.messages == generatedMessages && r.pending == pendingSubmissions && r.cfg == cfg && r.phase == phase
    {}

    /** The events handled during the first `taken` wakes, and nothing else, have been recorded. */
    ghost predicate HasHandled(before: Run, wakes: seq<Wake>, taken: nat)
      requires before.cfg.nodes <= before.cfg.hardwareIds.Keys
      reads this
    {
      && taken <= |wakes| && Legal(before, EventsOf(wakes[..taken]))
      && Records() == After(before, EventsOf(wakes[..taken]))
    }

    lemma NothingHandled(wakes: seq<Wake>)
      requires Valid()
      ensures HasHandled(Records(), wakes, 0)
    {}

    lemma OneMoreHandled(before: Run, wakes: seq<Wake>, i: nat)
      requires Consistent(before) && i < |wakes| && HasHandled(before, wakes, i) && Valid()
      requires Legal(Records(), wakes[i].events)
      ensures Legal(before, EventsOf(wakes[..i + 1]))
      ensures After(before, EventsOf(wakes[..i + 1])) == After(Records(), wakes[i].events)
    {
      hide Legal, After, CountersAgree;
      EventsSnoc(wakes, i);
      RunsJoin(before, EventsOf(wakes[..i]), wakes[i].events);
    }

    method TakeWake(wakes: seq<Wake>, i: nat, now: real, ghost before: Run)
      requires Valid() && Consistent(before) && i < |wakes| && HasHandled(before, wakes, i)
      requires WakesLegal(Records(), wakes[i..], now)
      modifies this
      ensures Valid() && HasHandled(before, wakes, i + 1)
      ensures now <= wakes[i].now && WakesLegal(Records(), wakes[i + 1..], wakes[i].now)
      ensures cfg == old(cfg) && maximumPacketAirtimeMs == old(maximumPacketAirtimeMs)
      ensures maximumRetransmissionDelayMs == old(maximumRetransmissionDelayMs)
    {
      RecordsAreConsistent();
      hide Valid, Legal, After, Consistent, CountersAgree, EventsOf;
      assert wakes[i..][0] == wakes[i] && wakes[i..][1..] == wakes[i + 1..];
      OneMoreHandled(before, wakes, i);
      HandleWake(wakes[i]);
    }

    /** The waiting loop of the drain; it ends settled and quiet, or at the deadline. */
    method Wait(wakes: seq<Wake>, start: real, w: Windows) returns (settled: bool, end: real, ghost taken: nat)
      requires Valid() && WakesLegal(Records(), wakes, start) && w.deadline > 0.0
      modifies this
      ensures Valid() && start <= end <= start + w.deadline && HasHandled(old(Records()), wakes, taken)
      ensures if settled then Settled(Records()) && lastActivity + w.quiet <= end else end == start + w.deadline
    {
      RecordsAreConsistent();
      hide Valid, WakesLegal, Consistent, Settled, HasHandled, CountersAgree, Records;
      var deadline := start + w.deadline;
      var i, now, timedOut := 0, start, false;
      NothingHandled(wakes);
      assert wakes[0..] == wakes;
      while true
        invariant i <= |wakes| && Valid() && WakesLegal(Records(), wakes[i..], now)
        invariant start <= now <= deadline && HasHandled(old(Records()), wakes, i)
        invariant timedOut ==> deadline <= now || (Settled(Records()) && lastActivity + w.quiet <= now)
        decreases |wakes| - i, !timedOut
      {
        var ready := ReadyToSettle();
        var quietRemaining := lastActivity + w.quiet - now;
        if ready && quietRemaining <= 0.0 {
          return true, now, i;
        }
        if deadline - now <= 0.0 {
          return false, now, i;
        }
        var wait := if ready then MinReal(deadline - now, MaxReal(quietRemaining, 0.001)) else deadline - now;
        if i < |wakes| && wakes[i].now <= now + wait {
          TakeWake(wakes, i, now, old(Records()));
          now := wakes[i].now;
          i := i + 1;
        } else {
          WaitIsLegal(Records(), wakes[i..], now, now + wait);
          now := now + wait;
          timedOut := true;
        }
      }
    }

    /**
     The bounded drain. `wakes` are the activity signals it gets, each with the events
     handled meanwhile; a wait that the next of them comes too late for ends by its timeout.
     The drain stops early only when nothing is left to wait for and the network was quiet,
     otherwise at its deadline, and either way no admission is pending.
     */
    method Drain(wakes: seq<Wake>, start: real) returns (settled: bool, end: real, ghost taken: nat)
      requires Valid() && phase == Draining && WakesLegal(Records(), wakes, start)
      modifies this
      ensures Valid() && pendingSubmissions == map[]
      ensures taken <= |wakes| && Legal(old(Records()), EventsOf(wakes[..taken]))
      ensures var w := old(DrainWindows(maximumPacketAirtimeMs, maximumRetransmissionDelayMs, hopLimit,
                                        cfg.kind == DirectText && cfg.acknowledgmentRequested));
              var handled := After(old(Records()), EventsOf(wakes[..taken]));
              && start <= end <= start + w.deadline
              && if settled then Settled(Records()) && Records() == handled && lastActivity + w.quiet <= end
                 else end == start + w.deadline && Records() == OnAdmissionTimeout(handled, end)
    {
      DeadlineBounds(maximumPacketAirtimeMs, maximumRetransmissionDelayMs, hopLimit,
                     cfg.kind == DirectText && cfg.acknowledgmentRequested);
      hide Valid, Legal, After, EventsOf, Consistent, CountersAgree, DrainWindows, UnresolvedCount;
      settled, end, taken := Wait(wakes, start, Windows());
      if !settled {
        FinalizePendingSubmissions(end);
      }
    }

    /** The drain windows of the packets generated so far. */
    function Windows(): Windows
      reads this
    {
      DrainWindows(maximumPacketAirtimeMs, maximumRetransmissionDelayMs, hopLimit,
                   cfg.kind == DirectText && cfg.acknowledgmentRequested)
    }

    /** The drain with a fixed settling time: one sleep, whatever is handled during it. */
    method DrainFixed(sleep: Wake)
      requires Valid() && phase == Draining && DrainLegal(Records(), sleep.events)
      modifies this
      ensures Valid() && pendingSubmissions == map[]
      ensures Records() == OnAdmissionTimeout(After(old(Records()), sleep.events), sleep.now)
    {
      HandleWake(sleep);
      FinalizePendingSubmissions(sleep.now);
    }

    // ---------- finishing ----------

    /**
     Ends the run. Computing and persisting the result happen with the phase at FINALIZING,
     where no handler records anything any more, so they are one step here. A result that
     cannot be persisted is kept, with the run marked as failed.
     */
    method Finish(outcome: RunState, persisted: bool, now: real) returns (result: RunResult)
      requires Valid() && (phase == Generating || phase == Draining)
      modifies this
      ensures Valid()
      ensures Records() == OnAdmissionTimeout(old(Records()).(phase := Finalizing), now)
                           .(phase := Terminal, state := result.state)
      ensures result.state == if persisted then outcome else RunState.Failed
      ensures result == ResultOf(Records(), result.state)
      ensures AddsUpUnlessOrphaned(old(Records()), result)
    {
      hide Consistent, CountersAgree, Recount, Total, OnAdmissionTimeout, AddsUpUnlessOrphaned;
      ghost var before := Records();
      EnterState(state, Finalizing);
      FinalizePendingSubmissions(now);
      result := ComputeResult(if persisted then outcome else RunState.Failed);
      ResultIgnoresPhase(Records(), result.state);
      EnterState(result.state, Terminal);
      FinishedAddsUpExactly(before, now, result);
    }

    method ComputeResult(final: RunState) returns (result: RunResult)
      requires Valid()
      ensures result == ResultOf(Records(), final)
    {
      var metrics := FinalMetrics();
      DeliveredSize(generatedMessages);
      hide Consistent, Recount, Total, DeliveredSequences;
      result := RunResult(final, generatedCount, submittedCount, submissionFailedCount, transmittedCount,
                          uniqueDeliveries, generatedMessages, metrics);
    }

    // ---------- metrics ----------

    /** Live metrics, read from the incremental counters only. */
    function LiveMetrics(): Snapshot
      reads this
    {
      Assemble(
        Scalars(generatedCount, uniqueDeliveries, acknowledgments, ExpectedAcknowledgments(cfg, submittedCount),
                relayTransmissions, duplicates, failedReceptions, eventLoopLagMs, receiverDeliveries,
                receiverOpportunities, map[]),
        liveLatenciesMs, rfTransmissionCount, dropCounts, observedAirtimeMs, perNodeTransmitCounts, perNodeAirtimeMs)
    }

    /** Final metrics, recomputed from records and raw lists. */
    method FinalMetrics() returns (metrics: Snapshot)
      requires Valid()
      ensures metrics == Recount(Records())
    {
      var deliveredIds :=
        if cfg.kind == DirectText
        then set m <- generatedMessages | m.destination in m.deliveredTo :: m.sequence
        else set m <- generatedMessages | exists n <- m.deliveredTo :: n != m.source :: m.sequence;
      assert forall m <- generatedMessages :: Sound(cfg, m);
      DeliveredIdsAgree(cfg, generatedMessages);
      DeliveredSize(generatedMessages);
      hide Consistent, Sound, Assemble, Total, CountAll, WeighAll, Sum;
      var scalars := Scalars(
        generatedCount, |deliveredIds|, acknowledgments, ExpectedAcknowledgments(cfg, submittedCount),
        relayTransmissions, duplicates, failedReceptions, eventLoopLagMs, receiverDeliveries, receiverOpportunities,
        ReceiversPerBroadcast(cfg, generatedMessages));
      var r := CalculateFromLists(scalars, latenciesMs, rfTransmitters, airtimesMs, dropReasons);
      metrics := r.value;
    }

    /**
     In every reachable state the live counters are the recount of the records, except that
     receivers per broadcast are left out and latencies are the last 2048.
     */
    lemma LiveIsRecount()
      requires Valid()
      ensures var recent := if |latenciesMs| <= 2048 then latenciesMs else latenciesMs[|latenciesMs| - 2048..];
              LiveMetrics() == Recount(Records().(latencies := recent)).(receiversPerBroadcast := map[])
      ensures |latenciesMs| <= 2048 ==> LiveMetrics() == Recount(Records()).(receiversPerBroadcast := map[])
    {
      DeliveredSize(generatedMessages);
    }

    /**
       With a modem's own costs, the maxima that bound the drain are those of the longest
       packet generated so far, and for firmware packets the drain can wait out its quiet window.
     */
    lemma MaximaAreForLongest(preset: ModemPreset, reliable: bool)
      requires Valid() && lengths != [] && airtimeOf == AirtimeCost(preset) && delayOf == DelayCost(preset)
      ensures maximumPacketAirtimeMs == AirtimeMs(Longest(lengths), preset)
      ensures maximumRetransmissionDelayMs == RetransmissionDelayMs(Longest(lengths), preset)
      ensures Longest(lengths) <= 512 ==>
                var w := DrainWindows(maximumPacketAirtimeMs, maximumRetransmissionDelayMs, hopLimit, reliable);
                w.quiet <= w.deadline
    {
      hide Consistent, AirtimeMs, RetransmissionDelayMs, DrainWindows, Longest;
      RunningMaximaAreForLongest(lengths, preset);
      AirtimeIsPositive(Longest(lengths), preset);
      if Longest(lengths) <= 512 {
        DelayWithinDrainLimit(Longest(lengths), preset);
      }
      DeadlineBounds(maximumPacketAirtimeMs, maximumRetransmissionDelayMs, hopLimit, reliable);
    }
  }

  lemma DeliveredIdsAgree(cfg: Config, ms: seq<Message>)
    requires forall m <- ms :: Sound(cfg, m)
    ensures DeliveredSequences(ms) ==
      if cfg.kind == DirectText
      then set m <- ms | m.destination in m.deliveredTo :: m.sequence
      else set m <- ms | exists n <- m.deliveredTo :: n != m.source :: m.sequence
  {
    forall m <- ms | m.deliveredTo != []
      ensures if cfg.kind == DirectText then m.destination in m.deliveredTo
              else exists n <- m.deliveredTo :: n != m.source
    {
      assert m.deliveredTo[0] in m.deliveredTo;
    }
  }

  /** Every ratio of a recount is a fraction, whatever happened in the run. */
  lemma RatiosAreFractions(r: Run)
    requires Consistent(r)
    ensures var m := Recount(r);
            && Fraction(m.deliveryRatio) && Fraction(m.receiverDeliveryRatio) && Fraction(m.acknowledgmentRatio)
  {
    ReceiversFit(r.cfg, r.messages);
    FractionWhen(Total(r.messages, Delivered), |r.messages|);
    FractionWhen(Total(r.messages, Receivers), Offered(r.cfg, |r.messages|));
    if ExpectedAcknowledgments(r.cfg, Total(r.messages, Submitted)) > 0 {
      FractionWhen(Total(r.messages, Acknowledged), Total(r.messages, Submitted));
    }
  }

  predicate Fraction(x: Option<real>) {
    x.Some? ==> 0.0 <= x.value <= 1.0
  }

  lemma FractionWhen(a: nat, b: nat)
    requires a <= b
    ensures Fraction(Ratio(a, b))
  {
    if b > 0 {
      RatioIsFraction(a, b);
    }
  }

  lemma TimedOutNone(ms: seq<Message>)
    ensures TimedOut(ms, {}) == ms
  {}

  lemma TimedOutOneMore(ms: seq<Message>, done: set<nat>, i: nat)
    requires i < |ms|
    ensures var before := TimedOut(ms, done);
            && |before| == |ms|
            && TimedOut(ms, done + {i}) == before[i := Settle(before[i], Some(ADMISSION_TIMEOUT))]
            && (Unresolved(before[i]) ==> TimedOut(ms, done + {i}) != ms)
            && (!Unresolved(before[i]) ==> TimedOut(ms, done + {i}) == before)
  {
    var before, after := TimedOut(ms, done), TimedOut(ms, done + {i});
    assert forall k :: 0 <= k < |ms| && k != i ==> after[k] == before[k];
    if Unresolved(before[i]) {
      assert after[i] != ms[i];
    }
  }
}
