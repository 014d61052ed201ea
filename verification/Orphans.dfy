/**
 When a frozen result adds up. A rate-limit error removes a pending key named after the node
 that received it and the packet identifier of the message it answers. That key can belong to
 another message, which is then left without a waiting key and without an outcome: an orphan.
 */
module Orphans {
  import opened Ledger
  import opened Wrappers

  /** Messages have keys of their own, and a pending key leads to the message it belongs to. */
  ghost predicate Keyed(ms: seq<Message>, pending: map<Key, nat>) {
    && (forall i, j :: 0 <= i < j < |ms| ==> KeyOf(ms[i]) != KeyOf(ms[j]))
    && (forall k <- pending :: pending[k] < |ms| && KeyOf(ms[pending[k]]) == k)
  }

  predicate Orphan(r: Run, i: nat) {
    i < |r.messages| && Unresolved(r.messages[i]) && KeyOf(r.messages[i]) !in r.pending
  }

  ghost predicate HasOrphan(r: Run) {
    exists i :: Orphan(r, i)
  }

  /** The message that a rate-limit error takes effect on. */
  function Rejected(r: Run, e: Event): Option<nat> {
    if e.RoutingResponse? && e.error == RateLimitExceeded && Accepts(r) && Answered(r, e.node, e.requestId).Some? then
      var i := Answered(r, e.node, e.requestId).value;
      if !r.messages[i].transmitted && r.messages[i].submissionError.None? then Some(i) else None
    else None
  }

  /** The error is about another message, but the key it removes is the one `i` waits under. */
  predicate Steals(r: Run, e: Event, i: nat) {
    && i < |r.messages| && Unresolved(r.messages[i])
    && Rejected(r, e).Some? && Rejected(r, e) != Some(i)
    && KeyOf(r.messages[i]) == (e.node, r.messages[Rejected(r, e).value].packetId)
  }

  // ---------- keys ----------

  /** Records keep their keys and the pending table only loses entries. */
  ghost predicate Shrinks(r: Run, s: Run) {
    && |s.messages| == |r.messages|
    && (forall i :: 0 <= i < |r.messages| ==> KeyOf(s.messages[i]) == KeyOf(r.messages[i]))
    && (forall k <- s.pending :: k in r.pending && s.pending[k] == r.pending[k])
  }

  lemma ShrinkingKeepsKeyed(r: Run, s: Run)
    requires Keyed(r.messages, r.pending) && Shrinks(r, s)
    ensures Keyed(s.messages, s.pending)
  {}

  lemma EventsShrink(r: Run, e: Event)
    requires Consistent(r) && Enabled(r, e) && !e.Submit? && !e.RoutingResponse?
    ensures Shrinks(r, Step(r, e))
  {
    hide Consistent, Identify, WithAlias, RequestId, Growth, Correlated;
    if e.RfTransmission? || e.LinkDrop? {
      AliasKeepsConsistent(r, e.packet, Some(e.transmitter));
    } else if e.TextDelivery? {
      CorrelatedIsMessage(r, e.packet);
    }
  }

  lemma ResponsesShrink(r: Run, e: Event)
    requires Consistent(r) && e.RoutingResponse?
    ensures Shrinks(r, Step(r, e))
  {
    hide Consistent, ProperOrigin, Answered;
    AnsweredIsMessage(r, e.node, e.requestId);
  }

  lemma SubmitKeepsKeyed(r: Run, e: Event)
    requires Consistent(r) && Keyed(r.messages, r.pending) && Enabled(r, e) && e.Submit?
    ensures Keyed(Step(r, e).messages, Step(r, e).pending)
  {
    var n, next := |r.messages|, Step(r, e);
    assert forall i :: 0 <= i < n ==> next.messages[i] == r.messages[i];
    assert KeyOf(next.messages[n]) == (e.source, e.packetId);
  }

  lemma StepKeepsKeyed(r: Run, e: Event)
    requires Consistent(r) && Keyed(r.messages, r.pending) && Enabled(r, e)
    ensures Keyed(Step(r, e).messages, Step(r, e).pending)
  {
    if e.Submit? {
      SubmitKeepsKeyed(r, e);
    } else {
      if e.RoutingResponse? {
        ResponsesShrink(r, e);
      } else {
        EventsShrink(r, e);
      }
      ShrinkingKeepsKeyed(r, Step(r, e));
    }
  }

  // ---------- orphans ----------

  lemma QueueStatusOrphansNone(r: Run, e: Event, i: nat)
    requires Consistent(r) && Keyed(r.messages, r.pending) && e.QueueStatus?
    ensures Orphan(Step(r, e), i) <==> Orphan(r, i)
  {
    hide Consistent;
    if Accepts(r) && e.packetId != 0 && (e.node, e.packetId) in r.pending {
      var j := r.pending[(e.node, e.packetId)];
      assert i < |r.messages| && i != j ==> KeyOf(r.messages[i]) != KeyOf(r.messages[j]);
    }
  }

  lemma TimeoutOrphansNone(r: Run, now: real, i: nat)
    requires Keyed(r.messages, r.pending)
    ensures Orphan(OnAdmissionTimeout(r, now), i) <==> Orphan(r, i)
  {
    if i < |r.messages| && Unresolved(r.messages[i]) {
      var key := KeyOf(r.messages[i]);
      if key in r.pending {
        assert r.pending[key] == i && i in r.pending.Values;
      } else {
        forall k <- r.pending ensures r.pending[k] != i {}
      }
    }
  }

  lemma SubmitOrphansNone(r: Run, e: Event, i: nat)
    requires Consistent(r) && Keyed(r.messages, r.pending) && Enabled(r, e) && e.Submit?
    ensures Orphan(Step(r, e), i) <==> Orphan(r, i)
  {
    var n, next := |r.messages|, Step(r, e);
    assert next.messages[n].submissionError.None? ==> KeyOf(next.messages[n]) in next.pending;
    assert i < n ==> next.messages[i] == r.messages[i] && KeyOf(r.messages[i]) != (e.source, e.packetId);
  }

  /** A response orphans a message exactly by stealing its key, and ends an orphan's state by rejecting it. */
  lemma ResponseOrphans(r: Run, e: Event, i: nat)
    requires Consistent(r) && e.RoutingResponse?
    ensures Orphan(Step(r, e), i) <==> (Orphan(r, i) && Rejected(r, e) != Some(i)) || Steals(r, e, i)
  {
    if i < |r.messages| {
      assert Sound(r.cfg, r.messages[i]);
    }
    hide Consistent, Sound, Answered, ProperOrigin;
    AnsweredIsMessage(r, e.node, e.requestId);
  }

  lemma OthersOrphanNone(r: Run, e: Event, i: nat)
    requires Consistent(r) && Enabled(r, e)
    requires !e.Submit? && !e.QueueStatus? && !e.RoutingResponse? && !e.AdmissionTimeout? && !e.BeginFinalizing?
    ensures Orphan(Step(r, e), i) <==> Orphan(r, i)
  {
    hide Consistent, Identify, WithAlias, RequestId, Growth, Correlated;
    if e.RfTransmission? || e.LinkDrop? {
      AliasKeepsConsistent(r, e.packet, Some(e.transmitter));
    } else if e.TextDelivery? {
      CorrelatedIsMessage(r, e.packet);
    }
  }

  lemma RejectedByResponse(r: Run, e: Event)
    ensures !e.RoutingResponse? ==> Rejected(r, e).None?
  {}

  /** How messages become orphans and stop being orphans, in every step of a run. */
  lemma StepOrphansExactly(r: Run, e: Event, i: nat)
    requires Consistent(r) && Keyed(r.messages, r.pending) && Enabled(r, e)
    ensures Orphan(Step(r, e), i) <==> (Orphan(r, i) && Rejected(r, e) != Some(i)) || Steals(r, e, i)
  {
    hide Orphan, Rejected, Keyed, Consistent;
    RejectedByResponse(r, e);
    if e.RoutingResponse? {
      ResponseOrphans(r, e, i);
    } else if e.Submit? {
      SubmitOrphansNone(r, e, i);
    } else if e.QueueStatus? {
      QueueStatusOrphansNone(r, e, i);
    } else if e.AdmissionTimeout? {
      TimeoutOrphansNone(r, e.now, i);
    } else if e.BeginFinalizing? {
      TimeoutOrphansNone(r.(phase := Finalizing), e.now, i);
      PhaseOrphansNone(r, i);
    } else {
      OthersOrphanNone(r, e, i);
    }
  }

  lemma PhaseOrphansNone(r: Run, i: nat)
    ensures Orphan(r.(phase := Finalizing), i) <==> Orphan(r, i)
  {}

  /** While nothing is orphaned, a step keeps it so exactly when it steals no key. */
  lemma NoOrphansExactly(r: Run, e: Event)
    requires Consistent(r) && Keyed(r.messages, r.pending) && Enabled(r, e) && !HasOrphan(r)
    ensures HasOrphan(Step(r, e)) <==> exists i :: Steals(r, e, i)
  {
    assert r.cfg.nodes <= r.cfg.hardwareIds.Keys;
    hide Orphan, Steals, Step, Enabled, Keyed, Consistent, Rejected;
    forall i: nat ensures Orphan(Step(r, e), i) <==> Steals(r, e, i) {
      StepOrphansExactly(r, e, i);
    }
  }

  // ---------- whole runs ----------

  ghost predicate Unstolen(r: Run, events: seq<Event>)
    requires r.cfg.nodes <= r.cfg.hardwareIds.Keys && Legal(r, events)
    decreases |events|
  {
    events == [] || ((forall i :: !Steals(r, events[0], i)) && Unstolen(Step(r, events[0]), events[1..]))
  }

  lemma {:induction false} RunsKeepKeyed(r: Run, events: seq<Event>)
    requires Consistent(r) && Keyed(r.messages, r.pending) && Legal(r, events)
    ensures Keyed(After(r, events).messages, After(r, events).pending) && Consistent(After(r, events))
    decreases |events|
  {
    if events == [] {
    } else {
      hide Keyed, Step, Enabled, Consistent;
      StepKeepsConsistent(r, events[0]);
      StepKeepsKeyed(r, events[0]);
      RunsKeepKeyed(Step(r, events[0]), events[1..]);
    }
  }

  lemma {:induction false} UnstolenRunsHaveNoOrphans(r: Run, events: seq<Event>)
    requires Consistent(r) && Keyed(r.messages, r.pending) && !HasOrphan(r) && Legal(r, events) && Unstolen(r, events)
    ensures !HasOrphan(After(r, events))
    decreases |events|
  {
    if events == [] {
    } else {
      hide Keyed, Step, Enabled, Consistent, HasOrphan, Steals;
      StepKeepsConsistent(r, events[0]);
      StepKeepsKeyed(r, events[0]);
      NoOrphansExactly(r, events[0]);
      UnstolenRunsHaveNoOrphans(Step(r, events[0]), events[1..]);
    }
  }

  /** Requested = submitted + failed. */
  predicate AddsUp(r: Run) {
    |r.messages| == Total(r.messages, Submitted) + Total(r.messages, SubmissionFailed)
  }

  lemma {:induction false} NoneAwaitingExactly(ms: seq<Message>)
    ensures Total(ms, AwaitingAdmission) == 0 <==> forall i :: 0 <= i < |ms| ==> !Unresolved(ms[i])
  {
    if ms == [] {
    } else {
      NoneAwaitingExactly(ms[..|ms| - 1]);
      assert forall i :: 0 <= i < |ms| - 1 ==> ms[..|ms| - 1][i] == ms[i];
    }
  }

  lemma EmptiedAddsUpExactly(r: Run)
    requires Consistent(r) && r.pending == map[]
    ensures AddsUp(r) <==> !HasOrphan(r)
  {
    OutcomesCover(r.cfg, r.messages);
    NoneAwaitingExactly(r.messages);
    if i :| 0 <= i < |r.messages| && Unresolved(r.messages[i]) {
      assert Orphan(r, i);
    }
  }

  /** Finalizing a run makes its counts add up exactly when no message has been orphaned. */
  lemma FinalizationAddsUpExactly(r: Run, now: real)
    requires Consistent(r) && Keyed(r.messages, r.pending)
    ensures var end := OnAdmissionTimeout(r.(phase := Finalizing), now);
            end.pending == map[] && (AddsUp(end) <==> !HasOrphan(r))
  {
    var closing := r.(phase := Finalizing);
    var end := OnAdmissionTimeout(closing, now);
    TimeoutKeepsConsistent(closing, now);
    EmptiedAddsUpExactly(end);
    hide Orphan, AddsUp, Keyed;
    forall i ensures Orphan(end, i) <==> Orphan(r, i) {
      TimeoutOrphansNone(closing, now, i);
      PhaseOrphansNone(r, i);
    }
  }

  lemma StartHasNoOrphans(cfg: Config, failed: map<string, int>, duplicates: map<string, int>, now: real)
    requires cfg.nodes <= cfg.hardwareIds.Keys
    ensures var r := Start(cfg, failed, duplicates, now);
            Consistent(r) && Closed(r) && Keyed(r.messages, r.pending) && !HasOrphan(r)
  {}

  /**
     From its start to its frozen result, whatever happened in between: when no rate-limit
     error takes the key of another waiting message, nothing is pending at the end and every
     requested message was submitted or failed.
   */
  lemma FrozenRunsAddUp(cfg: Config, failed: map<string, int>, duplicates: map<string, int>, now: real,
                        events: seq<Event>)
    requires cfg.nodes <= cfg.hardwareIds.Keys
    requires Legal(Start(cfg, failed, duplicates, now), events) && Unstolen(Start(cfg, failed, duplicates, now), events)
    requires After(Start(cfg, failed, duplicates, now), events).phase == Terminal
    ensures var end := After(Start(cfg, failed, duplicates, now), events);
            && end.pending == map[] && AddsUp(end)
            && forall m <- end.messages :: Sound(cfg, m) && (m.submitted <==> m.submissionError.None?)
  {
    var start := Start(cfg, failed, duplicates, now);
    StartHasNoOrphans(cfg, failed, duplicates, now);
    RunsAreConsistent(start, events);
    RunsStayClosed(start, events);
    RunsKeepConfig(start, events);
    UnstolenRunsHaveNoOrphans(start, events);
    var end := After(start, events);
    EmptiedAddsUpExactly(end);
    forall i | 0 <= i < |end.messages| ensures !Unresolved(end.messages[i]) {
      assert !Orphan(end, i);
    }
  }

  /** The same for every run: its frozen counts add up if and only if nothing was orphaned when finalization began. */
  lemma FrozenRunsAddUpExactly(cfg: Config, failed: map<string, int>, duplicates: map<string, int>, now: real,
                               before: seq<Event>, at: real, after: seq<Event>)
    requires cfg.nodes <= cfg.hardwareIds.Keys
    requires Legal(Start(cfg, failed, duplicates, now), before)
    requires var r := After(Start(cfg, failed, duplicates, now), before);
             && r.cfg.nodes <= r.cfg.hardwareIds.Keys
             && Enabled(r, BeginFinalizing(at))
             && Step(r, BeginFinalizing(at)).cfg == r.cfg
             && Legal(Step(r, BeginFinalizing(at)), after)
    ensures var r := After(Start(cfg, failed, duplicates, now), before);
            AddsUp(After(Step(r, BeginFinalizing(at)), after)) <==> !HasOrphan(r)
  {
    var start := Start(cfg, failed, duplicates, now);
    StartHasNoOrphans(cfg, failed, duplicates, now);
    RunsKeepKeyed(start, before);
    var r := After(start, before);
    var closing := Step(r, BeginFinalizing(at));
    FinalizationAddsUpExactly(r, at);
    StepKeepsConsistent(r, BeginFinalizing(at));
    FinalizedRecordsAreFrozen(closing, after);
  }

  /** Rejections of a node's own messages steal no key. */
  lemma HonestStealsNothing(r: Run, e: Event, i: nat)
    requires Keyed(r.messages, r.pending) && HonestRejection(r, e)
    ensures !Steals(r, e, i)
  {
    AnsweredIsMessage(r, if e.RoutingResponse? then e.node else "", if e.RoutingResponse? then e.requestId else 0);
  }

  lemma {:induction false} HonestRunsAreUnstolen(r: Run, events: seq<Event>)
    requires Consistent(r) && Keyed(r.messages, r.pending) && Legal(r, events) && Honest(r, events)
    ensures Unstolen(r, events)
    decreases |events|
  {
    if events == [] {
    } else {
      hide Keyed, Step, Enabled, Consistent, Steals, HonestRejection;
      forall i ensures !Steals(r, events[0], i) {
        HonestStealsNothing(r, events[0], i);
      }
      StepKeepsConsistent(r, events[0]);
      StepKeepsKeyed(r, events[0]);
      HonestRunsAreUnstolen(Step(r, events[0]), events[1..]);
    }
  }

  // ---------- a frozen result that does not add up ----------

  const TWO_NODES := Config("run", DirectText, true, {"a", "b"}, map["a" := 1, "b" := 2], true)

  /** Both nodes wait for the admission of a packet 7, and b's answer to a's one was heard. */
  function BothWaiting(): Run {
    Start(TWO_NODES, map[], map[], 0.0).(
      messages := [Waiting(1, "a", "b"), Waiting(2, "b", "a")],
      pending := map[("a", 7) := 0, ("b", 7) := 1],
      byPacket := map[(1, 7) := 0, (2, 7) := 1, (2, 9) := 0],
      lengths := [20, 20])
  }

  function Waiting(sequence: nat, source: string, destination: string): Message {
    Message(sequence, source, destination, 7, 0.0, false, None, false, [], false, None)
  }

  lemma BothSubmitted()
    ensures var first, second := Submit("a", "b", 7, 20, None, 0.0), Submit("b", "a", 7, 20, None, 0.0);
            var start := Start(TWO_NODES, map[], map[], 0.0);
            (&& Enabled(start, first) && Step(start, first).cfg == TWO_NODES && Enabled(Step(start, first), second)
             && Step(Step(start, first), second) == BothWaiting().(byPacket := map[(1, 7) := 0, (2, 7) := 1]))
  {
    var start := Start(TWO_NODES, map[], map[], 0.0);
    var r1 := Step(start, Submit("a", "b", 7, 20, None, 0.0));
    assert r1.messages == [Waiting(1, "a", "b")];
    assert Step(r1, Submit("b", "a", 7, 20, None, 0.0)).messages == [Waiting(1, "a", "b"), Waiting(2, "b", "a")];
  }

  lemma BothWaitingIsReachable()
    ensures var first := Submit("a", "b", 7, 20, None, 0.0);
            var second := Submit("b", "a", 7, 20, None, 0.0);
            var answer := RfTransmission("b", Packet(2, 1, 9, Some(Routing), 7, 0, None), 50, 0.0);
            var start := Start(TWO_NODES, map[], map[], 0.0);
            (Legal(start, [first] + ([second] + ([answer] + [])))
             && After(start, [first] + ([second] + ([answer] + []))) == BothWaiting())
  {
    var first := Submit("a", "b", 7, 20, None, 0.0);
    var second := Submit("b", "a", 7, 20, None, 0.0);
    var answer := RfTransmission("b", Packet(2, 1, 9, Some(Routing), 7, 0, None), 50, 0.0);
    var start := Start(TWO_NODES, map[], map[], 0.0);
    BothSubmitted();
    OneMore(Step(Step(start, first), second), answer, []);
    OneMore(Step(start, first), second, [answer] + []);
    OneMore(start, first, [second] + ([answer] + []));
  }

  lemma BothWaitingIsTracked()
    ensures var r, e := BothWaiting(), RoutingResponse("b", 9, RateLimitExceeded, 2, 1.0);
            Consistent(r) && Keyed(r.messages, r.pending) && Steals(r, e, 1)
  {
    var r := BothWaiting();
    assert Sound(TWO_NODES, r.messages[0]) && Sound(TWO_NODES, r.messages[1]);
  }

  /** A rejection at b of a's packet takes the key of b's own message; finalized then, the counts do not add up. */
  lemma StolenKeyBreaksTheSum()
    ensures var stolen := Step(BothWaiting(), RoutingResponse("b", 9, RateLimitExceeded, 2, 1.0));
            && Steals(BothWaiting(), RoutingResponse("b", 9, RateLimitExceeded, 2, 1.0), 1)
            && HasOrphan(stolen)
            && !AddsUp(OnAdmissionTimeout(stolen.(phase := Finalizing), 2.0))
  {
    var r, e := BothWaiting(), RoutingResponse("b", 9, RateLimitExceeded, 2, 1.0);
    BothWaitingIsTracked();
    hide Consistent, Keyed, AddsUp, OnAdmissionTimeout, Steals, Orphan, Step;
    StepKeepsConsistent(r, e);
    StepKeepsKeyed(r, e);
    StepOrphansExactly(r, e, 1);
    FinalizationAddsUpExactly(Step(r, e), 2.0);
  }

  lemma ForeignAnswerIsTracked()
    ensures var r, e := ForeignAnswer(), RoutingResponse("b", 9, RateLimitExceeded, 2, 1.0);
            && Consistent(r) && Keyed(r.messages, r.pending) && !HasOrphan(r) && forall i :: !Steals(r, e, i)
  {
    var r, e := ForeignAnswer(), RoutingResponse("b", 9, RateLimitExceeded, 2, 1.0);
    assert Sound(r.cfg, r.messages[0]);
    forall i ensures !Orphan(r, i) && !Steals(r, e, i) {}
  }

  /** Not every dishonest rejection does that: this one hits a message and takes nobody's key. */
  lemma ForeignRejectionStillAddsUp()
    ensures var r, e := ForeignAnswer(), RoutingResponse("b", 9, RateLimitExceeded, 2, 1.0);
            !HonestRejection(r, e) && !Steals(r, e, 0)
                && AddsUp(OnAdmissionTimeout(Step(r, e).(phase := Finalizing), 2.0))
  {
    var r, e := ForeignAnswer(), RoutingResponse("b", 9, RateLimitExceeded, 2, 1.0);
    ForeignAnswerIsTracked();
    hide Consistent, Keyed, HasOrphan, AddsUp, OnAdmissionTimeout;
    NoOrphansExactly(r, e);
    StepKeepsConsistent(r, e);
    StepKeepsKeyed(r, e);
    FinalizationAddsUpExactly(Step(r, e), 2.0);
  }
}
