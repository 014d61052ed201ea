/**
 What the records of a run are evidence of. A message counts as transmitted, acknowledged
 or delivered somewhere exactly when some event of the run established it in the state of
 that moment, and every latency belongs to exactly one recorded receiver.
 */
module Evidence {
  import opened Ledger
  import opened Sequences
  import opened Wrappers

  datatype Fact = WasTransmitted | WasAcknowledged | WasDeliveredTo(node: string)

  predicate Holds(r: Run, i: nat, f: Fact) {
    i < |r.messages| &&
    match f
    case WasTransmitted => r.messages[i].transmitted
    case WasAcknowledged => r.messages[i].acknowledged
    case WasDeliveredTo(node) => node in r.messages[i].deliveredTo
  }

  /** The run is generating or draining, and has not failed. */
  predicate Open(r: Run) {
    (r.phase == Generating || r.phase == Draining) && (r.state == Running || r.state == Stopping)
  }

  /**
     The message a packet is filed under. A routing response, or a ciphertext of the
     transmitter's own that it could not decode, names the request it answers; when that request
     is known to the packet's destination, its message is the one. Any other packet is looked up by
     its own origin and identifier.
   */
  predicate Carries(r: Run, p: Packet, transmitter: string, i: nat) {
    var response := p.port == Some(Routing) && p.requestId != 0;
    var ciphertext := p.port == Some(Unknown) && p.rxTime != 0
                      && transmitter in r.cfg.hardwareIds && r.cfg.hardwareIds[transmitter] == p.origin;
    var request := (p.destination, if response then p.requestId else p.rxTime);
    if (response || ciphertext) && request in r.byPacket then r.byPacket[request] == i
    else (p.origin, p.id) in r.byPacket && r.byPacket[(p.origin, p.id)] == i
  }

  /**
     The event that makes a fact true of message `i`, in the state it is handled in.

     Transmitted: a frame on the air carries it after its admission. Delivered: an admitted
     message's payload and packet arrive, at its destination or, for a broadcast, at another node
     than its source. Acknowledged: after a transmission a response without an error arrives at a
     node for a request of that node, sent by the destination's radio or, for a broadcast, by
     another radio than the node's own.
   */
  predicate Establishes(r: Run, e: Event, i: nat, f: Fact) {
    Open(r) && i < |r.messages| &&
    var m := r.messages[i];
    match f
    case WasTransmitted =>
      e.RfTransmission? && m.submitted && Carries(r, e.packet, e.transmitter, i)
    case WasAcknowledged =>
      && e.RoutingResponse? && e.error == NoError && m.transmitted && e.requestId != 0
      && e.node in r.cfg.hardwareIds && (r.cfg.hardwareIds[e.node], e.requestId) in r.byPacket
      && r.byPacket[(r.cfg.hardwareIds[e.node], e.requestId)] == i
      && (if r.cfg.kind == DirectText
          then m.destination in r.cfg.hardwareIds && e.responseOrigin == r.cfg.hardwareIds[m.destination]
          else e.responseOrigin != r.cfg.hardwareIds[e.node])
    case WasDeliveredTo(node) =>
      && e.TextDelivery? && e.node == node && m.submitted
      && e.packet.identifier == Some((r.cfg.runId, m.sequence))
      && (e.packet.origin, e.packet.id) in r.byPacket && r.byPacket[(e.packet.origin, e.packet.id)] == i
      && (if r.cfg.kind == DirectText then node == m.destination else node != m.source)
  }

  lemma CarriesIsIdentify(r: Run, p: Packet, transmitter: string, i: nat)
    ensures Carries(r, p, transmitter, i) <==> Identify(r, p, Some(transmitter)) == Some(i)
  {}

  lemma TransmissionEvidence(r: Run, e: Event, i: nat, f: Fact)
    requires Consistent(r) && Enabled(r, e) && e.RfTransmission?
    ensures Holds(Step(r, e), i, f) <==> Holds(r, i, f) || Establishes(r, e, i, f)
  {
    AliasKeepsConsistent(r, e.packet, Some(e.transmitter));
    CarriesIsIdentify(r, e.packet, e.transmitter, i);
    hide Consistent, Identify, WithAlias, RequestId, Carries;
  }

  lemma DeliveryEvidence(r: Run, e: Event, i: nat, f: Fact)
    requires Consistent(r) && Enabled(r, e) && e.TextDelivery?
    ensures Holds(Step(r, e), i, f) <==> Holds(r, i, f) || Establishes(r, e, i, f)
  {
    hide Consistent;
    CorrelatedIsMessage(r, e.packet);
  }

  lemma ResponseEvidence(r: Run, e: Event, i: nat, f: Fact)
    requires Consistent(r) && Enabled(r, e) && e.RoutingResponse?
    ensures Holds(Step(r, e), i, f) <==> Holds(r, i, f) || Establishes(r, e, i, f)
  {
    hide Consistent;
    AnsweredIsMessage(r, e.node, e.requestId);
  }

  lemma AdmissionEvidence(r: Run, e: Event, i: nat, f: Fact)
    requires Consistent(r) && Enabled(r, e)
        && (e.Submit? || e.QueueStatus? || e.AdmissionTimeout? || e.BeginFinalizing?)
    ensures Holds(Step(r, e), i, f) <==> Holds(r, i, f)
  {}

  /** A fact becomes true by the event that establishes it, and stays true. */
  lemma StepEvidence(r: Run, e: Event, i: nat, f: Fact)
    requires Consistent(r) && Enabled(r, e)
    ensures Holds(Step(r, e), i, f) <==> Holds(r, i, f) || Establishes(r, e, i, f)
  {
    if e.RfTransmission? {
      TransmissionEvidence(r, e, i, f);
    } else if e.TextDelivery? {
      DeliveryEvidence(r, e, i, f);
    } else if e.RoutingResponse? {
      ResponseEvidence(r, e, i, f);
    } else if e.Submit? || e.QueueStatus? || e.AdmissionTimeout? || e.BeginFinalizing? {
      AdmissionEvidence(r, e, i, f);
    }
  }

  ghost predicate Established(r: Run, events: seq<Event>, i: nat, f: Fact)
    requires r.cfg.nodes <= r.cfg.hardwareIds.Keys && Legal(r, events)
    decreases |events|
  {
    events != [] && (Establishes(r, events[0], i, f) || Established(Step(r, events[0]), events[1..], i, f))
  }

  /** Over any run: the records hold a fact exactly when an event of the run established it. */
  lemma {:induction false} FactsHaveCauses(r: Run, events: seq<Event>, i: nat, f: Fact)
    requires Consistent(r) && Legal(r, events)
    ensures Holds(After(r, events), i, f) <==> Holds(r, i, f) || Established(r, events, i, f)
    decreases |events|
  {
    if events == [] {
    } else {
      hide Establishes, Holds, Step, Enabled;
      StepKeepsConsistent(r, events[0]);
      StepEvidence(r, events[0], i, f);
      FactsHaveCauses(Step(r, events[0]), events[1..], i, f);
    }
  }

  // ---------- admission ----------

  /** The firmware queue takes a message that waits under the reported key: result 0, or 35. */
  predicate Admits(r: Run, e: Event, i: nat) {
    && e.QueueStatus? && Open(r) && e.packetId != 0 && (e.result == 0 || e.result == 35)
    && (e.node, e.packetId) in r.pending && r.pending[(e.node, e.packetId)] == i
    && i < |r.messages| && !r.messages[i].submitted && r.messages[i].submissionError.None?
  }

  /** A rate-limit error for the message arrives before any transmission of it was reported. */
  predicate TakesBack(r: Run, e: Event, i: nat) {
    && e.RoutingResponse? && Open(r) && e.error == RateLimitExceeded && e.requestId != 0
    && e.node in r.cfg.hardwareIds && (r.cfg.hardwareIds[e.node], e.requestId) in r.byPacket
    && r.byPacket[(r.cfg.hardwareIds[e.node], e.requestId)] == i
    && i < |r.messages| && !r.messages[i].transmitted
  }

  lemma QueueStatusAdmits(r: Run, e: Event, i: nat)
    requires Consistent(r) && e.QueueStatus? && i < |r.messages|
    ensures var next := Step(r, e);
            && |next.messages| == |r.messages|
            && (next.messages[i].submitted <==> Admits(r, e, i) || r.messages[i].submitted)
  {}

  lemma ResponseTakesBack(r: Run, e: Event, i: nat)
    requires Consistent(r) && e.RoutingResponse? && i < |r.messages|
    ensures var next := Step(r, e);
            && |next.messages| == |r.messages|
            && (next.messages[i].submitted <==> r.messages[i].submitted && !TakesBack(r, e, i))
  {
    hide Answered, TakesBack, ProperOrigin, Consistent;
    SubmittedHasNoError(r, i);
    TakenBackIsAnswered(r, e, i);
    AnsweredIsMessage(r, e.node, e.requestId);
  }

  lemma SubmittedHasNoError(r: Run, i: nat)
    requires Consistent(r) && i < |r.messages|
    ensures r.cfg.nodes <= r.cfg.hardwareIds.Keys
    ensures r.messages[i].submitted ==> r.messages[i].submissionError.None?
  {
    assert Sound(r.cfg, r.messages[i]);
  }

  lemma TakenBackIsAnswered(r: Run, e: Event, i: nat)
    requires e.RoutingResponse? && i < |r.messages|
    ensures TakesBack(r, e, i)
       <==> Accepts(r) && e.error == RateLimitExceeded && Answered(r, e.node, e.requestId) == Some(i)
            && !r.messages[i].transmitted
  {}

  lemma OthersKeepSubmitted(r: Run, e: Event, i: nat)
    requires Consistent(r) && Enabled(r, e) && !e.QueueStatus? && !e.RoutingResponse? && i < |r.messages|
    ensures i < |Step(r, e).messages| && Step(r, e).messages[i].submitted == r.messages[i].submitted
  {
    hide Consistent, Identify, WithAlias, Correlated, RequestId, Growth;
    if e.RfTransmission? || e.LinkDrop? {
      AliasKeepsConsistent(r, e.packet, Some(e.transmitter));
    } else if e.TextDelivery? {
      CorrelatedIsMessage(r, e.packet);
    }
  }

  /** A message is submitted once the firmware queue admits it, until a rate-limit error takes that back. */
  lemma SubmittedStep(r: Run, e: Event, i: nat)
    requires Consistent(r) && Enabled(r, e) && i < |r.messages|
    ensures i < |Step(r, e).messages|
    ensures Step(r, e).messages[i].submitted <==> Admits(r, e, i) || (r.messages[i].submitted && !TakesBack(r, e, i))
  {
    if e.QueueStatus? {
      QueueStatusAdmits(r, e, i);
    } else if e.RoutingResponse? {
      ResponseTakesBack(r, e, i);
    } else {
      OthersKeepSubmitted(r, e, i);
    }
  }

  // ---------- latencies ----------

  /** One latency sample for each receiver recorded. */
  ghost predicate SampledPerReceiver(r: Run) {
    |r.latencies| == Total(r.messages, Receivers)
  }

  lemma {:induction false} SameReceivers(a: seq<Message>, b: seq<Message>)
    requires |a| == |b| && forall i :: 0 <= i < |a| ==> a[i].deliveredTo == b[i].deliveredTo
    ensures Total(a, Receivers) == Total(b, Receivers)
  {
    if a == [] {
    } else {
      SameReceivers(a[..|a| - 1], b[..|b| - 1]);
    }
  }

  lemma DeliverySamples(r: Run, e: Event)
    requires Consistent(r) && SampledPerReceiver(r) && Enabled(r, e) && e.TextDelivery?
    ensures SampledPerReceiver(Step(r, e))
  {
    hide Consistent, Correlated;
    CorrelatedIsMessage(r, e.packet);
    var i := Correlated(r, e.packet);
    if i.Some? {
      TotalUpdate(r.messages, i.value, FirstDelivery(r, e.node, i.value, e.now).messages[i.value], Receivers);
    }
  }

  lemma SubmissionSamples(r: Run, e: Event)
    requires SampledPerReceiver(r) && r.cfg.nodes <= r.cfg.hardwareIds.Keys && Enabled(r, e) && e.Submit?
    ensures SampledPerReceiver(Step(r, e))
  {
    var next := Step(r, e).messages;
    DropLast(r.messages, next[|r.messages|]);
    assert next == r.messages + [next[|r.messages|]];
    TotalSnoc(r.messages, next[|r.messages|], Receivers);
  }

  lemma OthersKeepReceivers(r: Run, e: Event)
    requires Consistent(r) && Enabled(r, e) && !e.TextDelivery? && !e.Submit?
    ensures Step(r, e).latencies == r.latencies && |Step(r, e).messages| == |r.messages|
    ensures forall i :: 0 <= i < |r.messages| ==> Step(r, e).messages[i].deliveredTo == r.messages[i].deliveredTo
  {
    hide Consistent, Identify, WithAlias, RequestId, Growth, ProperOrigin;
    if e.RfTransmission? || e.LinkDrop? {
      AliasKeepsConsistent(r, e.packet, Some(e.transmitter));
    }
  }

  /** Over any run, every recorded receiver has contributed exactly one latency sample. */
  lemma {:induction false} RunsSamplePerReceiver(r: Run, events: seq<Event>)
    requires Consistent(r) && SampledPerReceiver(r) && Legal(r, events)
    ensures SampledPerReceiver(After(r, events))
    decreases |events|
  {
    if events == [] {
    } else {
      var e := events[0];
      StepKeepsConsistent(r, e);
      if e.TextDelivery? {
        DeliverySamples(r, e);
      } else if e.Submit? {
        SubmissionSamples(r, e);
      } else {
        OthersKeepReceivers(r, e);
        SameReceivers(r.messages, Step(r, e).messages);
      }
      RunsSamplePerReceiver(Step(r, e), events[1..]);
    }
  }

  // ---------- delivered without being submitted ----------

  ghost predicate DeliveredAreSubmitted(r: Run) {
    forall i :: 0 <= i < |r.messages| && r.messages[i].deliveredTo != [] ==> r.messages[i].submitted
  }

  ghost predicate TakesBackDelivered(r: Run, e: Event) {
    exists i :: 0 <= i < |r.messages| && r.messages[i].deliveredTo != [] && TakesBack(r, e, i)
  }

  lemma DeliveryFindsSubmitted(r: Run, e: Event)
    requires Consistent(r) && DeliveredAreSubmitted(r) && Enabled(r, e) && (e.TextDelivery? || e.Submit?)
    ensures DeliveredAreSubmitted(Step(r, e))
  {
    hide Consistent, Correlated;
    if e.TextDelivery? {
      CorrelatedIsMessage(r, e.packet);
    }
  }

  /**
     Delivery does not wait for the transmission report, so a rate-limit error can still take a
     delivered message back; nothing else can.
   */
  lemma DeliveredStaySubmittedExactly(r: Run, e: Event)
    requires Consistent(r) && DeliveredAreSubmitted(r) && Enabled(r, e)
    ensures DeliveredAreSubmitted(Step(r, e)) <==> !TakesBackDelivered(r, e)
  {
    if e.TextDelivery? || e.Submit? {
      DeliveryFindsSubmitted(r, e);
    } else {
      OthersKeepReceivers(r, e);
      hide Consistent, Enabled, Step, TakesBack, Admits;
      forall i | 0 <= i < |r.messages|
        ensures Step(r, e).messages[i].submitted <==>
                Admits(r, e, i) || (r.messages[i].submitted && !TakesBack(r, e, i))
        ensures !(Admits(r, e, i) && TakesBack(r, e, i))
      {
        SubmittedStep(r, e, i);
        NotBoth(r, e, i);
      }
    }
  }

  lemma NotBoth(r: Run, e: Event, i: nat)
    ensures !(Admits(r, e, i) && TakesBack(r, e, i))
  {}

  /** A run of two nodes that ends with a delivered message that was not submitted. */
  function LateRejection(): seq<Event> {
    [Submit("a", "b", 7, 20, None, 0.0)] + ([QueueStatus("a", 7, 0, 1.0)] + (
      [TextDelivery("b", Packet(1, 2, 7, Some(TextMessage), 0, 0, Some(("run", 1))), 2.0)] + (
        [RoutingResponse("a", 7, RateLimitExceeded, 1, 3.0)] + [])))
  }

  function TwoNodes(): Run {
    Start(Config("run", DirectText, true, {"a", "b"}, map["a" := 1, "b" := 2], true), map[], map[], 0.0)
  }

  function OnceAdmitted(): Run {
    var m := Message(1, "a", "b", 7, 0.0, true, None, false, [], false, None);
    TwoNodes().(messages := [m], byPacket := map[(1, 7) := 0], lengths := [20], lastActivity := 1.0)
  }

  lemma AdmittedAfterTwoSteps()
    ensures var submit, status := Submit("a", "b", 7, 20, None, 0.0), QueueStatus("a", 7, 0, 1.0);
            && Enabled(TwoNodes(), submit) && Step(TwoNodes(), submit).cfg == TwoNodes().cfg
            && Step(Step(TwoNodes(), submit), status) == OnceAdmitted()
  {
    var m := Message(1, "a", "b", 7, 0.0, false, None, false, [], false, None);
    assert Step(TwoNodes(), Submit("a", "b", 7, 20, None, 0.0)).messages == [m];
  }

  function OnceDelivered(): Run {
    var m := Message(1, "a", "b", 7, 0.0, true, None, false, ["b"], false, Some(2000.0));
    OnceAdmitted().(messages := [m], latencies := [2000.0], lastActivity := 2.0)
  }

  lemma DeliveredAfterAdmission()
    ensures var delivery := TextDelivery("b", Packet(1, 2, 7, Some(TextMessage), 0, 0, Some(("run", 1))), 2.0);
            && Enabled(OnceAdmitted(), delivery) && Step(OnceAdmitted(), delivery) == OnceDelivered()
            && OnceAdmitted().cfg == TwoNodes().cfg == OnceDelivered().cfg
            && TwoNodes().cfg.nodes <= TwoNodes().cfg.hardwareIds.Keys
  {
    assert OnceAdmitted().messages[0].deliveredTo + ["b"] == ["b"];
  }

  lemma RejectedAfterDelivery()
    ensures var rejection := RoutingResponse("a", 7, RateLimitExceeded, 1, 3.0);
            && Enabled(OnceDelivered(), rejection)
            && var end := Step(OnceDelivered(), rejection);
               (&& end.cfg == OnceDelivered().cfg && |end.messages| == 1 && end.messages[0].deliveredTo == ["b"]
                && !end.messages[0].submitted && end.messages[0].submissionError == Some(RATE_LIMITED))
  {}

  /** Admitted, delivered, and taken back before its transmission was reported. */
  lemma DeliveredThenRejected()
    ensures Legal(TwoNodes(), LateRejection())
    ensures var end := After(TwoNodes(), LateRejection());
            && |end.messages| == 1 && end.messages[0].deliveredTo == ["b"]
            && !end.messages[0].submitted && end.messages[0].submissionError == Some(RATE_LIMITED)
  {
    var submit, status := Submit("a", "b", 7, 20, None, 0.0), QueueStatus("a", 7, 0, 1.0);
    var delivery := TextDelivery("b", Packet(1, 2, 7, Some(TextMessage), 0, 0, Some(("run", 1))), 2.0);
    var rejection := RoutingResponse("a", 7, RateLimitExceeded, 1, 3.0);
    AdmittedAfterTwoSteps();
    DeliveredAfterAdmission();
    RejectedAfterDelivery();
    hide Step, Enabled, OnceAdmitted, OnceDelivered;
    OneMore(OnceDelivered(), rejection, []);
    OneMore(OnceAdmitted(), delivery, [rejection] + []);
    OneMore(Step(TwoNodes(), submit), status, [delivery] + ([rejection] + []));
    OneMore(TwoNodes(), submit, [status] + ([delivery] + ([rejection] + [])));
  }
}
