/**
 What one step does to every record of a run that `Evidence` says nothing about: admission
 errors, identity tables, and the raw lists and totals that metrics are made from. Each
 statement names one record and all the events that can change it.
 */
module Accounts {
  import opened Evidence
  import opened Ledger
  import opened Wrappers

  /** A response received at a node finds message `i` by a request of that node. */
  predicate Answers(r: Run, e: Event, i: nat) {
    && e.RoutingResponse? && Open(r) && e.requestId != 0 && i < |r.messages|
    && e.node in r.cfg.hardwareIds && (r.cfg.hardwareIds[e.node], e.requestId) in r.byPacket
    && r.byPacket[(r.cfg.hardwareIds[e.node], e.requestId)] == i
  }

  /** A routing error about message `i` that counts: after a transmission any, before it only a rate limit. */
  predicate Fails(r: Run, e: Event, i: nat) {
    Answers(r, e, i) && e.error != NoError && (r.messages[i].transmitted || e.error == RateLimitExceeded)
  }

  /** A medium drop of a frame that carries the admitted message `i`. */
  predicate Drops(r: Run, e: Event, i: nat) {
    e.LinkDrop? && Open(r) && i < |r.messages| && r.messages[i].submitted && Carries(r, e.packet, e.transmitter, i)
  }

  /** The firmware queue reports about message `i`, which waits under the reported key without an outcome. */
  predicate Reports(r: Run, e: Event, i: nat) {
    && e.QueueStatus? && Open(r) && e.packetId != 0 && i < |r.messages|
    && (e.node, e.packetId) in r.pending && r.pending[(e.node, e.packetId)] == i
    && !r.messages[i].submitted && r.messages[i].submissionError.None?
  }

  /** Waiting for admission ends while message `i` still waits. */
  predicate TimesOut(r: Run, e: Event, i: nat) {
    && (e.AdmissionTimeout? || e.BeginFinalizing?) && i < |r.messages| && i in r.pending.Values
    && !r.messages[i].submitted && r.messages[i].submissionError.None?
  }

  /** Message `i` reaches a node for the first time. */
  predicate Arrives(r: Run, e: Event, i: nat) {
    e.TextDelivery? && Establishes(r, e, i, WasDeliveredTo(e.node)) && e.node !in r.messages[i].deliveredTo
  }

  // ---------- which records an event can change ----------

  predicate Frame(r: Run, e: Event, s: Run) {
    match e
    case Submit(_, _, _, _, _, _) =>
      s == r.(messages := s.messages, byPacket := s.byPacket, pending := s.pending, lengths := r.lengths + [e.length],
              lastActivity := e.now)
    case QueueStatus(_, _, _, _) =>
      s == r.(messages := s.messages, pending := s.pending, lastActivity := s.lastActivity)
    case RfTransmission(_, _, _, _) =>
      s == r.(messages := s.messages, byPacket := s.byPacket, transmissions := s.transmissions,
              lastActivity := s.lastActivity)
    case LinkDrop(_, _, _, _) => s == r.(byPacket := s.byPacket, drops := s.drops, lastActivity := s.lastActivity)
    case TextDelivery(_, _, _) =>
      s == r.(messages := s.messages, latencies := s.latencies, duplicates := s.duplicates,
              lastActivity := s.lastActivity)
    case RoutingResponse(_, _, _, _, _) =>
      s == r.(messages := s.messages, pending := s.pending, routingTerminal := s.routingTerminal, drops := s.drops,
              lastActivity := s.lastActivity)
    case FailedTotal(_, _) => s == r.(latestFailed := s.latestFailed, failedReceptions := s.failedReceptions)
    case DuplicateTotal(_, _) => s == r.(latestDuplicates := s.latestDuplicates, duplicates := s.duplicates)
    case EventLoopLag(ms) => s == if Open(r) then r.(lag := Some(ms)) else r
    case AdmissionTimeout(_) => s == r.(messages := s.messages, pending := map[], lastActivity := s.lastActivity)
    case BeginDrain => s == r.(phase := Draining)
    case ChangeState(to) => s == r.(state := to)
    case BeginFinalizing(_) =>
      s == r.(messages := s.messages, pending := map[], lastActivity := s.lastActivity, phase := Finalizing)
    case Freeze(final) => s == r.(phase := Terminal, state := final)
  }

  lemma NodesAreKnown(r: Run)
    requires Consistent(r)
    ensures r.cfg.nodes <= r.cfg.hardwareIds.Keys
  {}

  lemma MediumFrame(r: Run, e: Event)
    requires Consistent(r) && Enabled(r, e) && (e.RfTransmission? || e.LinkDrop?)
    ensures Frame(r, e, Step(r, e))
  {
    hide Consistent, Identify, RequestId, WithAlias;
    NodesAreKnown(r);
    AliasKeepsConsistent(r, e.packet, Some(e.transmitter));
  }

  lemma DeliveryFrame(r: Run, e: Event)
    requires Consistent(r) && Enabled(r, e) && e.TextDelivery?
    ensures Frame(r, e, Step(r, e))
  {
    hide Consistent, Correlated, Applicable;
    NodesAreKnown(r);
    CorrelatedIsMessage(r, e.packet);
  }

  lemma ResponseFrame(r: Run, e: Event)
    requires Consistent(r) && Enabled(r, e) && e.RoutingResponse?
    ensures Frame(r, e, Step(r, e))
  {
    hide Consistent, Answered, ProperOrigin;
    NodesAreKnown(r);
    AnsweredIsMessage(r, e.node, e.requestId);
  }

  /** A step leaves every other record alone. */
  lemma StepFrame(r: Run, e: Event)
    requires Consistent(r) && Enabled(r, e)
    ensures Frame(r, e, Step(r, e))
  {
    hide Consistent, Growth, Settle, TimedOut, OnRfTransmission, OnLinkDrop, OnTextDelivery, OnRoutingResponse;
    NodesAreKnown(r);
    if e.RfTransmission? || e.LinkDrop? {
      MediumFrame(r, e);
    } else if e.TextDelivery? {
      DeliveryFrame(r, e);
    } else if e.RoutingResponse? {
      ResponseFrame(r, e);
    }
  }

  // ---------- messages ----------

  lemma AnswerIsAnswered(r: Run, e: Event, i: nat)
    requires e.RoutingResponse?
    ensures Answers(r, e, i) <==> Accepts(r) && Answered(r, e.node, e.requestId) == Some(i)
  {}

  lemma ArrivalIsCorrelated(r: Run, e: Event, i: nat)
    requires e.TextDelivery?
    ensures Establishes(r, e, i, WasDeliveredTo(e.node))
       <==> Accepts(r) && Correlated(r, e.packet) == Some(i) && r.messages[i].submitted
            && Applicable(r.cfg, r.messages[i], e.node)
  {
    CorrelatedIsMessage(r, e.packet);
  }

  /** The fields of a message that an event can change; what a submission fixed is never among them. */
  predicate MessageFrame(e: Event, m: Message, n: Message) {
    match e
    case RfTransmission(_, _, _, _) => n == m.(transmitted := n.transmitted)
    case TextDelivery(_, _, _) => n == m.(deliveredTo := n.deliveredTo, latencyMs := n.latencyMs)
    case RoutingResponse(_, _, _, _, _) =>
      n == m.(submitted := n.submitted, submissionError := n.submissionError, acknowledged := n.acknowledged)
    case QueueStatus(_, _, _, _) => n == m.(submitted := n.submitted, submissionError := n.submissionError)
    case AdmissionTimeout(_) => n == m.(submissionError := n.submissionError)
    case BeginFinalizing(_) => n == m.(submissionError := n.submissionError)
    case _ => n == m
  }

  lemma MediumMessages(r: Run, e: Event, i: nat)
    requires Consistent(r) && Enabled(r, e) && (e.RfTransmission? || e.LinkDrop?)
    ensures |Step(r, e).messages| == |r.messages|
    ensures i < |r.messages| ==> MessageFrame(e, r.messages[i], Step(r, e).messages[i])
  {
    hide Consistent, Identify, RequestId, WithAlias;
    NodesAreKnown(r);
    AliasKeepsConsistent(r, e.packet, Some(e.transmitter));
  }

  lemma DeliveryMessages(r: Run, e: Event, i: nat)
    requires Consistent(r) && Enabled(r, e) && e.TextDelivery?
    ensures |Step(r, e).messages| == |r.messages|
    ensures i < |r.messages| ==> MessageFrame(e, r.messages[i], Step(r, e).messages[i])
  {
    hide Consistent, Correlated, Applicable;
    NodesAreKnown(r);
    CorrelatedIsMessage(r, e.packet);
  }

  lemma EffectMessages(r: Run, e: Event, j: nat, i: nat)
    requires e.RoutingResponse? && j < |r.messages| && e.node in r.cfg.hardwareIds
    ensures var next := RoutingEffect(r, e.node, j, e.error, e.responseOrigin, e.now).messages;
            |next| == |r.messages| && (i < |r.messages| ==> MessageFrame(e, r.messages[i], next[i]))
  {
    hide ProperOrigin, ErrorEffect, MessageFrame;
    SameFrame(e);
    ErrorMessages(r, e, j, i);
    if i < |r.messages| {
      AcknowledgedFrame(e, r.messages[i]);
    }
  }

  lemma AcknowledgedFrame(e: Event, m: Message)
    requires e.RoutingResponse?
    ensures MessageFrame(e, m, m.(acknowledged := true))
    ensures MessageFrame(e, m, m.(submitted := false, submissionError := Some(RATE_LIMITED)))
  {}

  lemma ErrorMessages(r: Run, e: Event, j: nat, i: nat)
    requires e.RoutingResponse? && j < |r.messages|
    ensures var next := ErrorEffect(r, e.node, j, e.error, e.now).messages;
            |next| == |r.messages| && (i < |r.messages| ==> MessageFrame(e, r.messages[i], next[i]))
  {
    hide MessageFrame;
    SameFrame(e);
    if i < |r.messages| {
      AcknowledgedFrame(e, r.messages[i]);
    }
  }

  lemma ResponseMessages(r: Run, e: Event, i: nat)
    requires Consistent(r) && Enabled(r, e) && e.RoutingResponse?
    ensures |Step(r, e).messages| == |r.messages|
    ensures i < |r.messages| ==> MessageFrame(e, r.messages[i], Step(r, e).messages[i])
  {
    hide Consistent, Answered, RoutingEffect, MessageFrame;
    NodesAreKnown(r);
    AnsweredIsMessage(r, e.node, e.requestId);
    SameFrame(e);
    if Answered(r, e.node, e.requestId).Some? {
      EffectMessages(r, e, Answered(r, e.node, e.requestId).value, i);
    }
  }

  lemma SameFrame(e: Event)
    ensures forall m :: MessageFrame(e, m, m)
  {}

  lemma AdmissionMessages(r: Run, e: Event, i: nat)
    requires Consistent(r) && Enabled(r, e)
    requires e.QueueStatus? || e.AdmissionTimeout? || e.BeginFinalizing?
    ensures |Step(r, e).messages| == |r.messages|
    ensures i < |r.messages| ==> MessageFrame(e, r.messages[i], Step(r, e).messages[i])
  {}

  lemma SubmissionMessages(r: Run, e: Event)
    requires Consistent(r) && Enabled(r, e) && e.Submit?
    ensures var next, n := Step(r, e).messages, |r.messages|;
            && |next| == n + 1 && (forall i :: 0 <= i < n ==> next[i] == r.messages[i])
            && next[n] == Message(n + 1, e.source, e.destination, e.packetId, e.now, false, e.gatewayError, false, [],
                                  false, None)
  {}

  /**
     A submission adds its message, unsubmitted and with the gateway's error if there was one;
     nothing else adds or removes messages, and each event can change only its own fields.
   */
  lemma MessagesStep(r: Run, e: Event, i: nat)
    requires Consistent(r) && Enabled(r, e)
    ensures var next, n := Step(r, e).messages, |r.messages|;
            && |next| == (if e.Submit? then n + 1 else n)
            && (i < n ==> MessageFrame(e, r.messages[i], next[i]))
            && (e.Submit? ==>
                  next[n] == Message(n + 1, e.source, e.destination, e.packetId, e.now, false, e.gatewayError, false,
                                     [], false, None))
  {
    NodesAreKnown(r);
    StepFrame(r, e);
    SameFrame(e);
    hide Consistent, Enabled, Step, MessageFrame;
    if e.Submit? {
      SubmissionMessages(r, e);
    } else if e.RfTransmission? || e.LinkDrop? {
      MediumMessages(r, e, i);
    } else if e.TextDelivery? {
      DeliveryMessages(r, e, i);
    } else if e.RoutingResponse? {
      ResponseMessages(r, e, i);
    } else if e.QueueStatus? || e.AdmissionTimeout? || e.BeginFinalizing? {
      AdmissionMessages(r, e, i);
    }
  }

  /**
     A message gets its error from the queue, from the end of waiting or from a rate limit, and the
     text says which. Only a rate limit can reach a message that was submitted; an error stays.
   */
  lemma SubmissionErrorStep(r: Run, e: Event, i: nat)
    requires Consistent(r) && Enabled(r, e) && i < |r.messages|
    ensures i < |Step(r, e).messages|
    ensures Step(r, e).messages[i].submissionError
         == if Reports(r, e, i) && e.result != 0 && e.result != 35 then Some("firmware queue rejected packet")
            else if TimesOut(r, e, i) then Some("firmware queue admission timed out")
            else if TakesBack(r, e, i) && r.messages[i].submissionError.None?
            then Some("firmware text-message rate limit exceeded")
            else r.messages[i].submissionError
  {
    NodesAreKnown(r);
    MessagesStep(r, e, i);
    if e.RoutingResponse? {
      ResponseError(r, e, i);
    } else if e.QueueStatus? || e.AdmissionTimeout? || e.BeginFinalizing? {
      AdmissionError(r, e, i);
    } else {
      hide Consistent, Enabled, Step;
    }
  }

  lemma ResponseError(r: Run, e: Event, i: nat)
    requires Consistent(r) && e.RoutingResponse? && i < |r.messages|
    ensures i < |Step(r, e).messages|
    ensures Step(r, e).messages[i].submissionError
         == if TakesBack(r, e, i) && r.messages[i].submissionError.None? then Some(RATE_LIMITED)
            else r.messages[i].submissionError
  {
    hide Consistent, ProperOrigin;
    AnswerIsAnswered(r, e, i);
    AnsweredIsMessage(r, e.node, e.requestId);
    hide Answered;
  }

  lemma AdmissionError(r: Run, e: Event, i: nat)
    requires Consistent(r) && Enabled(r, e) && i < |r.messages|
    requires e.QueueStatus? || e.AdmissionTimeout? || e.BeginFinalizing?
    ensures i < |Step(r, e).messages|
    ensures Step(r, e).messages[i].submissionError
         == if Reports(r, e, i) && e.result != 0 && e.result != 35 then Some(QUEUE_REJECTED)
            else if TimesOut(r, e, i) then Some(ADMISSION_TIMEOUT)
            else r.messages[i].submissionError
  {}

  // ---------- deliveries ----------

  /** An arrival appends the node and the latency in milliseconds; the first of all is the message's own. */
  lemma DeliveriesStep(r: Run, e: Event, i: nat)
    requires Consistent(r) && Enabled(r, e) && i < |r.messages|
    ensures i < |Step(r, e).messages|
    ensures var m, next := r.messages[i], Step(r, e).messages[i];
            if Arrives(r, e, i) then
              && next.deliveredTo == m.deliveredTo + [e.node]
              && next.latencyMs == (if m.deliveredTo == [] then Some((e.now - m.generatedAt) * 1000.0) else m.latencyMs)
              && Step(r, e).latencies == r.latencies + [(e.now - m.generatedAt) * 1000.0]
            else next.deliveredTo == m.deliveredTo && next.latencyMs == m.latencyMs
  {
    NodesAreKnown(r);
    MessagesStep(r, e, i);
    if e.TextDelivery? {
      assert Sound(r.cfg, r.messages[i]);
      ArrivalIsCorrelated(r, e, i);
      CorrelatedIsMessage(r, e.packet);
      hide Consistent, Correlated, Establishes, Applicable;
    } else {
      hide Consistent, Enabled, Step;
    }
  }

  /** And nothing else adds a latency. */
  lemma OnlyArrivalsAddLatencies(r: Run, e: Event)
    requires Consistent(r) && Enabled(r, e) && forall i: nat :: !Arrives(r, e, i)
    ensures Step(r, e).latencies == r.latencies
  {
    NodesAreKnown(r);
    StepFrame(r, e);
    if e.TextDelivery? {
      CorrelatedIsMessage(r, e.packet);
      var found := Correlated(r, e.packet);
      if found.Some? {
        ArrivalIsCorrelated(r, e, found.value);
        assert !Arrives(r, e, found.value);
      }
      hide Consistent, Correlated, Establishes, Applicable;
    } else {
      hide Consistent, Enabled, Step;
    }
  }

  /**
     Duplicates: growth of a node's reported total since the last report, and, while no node
     statistics are sampled, every arrival at a node that had the message already.
   */
  lemma DuplicatesStep(r: Run, e: Event)
    requires Consistent(r) && Enabled(r, e)
    ensures Step(r, e).duplicates == r.duplicates +
      if e.DuplicateTotal? && OpenOrFailed(r) && e.node in r.latestDuplicates && e.total > r.latestDuplicates[e.node]
      then e.total - r.latestDuplicates[e.node]
      else if !r.cfg.sampled && exists i: nat :: ArrivesAgain(r, e, i) then 1 else 0
    ensures Step(r, e).latestDuplicates
         == if e.DuplicateTotal? && OpenOrFailed(r) then r.latestDuplicates[e.node := e.total] else r.latestDuplicates
  {
    NodesAreKnown(r);
    StepFrame(r, e);
    if e.TextDelivery? {
      RepeatedArrivals(r, e);
    } else if e.DuplicateTotal? {
      hide Consistent;
    } else {
      hide Consistent, Enabled, Step;
    }
  }

  predicate OpenOrFailed(r: Run) {
    (r.phase == Generating || r.phase == Draining) && (r.state == Running || r.state == Stopping || r.state == Failed)
  }

  predicate ArrivesAgain(r: Run, e: Event, i: nat) {
    e.TextDelivery? && Establishes(r, e, i, WasDeliveredTo(e.node)) && e.node in r.messages[i].deliveredTo
  }

  lemma RepeatedArrivals(r: Run, e: Event)
    requires Consistent(r) && Enabled(r, e) && e.TextDelivery?
    ensures Step(r, e).duplicates
         == r.duplicates + if !r.cfg.sampled && exists i: nat :: ArrivesAgain(r, e, i) then 1 else 0
  {
    hide Consistent, Applicable;
    NodesAreKnown(r);
    CorrelatedIsMessage(r, e.packet);
    forall i: nat ensures ArrivesAgain(r, e, i) <==>
      Accepts(r) && Correlated(r, e.packet) == Some(i) && r.messages[i].submitted
      && Applicable(r.cfg, r.messages[i], e.node) && e.node in r.messages[i].deliveredTo
    {
      ArrivalIsCorrelated(r, e, i);
    }
    hide Correlated, ArrivesAgain;
  }

  /** Failed receptions grow by what a node's reported total has grown, never by its first report. */
  lemma FailedReceptionsStep(r: Run, e: Event)
    requires Consistent(r) && Enabled(r, e)
    ensures Step(r, e).failedReceptions == r.failedReceptions +
      if e.FailedTotal? && OpenOrFailed(r) && e.node in r.latestFailed && e.total > r.latestFailed[e.node]
      then e.total - r.latestFailed[e.node] else 0
    ensures Step(r, e).latestFailed
         == if e.FailedTotal? && OpenOrFailed(r) then r.latestFailed[e.node := e.total] else r.latestFailed
  {
    NodesAreKnown(r);
    StepFrame(r, e);
    if e.FailedTotal? {
      hide Consistent;
    } else {
      hide Consistent, Enabled, Step;
    }
  }

  // ---------- the radio and its drops ----------

  /** One entry for each frame on the air that carries an admitted message; relayed when another node made it. */
  lemma TransmissionsStep(r: Run, e: Event)
    requires Consistent(r) && Enabled(r, e)
    ensures Step(r, e).transmissions == r.transmissions +
      if exists i: nat :: Establishes(r, e, i, WasTransmitted) then
        [Transmission(e.transmitter, e.airtimeMs, e.packet.origin != r.cfg.hardwareIds[e.transmitter])]
      else []
  {
    NodesAreKnown(r);
    StepFrame(r, e);
    if e.RfTransmission? {
      AliasKeepsConsistent(r, e.packet, Some(e.transmitter));
      forall i: nat ensures Establishes(r, e, i, WasTransmitted) <==>
        && Accepts(r) && i < |r.messages| && r.messages[i].submitted
        && Identify(r, e.packet, Some(e.transmitter)) == Some(i)
      {
        CarriesIsIdentify(r, e.packet, e.transmitter, i);
      }
      hide Consistent, Identify, WithAlias, Establishes;
    } else {
      hide Consistent, Enabled, Step;
    }
  }

  /** The sum of lists: one reason for each drop of an admitted message's frame and each routing error that counts. */
  lemma DropsStep(r: Run, e: Event, i: nat)
    requires Consistent(r) && Enabled(r, e)
    ensures Drops(r, e, i) ==>
              Step(r, e).drops == r.drops + [e.reason] && Step(r, e).routingTerminal == r.routingTerminal
    ensures Fails(r, e, i) ==>
              && Step(r, e).drops
                 == r.drops + [if e.error.OtherError? then e.error.name else "RATE_LIMIT_EXCEEDED"]
              && Step(r, e).routingTerminal == r.routingTerminal + {r.messages[i].sequence}
  {
    NodesAreKnown(r);
    StepFrame(r, e);
    if e.LinkDrop? {
      CarriesIsIdentify(r, e.packet, e.transmitter, i);
      AliasKeepsConsistent(r, e.packet, Some(e.transmitter));
      hide Consistent, Identify, WithAlias, Carries;
    } else if e.RoutingResponse? {
      AnswerIsAnswered(r, e, i);
      hide Consistent, Answered, Answers;
    } else {
      hide Consistent, Enabled, Step;
    }
  }

  /** And nothing else is counted as dropped, or ends a message's routing. */
  lemma OnlyDropsAreDropped(r: Run, e: Event)
    requires Consistent(r) && Enabled(r, e) && forall i: nat :: !Drops(r, e, i) && !Fails(r, e, i)
    ensures Step(r, e).drops == r.drops && Step(r, e).routingTerminal == r.routingTerminal
  {
    NodesAreKnown(r);
    StepFrame(r, e);
    if e.LinkDrop? {
      var found := Identify(r, e.packet, Some(e.transmitter));
      AliasKeepsConsistent(r, e.packet, Some(e.transmitter));
      if found.Some? {
        CarriesIsIdentify(r, e.packet, e.transmitter, found.value);
        assert !Drops(r, e, found.value);
      }
      hide Consistent, Identify, WithAlias, Carries;
    } else if e.RoutingResponse? {
      var found := Answered(r, e.node, e.requestId);
      AnsweredIsMessage(r, e.node, e.requestId);
      if found.Some? {
        AnswerIsAnswered(r, e, found.value);
        assert !Fails(r, e, found.value);
      }
      hide Consistent, Answered, Answers, ProperOrigin;
    } else {
      hide Consistent, Enabled, Step;
    }
  }

  // ---------- identities ----------

  /** The packet names a request that its destination is known to have made. */
  predicate AnswersRequest(r: Run, p: Packet, transmitter: string) {
    || (p.port == Some(Routing) && p.requestId != 0 && (p.destination, p.requestId) in r.byPacket)
    || (p.port == Some(Unknown) && p.rxTime != 0 && (p.destination, p.rxTime) in r.byPacket
        && transmitter in r.cfg.hardwareIds && r.cfg.hardwareIds[transmitter] == p.origin)
  }

  /** Packets are filed by a submission under the source's radio, and by an answer under the message it answers. */
  lemma PacketsStep(r: Run, e: Event, k: (int, int), i: nat)
    requires Consistent(r) && Enabled(r, e)
    ensures (k in Step(r, e).byPacket && Step(r, e).byPacket[k] == i) <==>
      if e.Submit? && k == (r.cfg.hardwareIds[e.source], e.packetId) then i == |r.messages|
      else if (e.RfTransmission? || e.LinkDrop?) && Open(r) && AnswersRequest(r, e.packet, e.transmitter)
              && k == (e.packet.origin, e.packet.id)
      then Carries(r, e.packet, e.transmitter, i)
      else k in r.byPacket && r.byPacket[k] == i
  {
    NodesAreKnown(r);
    StepFrame(r, e);
    if e.RfTransmission? || e.LinkDrop? {
      MediumFilesAlias(r, e);
      AliasFiles(r, e.packet, e.transmitter, k, i);
      hide Consistent, Step, Enabled, WithAlias, Carries;
    } else if e.Submit? {
      hide Consistent;
    } else {
      hide Consistent, Step, Enabled;
    }
  }

  lemma AliasFiles(r: Run, p: Packet, transmitter: string, k: (int, int), i: nat)
    ensures var filed := WithAlias(r, p, Some(transmitter)).byPacket;
            (k in filed && filed[k] == i) <==>
              if AnswersRequest(r, p, transmitter) && k == (p.origin, p.id) then Carries(r, p, transmitter, i)
              else k in r.byPacket && r.byPacket[k] == i
  {}

  lemma MediumFilesAlias(r: Run, e: Event)
    requires Consistent(r) && Enabled(r, e) && (e.RfTransmission? || e.LinkDrop?)
    ensures r.cfg.nodes <= r.cfg.hardwareIds.Keys
    ensures Step(r, e).byPacket
         == if Accepts(r) then WithAlias(r, e.packet, Some(e.transmitter)).byPacket else r.byPacket
  {
    hide Consistent, Identify, WithAlias, RequestId;
    NodesAreKnown(r);
    AliasKeepsConsistent(r, e.packet, Some(e.transmitter));
  }

  /**
     A key waits from its submission until the queue reports about it, waiting ends, or a rate
     limit at its node takes away the identifier it names.
   */
  lemma PendingStep(r: Run, e: Event, k: Key, i: nat)
    requires Consistent(r) && Enabled(r, e)
    ensures (k in Step(r, e).pending && Step(r, e).pending[k] == i) <==>
      if e.Submit? && k == (e.source, e.packetId) then i == |r.messages| && e.gatewayError.None?
      else
        && k in r.pending && r.pending[k] == i
        && !(e.QueueStatus? && Open(r) && e.packetId != 0 && k == (e.node, e.packetId))
        && !e.AdmissionTimeout? && !e.BeginFinalizing?
        && !(exists j: nat :: RemovesKey(r, e, j, k))
  {
    NodesAreKnown(r);
    StepFrame(r, e);
    if e.RoutingResponse? {
      ResponseRemovesKey(r, e, k);
      hide Consistent, Step, Enabled;
    } else if e.Submit? || e.QueueStatus? {
    } else {
      hide Consistent, Step, Enabled;
    }
  }

  predicate RemovesKey(r: Run, e: Event, j: nat, k: Key) {
    TakesBack(r, e, j) && r.messages[j].submissionError.None? && k == (e.node, r.messages[j].packetId)
  }

  lemma ResponseRemovesKey(r: Run, e: Event, k: Key)
    requires Consistent(r) && Enabled(r, e) && e.RoutingResponse?
    ensures r.cfg.nodes <= r.cfg.hardwareIds.Keys
    ensures exists gone: set<Key> ::
              && Step(r, e).pending == r.pending - gone
              && (k in gone <==> exists j: nat :: RemovesKey(r, e, j, k))
  {
    NodesAreKnown(r);
    var found := Answered(r, e.node, e.requestId);
    AnsweredIsMessage(r, e.node, e.requestId);
    forall j: nat ensures TakesBack(r, e, j) <==>
      Accepts(r) && found == Some(j) && e.error == RateLimitExceeded && !r.messages[j].transmitted
    {
      AnswerIsAnswered(r, e, j);
    }
    hide Consistent, Answered, TakesBack, ProperOrigin;
    if Accepts(r) && found.Some? && RemovesKey(r, e, found.value, (e.node, r.messages[found.value].packetId)) {
      assert Step(r, e).pending == r.pending - {(e.node, r.messages[found.value].packetId)};
    } else {
      assert Step(r, e).pending == r.pending - {};
    }
  }

  // ---------- activity ----------

  /** What the drain's quiet time is counted from. */
  predicate Acts(r: Run, e: Event, i: nat) {
    || e.Submit? || Reports(r, e, i) || TimesOut(r, e, i) || Drops(r, e, i) || Fails(r, e, i) || Arrives(r, e, i)
    || Establishes(r, e, i, WasTransmitted) || Establishes(r, e, i, WasAcknowledged)
  }

  lemma ActivityStep(r: Run, e: Event, i: nat)
    requires Consistent(r) && Enabled(r, e) && Acts(r, e, i)
    ensures Step(r, e).lastActivity == e.now
  {
    NodesAreKnown(r);
    StepFrame(r, e);
    if e.RfTransmission? || e.LinkDrop? {
      MediumActs(r, e, i);
    } else if e.TextDelivery? {
      DeliveryActs(r, e, i);
    } else if e.RoutingResponse? {
      ResponseActs(r, e, i);
    } else if e.AdmissionTimeout? || e.BeginFinalizing? {
      TimeoutActs(r, i);
      hide Consistent, TimedOut;
    } else {
      hide Consistent;
    }
  }

  lemma MediumActs(r: Run, e: Event, i: nat)
    requires Consistent(r) && Enabled(r, e) && (e.RfTransmission? || e.LinkDrop?) && Acts(r, e, i)
    ensures r.cfg.nodes <= r.cfg.hardwareIds.Keys && Step(r, e).lastActivity == e.now
  {
    NodesAreKnown(r);
    CarriesIsIdentify(r, e.packet, e.transmitter, i);
    AliasKeepsConsistent(r, e.packet, Some(e.transmitter));
    hide Consistent, Identify, WithAlias, Carries;
  }

  lemma DeliveryActs(r: Run, e: Event, i: nat)
    requires Consistent(r) && Enabled(r, e) && e.TextDelivery? && Acts(r, e, i)
    ensures r.cfg.nodes <= r.cfg.hardwareIds.Keys && Step(r, e).lastActivity == e.now
  {
    NodesAreKnown(r);
    ArrivalIsCorrelated(r, e, i);
    hide Consistent, Correlated, Establishes, Applicable;
  }

  lemma ResponseActs(r: Run, e: Event, i: nat)
    requires Consistent(r) && Enabled(r, e) && e.RoutingResponse? && Acts(r, e, i)
    ensures r.cfg.nodes <= r.cfg.hardwareIds.Keys && Step(r, e).lastActivity == e.now
  {
    NodesAreKnown(r);
    AnswerIsAnswered(r, e, i);
    hide Consistent, Answered;
  }

  lemma TimeoutActs(r: Run, i: nat)
    requires i < |r.messages| && i in r.pending.Values
    requires !r.messages[i].submitted && r.messages[i].submissionError.None?
    ensures TimedOut(r.messages, r.pending.Values) != r.messages
  {
    assert TimedOut(r.messages, r.pending.Values)[i] != r.messages[i];
  }

  /** Nothing else counts as activity. */
  lemma OnlyActivityCounts(r: Run, e: Event)
    requires Consistent(r) && Enabled(r, e) && forall i: nat :: !Acts(r, e, i)
    ensures Step(r, e).lastActivity == r.lastActivity
  {
    NodesAreKnown(r);
    StepFrame(r, e);
    assert !Acts(r, e, 0);
    if e.RfTransmission? || e.LinkDrop? {
      MediumIsQuiet(r, e);
    } else if e.TextDelivery? {
      DeliveryIsQuiet(r, e);
    } else if e.RoutingResponse? {
      ResponseIsQuiet(r, e);
    } else if e.QueueStatus? {
      QueueIsQuiet(r, e);
    } else if e.AdmissionTimeout? || e.BeginFinalizing? {
      TimeoutIsQuiet(r, e);
    } else {
      hide Consistent, Step, Enabled;
    }
  }

  lemma MediumIsQuiet(r: Run, e: Event)
    requires Consistent(r) && Enabled(r, e) && (e.RfTransmission? || e.LinkDrop?) && forall i: nat :: !Acts(r, e, i)
    ensures r.cfg.nodes <= r.cfg.hardwareIds.Keys && Step(r, e).lastActivity == r.lastActivity
  {
    NodesAreKnown(r);
    var found := Identify(r, e.packet, Some(e.transmitter));
    AliasKeepsConsistent(r, e.packet, Some(e.transmitter));
    if found.Some? {
      CarriesIsIdentify(r, e.packet, e.transmitter, found.value);
      assert !Acts(r, e, found.value);
    }
    hide Consistent, Identify, WithAlias, Carries;
  }

  lemma DeliveryIsQuiet(r: Run, e: Event)
    requires Consistent(r) && Enabled(r, e) && e.TextDelivery? && forall i: nat :: !Acts(r, e, i)
    ensures r.cfg.nodes <= r.cfg.hardwareIds.Keys && Step(r, e).lastActivity == r.lastActivity
  {
    NodesAreKnown(r);
    var found := Correlated(r, e.packet);
    CorrelatedIsMessage(r, e.packet);
    if found.Some? {
      ArrivalIsCorrelated(r, e, found.value);
      assert !Acts(r, e, found.value);
    }
    hide Consistent, Correlated, Establishes, Applicable;
  }

  lemma ResponseIsQuiet(r: Run, e: Event)
    requires Consistent(r) && Enabled(r, e) && e.RoutingResponse? && forall i: nat :: !Acts(r, e, i)
    ensures r.cfg.nodes <= r.cfg.hardwareIds.Keys && Step(r, e).lastActivity == r.lastActivity
  {
    NodesAreKnown(r);
    var found := Answered(r, e.node, e.requestId);
    AnsweredIsMessage(r, e.node, e.requestId);
    if found.Some? {
      AnswerIsAnswered(r, e, found.value);
      assert !Acts(r, e, found.value);
    }
    hide Consistent, Answered;
  }

  lemma QueueIsQuiet(r: Run, e: Event)
    requires Consistent(r) && Enabled(r, e) && e.QueueStatus? && forall i: nat :: !Acts(r, e, i)
    ensures r.cfg.nodes <= r.cfg.hardwareIds.Keys && Step(r, e).lastActivity == r.lastActivity
  {
    NodesAreKnown(r);
    if (e.node, e.packetId) in r.pending {
      assert !Acts(r, e, r.pending[(e.node, e.packetId)]);
    }
    hide Consistent;
  }

  lemma TimeoutIsQuiet(r: Run, e: Event)
    requires Consistent(r) && Enabled(r, e) && (e.AdmissionTimeout? || e.BeginFinalizing?)
    requires forall i: nat :: !Acts(r, e, i)
    ensures r.cfg.nodes <= r.cfg.hardwareIds.Keys && Step(r, e).lastActivity == r.lastActivity
  {
    NodesAreKnown(r);
    forall i: nat | i < |r.messages| ensures TimedOut(r.messages, r.pending.Values)[i] == r.messages[i] {
      assert !Acts(r, e, i);
    }
    assert TimedOut(r.messages, r.pending.Values) == r.messages;
    hide Consistent, TimedOut;
  }
}
