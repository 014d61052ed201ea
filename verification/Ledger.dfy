/**
 What a traffic run amounts to, as a value: the message records, the identity maps and
 the raw event lists, with one function per handler saying what that handler records.

 There are no incremental counters here; `Controller` keeps those and is proved to agree
 with this ledger. The theorems about whole runs are stated on it.
 */
module Ledger {
  import opened Sequences
  import opened Wrappers

  datatype Kind = BroadcastText | DirectText

  datatype RunState = Idle | Running | Stopping | Completed | Cancelled | Failed

  datatype Phase = Generating | Draining | Finalizing | Terminal

  /** Fixed for a run; `sampled` says that native statistics replace duplicate counting. */
  datatype Config = Config(
    runId: string, kind: Kind, acknowledgmentRequested: bool,
    nodes: set<string>, hardwareIds: map<string, int>, sampled: bool)

  datatype Message = Message(
    sequence: nat, source: string, destination: string, packetId: int, generatedAt: real,
    submitted: bool, submissionError: Option<string>, transmitted: bool,
    deliveredTo: seq<string>, acknowledged: bool, latencyMs: Option<real>)

  datatype Port = TextMessage | Routing | Unknown | OtherPort

  /** The fields of a mesh packet the handlers read. */
  datatype Packet = Packet(
    origin: int, destination: int, id: int, port: Option<Port>, requestId: int, rxTime: int,
    identifier: Option<(string, int)>)

  datatype RoutingError = NoError | RateLimitExceeded | OtherError(name: string)

  datatype Transmission = Transmission(transmitter: string, airtimeMs: int, relayed: bool)

  type Key = (string, int)

  datatype Run = Run(
    cfg: Config,
    messages: seq<Message>,
    byPacket: map<(int, int), nat>,
    pending: map<Key, nat>,
    routingTerminal: set<nat>,
    transmissions: seq<Transmission>,
    drops: seq<string>,
    latencies: seq<real>,
    duplicates: nat,
    failedReceptions: nat,
    latestFailed: map<string, int>,
    latestDuplicates: map<string, int>,
    lag: Option<real>,
    lengths: seq<nat>,
    lastActivity: real,
    state: RunState,
    phase: Phase)

  datatype Event =
    | Submit(source: string, destination: string, packetId: int, length: nat, gatewayError: Option<string>, now: real)
    | QueueStatus(node: string, packetId: int, result: int, now: real)
    | RfTransmission(transmitter: string, packet: Packet, airtimeMs: int, now: real)
    | LinkDrop(transmitter: string, packet: Packet, reason: string, now: real)
    | TextDelivery(node: string, packet: Packet, now: real)
    | RoutingResponse(node: string, requestId: int, error: RoutingError, responseOrigin: int, now: real)
    | FailedTotal(node: string, total: int)
    | DuplicateTotal(node: string, total: int)
    | EventLoopLag(ms: real)
    | AdmissionTimeout(now: real)
    | BeginDrain
    | ChangeState(to: RunState)
    | BeginFinalizing(now: real)
    | Freeze(final: RunState)

  function KeyOf(m: Message): Key {
    (m.source, m.packetId)
  }

  // ---------- what each handler records ----------

  predicate Accepts(r: Run, allowFailed: bool := false) {
    && (r.phase == Generating || r.phase == Draining)
    && (r.state == Running || r.state == Stopping || (allowFailed && r.state == Failed))
  }

  /** The request a packet answers: a routing response, or the sender's own mark on undecodable ciphertext. */
  function RequestId(cfg: Config, p: Packet, transmitter: Option<string>): Option<int> {
    if p.port == Some(Routing) && p.requestId != 0 then Some(p.requestId)
    else if p.port == Some(Unknown) && p.rxTime != 0 && transmitter.Some? && transmitter.value in cfg.hardwareIds
            && cfg.hardwareIds[transmitter.value] == p.origin then Some(p.rxTime)
    else None
  }

  /** The message a packet belongs to; answers are found under the request they name. */
  function Identify(r: Run, p: Packet, transmitter: Option<string>): Option<nat> {
    var request := RequestId(r.cfg, p, transmitter);
    if request.Some? && (p.destination, request.value) in r.byPacket
    then Some(r.byPacket[(p.destination, request.value)])
    else if (p.origin, p.id) in r.byPacket then Some(r.byPacket[(p.origin, p.id)])
    else None
  }

  /** Finding an answer also files the answering packet under the same message. */
  function WithAlias(r: Run, p: Packet, transmitter: Option<string>): Run {
    var request := RequestId(r.cfg, p, transmitter);
    if request.Some? && (p.destination, request.value) in r.byPacket
    then r.(byPacket := r.byPacket[(p.origin, p.id) := r.byPacket[(p.destination, request.value)]])
    else r
  }

  predicate Unresolved(m: Message) {
    !m.submitted && m.submissionError.None?
  }

  /** The outcome of an admission, unless the message already has one. */
  function Settle(m: Message, error: Option<string>): Message {
    if !Unresolved(m) then m
    else if error.None? then m.(submitted := true)
    else m.(submissionError := error)
  }

  const ADMISSION_TIMEOUT := "firmware queue admission timed out"
  const RATE_LIMITED := "firmware text-message rate limit exceeded"
  const QUEUE_REJECTED := "firmware queue rejected packet"

  predicate QueueSuccess(result: int) {
    result == 0 || result == 35
  }

  /** A new message is filed under its keys before it is handed to the gateway. */
  function EntryEffect(r: Run, m: Message, length: nat, now: real): Run
    requires m.source in r.cfg.hardwareIds
  {
    r.(messages := r.messages + [m],
       byPacket := r.byPacket[(r.cfg.hardwareIds[m.source], m.packetId) := |r.messages|],
       pending := r.pending[KeyOf(m) := |r.messages|],
       lengths := r.lengths + [length],
       lastActivity := now)
  }

  function OnSubmit(r: Run, source: string, destination: string, packetId: int, length: nat,
                    gatewayError: Option<string>, now: real): Run
    requires source in r.cfg.hardwareIds
  {
    var m := Message(|r.messages| + 1, source, destination, packetId, now, false, None, false, [], false, None);
    var entered := EntryEffect(r, m, length, now);
    if gatewayError.None? then entered
    else AdmissionEffect(entered, KeyOf(m), |r.messages|, gatewayError, now)
  }

  /** A waiting key leaves the pending table and its message gets an outcome. */
  function AdmissionEffect(r: Run, key: Key, i: nat, error: Option<string>, now: real): Run
    requires i < |r.messages|
  {
    r.(pending := r.pending - {key},
       messages := r.messages[i := Settle(r.messages[i], error)],
       lastActivity := if Unresolved(r.messages[i]) then now else r.lastActivity)
  }

  function OnQueueStatus(r: Run, node: string, packetId: int, result: int, now: real): Run {
    if !Accepts(r) || packetId == 0 || (node, packetId) !in r.pending || r.pending[(node, packetId)] >= |r.messages|
    then r
    else AdmissionEffect(r, (node, packetId), r.pending[(node, packetId)],
                         if QueueSuccess(result) then None else Some(QUEUE_REJECTED), now)
  }

  /** One frame on the air for an admitted message. */
  function TransmissionEffect(r: Run, i: nat, t: Transmission, now: real): Run
    requires i < |r.messages|
  {
    if !r.messages[i].submitted then r
    else r.(messages := r.messages[i := r.messages[i].(transmitted := true)],
            transmissions := r.transmissions + [t],
            lastActivity := now)
  }

  function OnRfTransmission(r: Run, transmitter: string, p: Packet, airtimeMs: int, now: real): Run
    requires transmitter in r.cfg.hardwareIds
  {
    if !Accepts(r) then r
    else
      var aliased := WithAlias(r, p, Some(transmitter));
      match Identify(r, p, Some(transmitter))
      case None => aliased
      case Some(i) =>
        if i >= |aliased.messages| then aliased
        else TransmissionEffect(aliased, i,
                                Transmission(transmitter, airtimeMs, p.origin != r.cfg.hardwareIds[transmitter]), now)
  }

  function OnLinkDrop(r: Run, transmitter: string, p: Packet, reason: string, now: real): Run {
    if !Accepts(r) then r
    else
      var aliased := WithAlias(r, p, Some(transmitter));
      match Identify(r, p, Some(transmitter))
      case None => aliased
      case Some(i) =>
        if i >= |r.messages| || !r.messages[i].submitted then aliased
        else aliased.(drops := r.drops + [reason], lastActivity := now)
  }

  predicate Applicable(cfg: Config, m: Message, node: string) {
    if cfg.kind == DirectText then node == m.destination else node != m.source
  }

  /** The message a delivered text belongs to: its payload and its packet identity must agree. */
  function Correlated(r: Run, p: Packet): Option<nat> {
    if p.identifier.None? || p.identifier.value.0 != r.cfg.runId || (p.origin, p.id) !in r.byPacket then None
    else
      var i := r.byPacket[(p.origin, p.id)];
      if i < |r.messages| && r.messages[i].sequence == p.identifier.value.1 then Some(i) else None
  }

  /** A first delivery to this node, or a repeated one. */
  function DeliveryEffect(r: Run, node: string, i: nat, now: real): Run
    requires i < |r.messages|
  {
    var m := r.messages[i];
    if !m.submitted || !Applicable(r.cfg, m, node) then r
    else if node in m.deliveredTo then
      if r.cfg.sampled then r else r.(duplicates := r.duplicates + 1)
    else FirstDelivery(r, node, i, now)
  }

  function FirstDelivery(r: Run, node: string, i: nat, now: real): Run
    requires i < |r.messages|
  {
    var m := r.messages[i];
    var latency := (now - m.generatedAt) * 1000.0;
    var first := if m.latencyMs.None? then Some(latency) else m.latencyMs;
    r.(messages := r.messages[i := m.(deliveredTo := m.deliveredTo + [node], latencyMs := first)],
       latencies := r.latencies + [latency],
       lastActivity := now)
  }

  function OnTextDelivery(r: Run, node: string, p: Packet, now: real): Run {
    if !Accepts(r) || Correlated(r, p).None? then r else DeliveryEffect(r, node, Correlated(r, p).value, now)
  }

  function Reject(r: Run, node: string, i: nat, now: real): Run
    requires i < |r.messages|
  {
    var m := r.messages[i];
    if m.submissionError.Some? then r
    else r.(pending := r.pending - {(node, m.packetId)},
            messages := r.messages[i := m.(submitted := false, submissionError := Some(RATE_LIMITED))],
            lastActivity := now)
  }

  function ErrorName(e: RoutingError): string {
    match e
    case NoError => "NONE"
    case RateLimitExceeded => "RATE_LIMIT_EXCEEDED"
    case OtherError(name) => name
  }

  /** The message a routing response received at `node` is about. */
  function Answered(r: Run, node: string, requestId: int): Option<nat> {
    if requestId == 0 || node !in r.cfg.hardwareIds || (r.cfg.hardwareIds[node], requestId) !in r.byPacket then None
    else
      var i := r.byPacket[(r.cfg.hardwareIds[node], requestId)];
      if i < |r.messages| then Some(i) else None
  }

  /** Whether an acknowledgment comes from where this kind of traffic needs it to come from. */
  predicate ProperOrigin(r: Run, m: Message, node: string, responseOrigin: int)
    requires node in r.cfg.hardwareIds
  {
    if r.cfg.kind == DirectText
    then m.destination in r.cfg.hardwareIds && responseOrigin == r.cfg.hardwareIds[m.destination]
    else responseOrigin != r.cfg.hardwareIds[node]
  }

  function ErrorEffect(r: Run, node: string, i: nat, error: RoutingError, now: real): Run
    requires i < |r.messages|
  {
    var m := r.messages[i];
    NoteError(if m.transmitted then r else Reject(r, node, i, now), m.sequence, error, now)
  }

  function NoteError(r: Run, sequence: nat, error: RoutingError, now: real): Run {
    r.(routingTerminal := r.routingTerminal + {sequence}, drops := r.drops + [ErrorName(error)], lastActivity := now)
  }

  /** What a response about message `i` records; before transmission only a rate-limit error counts. */
  function RoutingEffect(r: Run, node: string, i: nat, error: RoutingError, responseOrigin: int, now: real): Run
    requires i < |r.messages| && node in r.cfg.hardwareIds
  {
    var m := r.messages[i];
    if !m.transmitted && error != RateLimitExceeded then r
    else if error != NoError then ErrorEffect(r, node, i, error, now)
    else if !ProperOrigin(r, m, node, responseOrigin) then r
    else AcknowledgmentEffect(r, i, now)
  }

  function AcknowledgmentEffect(r: Run, i: nat, now: real): Run
    requires i < |r.messages|
  {
    r.(messages := r.messages[i := r.messages[i].(acknowledged := true)], lastActivity := now)
  }

  function OnRoutingResponse(r: Run, node: string, requestId: int, error: RoutingError, responseOrigin: int,
                             now: real): Run {
    if !Accepts(r) || Answered(r, node, requestId).None? then r
    else RoutingEffect(r, node, Answered(r, node, requestId).value, error, responseOrigin, now)
  }

  function Growth(latest: map<string, int>, node: string, total: int): nat {
    if node in latest && total > latest[node] then total - latest[node] else 0
  }

  function OnFailedTotal(r: Run, node: string, total: int): Run {
    if !Accepts(r, true) then r
    else r.(latestFailed := r.latestFailed[node := total],
            failedReceptions := r.failedReceptions + Growth(r.latestFailed, node, total))
  }

  function OnDuplicateTotal(r: Run, node: string, total: int): Run {
    if !Accepts(r, true) then r
    else r.(latestDuplicates := r.latestDuplicates[node := total],
            duplicates := r.duplicates + Growth(r.latestDuplicates, node, total))
  }

  /** Every message still in the pending table gets the timeout error, unless it has an outcome. */
  function TimedOut(messages: seq<Message>, waiting: set<nat>): seq<Message> {
    seq(|messages|, i requires 0 <= i < |messages| =>
      if i in waiting then Settle(messages[i], Some(ADMISSION_TIMEOUT)) else messages[i])
  }

  function OnAdmissionTimeout(r: Run, now: real): Run {
    var messages := TimedOut(r.messages, r.pending.Values);
    r.(messages := messages, pending := map[], lastActivity := if messages == r.messages then r.lastActivity else now)
  }

  /** A direct message the drain still waits for. */
  function UnresolvedDirect(r: Run, m: Message): bool {
    && m.submissionError.None?
    && m.sequence !in r.routingTerminal
    && (!m.submitted || m.destination !in m.deliveredTo || (r.cfg.acknowledgmentRequested && !m.acknowledged))
  }

  function UnresolvedCount(r: Run, n: nat): nat
    requires n <= |r.messages|
  {
    if n == 0 then 0 else UnresolvedCount(r, n - 1) + if UnresolvedDirect(r, r.messages[n - 1]) then 1 else 0
  }

  /** Messages that are not failed, not ended by a routing error, and not yet through. */
  lemma UnresolvedReads(r: Run, n: nat)
    requires n <= |r.messages|
    ensures UnresolvedCount(r, n)
         == |set i | 0 <= i < n
                     && r.messages[i].submissionError.None? && r.messages[i].sequence !in r.routingTerminal
                     && !(r.messages[i].submitted && r.messages[i].destination in r.messages[i].deliveredTo
                          && (r.cfg.acknowledgmentRequested ==> r.messages[i].acknowledged))|
  {
    UnresolvedPositions(r, n);
    assert (set i | 0 <= i < n && UnresolvedDirect(r, r.messages[i]))
        == set i | 0 <= i < n
                   && r.messages[i].submissionError.None? && r.messages[i].sequence !in r.routingTerminal
                   && !(r.messages[i].submitted && r.messages[i].destination in r.messages[i].deliveredTo
                        && (r.cfg.acknowledgmentRequested ==> r.messages[i].acknowledged));
  }

  lemma {:induction false} UnresolvedPositions(r: Run, n: nat)
    requires n <= |r.messages|
    ensures UnresolvedCount(r, n) == |set i | 0 <= i < n && UnresolvedDirect(r, r.messages[i])|
  {
    if n == 0 {
    } else {
      UnresolvedPositions(r, n - 1);
      hide UnresolvedDirect;
      var before := set i | 0 <= i < n - 1 && UnresolvedDirect(r, r.messages[i]);
      OneMorePosition(before, (set i | 0 <= i < n && UnresolvedDirect(r, r.messages[i])), n - 1,
                      UnresolvedDirect(r, r.messages[n - 1]));
    }
  }

  /** Nothing is left that a drain has to wait for. */
  predicate Settled(r: Run) {
    r.pending == map[] && (r.cfg.kind == BroadcastText || UnresolvedCount(r, |r.messages|) == 0)
  }

  /**
     Nothing is pending, and each direct message has failed at its admission, met a routing error
     or arrived at its destination, acknowledged if that was asked for.
   */
  lemma SettledReads(r: Run)
    ensures Settled(r) <==>
      && r.pending == map[]
      && (r.cfg.kind == BroadcastText ||
          forall m <- r.messages ::
            || m.submissionError.Some? || m.sequence in r.routingTerminal
            || (m.submitted && m.destination in m.deliveredTo && (r.cfg.acknowledgmentRequested ==> m.acknowledged)))
  {
    var waiting := set i | 0 <= i < |r.messages| && UnresolvedDirect(r, r.messages[i]);
    UnresolvedPositions(r, |r.messages|);
    if waiting == {} {
      forall m <- r.messages ensures !UnresolvedDirect(r, m) {
        var i :| 0 <= i < |r.messages| && r.messages[i] == m;
        assert i !in waiting;
      }
    } else {
      var i :| i in waiting;
      assert r.messages[i] in r.messages;
    }
  }

  // ---------- runs ----------

  /** What is taken from the environment and from the rest of the program. */
  predicate Enabled(r: Run, e: Event) {
    match e
    case Submit(source, destination, packetId, _, _, _) =>
      && r.phase == Generating
      && source in r.cfg.nodes
      && (r.cfg.kind == DirectText ==> destination in r.cfg.nodes)
      && forall i :: 0 <= i < |r.messages| ==> KeyOf(r.messages[i]) != (source, packetId)
    case RfTransmission(transmitter, _, _, _) => transmitter in r.cfg.nodes
    case LinkDrop(transmitter, _, _, _) => transmitter in r.cfg.nodes
    case TextDelivery(node, _, _) => node in r.cfg.nodes
    case AdmissionTimeout(_) => r.phase != Finalizing && r.phase != Terminal
    case BeginDrain => r.phase == Generating
    case ChangeState(_) => Accepts(r, true)
    case BeginFinalizing(_) => r.phase == Generating || r.phase == Draining
    case Freeze(_) => r.phase == Finalizing
    case _ => true
  }

  predicate IsHandler(e: Event) {
    e.QueueStatus? || e.RfTransmission? || e.LinkDrop? || e.TextDelivery? || e.RoutingResponse?
    || e.FailedTotal? || e.DuplicateTotal? || e.EventLoopLag?
  }

  function Step(r: Run, e: Event): Run
    requires r.cfg.nodes <= r.cfg.hardwareIds.Keys && Enabled(r, e)
  {
    match e
    case Submit(source, destination, packetId, length, gatewayError, now) =>
      OnSubmit(r, source, destination, packetId, length, gatewayError, now)
    case QueueStatus(node, packetId, result, now) => OnQueueStatus(r, node, packetId, result, now)
    case RfTransmission(transmitter, packet, airtimeMs, now) => OnRfTransmission(r, transmitter, packet, airtimeMs, now)
    case LinkDrop(transmitter, packet, reason, now) => OnLinkDrop(r, transmitter, packet, reason, now)
    case TextDelivery(node, packet, now) => OnTextDelivery(r, node, packet, now)
    case RoutingResponse(node, requestId, error, origin, now) =>
      OnRoutingResponse(r, node, requestId, error, origin, now)
    case FailedTotal(node, total) => OnFailedTotal(r, node, total)
    case DuplicateTotal(node, total) => OnDuplicateTotal(r, node, total)
    case EventLoopLag(ms) => if Accepts(r) then r.(lag := Some(ms)) else r
    case AdmissionTimeout(now) => OnAdmissionTimeout(r, now)
    case BeginDrain => r.(phase := Draining)
    case ChangeState(s) => r.(state := s)
    case BeginFinalizing(now) => OnAdmissionTimeout(r.(phase := Finalizing), now)
    case Freeze(final) => r.(phase := Terminal, state := final)
  }

  ghost predicate Legal(r: Run, events: seq<Event>)
    requires r.cfg.nodes <= r.cfg.hardwareIds.Keys
    decreases |events|
  {
    events == [] || (Enabled(r, events[0]) && Legal(Step(r, events[0]), events[1..]))
  }

  ghost function After(r: Run, events: seq<Event>): Run
    requires r.cfg.nodes <= r.cfg.hardwareIds.Keys && Legal(r, events)
    decreases |events|
  {
    if events == [] then r else After(Step(r, events[0]), events[1..])
  }

  function Start(cfg: Config, failed: map<string, int>, duplicates: map<string, int>, now: real): Run {
    Run(cfg, [], map[], map[], {}, [], [], [], 0, 0, failed, duplicates, None, [], now, Running, Generating)
  }

  /** A run that goes on after one step. */
  lemma OneMore(r: Run, e: Event, rest: seq<Event>)
    requires r.cfg.nodes <= r.cfg.hardwareIds.Keys && Enabled(r, e)
    requires Step(r, e).cfg == r.cfg && Legal(Step(r, e), rest)
    ensures Legal(r, [e] + rest) && After(r, [e] + rest) == After(Step(r, e), rest)
  {
    assert ([e] + rest)[1..] == rest;
  }

  lemma CorrelatedIsMessage(r: Run, p: Packet)
    ensures Correlated(r, p).Some? ==> Correlated(r, p).value < |r.messages|
  {}

  lemma AnsweredIsMessage(r: Run, node: string, requestId: int)
    ensures Answered(r, node, requestId).Some? ==>
              Answered(r, node, requestId).value < |r.messages| && node in r.cfg.hardwareIds
  {}

  // ---------- the outcome chain ----------

  predicate NoRepeats(nodes: seq<string>) {
    forall i, j :: 0 <= i < j < |nodes| ==> nodes[i] != nodes[j]
  }

  /** acknowledged ==> transmitted ==> submitted ==> no error; receivers distinct and applicable. */
  predicate Sound(cfg: Config, m: Message) {
    && m.source in cfg.nodes
    && (cfg.kind == DirectText ==> m.destination in cfg.nodes)
    && (m.acknowledged ==> m.transmitted)
    && (m.transmitted ==> m.submitted)
    && (m.submitted ==> m.submissionError.None?)
    && NoRepeats(m.deliveredTo)
    && (forall n <- m.deliveredTo :: n in cfg.nodes && Applicable(cfg, m, n))
    && (m.deliveredTo != [] <==> m.latencyMs.Some?)
  }

  ghost predicate Consistent(r: Run) {
    && r.cfg.nodes <= r.cfg.hardwareIds.Keys
    && (forall i :: 0 <= i < |r.messages| ==> r.messages[i].sequence == i + 1 && Sound(r.cfg, r.messages[i]))
    && (forall k <- r.byPacket :: r.byPacket[k] < |r.messages|)
    && (forall k <- r.pending :: r.pending[k] < |r.messages|)
    && |r.lengths| == |r.messages|
  }

  lemma RoutingKeepsConsistent(r: Run, node: string, requestId: int, error: RoutingError, origin: int, now: real)
    requires Consistent(r)
    ensures Consistent(OnRoutingResponse(r, node, requestId, error, origin, now))
  {}

  lemma DeliveryKeepsConsistent(r: Run, node: string, p: Packet, now: real)
    requires Consistent(r) && node in r.cfg.nodes
    ensures Consistent(OnTextDelivery(r, node, p, now))
  {}

  lemma AliasKeepsConsistent(r: Run, p: Packet, transmitter: Option<string>)
    requires Consistent(r)
    ensures Consistent(WithAlias(r, p, transmitter))
    ensures WithAlias(r, p, transmitter) == r.(byPacket := WithAlias(r, p, transmitter).byPacket)
    ensures Identify(r, p, transmitter).Some? ==> Identify(r, p, transmitter).value < |r.messages|
  {}

  lemma ReplaceKeepsConsistent(r: Run, i: nat, m: Message)
    requires Consistent(r) && i < |r.messages| && m.sequence == i + 1 && Sound(r.cfg, m)
    ensures Consistent(r.(messages := r.messages[i := m]))
  {}

  lemma RfKeepsConsistent(r: Run, transmitter: string, p: Packet, airtimeMs: int, now: real)
    requires Consistent(r) && transmitter in r.cfg.nodes
    ensures Consistent(OnRfTransmission(r, transmitter, p, airtimeMs, now))
  {
    AliasKeepsConsistent(r, p, Some(transmitter));
    var i := Identify(r, p, Some(transmitter));
    if i.Some? && r.messages[i.value].submitted {
      ReplaceKeepsConsistent(WithAlias(r, p, Some(transmitter)), i.value, r.messages[i.value].(transmitted := true));
    }
  }

  lemma SubmitKeepsConsistent(r: Run, source: string, destination: string, packetId: int, length: nat,
                              gatewayError: Option<string>, now: real)
    requires Consistent(r) && source in r.cfg.nodes && (r.cfg.kind == DirectText ==> destination in r.cfg.nodes)
    ensures Consistent(OnSubmit(r, source, destination, packetId, length, gatewayError, now))
  {}

  lemma QueueStatusKeepsConsistent(r: Run, node: string, packetId: int, result: int, now: real)
    requires Consistent(r)
    ensures Consistent(OnQueueStatus(r, node, packetId, result, now))
    ensures forall k <- r.pending :: r.pending[k] < |r.messages|
  {
    if Accepts(r) && packetId != 0 && (node, packetId) in r.pending {
      var i := r.pending[(node, packetId)];
      ReplaceKeepsConsistent(r, i, Settle(r.messages[i], if QueueSuccess(result) then None else Some(QUEUE_REJECTED)));
    }
  }

  lemma DropKeepsConsistent(r: Run, transmitter: string, p: Packet, reason: string, now: real)
    requires Consistent(r)
    ensures Consistent(OnLinkDrop(r, transmitter, p, reason, now))
  {
    AliasKeepsConsistent(r, p, Some(transmitter));
  }

  lemma TimeoutKeepsConsistent(r: Run, now: real)
    requires Consistent(r)
    ensures Consistent(OnAdmissionTimeout(r, now))
    ensures forall k <- r.pending :: r.pending[k] < |r.messages|
  {}

  /** Filing an answer changes nothing but the identity table. */
  lemma AliasChangesPackets(r: Run, p: Packet, transmitter: Option<string>)
    ensures WithAlias(r, p, transmitter) == r.(byPacket := WithAlias(r, p, transmitter).byPacket)
  {}

  lemma StepKeepsConfig(r: Run, e: Event)
    requires r.cfg.nodes <= r.cfg.hardwareIds.Keys && Enabled(r, e)
    ensures Step(r, e).cfg == r.cfg
  {
    hide RequestId, Identify, Correlated, Answered, ProperOrigin, Growth, Settle, Applicable, Accepts, WithAlias;
    if e.RfTransmission? || e.LinkDrop? {
      AliasChangesPackets(r, e.packet, Some(e.transmitter));
    }
  }

  /** Every step of every task keeps the records consistent. */
  lemma StepKeepsConsistent(r: Run, e: Event)
    requires Consistent(r) && Enabled(r, e)
    ensures Consistent(Step(r, e))
    ensures Step(r, e).cfg == r.cfg
  {
    StepKeepsConfig(r, e);
    hide OnSubmit, OnQueueStatus, OnLinkDrop, OnRfTransmission, OnTextDelivery, OnRoutingResponse, OnAdmissionTimeout;
    match e
    case Submit(source, destination, packetId, length, gatewayError, now) =>
      SubmitKeepsConsistent(r, source, destination, packetId, length, gatewayError, now);
    case QueueStatus(node, packetId, result, now) => QueueStatusKeepsConsistent(r, node, packetId, result, now);
    case LinkDrop(transmitter, packet, reason, now) => DropKeepsConsistent(r, transmitter, packet, reason, now);
    case RfTransmission(transmitter, packet, airtimeMs, now) =>
      RfKeepsConsistent(r, transmitter, packet, airtimeMs, now);
    case TextDelivery(node, packet, now) => DeliveryKeepsConsistent(r, node, packet, now);
    case RoutingResponse(node, requestId, error, origin, now) =>
      RoutingKeepsConsistent(r, node, requestId, error, origin, now);
    case AdmissionTimeout(now) => TimeoutKeepsConsistent(r, now);
    case BeginFinalizing(now) => TimeoutKeepsConsistent(r.(phase := Finalizing), now);
    case _ =>
  }

  /** In every reachable state the outcome chain holds for every message. */
  lemma {:induction false} RunsAreConsistent(r: Run, events: seq<Event>)
    requires Consistent(r) && Legal(r, events)
    ensures Consistent(After(r, events))
    decreases |events|
  {
    if events == [] {
    } else {
      StepKeepsConsistent(r, events[0]);
      RunsAreConsistent(Step(r, events[0]), events[1..]);
    }
  }

  /** A legal run that goes on with another one. */
  lemma {:induction false} RunsJoin(r: Run, a: seq<Event>, b: seq<Event>)
    requires Consistent(r) && Legal(r, a) && Consistent(After(r, a)) && Legal(After(r, a), b)
    ensures Legal(r, a + b) && After(r, a + b) == After(After(r, a), b)
    decreases |a|
  {
    hide Consistent, Step, Enabled, Legal, After;
    if a == [] {
      NoSteps(r, a);
      assert a + b == b;
    } else {
      FirstStep(r, a);
      StepKeepsConsistent(r, a[0]);
      RunsJoin(Step(r, a[0]), a[1..], b);
      OneMore(r, a[0], a[1..] + b);
      assert [a[0]] + (a[1..] + b) == a + b;
    }
  }

  lemma NoSteps(r: Run, a: seq<Event>)
    requires Consistent(r) && a == []
    ensures Legal(r, a) && After(r, a) == r
  {}

  lemma FirstStep(r: Run, a: seq<Event>)
    requires Consistent(r) && Legal(r, a) && a != []
    ensures r.cfg.nodes <= r.cfg.hardwareIds.Keys
    ensures Enabled(r, a[0]) && Step(r, a[0]).cfg == r.cfg && Legal(Step(r, a[0]), a[1..])
    ensures After(r, a) == After(Step(r, a[0]), a[1..])
  {
    StepKeepsConfig(r, a[0]);
  }

  lemma OneStep(r: Run, e: Event)
    requires Consistent(r) && Enabled(r, e)
    ensures Legal(r, [e]) && After(r, [e]) == Step(r, e) && Consistent(Step(r, e))
  {
    StepKeepsConsistent(r, e);
    assert [e][1..] == [];
  }

  // ---------- totals over the records ----------

  function Total(ms: seq<Message>, f: Message -> nat): nat {
    if ms == [] then 0 else Total(ms[..|ms| - 1], f) + f(ms[|ms| - 1])
  }

  function Submitted(m: Message): nat { if m.submitted then 1 else 0 }
  function SubmissionFailed(m: Message): nat { if m.submissionError.Some? then 1 else 0 }
  function AwaitingAdmission(m: Message): nat { if Unresolved(m) then 1 else 0 }
  function Transmitted(m: Message): nat { if m.transmitted then 1 else 0 }
  function Acknowledged(m: Message): nat { if m.acknowledged then 1 else 0 }
  function Receivers(m: Message): nat { |m.deliveredTo| }
  function Delivered(m: Message): nat { if m.deliveredTo != [] then 1 else 0 }

  lemma TotalSnoc(ms: seq<Message>, m: Message, f: Message -> nat)
    ensures Total(ms + [m], f) == Total(ms, f) + f(m)
  {
    DropLast(ms, m);
  }

  lemma {:induction false} TotalUpdate(ms: seq<Message>, i: nat, m: Message, f: Message -> nat)
    requires i < |ms|
    ensures Total(ms[i := m], f) + f(ms[i]) == Total(ms, f) + f(m)
  {
    var n := |ms| - 1;
    if i < n {
      TotalUpdate(ms[..n], i, m, f);
      assert ms[i := m][..n] == ms[..n][i := m];
    } else {
      assert ms[i := m][..n] == ms[..n];
    }
  }

  /** What each total counts. */
  lemma TotalsRead(ms: seq<Message>)
    ensures Total(ms, Submitted) == |set i | 0 <= i < |ms| && ms[i].submitted|
    ensures Total(ms, SubmissionFailed) == |set i | 0 <= i < |ms| && ms[i].submissionError.Some?|
    ensures Total(ms, Transmitted) == |set i | 0 <= i < |ms| && ms[i].transmitted|
    ensures Total(ms, Acknowledged) == |set i | 0 <= i < |ms| && ms[i].acknowledged|
    ensures Total(ms, Delivered) == |set i | 0 <= i < |ms| && ms[i].deliveredTo != []|
  {
    hide Total;
    SubmittedRead(ms);
    SubmissionFailedRead(ms);
    TransmittedRead(ms);
    AcknowledgedRead(ms);
    DeliveredRead(ms);
  }

  lemma TotalLast(ms: seq<Message>, f: Message -> nat)
    requires ms != []
    ensures Total(ms, f) == Total(ms[..|ms| - 1], f) + f(ms[|ms| - 1])
  {}

  lemma {:induction false} SubmittedRead(ms: seq<Message>)
    ensures Total(ms, Submitted) == |set i | 0 <= i < |ms| && ms[i].submitted|
  {
    if ms == [] {
    } else {
      hide Total;
      var n := |ms| - 1;
      SubmittedRead(ms[..n]);
      TotalLast(ms, Submitted);
      var before := set i | 0 <= i < n && ms[..n][i].submitted;
      OneMorePosition(before, (set i | 0 <= i < |ms| && ms[i].submitted), n, ms[n].submitted);
    }
  }

  lemma {:induction false} SubmissionFailedRead(ms: seq<Message>)
    ensures Total(ms, SubmissionFailed) == |set i | 0 <= i < |ms| && ms[i].submissionError.Some?|
  {
    if ms == [] {
    } else {
      hide Total;
      var n := |ms| - 1;
      SubmissionFailedRead(ms[..n]);
      TotalLast(ms, SubmissionFailed);
      var before := set i | 0 <= i < n && ms[..n][i].submissionError.Some?;
      OneMorePosition(before, (set i | 0 <= i < |ms| && ms[i].submissionError.Some?), n, ms[n].submissionError.Some?);
    }
  }

  lemma {:induction false} TransmittedRead(ms: seq<Message>)
    ensures Total(ms, Transmitted) == |set i | 0 <= i < |ms| && ms[i].transmitted|
  {
    if ms == [] {
    } else {
      hide Total;
      var n := |ms| - 1;
      TransmittedRead(ms[..n]);
      TotalLast(ms, Transmitted);
      var before := set i | 0 <= i < n && ms[..n][i].transmitted;
      OneMorePosition(before, (set i | 0 <= i < |ms| && ms[i].transmitted), n, ms[n].transmitted);
    }
  }

  lemma {:induction false} AcknowledgedRead(ms: seq<Message>)
    ensures Total(ms, Acknowledged) == |set i | 0 <= i < |ms| && ms[i].acknowledged|
  {
    if ms == [] {
    } else {
      hide Total;
      var n := |ms| - 1;
      AcknowledgedRead(ms[..n]);
      TotalLast(ms, Acknowledged);
      var before := set i | 0 <= i < n && ms[..n][i].acknowledged;
      OneMorePosition(before, (set i | 0 <= i < |ms| && ms[i].acknowledged), n, ms[n].acknowledged);
    }
  }

  lemma {:induction false} DeliveredRead(ms: seq<Message>)
    ensures Total(ms, Delivered) == |set i | 0 <= i < |ms| && ms[i].deliveredTo != []|
  {
    if ms == [] {
    } else {
      hide Total;
      var n := |ms| - 1;
      DeliveredRead(ms[..n]);
      TotalLast(ms, Delivered);
      var before := set i | 0 <= i < n && ms[..n][i].deliveredTo != [];
      OneMorePosition(before, (set i | 0 <= i < |ms| && ms[i].deliveredTo != []), n, ms[n].deliveredTo != []);
    }
  }

  /** Receivers are counted once for each message they received. */
  lemma {:induction false} ReceiversRead(ms: seq<Message>)
    requires forall m <- ms :: NoRepeats(m.deliveredTo)
    ensures Total(ms, Receivers) == |set i, node | 0 <= i < |ms| && node in ms[i].deliveredTo :: (i, node)|
  {
    if ms == [] {
    } else {
      hide Total, NoRepeats;
      var n := |ms| - 1;
      ReceiversRead(ms[..n]);
      TotalLast(ms, Receivers);
      PairsOf(n, ms[n].deliveredTo);
      MorePairs(set i, node | 0 <= i < n && node in ms[..n][i].deliveredTo :: (i, node),
                set node | node in ms[n].deliveredTo :: (n, node),
                set i, node | 0 <= i < |ms| && node in ms[i].deliveredTo :: (i, node));
    }
  }

  lemma MorePairs<T>(before: set<T>, last: set<T>, now: set<T>)
    requires before !! last && forall p :: p in now <==> p in before || p in last
    ensures |now| == |before| + |last|
  {
    assert now == before + last;
  }

  lemma {:induction false} PairsOf(i: int, nodes: seq<string>)
    requires NoRepeats(nodes)
    ensures |set node | node in nodes :: (i, node)| == |nodes|
  {
    if nodes == [] {
      assert (set node | node in nodes :: (i, node)) == {};
    } else {
      var init, last := nodes[..|nodes| - 1], nodes[|nodes| - 1];
      PairsOf(i, init);
      assert nodes == init + [last];
      assert (set node | node in nodes :: (i, node)) == (set node | node in init :: (i, node)) + {(i, last)};
      assert last !in init;
    }
  }

  // ---------- submission conservation ----------

  /** Each message is waiting under its own key, submitted or failed, and in one way only. */
  ghost predicate Filed(ms: seq<Message>, pending: map<Key, nat>) {
    && (forall i, j :: 0 <= i < j < |ms| ==> KeyOf(ms[i]) != KeyOf(ms[j]))
    && (forall k <- pending :: pending[k] < |ms| && KeyOf(ms[pending[k]]) == k && Unresolved(ms[pending[k]]))
    && (forall i :: 0 <= i < |ms| && Unresolved(ms[i]) ==> KeyOf(ms[i]) in pending && pending[KeyOf(ms[i])] == i)
  }

  ghost predicate Partitioned(r: Run) {
    Filed(r.messages, r.pending)
  }

  lemma FiledPrefix(ms: seq<Message>, pending: map<Key, nat>)
    requires ms != [] && Filed(ms, pending)
    ensures var init, last := ms[..|ms| - 1], ms[|ms| - 1];
            (if Unresolved(last) then KeyOf(last) in pending && Filed(init, pending - {KeyOf(last)})
             else Filed(init, pending))
  {}

  /** The pending table has one entry for each message that waits. */
  lemma {:induction false} FiledCounts(ms: seq<Message>, pending: map<Key, nat>)
    requires Filed(ms, pending)
    ensures |pending| == Total(ms, AwaitingAdmission)
  {
    if ms == [] {
      assert pending == map[];
    } else {
      var init, last := ms[..|ms| - 1], ms[|ms| - 1];
      FiledPrefix(ms, pending);
      hide Filed;
      if Unresolved(last) {
        FiledCounts(init, pending - {KeyOf(last)});
        assert (pending - {KeyOf(last)}).Keys == pending.Keys - {KeyOf(last)};
      } else {
        FiledCounts(init, pending);
      }
    }
  }

  /** A rate-limit rejection that takes effect concerns a message of the node that received it. */
  predicate HonestRejection(r: Run, e: Event) {
    e.RoutingResponse? && e.error == RateLimitExceeded && Accepts(r) && Answered(r, e.node, e.requestId).Some? ==>
      var m := r.messages[Answered(r, e.node, e.requestId).value];
      m.transmitted || m.submissionError.Some? || m.source == e.node
  }

  /** requested = submitted + failed + pending. */
  lemma Conservation(r: Run)
    requires Consistent(r) && Partitioned(r)
    ensures |r.messages| == Total(r.messages, Submitted) + Total(r.messages, SubmissionFailed) + |r.pending|
  {
    OutcomesCover(r.cfg, r.messages);
    FiledCounts(r.messages, r.pending);
  }

  lemma {:induction false} OutcomesCover(cfg: Config, ms: seq<Message>)
    requires forall i :: 0 <= i < |ms| ==> Sound(cfg, ms[i])
    ensures |ms| == Total(ms, Submitted) + Total(ms, SubmissionFailed) + Total(ms, AwaitingAdmission)
  {
    if ms == [] {
    } else {
      OutcomesCover(cfg, ms[..|ms| - 1]);
    }
  }

  /** Taking message `i` out of the pending table and giving it an outcome. */
  lemma ResolvePending(ms: seq<Message>, pending: map<Key, nat>, i: nat, m: Message)
    requires Filed(ms, pending) && i < |ms| && Unresolved(ms[i]) && KeyOf(m) == KeyOf(ms[i]) && !Unresolved(m)
    ensures Filed(ms[i := m], pending - {KeyOf(m)})
  {}

  /** Changing anything but the admission outcome of a message. */
  lemma KeepPending(ms: seq<Message>, pending: map<Key, nat>, i: nat, m: Message)
    requires Filed(ms, pending) && i < |ms| && KeyOf(m) == KeyOf(ms[i]) && Unresolved(m) == Unresolved(ms[i])
    ensures Filed(ms[i := m], pending)
  {}

  lemma AddPending(ms: seq<Message>, pending: map<Key, nat>, m: Message)
    requires Filed(ms, pending) && Unresolved(m) && forall i :: 0 <= i < |ms| ==> KeyOf(ms[i]) != KeyOf(m)
    ensures Filed(ms + [m], pending[KeyOf(m) := |ms|])
  {}

  lemma SubmitKeepsPartition(r: Run, source: string, destination: string, packetId: int, length: nat,
                             gatewayError: Option<string>, now: real)
    requires Partitioned(r) && source in r.cfg.hardwareIds
    requires forall i :: 0 <= i < |r.messages| ==> KeyOf(r.messages[i]) != (source, packetId)
    ensures Partitioned(OnSubmit(r, source, destination, packetId, length, gatewayError, now))
  {
    var m := Message(|r.messages| + 1, source, destination, packetId, now, false, None, false, [], false, None);
    AddPending(r.messages, r.pending, m);
    if gatewayError.Some? {
      hide Filed;
      ResolvePending(r.messages + [m], r.pending[KeyOf(m) := |r.messages|], |r.messages|, Settle(m, gatewayError));
    }
  }

  lemma TimeoutKeepsPartition(r: Run, now: real)
    requires Partitioned(r)
    ensures Partitioned(OnAdmissionTimeout(r, now)) && OnAdmissionTimeout(r, now).pending == map[]
  {
    var messages := TimedOut(r.messages, r.pending.Values);
    forall i | 0 <= i < |messages| ensures !Unresolved(messages[i]) && KeyOf(messages[i]) == KeyOf(r.messages[i]) {
      if Unresolved(r.messages[i]) {
        assert r.pending[KeyOf(r.messages[i])] in r.pending.Values;
      }
    }
  }

  lemma QueueStatusKeepsPartition(r: Run, node: string, packetId: int, result: int, now: real)
    requires Partitioned(r)
    ensures Partitioned(OnQueueStatus(r, node, packetId, result, now))
  {
    if Accepts(r) && packetId != 0 && (node, packetId) in r.pending {
      var i := r.pending[(node, packetId)];
      ResolvePending(r.messages, r.pending, i,
                     Settle(r.messages[i], if QueueSuccess(result) then None else Some(QUEUE_REJECTED)));
    }
  }

  lemma RfKeepsPartition(r: Run, transmitter: string, p: Packet, airtimeMs: int, now: real)
    requires Consistent(r) && Partitioned(r) && transmitter in r.cfg.nodes
    ensures Partitioned(OnRfTransmission(r, transmitter, p, airtimeMs, now))
  {
    AliasKeepsConsistent(r, p, Some(transmitter));
    var i := Identify(r, p, Some(transmitter));
    if i.Some? && r.messages[i.value].submitted {
      KeepPending(r.messages, r.pending, i.value, r.messages[i.value].(transmitted := true));
    }
  }

  lemma DeliveryKeepsPartition(r: Run, node: string, p: Packet, now: real)
    requires Partitioned(r)
    ensures Partitioned(OnTextDelivery(r, node, p, now))
  {
    var i := Correlated(r, p);
    if i.Some? {
      KeepPending(r.messages, r.pending, i.value, OnTextDelivery(r, node, p, now).messages[i.value]);
    }
  }

  lemma StepKeepsPartition(r: Run, e: Event)
    requires Consistent(r) && Partitioned(r) && Enabled(r, e) && HonestRejection(r, e)
    ensures Partitioned(Step(r, e))
  {
    hide Partitioned, OnSubmit, OnAdmissionTimeout;
    if IsHandler(e) {
      HandlerKeepsPartition(r, e);
    } else {
      match e
      case Submit(source, destination, packetId, length, gatewayError, now) =>
        SubmitKeepsPartition(r, source, destination, packetId, length, gatewayError, now);
      case AdmissionTimeout(now) => TimeoutKeepsPartition(r, now);
      case BeginFinalizing(now) =>
        PartitionReads(r, r.(phase := Finalizing));
        TimeoutKeepsPartition(r.(phase := Finalizing), now);
      case BeginDrain => PartitionReads(r, Step(r, e));
      case ChangeState(_) => PartitionReads(r, Step(r, e));
      case Freeze(_) => PartitionReads(r, Step(r, e));
    }
  }

  lemma HandlerKeepsPartition(r: Run, e: Event)
    requires Consistent(r) && Partitioned(r) && Enabled(r, e) && HonestRejection(r, e) && IsHandler(e)
    ensures Partitioned(Step(r, e))
  {
    hide Partitioned, OnQueueStatus, OnRfTransmission, OnTextDelivery, OnRoutingResponse, OnLinkDrop, HonestRejection;
    match e
    case QueueStatus(node, packetId, result, now) => QueueStatusKeepsPartition(r, node, packetId, result, now);
    case RfTransmission(transmitter, p, airtimeMs, now) => RfKeepsPartition(r, transmitter, p, airtimeMs, now);
    case TextDelivery(node, p, now) => DeliveryKeepsPartition(r, node, p, now);
    case RoutingResponse(node, requestId, error, origin, now) => RoutingKeepsPartition(r, e);
    case LinkDrop(transmitter, p, reason, now) => DropKeepsPartition(r, transmitter, p, reason, now);
    case FailedTotal(_, _) => PartitionReads(r, Step(r, e));
    case DuplicateTotal(_, _) => PartitionReads(r, Step(r, e));
    case EventLoopLag(_) => PartitionReads(r, Step(r, e));
  }

  lemma DropKeepsPartition(r: Run, transmitter: string, p: Packet, reason: string, now: real)
    requires Partitioned(r)
    ensures Partitioned(OnLinkDrop(r, transmitter, p, reason, now))
  {
    AliasChangesPackets(r, p, Some(transmitter));
    hide WithAlias, Identify, Partitioned;
    PartitionReads(r, OnLinkDrop(r, transmitter, p, reason, now));
  }

  lemma PartitionReads(r: Run, s: Run)
    requires Partitioned(r) && s.messages == r.messages && s.pending == r.pending
    ensures Partitioned(s)
  {}

  lemma RoutingKeepsPartition(r: Run, e: Event)
    requires Consistent(r) && Partitioned(r) && e.RoutingResponse? && HonestRejection(r, e)
    ensures Partitioned(OnRoutingResponse(r, e.node, e.requestId, e.error, e.responseOrigin, e.now))
  {
    var answered := Answered(r, e.node, e.requestId);
    if answered.Some? {
      var i := answered.value;
      var m := r.messages[i];
      if !m.transmitted && e.error == RateLimitExceeded && m.submissionError.None? && m.source == e.node {
        RejectKeepsPartition(r, e.node, i, e.now);
      } else {
        KeepPending(r.messages, r.pending, i, m.(acknowledged := true));
      }
    }
  }

  lemma RejectKeepsPartition(r: Run, node: string, i: nat, now: real)
    requires Partitioned(r) && i < |r.messages| && r.messages[i].submissionError.None? && r.messages[i].source == node
    ensures Partitioned(Reject(r, node, i, now))
  {
    var m := r.messages[i];
    var rejected := m.(submitted := false, submissionError := Some(RATE_LIMITED));
    if Unresolved(m) {
      ResolvePending(r.messages, r.pending, i, rejected);
    } else {
      assert KeyOf(m) !in r.pending;
      assert r.pending - {KeyOf(m)} == r.pending;
      KeepPending(r.messages, r.pending, i, rejected);
    }
  }

  /** The run so far met only honest rejections. */
  ghost predicate Honest(r: Run, events: seq<Event>)
    requires r.cfg.nodes <= r.cfg.hardwareIds.Keys && Legal(r, events)
    decreases |events|
  {
    events == [] || (HonestRejection(r, events[0]) && Honest(Step(r, events[0]), events[1..]))
  }

  /** In every reachable state of an honest run: each message in exactly one place, and the counts add up. */
  lemma {:induction false} RunsConserveSubmissions(r: Run, events: seq<Event>)
    requires Consistent(r) && Partitioned(r) && Legal(r, events) && Honest(r, events)
    ensures var end := After(r, events);
            && Consistent(end) && Partitioned(end)
            && |end.messages| == Total(end.messages, Submitted) + Total(end.messages, SubmissionFailed) + |end.pending|
    decreases |events|
  {
    if events == [] {
      Conservation(r);
    } else {
      StepKeepsConsistent(r, events[0]);
      StepKeepsPartition(r, events[0]);
      RunsConserveSubmissions(Step(r, events[0]), events[1..]);
    }
  }

  /** A message of another node was already admitted, and nothing waits under the key taken away. */
  lemma ForeignRejectExactly(ms: seq<Message>, pending: map<Key, nat>, key: Key, i: nat, rejected: Message)
    requires Filed(ms, pending) && i < |ms| && KeyOf(ms[i]) != key && KeyOf(rejected) == KeyOf(ms[i])
    requires !Unresolved(rejected)
    ensures Filed(ms[i := rejected], pending - {key}) <==> !Unresolved(ms[i]) && key !in pending
  {
    var next := ms[i := rejected];
    if key in pending {
      assert next[pending[key]] == ms[pending[key]];
    } else if Unresolved(ms[i]) {
      assert KeyOf(ms[i]) in pending - {key} && (pending - {key})[KeyOf(ms[i])] == i;
    } else {
      assert pending - {key} == pending;
    }
  }

  lemma RejectKeepsPartitionExactly(r: Run, node: string, i: nat, now: real)
    requires Partitioned(r) && i < |r.messages| && r.messages[i].submissionError.None?
    ensures Partitioned(Reject(r, node, i, now))
       <==> r.messages[i].source == node || (r.messages[i].submitted && (node, r.messages[i].packetId) !in r.pending)
  {
    hide Filed;
    var m := r.messages[i];
    if m.source == node {
      RejectKeepsPartition(r, node, i, now);
    } else {
      ForeignRejectExactly(r.messages, r.pending, (node, m.packetId), i,
                           m.(submitted := false, submissionError := Some(RATE_LIMITED)));
    }
  }

  /**
     Without that assumption the partition survives a rate-limit rejection exactly when the
     rejection is honest, or hits a message already admitted and no waiting key of the node
     that received it. Otherwise the rejected message stays in the pending table, or a
     different message is taken out of it without an outcome.
   */
  lemma RejectionKeepsPartitionExactly(r: Run, e: Event, i: nat)
    requires Consistent(r) && Partitioned(r)
    requires e.RoutingResponse? && e.error == RateLimitExceeded && Accepts(r)
    requires Answered(r, e.node, e.requestId) == Some(i)
    requires !r.messages[i].transmitted && r.messages[i].submissionError.None?
    ensures Partitioned(OnRoutingResponse(r, e.node, e.requestId, e.error, e.responseOrigin, e.now))
       <==> (|| r.messages[i].source == e.node
             || (r.messages[i].submitted && (e.node, r.messages[i].packetId) !in r.pending))
  {
    var next := OnRoutingResponse(r, e.node, e.requestId, e.error, e.responseOrigin, e.now);
    var rejected := Reject(r, e.node, i, e.now);
    RejectKeepsPartitionExactly(r, e.node, i, e.now);
    if Partitioned(next) {
      PartitionReads(next, rejected);
    } else if Partitioned(rejected) {
      PartitionReads(rejected, next);
    }
  }

  /** A waiting message of node a, with an answer to it filed under an identifier of node b. */
  function ForeignAnswer(): Run {
    var cfg := Config("run", DirectText, true, {"a", "b"}, map["a" := 1, "b" := 2], true);
    var m := Message(1, "a", "b", 7, 0.0, false, None, false, [], false, None);
    Start(cfg, map[], map[], 0.0).(
      messages := [m], pending := map[("a", 7) := 0], byPacket := map[(1, 7) := 0, (2, 9) := 0], lengths := [20])
  }

  /** Two steps lead there: a submission, and b's answer to it heard before it was admitted. */
  lemma ForeignAnswerIsReachable()
    ensures var cfg := ForeignAnswer().cfg;
            var submitted := OnSubmit(Start(cfg, map[], map[], 0.0), "a", "b", 7, 20, None, 0.0);
            ForeignAnswer() == OnRfTransmission(submitted, "b", Packet(2, 1, 9, Some(Routing), 7, 0, None), 50, 0.0)
  {
    var submitted := OnSubmit(Start(ForeignAnswer().cfg, map[], map[], 0.0), "a", "b", 7, 20, None, 0.0);
    assert submitted.messages == ForeignAnswer().messages;
    assert submitted == ForeignAnswer().(byPacket := map[(1, 7) := 0]);
  }

  /** There a rejection at b for that identifier hits a's message and breaks the partition. */
  lemma ForeignRejectionBreaksPartition()
    ensures Consistent(ForeignAnswer()) && Partitioned(ForeignAnswer())
    ensures !HonestRejection(ForeignAnswer(), RoutingResponse("b", 9, RateLimitExceeded, 2, 1.0))
    ensures !Partitioned(OnRoutingResponse(ForeignAnswer(), "b", 9, RateLimitExceeded, 2, 1.0))
  {
    var r, e := ForeignAnswer(), RoutingResponse("b", 9, RateLimitExceeded, 2, 1.0);
    var m := r.messages[0];
    assert r.messages[..0] == [] && Total(r.messages, AwaitingAdmission) == 1;
    assert Sound(r.cfg, m) && Consistent(r);
    assert |r.pending| == 1;
    assert Partitioned(r);
    assert Answered(r, "b", 9) == Some(0);
    RejectionKeepsPartitionExactly(r, e, 0);
  }

  // ---------- the end of a run ----------

  /** From finalization on only the freeze itself can happen, and it changes no record. */
  lemma {:induction false} FinalizedRecordsAreFrozen(r: Run, events: seq<Event>)
    requires Consistent(r) && Legal(r, events) && (r.phase == Finalizing || r.phase == Terminal)
    ensures var end := After(r, events);
            end == r.(phase := end.phase, state := end.state) && (end.phase == Finalizing || end.phase == Terminal)
    decreases |events|
  {
    if events == [] {
    } else {
      var e := events[0];
      assert IsHandler(e) ==> Step(r, e) == r;
      StepKeepsConsistent(r, e);
      FinalizedRecordsAreFrozen(Step(r, e), events[1..]);
    }
  }

  /** A run starts out consistent and conserving. */
  lemma StartIsSound(cfg: Config, failed: map<string, int>, duplicates: map<string, int>, now: real)
    requires cfg.nodes <= cfg.hardwareIds.Keys
    ensures var r := Start(cfg, failed, duplicates, now);
            && Consistent(r) && Partitioned(r) && r.phase == Generating && r.state == Running
            && r.cfg == cfg && r.messages == [] && r.byPacket == map[] && r.pending == map[] && r.routingTerminal == {}
            && r.transmissions == [] && r.drops == [] && r.latencies == [] && r.lengths == []
            && r.duplicates == 0 && r.failedReceptions == 0 && r.lag == None && r.lastActivity == now
            && r.latestFailed == failed && r.latestDuplicates == duplicates
  {}

  /** Once finalization begins nothing is pending: every message was submitted or failed. */
  lemma FinalizationSettlesEverything(r: Run, now: real)
    requires Consistent(r) && Partitioned(r)
    ensures var end := OnAdmissionTimeout(r.(phase := Finalizing), now);
            && end.pending == map[]
            && |end.messages| == Total(end.messages, Submitted) + Total(end.messages, SubmissionFailed)
            && forall i :: 0 <= i < |end.messages| ==>
                (end.messages[i].submitted <==> end.messages[i].submissionError.None?)
  {
    var closing := r.(phase := Finalizing);
    PartitionReads(r, closing);
    TimeoutKeepsConsistent(closing, now);
    TimeoutKeepsPartition(closing, now);
    Conservation(OnAdmissionTimeout(closing, now));
  }

  /** No admission is open once finalization has begun. */
  predicate Closed(r: Run) {
    r.phase == Finalizing || r.phase == Terminal ==> r.pending == map[]
  }

  lemma StepKeepsClosed(r: Run, e: Event)
    requires r.cfg.nodes <= r.cfg.hardwareIds.Keys && Enabled(r, e) && Closed(r)
    ensures Closed(Step(r, e))
  {
    if r.phase == Finalizing || r.phase == Terminal {
      assert IsHandler(e) ==> Step(r, e) == r;
    } else if IsHandler(e) {
      HandlerKeepsPhase(r, e);
    }
  }

  lemma HandlerKeepsPhase(r: Run, e: Event)
    requires r.cfg.nodes <= r.cfg.hardwareIds.Keys && Enabled(r, e) && IsHandler(e)
    ensures Step(r, e).phase == r.phase
  {
    hide RequestId, Identify, Correlated, Answered, ProperOrigin, Growth, Settle, Applicable, Accepts, WithAlias;
    if e.RfTransmission? || e.LinkDrop? {
      AliasChangesPackets(r, e.packet, Some(e.transmitter));
    }
  }

  lemma {:induction false} RunsStayClosed(r: Run, events: seq<Event>)
    requires Consistent(r) && Closed(r) && Legal(r, events)
    ensures Closed(After(r, events))
    decreases |events|
  {
    if events == [] {
    } else {
      hide Closed, Step, Enabled;
      StepKeepsConsistent(r, events[0]);
      StepKeepsClosed(r, events[0]);
      RunsStayClosed(Step(r, events[0]), events[1..]);
    }
  }

  lemma {:induction false} RunsKeepConfig(r: Run, events: seq<Event>)
    requires Consistent(r) && Legal(r, events)
    ensures After(r, events).cfg == r.cfg
    decreases |events|
  {
    if events == [] {
    } else {
      hide Step, Enabled;
      StepKeepsConsistent(r, events[0]);
      RunsKeepConfig(Step(r, events[0]), events[1..]);
    }
  }

  // ---------- ratios ----------

  function Opportunities(cfg: Config): nat {
    if cfg.kind == BroadcastText then |cfg.nodes| - (if cfg.nodes == {} then 0 else 1) else 1
  }

  /** The applicable receivers of `n` messages, added up one message at a time. */
  function Offered(cfg: Config, n: nat): nat {
    if n == 0 then 0 else Offered(cfg, n - 1) + Opportunities(cfg)
  }

  /** Every broadcast can reach all nodes but one, every direct message one. */
  lemma {:induction false} OfferedReads(cfg: Config, n: nat)
    ensures Offered(cfg, n)
         == n * (if cfg.kind == DirectText then 1 else if cfg.nodes == {} then 0 else |cfg.nodes| - 1)
  {
    if n == 0 {
    } else {
      OfferedReads(cfg, n - 1);
      var each := if cfg.kind == DirectText then 1 else if cfg.nodes == {} then 0 else |cfg.nodes| - 1;
      assert Opportunities(cfg) == each;
      assert n * each == (n - 1) * each + each;
    }
  }

  lemma {:induction false} ReceiversFit(cfg: Config, ms: seq<Message>)
    requires forall i :: 0 <= i < |ms| ==> Sound(cfg, ms[i])
    ensures Total(ms, Receivers) <= Offered(cfg, |ms|)
    ensures Total(ms, Delivered) <= |ms| && Total(ms, Acknowledged) <= Total(ms, Submitted)
  {
    if ms == [] {
    } else {
      ReceiversFit(cfg, ms[..|ms| - 1]);
      var m := ms[|ms| - 1];
      DistinctReceivers(m.deliveredTo, if cfg.kind == DirectText then {m.destination} else cfg.nodes - {m.source});
    }
  }

  lemma {:induction false} DistinctReceivers(nodes: seq<string>, allowed: set<string>)
    requires NoRepeats(nodes) && forall n <- nodes :: n in allowed
    ensures |nodes| <= |allowed|
  {
    if nodes == [] {
    } else {
      var last := nodes[|nodes| - 1];
      forall n <- nodes[..|nodes| - 1] ensures n in allowed - {last} {}
      DistinctReceivers(nodes[..|nodes| - 1], allowed - {last});
    }
  }
}
