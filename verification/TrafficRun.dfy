/**
 A traffic run from its schedule to its frozen result. Schedule, packet identifiers, payload
 sizes and records are modelled apart; here one run uses them together, and what one of them
 proves discharges what another one asks for.
 */
module TrafficRun {
  import opened Controller
  import opened Ledger
  import opened Orphans
  import opened Wrappers
  import Identifier
  import PacketIds
  import Schedule

  /** What the environment brings to one submission, and the events handled before it. */
  datatype Turn = Turn(
    meanwhile: seq<Event>, destination: string, draws: seq<PacketIds.PacketId>, length: nat,
    gatewayError: Option<string>, now: real)

  // ---------- handlers between submissions ----------

  /** A handler's event, reported by a node of the run where the report names one. */
  predicate Observable(cfg: Config, e: Event) {
    IsHandler(e) &&
    match e
    case RfTransmission(transmitter, _, _, _) => transmitter in cfg.nodes
    case LinkDrop(transmitter, _, _, _) => transmitter in cfg.nodes
    case TextDelivery(node, _, _) => node in cfg.nodes
    case _ => true
  }

  predicate AllObservable(cfg: Config, events: seq<Event>) {
    forall e <- events :: Observable(cfg, e)
  }

  lemma ObservableIsEnabled(r: Run, e: Event)
    requires Observable(r.cfg, e)
    ensures Enabled(r, e)
  {}

  /** Handlers neither add messages, nor change their keys, nor end a phase. */
  lemma HandlerKeepsMessages(r: Run, e: Event)
    requires Consistent(r) && Enabled(r, e) && IsHandler(e)
    ensures Step(r, e).phase == r.phase && Step(r, e).cfg == r.cfg && Shrinks(r, Step(r, e))
  {
    HandlerKeepsPhase(r, e);
    StepKeepsConfig(r, e);
    if e.RoutingResponse? {
      ResponsesShrink(r, e);
    } else {
      EventsShrink(r, e);
    }
  }

  lemma ShrinksOnce(r: Run, s: Run, t: Run)
    requires Shrinks(r, s) && Shrinks(s, t)
    ensures Shrinks(r, t)
  {}

  lemma {:induction false} ObservableIsLegal(r: Run, events: seq<Event>)
    requires Consistent(r) && AllObservable(r.cfg, events)
    ensures Legal(r, events) && DrainLegal(r, events) && Consistent(After(r, events))
    ensures After(r, events).cfg == r.cfg && After(r, events).phase == r.phase && Shrinks(r, After(r, events))
    decreases |events|
  {
    if events == [] {
    } else {
      var e := events[0];
      hide Consistent, Step, Enabled;
      ObservableIsEnabled(r, e);
      HandlerKeepsMessages(r, e);
      StepKeepsConsistent(r, e);
      ObservableIsLegal(Step(r, e), events[1..]);
      ShrinksOnce(r, Step(r, e), After(Step(r, e), events[1..]));
    }
  }

  ghost predicate InTime(wakes: seq<Wake>, now: real) {
    && (forall i :: 0 <= i < |wakes| ==> now <= wakes[i].now)
    && (forall i, j :: 0 <= i < j < |wakes| ==> wakes[i].now <= wakes[j].now)
  }

  lemma {:induction false} ObservableWakesAreLegal(r: Run, wakes: seq<Wake>, now: real)
    requires Consistent(r) && InTime(wakes, now) && forall w <- wakes :: AllObservable(r.cfg, w.events)
    ensures WakesLegal(r, wakes, now)
    decreases |wakes|
  {
    if wakes == [] {
    } else {
      ObservableIsLegal(r, wakes[0].events);
      var next := After(r, wakes[0].events);
      ObservableWakesAreLegal(next, wakes[1..], wakes[0].now);
    }
  }

  /** The events are a legal run from one state of the records to another. */
  ghost predicate Ran(r: Run, events: seq<Event>, s: Run) {
    r.cfg.nodes <= r.cfg.hardwareIds.Keys && Legal(r, events) && s == After(r, events)
  }

  lemma RanNothing(r: Run)
    requires Consistent(r)
    ensures Ran(r, [], r)
  {}

  lemma RanOn(r: Run, a: seq<Event>, s: Run, b: seq<Event>, t: Run)
    requires Consistent(r) && Consistent(s) && Ran(r, a, s) && Ran(s, b, t)
    ensures Ran(r, a + b, t)
  {
    RunsJoin(r, a, b);
  }

  // ---------- identifiers ----------

  /** The message's identifier is in the table of its source. */
  ghost predicate Issued(used: seq<PacketIds.Grant>, id: int) {
    exists i :: 0 <= i < |used| && used[i].id == id
  }

  ghost predicate AllIssued(pool: PacketIds.PacketIdPool, ms: seq<Message>)
    reads pool
  {
    forall i :: 0 <= i < |ms| ==> Issued(pool.HistoryOf(ms[i].source).shelf.used, ms[i].packetId)
  }

  lemma IssuedStays(used: seq<PacketIds.Grant>, g: PacketIds.Grant, id: int)
    ensures Issued(used + [g], id) <==> Issued(used, id) || g.id == id
  {
    forall i | 0 <= i < |used| && used[i].id == id ensures (used + [g])[i].id == id {}
    assert (used + [g])[|used|] == g;
  }

  /** What an allocation does to the tables. */
  lemma DrawGrows(h: PacketIds.History, s: string, source: string, id: Option<PacketIds.PacketId>, now: real)
    ensures var used := PacketIds.Apply(h, PacketIds.DrawOp(s, source, id, now)).shelf.used;
            used == if s == source && id.Some? then h.shelf.used + [PacketIds.Grant(id.value, now)] else h.shelf.used
  {
    PacketIds.PurgeAddsNothing(h.shelf, now);
  }

  lemma GrantableIsNotIssued(s: PacketIds.Shelf, id: PacketIds.PacketId, now: real)
    requires PacketIds.Grantable(s, id, now)
    ensures !Issued(s.used, id)
  {
    PacketIds.PurgeAddsNothing(s, now);
  }

  /** None of the turn's draws can be granted to the source. */
  ghost predicate Stuck(pool: PacketIds.PacketIdPool, source: string, turn: Turn)
    reads pool
  {
    forall d <- turn.draws :: !PacketIds.Grantable(pool.HistoryOf(source).shelf, d, turn.now)
  }

  lemma {:induction false} PurgeTwice(s: PacketIds.Shelf, now: real)
    ensures PacketIds.Purge(PacketIds.Purge(s, now), now) == PacketIds.Purge(s, now)
    decreases |s.queue|
  {
    if s.queue == [] || s.queue[0].expiry > now {
    } else {
      PurgeTwice(s.(queue := s.queue[1..], ids := s.ids - {s.queue[0].id}), now);
    }
  }

  lemma StillNotGrantable(h: PacketIds.History, source: string, draws: seq<PacketIds.PacketId>, now: real)
    requires forall d <- draws :: !PacketIds.Grantable(h.shelf, d, now)
    ensures var next := PacketIds.Apply(h, PacketIds.DrawOp(source, source, None, now));
            forall d <- draws :: !PacketIds.Grantable(next.shelf, d, now)
  {
    PurgeTwice(h.shelf, now);
  }

  lemma KeysAreNew(ms: seq<Message>, source: string, used: seq<PacketIds.Grant>, id: int)
    requires forall i :: 0 <= i < |ms| && ms[i].source == source ==> Issued(used, ms[i].packetId)
    requires !Issued(used, id)
    ensures forall i :: 0 <= i < |ms| ==> KeyOf(ms[i]) != (source, id)
  {}

  /** Allocates an identifier that no message of this source has yet. */
  method Allocate(pool: PacketIds.PacketIdPool, source: string, turn: Turn, ghost ms: seq<Message>)
    returns (id: Option<PacketIds.PacketId>)
    requires pool.Valid() && pool.clock <= turn.now && AllIssued(pool, ms)
    modifies pool
    ensures pool.Valid() && pool.clock == turn.now && AllIssued(pool, ms)
    ensures id.Some? ==> Issued(pool.HistoryOf(source).shelf.used, id.value)
    ensures id.Some? ==> forall i :: 0 <= i < |ms| ==> KeyOf(ms[i]) != (source, id.value)
    ensures id.None? ==> Stuck(pool, source, turn)
  {
    hide PacketIds.PacketIdPool.Valid, PacketIds.Apply, PacketIds.DrawOp, Issued, PacketIds.DrawsFirst;
    hide PacketIds.Grantable;
    var now := turn.now;
    ghost var h := pool.HistoryOf(source);
    assert forall i :: 0 <= i < |ms| && ms[i].source == source ==> Issued(h.shelf.used, ms[i].packetId);
    id := pool.AllocatePacketId(source, turn.draws, now);
    PacketIds.TakenIsGrantable(h.shelf, turn.draws, id, now);
    if id.Some? {
      GrantableIsNotIssued(h.shelf, id.value, now);
      KeysAreNew(ms, source, h.shelf.used, id.value);
      DrawGrows(h, source, source, id, now);
      IssuedStays(h.shelf.used, PacketIds.Grant(id.value, now), id.value);
    } else {
      StillNotGrantable(h, source, turn.draws, now);
    }
    forall i | 0 <= i < |ms| ensures Issued(pool.HistoryOf(ms[i].source).shelf.used, ms[i].packetId) {
      DrawGrows(old(pool.HistoryOf(ms[i].source)), ms[i].source, source, id, now);
      if id.Some? {
        IssuedStays(old(pool.HistoryOf(ms[i].source)).shelf.used, PacketIds.Grant(id.value, now), ms[i].packetId);
      }
    }
  }

  // ---------- generation ----------

  /** The request names a node for the tick's cadence. */
  predicate Named(names: seq<seq<string>>, t: Schedule.Tick) {
    t.flow < |names| && t.source < |names[t.flow]|
  }

  function NodeOf(names: seq<seq<string>>, t: Schedule.Tick): string
    requires Named(names, t)
  {
    names[t.flow][t.source]
  }

  /** The request names a node of the run for every cadence. */
  ghost predicate NamesFit(cfg: Config, p: Schedule.Plan, names: seq<seq<string>>) {
    forall t :: Schedule.Planned(p, t) ==> Named(names, t) && names[t.flow][t.source] in cfg.nodes
  }

  ghost predicate TurnsFit(cfg: Config, turns: seq<Turn>, now: real) {
    && (forall i :: 0 <= i < |turns| ==> now <= turns[i].now && AllObservable(cfg, turns[i].meanwhile))
    && (forall i :: 0 <= i < |turns| && cfg.kind == DirectText ==> turns[i].destination in cfg.nodes)
    && (forall i, j :: 0 <= i < j < |turns| ==> turns[i].now <= turns[j].now)
  }

  /** Messages are numbered from 1, and each comes from the node that the request names for its tick. */
  ghost predicate FollowsSchedule(ms: seq<Message>, names: seq<seq<string>>, order: seq<Schedule.Tick>) {
    && |ms| <= |order|
    && forall i :: 0 <= i < |ms| ==>
        && ms[i].sequence == i + 1
        && order[i].flow < |names| && order[i].source < |names[order[i].flow]|
        && ms[i].source == names[order[i].flow][order[i].source]
  }

  /** The turn got stuck on the node that the request names for the tick. */
  ghost predicate StuckAt(pool: PacketIds.PacketIdPool, names: seq<seq<string>>, t: Schedule.Tick, turn: Turn)
    reads pool
  {
    && t.flow < |names| && t.source < |names[t.flow]|
    && Stuck(pool, names[t.flow][t.source], turn)
  }

  lemma IsStuckAt(pool: PacketIds.PacketIdPool, names: seq<seq<string>>, t: Schedule.Tick, turn: Turn)
    requires Named(names, t) && Stuck(pool, NodeOf(names, t), turn)
    ensures StuckAt(pool, names, t, turn)
  {}

  lemma ShrinksReads(r: Run, s: Run)
    requires Shrinks(r, s)
    ensures |s.messages| == |r.messages|
    ensures forall i :: 0 <= i < |r.messages| ==> KeyOf(s.messages[i]) == KeyOf(r.messages[i])
  {}

  lemma SameKeysAreIssued(pool: PacketIds.PacketIdPool, a: seq<Message>, b: seq<Message>)
    requires AllIssued(pool, a) && |b| == |a| && forall i :: 0 <= i < |a| ==> KeyOf(b[i]) == KeyOf(a[i])
    ensures AllIssued(pool, b)
  {}

  lemma AddIssued(pool: PacketIds.PacketIdPool, ms: seq<Message>, m: Message)
    requires AllIssued(pool, ms) && Issued(pool.HistoryOf(m.source).shelf.used, m.packetId)
    ensures AllIssued(pool, ms + [m])
  {}

  /** A submission is a step that appends one message under its own key. */
  lemma SubmitAdds(r: Run, e: Event)
    requires Consistent(r) && e.Submit? && r.phase == Generating && e.source in r.cfg.nodes
    requires r.cfg.kind == DirectText ==> e.destination in r.cfg.nodes
    requires forall i :: 0 <= i < |r.messages| ==> KeyOf(r.messages[i]) != (e.source, e.packetId)
    ensures Enabled(r, e) && Legal(r, [e]) && After(r, [e]) == Step(r, e)
    ensures Step(r, e) == OnSubmit(r, e.source, e.destination, e.packetId, e.length, e.gatewayError, e.now)
    ensures var next := Step(r, e);
            && next.cfg == r.cfg && next.phase == r.phase && |next.messages| == |r.messages| + 1
            && next.messages == r.messages + [next.messages[|r.messages|]]
            && KeyOf(next.messages[|r.messages|]) == (e.source, e.packetId)
  {
    OneStep(r, e);
    hide Consistent;
    var n := |r.messages|;
    assert Step(r, e).messages[..n] == r.messages;
  }

  /** One turn of the loop; None when none of the draws could be granted. */
  method Turnover(c: TrafficController, pool: PacketIds.PacketIdPool, source: string, size: nat, turn: Turn)
    returns (submitted: bool, ghost events: seq<Event>)
    requires c.Valid() && c.phase == Generating && source in c.cfg.nodes
    requires c.cfg.kind == DirectText ==> turn.destination in c.cfg.nodes
    requires AllObservable(c.cfg, turn.meanwhile)
    requires Identifier.PayloadFor(c.cfg.runId, |c.generatedMessages| + 1, size).Ok?
    requires pool.Valid() && pool.clock <= turn.now && AllIssued(pool, c.generatedMessages)
    modifies c, pool
    ensures c.Valid() && c.phase == Generating && c.cfg == old(c.cfg)
    ensures pool.Valid() && pool.clock == turn.now && AllIssued(pool, c.generatedMessages)
    ensures Ran(old(c.Records()), events, c.Records())
    ensures |c.generatedMessages| == |old(c.generatedMessages)| + if submitted then 1 else 0
    ensures forall i :: 0 <= i < |old(c.generatedMessages)| ==>
              KeyOf(c.generatedMessages[i]) == KeyOf(old(c.generatedMessages)[i])
    ensures submitted ==> c.generatedMessages[|old(c.generatedMessages)|].source == source
    ensures !submitted ==> Stuck(pool, source, turn)
  {
    hide TrafficController.Valid, TrafficController.Records, PacketIds.PacketIdPool.Valid, AllIssued, AllObservable;
    hide Consistent, Legal, After, Step, Enabled, OnSubmit, Shrinks, Stuck, Identifier.PayloadFor;
    ghost var start := c.Records();
    c.RecordsAreConsistent();
    ObservableIsLegal(start, turn.meanwhile);
    c.HandleAll(turn.meanwhile);
    c.RecordsAreConsistent();
    ghost var handled := c.Records();
    ShrinksReads(start, handled);
    SameKeysAreIssued(pool, start.messages, handled.messages);
    events := turn.meanwhile;
    var id := Allocate(pool, source, turn, c.generatedMessages);
    if id.None? {
      return false, events;
    }
    var payload := Identifier.PayloadFor(c.cfg.runId, |c.generatedMessages| + 1, size);
    assert payload.Ok?;
    c.Submit(source, turn.destination, id.value, turn.length, turn.gatewayError, turn.now);
    c.RecordsAreConsistent();
    ghost var e := Event.Submit(source, turn.destination, id.value, turn.length, turn.gatewayError, turn.now);
    SubmitAdds(handled, e);
    AddIssued(pool, handled.messages, c.generatedMessages[|handled.messages|]);
    RunsJoin(start, events, [e]);
    events := events + [e];
    return true, events;
  }

  lemma SequencesCount(r: Run)
    requires Consistent(r)
    ensures forall i :: 0 <= i < |r.messages| ==> r.messages[i].sequence == i + 1
  {}

  /**
     The scheduling loop, over the order it submits in. Every payload fits, every identifier
     is new for its source, and the records are those of a legal run; it goes through all
     ticks unless no draw of a turn can be granted, where the source would go on drawing.
   */
  method Generate(c: TrafficController, pool: PacketIds.PacketIdPool, p: Schedule.Plan, order: seq<Schedule.Tick>,
                  names: seq<seq<string>>, size: nat, turns: seq<Turn>)
    returns (generated: nat, ghost events: seq<Event>)
    requires c.Valid() && c.phase == Generating && c.generatedMessages == []
    requires pool.Valid() && TurnsFit(c.cfg, turns, pool.clock) && |turns| == |order|
    requires Schedule.ValidPlan(p) && (forall t :: t in order <==> Schedule.Planned(p, t)) && Schedule.Sorted(p, order)
    requires NamesFit(c.cfg, p, names)
    requires Identifier.Admit(c.cfg.runId, Schedule.MaximumSequence(p, |p.cadences|), size).Ok?
    modifies c, pool
    ensures c.Valid() && c.phase == Generating && c.cfg == old(c.cfg) && pool.Valid()
    ensures Ran(old(c.Records()), events, c.Records())
    ensures generated == |c.generatedMessages| && FollowsSchedule(c.generatedMessages, names, order)
    ensures generated < |order| ==> StuckAt(pool, names, order[generated], turns[generated])
  {
    c.RecordsAreConsistent();
    Identifier.AdmittedRunsFit(p, order, c.cfg.runId, size);
    TicksHaveNames(c.cfg, p, order, names);
    TurnsComeInTime(c.cfg, turns, pool.clock);
    RanNothing(c.Records());
    hide TrafficController.Valid, TrafficController.Records, PacketIds.PacketIdPool.Valid, AllIssued, TurnsFit,
        NamesFit;
    hide Consistent, Ran, Identifier.PayloadFor, Identifier.Admit, Stuck, StuckAt, Named, NodeOf, AllObservable;
    hide FollowsSchedule, KeyOf, Schedule.Planned, Schedule.Sorted, Schedule.ValidPlan, Schedule.MaximumSequence;
    ghost var start := c.Records();
    NothingIssued(pool);
    NothingFollows(names, order);
    events := [];
    for i := 0 to |order|
      invariant c.Valid() && c.phase == Generating && c.cfg == old(c.cfg) && |c.generatedMessages| == i
      invariant pool.Valid() && AllIssued(pool, c.generatedMessages) && (i < |order| ==> pool.clock <= turns[i].now)
      invariant Ran(start, events, c.Records())
      invariant FollowsSchedule(c.generatedMessages, names, order)
    {
      c.RecordsAreConsistent();
      ghost var before, reached := c.generatedMessages, c.Records();
      var source := NodeOf(names, order[i]);
      var submitted, more := Turnover(c, pool, source, size, turns[i]);
      c.RecordsAreConsistent();
      RanOn(start, events, reached, more, c.Records());
      events := events + more;
      FollowsFurther(before, c.Records(), names, order);
      if !submitted {
        IsStuckAt(pool, names, order[i], turns[i]);
        return i, events;
      }
    }
    return |order|, events;
  }

  /** A turn keeps the schedule, and the message it adds has the next tick's source. */
  lemma FollowsFurther(before: seq<Message>, r: Run, names: seq<seq<string>>, order: seq<Schedule.Tick>)
    requires FollowsSchedule(before, names, order) && Consistent(r) && |before| < |order|
    requires |before| <= |r.messages| <= |before| + 1
    requires forall i :: 0 <= i < |before| ==> KeyOf(r.messages[i]) == KeyOf(before[i])
    requires var t := order[|before|];
             Named(names, t) && (|r.messages| > |before| ==> r.messages[|before|].source == NodeOf(names, t))
    ensures FollowsSchedule(r.messages, names, order)
  {
    SequencesCount(r);
    hide Consistent;
    forall i | 0 <= i < |r.messages|
      ensures Named(names, order[i]) && r.messages[i].source == names[order[i].flow][order[i].source]
    {
      assert i < |before| ==> KeyOf(r.messages[i]) == KeyOf(before[i]);
    }
  }

  lemma NothingFollows(names: seq<seq<string>>, order: seq<Schedule.Tick>)
    ensures FollowsSchedule([], names, order)
  {}

  lemma TicksHaveNames(cfg: Config, p: Schedule.Plan, order: seq<Schedule.Tick>, names: seq<seq<string>>)
    requires NamesFit(cfg, p, names) && forall t :: t in order <==> Schedule.Planned(p, t)
    ensures forall i :: 0 <= i < |order| ==> Named(names, order[i]) && NodeOf(names, order[i]) in cfg.nodes
  {
    forall i | 0 <= i < |order| ensures Named(names, order[i]) && NodeOf(names, order[i]) in cfg.nodes {
      assert order[i] in order;
    }
  }

  lemma TurnsComeInTime(cfg: Config, turns: seq<Turn>, now: real)
    requires TurnsFit(cfg, turns, now)
    ensures turns != [] ==> now <= turns[0].now
    ensures forall i :: 0 <= i < |turns| ==> AllObservable(cfg, turns[i].meanwhile)
    ensures forall i :: 0 <= i < |turns| && cfg.kind == DirectText ==> turns[i].destination in cfg.nodes
    ensures forall i, j :: 0 <= i < j < |turns| ==> turns[i].now <= turns[j].now
  {}

  lemma NothingIssued(pool: PacketIds.PacketIdPool)
    ensures AllIssued(pool, [])
  {}

  // ---------- from schedule to frozen result ----------

  /** Recorded messages keep their schedule while only handlers and finalization are left. */
  lemma SameKeysFollow(a: Run, b: Run, names: seq<seq<string>>, order: seq<Schedule.Tick>)
    requires FollowsSchedule(a.messages, names, order) && Consistent(b) && Shrinks(a, b)
    ensures FollowsSchedule(b.messages, names, order)
  {
    SequencesCount(b);
    forall i | 0 <= i < |b.messages| ensures b.messages[i].source == names[order[i].flow][order[i].source] {
      assert KeyOf(b.messages[i]) == KeyOf(a.messages[i]);
    }
  }

  lemma {:induction false} EventsAreObservable(cfg: Config, wakes: seq<Wake>)
    requires forall w <- wakes :: AllObservable(cfg, w.events)
    ensures AllObservable(cfg, EventsOf(wakes))
  {
    if wakes == [] {
    } else {
      EventsAreObservable(cfg, wakes[..|wakes| - 1]);
    }
  }

  lemma TimeoutShrinks(r: Run, now: real)
    requires Consistent(r)
    ensures Shrinks(r, OnAdmissionTimeout(r, now)) && Consistent(OnAdmissionTimeout(r, now))
    ensures OnAdmissionTimeout(r, now).cfg == r.cfg && OnAdmissionTimeout(r, now).phase == r.phase
  {
    TimeoutKeepsConsistent(r, now);
  }

  lemma StartsKeyed(r: Run)
    requires r.messages == [] && r.pending == map[]
    ensures Keyed(r.messages, r.pending)
  {}

  /** The drain as further steps of the run: the events of its wakes, and the timeout if it ended by that. */
  method DrainRun(c: TrafficController, wakes: seq<Wake>, start: real) returns (end: real, ghost events: seq<Event>)
    requires c.Valid() && c.phase == Draining
    requires InTime(wakes, start) && forall w <- wakes :: AllObservable(c.cfg, w.events)
    modifies c
    ensures c.Valid() && c.phase == Draining && c.cfg == old(c.cfg) && c.pendingSubmissions == map[] && start <= end
    ensures Ran(old(c.Records()), events, c.Records())
    ensures Shrinks(old(c.Records()), c.Records())
  {
    c.RecordsAreConsistent();
    ghost var before := c.Records();
    ObservableWakesAreLegal(before, wakes, start);
    hide TrafficController.Valid, TrafficController.Records, Consistent, Legal, After, Shrinks, Settled, AllObservable;
    hide WakesLegal, EventsOf, OnAdmissionTimeout, Step, Enabled;
    var settled;
    ghost var taken;
    settled, end, taken := c.Drain(wakes, start);
    events := EventsOf(wakes[..taken]);
    EventsAreObservable(before.cfg, wakes[..taken]);
    ObservableIsLegal(before, events);
    ghost var handled := After(before, events);
    if !settled {
      TimeoutShrinks(handled, end);
      ShrinksOnce(before, handled, c.Records());
      TimeoutIsAStep(handled, end);
      RunsJoin(before, events, [AdmissionTimeout(end)]);
      events := events + [AdmissionTimeout(end)];
    }
    c.RecordsAreConsistent();
  }

  lemma TimeoutIsAStep(r: Run, now: real)
    requires Consistent(r) && r.phase == Draining
    ensures Legal(r, [AdmissionTimeout(now)]) && After(r, [AdmissionTimeout(now)]) == OnAdmissionTimeout(r, now)
  {
    OneStep(r, AdmissionTimeout(now));
  }

  lemma RanKeepsKeyed(r: Run, events: seq<Event>, s: Run)
    requires Consistent(r) && Ran(r, events, s) && Keyed(r.messages, r.pending)
    ensures Keyed(s.messages, s.pending)
  {
    RunsKeepKeyed(r, events);
  }

  /** What is closed is what finishes: the result reports the schedule's messages, all of them. */
  lemma FinishedFollows(closing: Run, at: real, result: RunResult, names: seq<seq<string>>, order: seq<Schedule.Tick>)
    requires Consistent(closing) && FollowsSchedule(closing.messages, names, order)
    requires var end := OnAdmissionTimeout(closing.(phase := Finalizing), at);
             result == ResultOf(end.(phase := Terminal, state := result.state), result.state)
    ensures result.requested == |closing.messages| && FollowsSchedule(result.messages, names, order)
  {
    hide FollowsSchedule, Consistent, Recount;
    var finalizing := closing.(phase := Finalizing);
    PhaseKeepsConsistent(closing, closing.state, Finalizing);
    TimeoutShrinks(finalizing, at);
    SameKeysFollow(finalizing, OnAdmissionTimeout(finalizing, at), names, order);
    ShrinksReads(finalizing, OnAdmissionTimeout(finalizing, at));
  }

  lemma DrainBegins(r: Run)
    requires Consistent(r) && r.phase == Generating
    ensures Ran(r, [BeginDrain], r.(phase := Draining))
  {
    OneStep(r, BeginDrain);
  }

  /** The samples taken between the drain and the end of the run. */
  method HandleSamples(c: TrafficController, samples: seq<Event>)
    requires c.Valid() && c.phase == Draining && AllObservable(c.cfg, samples)
    modifies c
    ensures c.Valid() && c.phase == Draining && c.cfg == old(c.cfg) && Consistent(c.Records())
    ensures Ran(old(c.Records()), samples, c.Records())
    ensures Shrinks(old(c.Records()), c.Records())
  {
    c.RecordsAreConsistent();
    hide TrafficController.Valid, TrafficController.Records, Consistent, Legal, After, Shrinks;
    ObservableIsLegal(c.Records(), samples);
    c.HandleAll(samples);
    c.RecordsAreConsistent();
  }

  /**
     Generation, drain and the samples after it; the run is then ready to be finished. None
     when generation got stuck on a turn without a draw that could be granted.
   */
  method RunToEnd(c: TrafficController, pool: PacketIds.PacketIdPool, p: Schedule.Plan, order: seq<Schedule.Tick>,
                  names: seq<seq<string>>, size: nat, turns: seq<Turn>,
                  wakes: seq<Wake>, drainStart: real, samples: seq<Event>)
    returns (complete: bool, ghost events: seq<Event>)
    requires c.Valid() && c.phase == Generating && c.generatedMessages == []
    requires pool.Valid() && TurnsFit(c.cfg, turns, pool.clock) && |turns| == |order|
    requires Schedule.ValidPlan(p) && (forall t :: t in order <==> Schedule.Planned(p, t)) && Schedule.Sorted(p, order)
    requires NamesFit(c.cfg, p, names)
    requires Identifier.Admit(c.cfg.runId, Schedule.MaximumSequence(p, |p.cadences|), size).Ok?
    requires InTime(wakes, drainStart) && (forall w <- wakes :: AllObservable(c.cfg, w.events))
    requires AllObservable(c.cfg, samples)
    modifies c, pool
    ensures c.Valid() && c.cfg == old(c.cfg) && Consistent(c.Records())
    ensures Ran(old(c.Records()), events, c.Records())
    ensures FollowsSchedule(c.Records().messages, names, order)
    ensures complete <==> |c.Records().messages| == |order|
    ensures complete ==> c.phase == Draining
    ensures !complete ==>
              var k := |c.Records().messages|;
              k < |order| && StuckAt(pool, names, order[k], turns[k])
  {
    c.RecordsAreConsistent();
    hide TrafficController.Valid, TrafficController.Records, Consistent, Ran, Shrinks, AllObservable;
    hide PacketIds.PacketIdPool.Valid, FollowsSchedule, NamesFit, TurnsFit, Identifier.Admit, Stuck, StuckAt;
    ghost var start := c.Records();
    var generated;
    generated, events := Generate(c, pool, p, order, names, size, turns);
    c.RecordsAreConsistent();
    ghost var made := c.Records();
    AllGenerated(made.messages, names, order);
    if generated < |order| {
      return false, events;
    }
    DrainBegins(made);
    c.EnterState(c.state, Draining);
    c.RecordsAreConsistent();
    ghost var draining := c.Records();
    RanOn(start, events, made, [BeginDrain], draining);
    events := events + [BeginDrain];
    var end, drained := DrainRun(c, wakes, drainStart);
    c.RecordsAreConsistent();
    ghost var quiet := c.Records();
    RanOn(start, events, draining, drained, quiet);
    events := events + drained;
    HandleSamples(c, samples);
    RanOn(start, events, quiet, samples, c.Records());
    events := events + samples;
    ShrinksOnce(draining, quiet, c.Records());
    ShrinksReads(draining, c.Records());
    SameKeysFollow(draining, c.Records(), names, order);
    return true, events;
  }

  lemma AllGenerated(ms: seq<Message>, names: seq<seq<string>>, order: seq<Schedule.Tick>)
    requires FollowsSchedule(ms, names, order)
    ensures |ms| <= |order|
  {}

  /**
     A traffic run from its plan to its frozen result. Whatever the environment reports, an
     admitted run that is not stuck requests exactly the messages of its schedule, in order;
     its records are those of a legal run; and its counts add up if and only if no message
     was orphaned.
   */
  method RunTraffic(c: TrafficController, pool: PacketIds.PacketIdPool, p: Schedule.Plan, names: seq<seq<string>>,
                    size: nat, turns: seq<Turn>, wakes: seq<Wake>, drainStart: real, samples: seq<Event>,
                    persisted: bool, at: real)
    returns (result: Option<RunResult>, ghost order: seq<Schedule.Tick>, ghost events: seq<Event>, ghost closing: Run)
    requires c.Valid() && c.phase == Generating && c.generatedMessages == [] && c.pendingSubmissions == map[]
    requires pool.Valid() && TurnsFit(c.cfg, turns, pool.clock)
    requires Schedule.ValidPlan(p) && |turns| == Schedule.MaximumSequence(p, |p.cadences|)
    requires NamesFit(c.cfg, p, names)
    requires Identifier.Admit(c.cfg.runId, Schedule.MaximumSequence(p, |p.cadences|), size).Ok?
    requires InTime(wakes, drainStart) && (forall w <- wakes :: AllObservable(c.cfg, w.events))
    requires AllObservable(c.cfg, samples)
    modifies c, pool
    ensures c.Valid() && |order| == Schedule.MaximumSequence(p, |p.cadences|)
    ensures forall t :: t in order <==>
              t.flow < |p.cadences| && t.source < |p.cadences[t.flow]| && t.tick < p.messages[t.flow]
    ensures Schedule.Chronological(p, order)
    ensures Ran(old(c.Records()), events, closing)
    ensures result.Some? ==>
              && result.value.state == (if persisted then Completed else RunState.Failed)
              && result.value.requested == Schedule.MaximumSequence(p, |p.cadences|)
              && FollowsSchedule(result.value.messages, names, order)
              && (result.value.requested == result.value.submitted + result.value.submissionFailed <==>
                  !HasOrphan(closing))
    ensures result.None? ==>
              var k := |closing.messages|;
              k < |turns| == |order| && StuckAt(pool, names, order[k], turns[k])
  {
    c.RecordsAreConsistent();
    StartsKeyed(c.Records());
    hide TrafficController.Valid, TrafficController.Records, Consistent, Ran, AllObservable, Keyed, HasOrphan;
    hide PacketIds.PacketIdPool.Valid, FollowsSchedule, NamesFit, TurnsFit, Identifier.Admit, OnAdmissionTimeout;
    hide Stuck, StuckAt, Schedule.Chronological, Schedule.Sorted, Schedule.Planned;
    ghost var start := c.Records();
    var schedule := Schedule.MergedSchedule(p);
    Schedule.ScheduleIsPermutation(p, schedule);
    order := schedule;
    var complete;
    complete, events := RunToEnd(c, pool, p, schedule, names, size, turns, wakes, drainStart, samples);
    closing := c.Records();
    if !complete {
      return None, order, events, closing;
    }
    RanKeepsKeyed(start, events, closing);
    var finished := c.Finish(Completed, persisted, at);
    FinishedFollows(closing, at, finished, names, order);
    return Some(finished), order, events, closing;
  }
}
