/**
 One WebSocket connection to the event stream: subscribe, replay retained history after
 the client's cursor, then forward subscription events with a duplicate filter.

 Subscribing and taking the history page happen without a suspension in between, so
 they are one step here; publishing and clearing by the rest of the program may come
 between any two later steps.
 */
module Replay {
  import opened Events
  import opened Sequences
  import opened Wrappers

  const REPLAY_LIMIT: nat := 5000

  datatype Step = Publish(body: Body) | Clear(newStreamId: string) | Forward(waited: bool)

  /** Within one stream, numbered events go out in strictly increasing order. */
  ghost predicate Increasing(sent: seq<Event>) {
    forall i, j | 0 <= i < j < |sent| ::
      0 < sent[i].sequence && 0 < sent[j].sequence && sent[i].streamId == sent[j].streamId
      ==> sent[i].sequence < sent[j].sequence
  }

  /** Numbered events go out in order, and those of stream `streamId` not beyond `sequence`. */
  ghost predicate InOrder(sent: seq<Event>, streamId: string, sequence: nat) {
    && Increasing(sent)
    && forall e <- sent :: e.streamId == streamId ==> e.sequence <= sequence
  }

  lemma SendKeepsOrder(sent: seq<Event>, streamId: string, sequence: nat, e: Event)
    requires InOrder(sent, streamId, sequence)
    requires e.streamId == streamId ==> e.sequence == 0 || e.sequence > sequence
    requires e.streamId != streamId ==> forall x <- sent :: x.streamId != e.streamId
    ensures var reached := if e.streamId == streamId then sequence else 0;
            InOrder(sent + [e], e.streamId, if e.sequence > reached then e.sequence else reached)
  {}

  function Notices(page: HistoryPage): seq<Event> {
    if page.streamChanged then [Event(page.streamId, 0, StreamReset)]
    else if page.historyGap && page.firstAvailableSequence.Some?
    then [Event(page.streamId, 0, HistoryGap(page.firstAvailableSequence.value))]
    else []
  }

  class EventStream {
    const broker: EventBroker
    const subscription: EventSubscription
    var sentStreamId: string
    var sentSequence: nat
    var sent: seq<Event>

    /** The client's cursor, the stream at that moment and the page replayed from it. */
    ghost const cursor: nat
    ghost const requested: Option<string>
    ghost const seen: seq<Event>
    ghost const seenHistory: seq<Event>
    ghost const page: HistoryPage

    ghost predicate Valid()
      reads this, broker, broker.subscribers, subscription
    {
      && Opened()
      && broker.Valid()
      && subscription in broker.subscribers
      && Ordered()
      && sent == Opening() + subscription.heardBefore + Heard(subscription.log)
      && (sentStreamId == subscription.streamId ==>
            |subscription.header| <= |Items(subscription.log)| && sentSequence <= Position())
      && (subscription.header == [] ==>
            && seen <= broker.all && subscription.since == |seen| && subscription.heardBefore == [])
    }

    /** What was sent on connecting: notices, then the replayed page. */
    ghost function Opening(): seq<Event> {
      Notices(page) + page.events
    }

    ghost predicate Opened() {
      && Numbered(seen, page.streamId)
      && Retains(seenHistory, seen, broker.historySize)
      && page == PageOf(seenHistory, |seen|, page.streamId, cursor, REPLAY_LIMIT, requested)
    }

    ghost predicate Ordered()
      reads this, broker, subscription
    {
      && InOrder(sent, sentStreamId, sentSequence)
      && sentStreamId in broker.usedStreams
      && (forall e <- sent :: e.streamId in broker.usedStreams)
      && (sentStreamId != subscription.streamId ==> forall e <- sent :: e.streamId != subscription.streamId)
    }

    constructor (broker: EventBroker, cursor: nat, requested: Option<string>)
      requires broker.Valid()
      modifies broker`subscribers
      ensures Valid() && this.broker == broker && this.cursor == cursor && fresh(subscription)
      ensures broker.subscribers == old(broker.subscribers) + {subscription}
      ensures seen == broker.all && seenHistory == broker.history && subscription.header == []
      ensures page == broker.Page(cursor, REPLAY_LIMIT, requested)
      ensures sent == FirstSent(broker.all, broker.streamId, |broker.history|, cursor,
                                requested.Some? && requested.value != broker.streamId)
    {
      hide Increasing, Numbered, Retains, InOrder, Notices, After, NoticesProper, LostItems, Announced, EndsWithNotice;
      this.broker := broker;
      this.cursor := cursor;
      var s := broker.Subscribe();
      subscription := s;
      var history := broker.Page(cursor, REPLAY_LIMIT, requested);
      page := history;
      this.requested := requested;
      seen := broker.all;
      seenHistory := broker.history;
      sent := Notices(history) + history.events;
      sentStreamId := history.streamId;
      sentSequence := history.latestSequence;
      new;
      assert Heard(subscription.log) == [] && sent == sent + [] + [];
      OpeningIsOrdered(broker.history, broker.all, broker.streamId, broker.historySize, cursor, requested);
      OpeningExactly(broker.history, broker.all, broker.streamId, broker.historySize, cursor, requested);
    }

    /** The oldest queued item is the next one of the stream the subscription follows. */
    lemma QueueContinuesStream()
      requires broker.Valid() && subscription in broker.subscribers && subscription.queue != []
      ensures var e, consumed, header :=
                subscription.queue[0], |Items(subscription.log)|, |subscription.header|;
              && e.streamId == broker.streamId
              && e.sequence == if consumed < header then 0 else subscription.since + consumed - header + 1
    {
      var consumed := |Items(subscription.log)|;
      assert subscription.published[consumed] == subscription.queue[0];
      assert broker.Follows(subscription);
    }

    /** What the subscription hands over: a notice, or the next number of the current stream. */
    method TakeNext(waited: bool) returns (event: Option<Event>)
      requires broker.Valid() && subscription in broker.subscribers
      modifies subscription`queue, subscription`dropped, subscription`deliveredDropNoticeLast, subscription`log
      ensures broker.Valid()
      ensures event.None? ==>
                subscription.log == old(subscription.log) && subscription.queue == old(subscription.queue) == []
      ensures event.None? && !waited ==> subscription.dropped == 0
      ensures event.Some? ==>
                && Heard(subscription.log) == old(Heard(subscription.log)) + [event.value]
                && event.value.streamId == subscription.streamId && subscription.streamId in broker.usedStreams
                && |subscription.header| <= |Items(subscription.log)|
                && Position() >= old(Position())
                && (event.value.sequence == 0 || event.value.sequence == Position() > old(Position()))
    {
      if subscription.queue != [] {
        QueueContinuesStream();
      }
      ItemsByKind(subscription.log);
      assert broker.Follows(subscription);
      event := subscription.Next(waited);
    }

    /** How far into the stream the subscription's log reaches. */
    ghost function Position(): int
      reads subscription
    {
      subscription.since + |Items(subscription.log)| - |subscription.header|
    }

    /** One turn of the forwarding loop. Its duplicate filter never has anything to filter. */
    method ForwardNext(waited: bool) returns (event: Option<Event>)
      requires Valid()
      modifies this`sent, this`sentSequence, this`sentStreamId
      modifies subscription`queue, subscription`dropped, subscription`deliveredDropNoticeLast, subscription`log
      ensures Valid()
      ensures sent == if event.Some? then old(sent) + [event.value] else old(sent)
      ensures event.None? ==>
                subscription.queue == old(subscription.queue) == [] && (!waited ==> subscription.dropped == 0)
    {
      hide Heard, Items, LostItems, Announced, NoticesProper, EndsWithNotice, Increasing, Numbered, Retains, PageOf,
          InOrder, Notices, Opened, EventBroker.Valid, EventSubscription.Valid;
      ghost var heard := Heard(subscription.log);
      event := TakeNext(waited);
      if event.None? {
        return;
      }
      var e := event.value;
      if e.streamId != sentStreamId {
        sentStreamId := e.streamId;
        sentSequence := 0;
      }
      if e.sequence > 0 && e.sequence <= sentSequence {
        assert false;
        return;
      }
      SendKeepsOrder(sent, old(sentStreamId), old(sentSequence), e);
      Associate(Opening() + subscription.heardBefore, heard, [e]);
      sent := sent + [e];
      sentSequence := if e.sequence > sentSequence then e.sequence else sentSequence;
    }

    method PublishElsewhere(body: Body)
      requires Valid()
      modifies broker, broker.subscribers
      ensures Valid() && broker.subscribers == old(broker.subscribers) && broker.usedStreams == old(broker.usedStreams)
      ensures sent == old(sent) && broker.streamId == old(broker.streamId)
      ensures broker.all == old(broker.all) + [Event(broker.streamId, |old(broker.all)| + 1, body)]
    {
      hide Heard, Items, LostItems, Announced, NoticesProper, EndsWithNotice, Increasing, Numbered, Retains, PageOf,
          InOrder, Notices, Opened;
      var _ := broker.Publish(body);
    }

    method ClearElsewhere(newStreamId: string)
      requires Valid() && newStreamId !in broker.usedStreams
      modifies broker, broker.subscribers
      ensures Valid() && broker.subscribers == old(broker.subscribers)
      ensures broker.usedStreams == old(broker.usedStreams) + {newStreamId}
      ensures sent == old(sent) && broker.streamId == newStreamId && broker.all == []
    {
      hide Items, LostItems, Announced, NoticesProper, EndsWithNotice, Increasing, Numbered, Retains, PageOf,
          InOrder, Notices, Opened;
      Associate(Opening(), subscription.heardBefore, Heard(subscription.log));
      broker.Clear(newStreamId);
      assert Heard(subscription.log) == [] && sent == Opening() + subscription.heardBefore;
    }

    lemma IsSubscribed()
      requires Valid()
      ensures subscription in broker.subscribers
    {}

    /** What one turn of this connection, or of the rest of the program, does. */
    twostate predicate Took(step: Step)
      reads this, broker, subscription
    {
      match step
      case Publish(body) =>
        && sent == old(sent) && broker.streamId == old(broker.streamId)
        && broker.all == old(broker.all) + [Event(broker.streamId, |old(broker.all)| + 1, body)]
      case Clear(newStreamId) => sent == old(sent) && broker.streamId == newStreamId && broker.all == []
      case Forward(_) =>
        && broker.streamId == old(broker.streamId) && broker.all == old(broker.all)
        && old(sent) <= sent && (old(subscription.queue) != [] ==> |sent| == |old(sent)| + 1)
    }

    /** One turn of this connection, or of the rest of the program. */
    method TakeStep(step: Step)
      requires Valid() && (step.Clear? ==> step.newStreamId !in broker.usedStreams)
      modifies this, broker, broker.subscribers
      ensures Valid() && broker.subscribers == old(broker.subscribers) && Took(step)
      ensures broker.usedStreams
           == if step.Clear? then old(broker.usedStreams) + {step.newStreamId} else old(broker.usedStreams)
      ensures old(sent) <= sent
    {
      hide Valid;
      IsSubscribed();
      match step
      case Publish(body) =>
        PublishElsewhere(body);
      case Clear(newStreamId) =>
        ClearElsewhere(newStreamId);
      case Forward(waited) =>
        var _ := ForwardNext(waited);
    }

    /** The connection's own turns and everyone else's publishing and clearing, in any order. */
    method Drive(steps: seq<Step>)
      requires Valid()
      requires forall i, j :: 0 <= i < j < |steps| && steps[i].Clear? ==> steps[i] != steps[j]
      requires forall i :: 0 <= i < |steps| && steps[i].Clear? ==> steps[i].newStreamId !in broker.usedStreams
      modifies this, broker, broker.subscribers
      ensures Valid() && Increasing(sent) && old(sent) <= sent
    {
      for i := 0 to |steps|
        invariant Valid() && broker.subscribers == old(broker.subscribers)
        invariant forall k :: i <= k < |steps| && steps[k].Clear? ==> steps[k].newStreamId !in broker.usedStreams
        invariant old(sent) <= sent
      {
        TakeStep(steps[i]);
      }
    }

    ghost predicate AccountedFor(e: Event)
      reads this, subscription
    {
      e in sent || e in subscription.queue || e in LostItems(subscription.log)
    }

    /** After the stream was cleared: every event of the new one was sent, is queued, or was dropped and counted. */
    lemma NothingIsMissedAfterClear()
      requires Valid() && subscription.header != []
      ensures forall e <- broker.all :: AccountedFor(e)
    {
      subscription.LossAccounting();
      assert broker.Follows(subscription);
      assert subscription.published == subscription.header + broker.all;
    }

    /** What the subscription took over, lost or still holds came after the replayed history. */
    lemma SubscriptionIsLater()
      requires Valid() && subscription.header == []
      ensures forall e <- Heard(subscription.log) :: e.sequence == 0 || e.sequence > |seen|
      ensures forall e <- LostItems(subscription.log) :: e.sequence > |seen|
      ensures forall e <- subscription.queue :: e.sequence > |seen|
    {
      assert broker.Follows(subscription);
      PublishedIsNew(broker.all, broker.streamId, |seen|);
      HeardFromItems(subscription.log, subscription.streamId);
      LostFromItems(subscription.log);
      hide Items, Heard, LostItems, PageOf, Retains, InOrder, NoticesProper;
      assert subscription.published == broker.all[|seen|..];
      assert forall x <- Items(subscription.log) :: x in subscription.published;
      assert forall x <- subscription.queue :: x in subscription.published;
    }

    lemma SentReads()
      requires Valid() && subscription.header == []
      ensures sent == Notices(page) + page.events + Heard(subscription.log)
      ensures |seen| <= |broker.all| && forall i :: 0 <= i < |broker.all| ==> broker.all[i].sequence == i + 1
    {
      assert Opening() + [] == Opening();
    }

    lemma NotReplayed(k: nat)
      requires Valid() && subscription.header == [] && k < |seen|
      requires forall e <- page.events :: e.sequence != k + 1
      ensures k < |broker.all| && !AccountedFor(broker.all[k])
    {
      SubscriptionIsLater();
      SentReads();
      hide Valid, Heard, LostItems;
      assert forall e <- Notices(page) :: e.sequence == 0;
    }

    /**
     Whatever the client was told on connecting: the retained events it asked for are those from
     its cursor on, or all of them when it named another stream. While the stream lasts, each of
     them and every later event was sent, is queued, or was dropped and counted, exactly when the
     ones retained at that moment fit one replay page.
     */
    lemma RetainedIsNotMissed()
      requires Valid() && subscription.header == []
      ensures var changed := requested.Some? && requested.value != page.streamId;
              var from := FirstAsked(|seen|, |seenHistory|, cursor, changed);
              |seen| - from <= 5000 <==> forall i :: from <= i < |broker.all| ==> AccountedFor(broker.all[i])
    {
      var changed := requested.Some? && requested.value != page.streamId;
      var from := FirstAsked(|seen|, |seenHistory|, cursor, changed);
      PageExactly(seenHistory, seen, page.streamId, broker.historySize, cursor, requested);
      if |seen| - from > 5000 {
        NotReplayed(from + 5000);
      } else {
        forall i | from <= i < |broker.all| ensures AccountedFor(broker.all[i]) {
          SentOrPublished(from, i);
        }
      }
    }

    lemma SentOrPublished(from: nat, i: nat)
      requires Valid() && subscription.header == [] && from <= |seen| && from <= i < |broker.all|
      requires page.events == seen[from..]
      ensures AccountedFor(broker.all[i])
    {
      if i < |seen| {
        assert page.events[i - from] == broker.all[i];
        assert page.events[i - from] in page.events;
      } else {
        subscription.LossAccounting();
        assert broker.Follows(subscription);
        assert broker.all[i] == subscription.published[i - |seen|];
      }
    }

    /**
     While the stream lasts and the client was told of no gap and no stream change, every
     event after its cursor was sent, is queued, or was dropped and counted; and this holds
     exactly when the history keeps anything at all and what it retained after the cursor
     fits one replay page.
     */
    lemma NothingIsMissed()
      requires Valid() && subscription.header == []
      requires !page.streamChanged && !page.historyGap && cursor > 0
      ensures (broker.historySize > 0 || |seen| <= cursor) && |After(seenHistory, cursor)| <= REPLAY_LIMIT <==>
              forall i :: cursor <= i < |broker.all| ==> AccountedFor(broker.all[i])
      ensures broker.historySize <= REPLAY_LIMIT ==> |After(seenHistory, cursor)| <= REPLAY_LIMIT
    {
      var changed := requested.Some? && requested.value != page.streamId;
      AnswerIsSuffix(seen, page.streamId, |seen| - |seenHistory|, cursor);
      RetainedIsNotMissed();
      if cursor < |seen| && broker.historySize == 0 {
        PageExactly(seenHistory, seen, page.streamId, broker.historySize, cursor, requested);
        NotReplayed(cursor);
      } else {
        NoGapMeansRetained();
        hide AccountedFor, Valid, After;
      }
    }

    /** Without a gap report the events after a positive cursor are retained, if anything is. */
    lemma NoGapMeansRetained()
      requires Opened() && !page.streamChanged && !page.historyGap && cursor > 0
      requires broker.historySize > 0 || |seen| <= cursor
      ensures FirstAsked(|seen|, |seenHistory|, cursor, requested.Some? && requested.value != page.streamId)
           == if cursor < |seen| then cursor else |seen|
    {
      if seenHistory != [] {
        assert seenHistory[0] == seen[|seen| - |seenHistory|];
      }
    }
  }

  /** Where the retained events that a client asked for begin in the stream. */
  function FirstAsked(total: nat, retained: nat, cursor: nat, changed: bool): (from: nat)
    requires retained <= total
    ensures from <= total
  {
    if changed || cursor < total - retained then total - retained else if cursor < total then cursor else total
  }

  /** At most 5000 of the retained events asked for, oldest first. */
  function FirstPage(all: seq<Event>, retained: nat, cursor: nat, changed: bool): seq<Event>
    requires retained <= |all|
  {
    var from := FirstAsked(|all|, retained, cursor, changed);
    if |all| - from <= 5000 then all[from..] else all[from..from + 5000]
  }

  /**
     What a connection begins with: the reset notice when the client named another stream,
     otherwise the gap notice when events after a positive cursor are gone, and then the page.
   */
  function FirstSent(all: seq<Event>, streamId: string, retained: nat, cursor: nat, changed: bool): seq<Event>
    requires retained <= |all|
  {
    (if changed then [Event(streamId, 0, StreamReset)]
     else if 0 < cursor < |all| - retained && retained > 0
     then [Event(streamId, 0, HistoryGap(|all| - retained + 1))]
     else [])
    + FirstPage(all, retained, cursor, changed)
  }

  lemma FirstPageIsTake(all: seq<Event>, retained: nat, cursor: nat, changed: bool)
    requires retained <= |all|
    ensures FirstPage(all, retained, cursor, changed) == Take(all[FirstAsked(|all|, retained, cursor, changed)..], 5000)
  {
    hide FirstAsked;
    var from := FirstAsked(|all|, retained, cursor, changed);
    if |all| - from > 5000 {
      assert all[from..][..5000] == all[from..from + 5000];
    }
  }

  lemma PageExactly(history: seq<Event>, all: seq<Event>, streamId: string, historySize: nat,
                    cursor: nat, requested: Option<string>)
    requires Numbered(all, streamId) && Retains(history, all, historySize)
    ensures |history| <= |all|
    ensures PageOf(history, |all|, streamId, cursor, REPLAY_LIMIT, requested).events
         == FirstPage(all, |history|, cursor, requested.Some? && requested.value != streamId)
  {
    hide After, FirstPage, Take, Numbered;
    var changed := requested.Some? && requested.value != streamId;
    AnswerIsSuffix(all, streamId, |all| - |history|, if changed then 0 else cursor);
    FirstPageIsTake(all, |history|, cursor, changed);
  }

  lemma OpeningExactly(history: seq<Event>, all: seq<Event>, streamId: string, historySize: nat,
                       cursor: nat, requested: Option<string>)
    requires Numbered(all, streamId) && Retains(history, all, historySize)
    ensures |history| <= |all|
    ensures var page := PageOf(history, |all|, streamId, cursor, REPLAY_LIMIT, requested);
            (Notices(page) + page.events
             == FirstSent(all, streamId, |history|, cursor, requested.Some? && requested.value != streamId))
  {
    PageExactly(history, all, streamId, historySize, cursor, requested);
    hide After, FirstPage;
  }

  lemma PublishedIsNew(all: seq<Event>, streamId: string, from: nat)
    requires Numbered(all, streamId) && from <= |all|
    ensures forall x <- all[from..] :: x.sequence > from
  {}

  lemma StretchIsOrdered(all: seq<Event>, streamId: string, lo: nat, hi: nat)
    requires Numbered(all, streamId) && lo <= hi <= |all|
    ensures Increasing(all[lo..hi])
    ensures forall e <- all[lo..hi] :: e.streamId == streamId && 0 < e.sequence <= |all|
  {}

  lemma PageIsOrdered(history: seq<Event>, all: seq<Event>, streamId: string, historySize: nat, cursor: nat)
    requires Numbered(all, streamId) && Retains(history, all, historySize)
    ensures var events := Take(After(history, cursor), REPLAY_LIMIT);
            && Increasing(events)
            && forall e <- events :: e.streamId == streamId && 0 < e.sequence <= |all|
  {
    var evicted := |all| - |history|;
    AnswerIsSuffix(all, streamId, evicted, cursor);
    var start := Start(evicted, |all|, cursor);
    TakeOfSuffix(all, start, REPLAY_LIMIT);
    StretchIsOrdered(all, streamId, start, if |all| - start <= REPLAY_LIMIT then |all| else start + REPLAY_LIMIT);
  }

  lemma TakeOfSuffix(all: seq<Event>, start: nat, limit: nat)
    requires start <= |all|
    ensures Take(all[start..], limit) == all[start..if |all| - start <= limit then |all| else start + limit]
  {}

  /** What is sent first: notices, then numbered events in order, none beyond the latest. */
  lemma OpeningIsOrdered(history: seq<Event>, all: seq<Event>, streamId: string, historySize: nat,
                         cursor: nat, requested: Option<string>)
    requires Numbered(all, streamId) && Retains(history, all, historySize)
    ensures var page := PageOf(history, |all|, streamId, cursor, REPLAY_LIMIT, requested);
            var opening := Notices(page) + page.events;
            && InOrder(opening, streamId, |all|)
            && forall e <- opening :: e.streamId == streamId
  {
    var page := PageOf(history, |all|, streamId, cursor, REPLAY_LIMIT, requested);
    PageIsOrdered(history, all, streamId, historySize, if page.streamChanged then 0 else cursor);
    assert forall i :: 0 <= i < |Notices(page)| ==> Notices(page)[i].sequence == 0;
  }
}
