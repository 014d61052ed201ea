/**
 The bounded event history and the bounded per-client subscriptions.

 A broker numbers the events of one stream 1, 2, 3, ... and keeps the latest ones. A
 subscription keeps at most `capacity` undelivered events, drops the oldest when it is
 full, and owes the client a notice for what it dropped. Ghost fields record the whole
 stream and every outcome, so that loss accounting can be stated on contents.
 */
module Events {
  import opened Sequences
  import opened Wrappers

  datatype Body = Payload(tag: int) | StreamReset | Dropped(count: nat) | HistoryGap(first: nat)

  /** Sequence 0 marks notices, which are never part of the numbered stream. */
  datatype Event = Event(streamId: string, sequence: nat, body: Body)

  /** What became of an item of a subscription, or a notice handed to the client. */
  datatype Outcome = Delivered(event: Event) | Lost(event: Event) | Notice(event: Event, count: nat)

  // ---------- outcome logs ----------

  /** The published items a log accounts for. */
  function Items(log: seq<Outcome>): seq<Event> {
    if log == [] then []
    else
      var init := Items(log[..|log| - 1]);
      if log[|log| - 1].Notice? then init else init + [log[|log| - 1].event]
  }

  /** What the client was handed, in order. */
  function Heard(log: seq<Outcome>): seq<Event> {
    if log == [] then []
    else
      var init := Heard(log[..|log| - 1]);
      if log[|log| - 1].Lost? then init else init + [log[|log| - 1].event]
  }

  function LostItems(log: seq<Outcome>): seq<Event> {
    if log == [] then []
    else
      var init := LostItems(log[..|log| - 1]);
      if log[|log| - 1].Lost? then init + [log[|log| - 1].event] else init
  }

  function DeliveredCount(log: seq<Outcome>): nat {
    if log == [] then 0
    else DeliveredCount(log[..|log| - 1]) + if log[|log| - 1].Delivered? then 1 else 0
  }

  function Announced(log: seq<Outcome>): nat {
    if log == [] then 0
    else Announced(log[..|log| - 1]) + if log[|log| - 1].Notice? then log[|log| - 1].count else 0
  }

  /** The last thing the client was handed is a notice. */
  predicate EndsWithNotice(log: seq<Outcome>) {
    log != [] && (log[|log| - 1].Notice? || (log[|log| - 1].Lost? && EndsWithNotice(log[..|log| - 1])))
  }

  /** No two notices without a delivery between them, and none that announces nothing. */
  predicate NoticesProper(log: seq<Outcome>, streamId: string) {
    log == [] ||
    (var init, last := log[..|log| - 1], log[|log| - 1];
     NoticesProper(init, streamId) && NoticeProper(init, last, streamId))
  }

  predicate NoticeProper(log: seq<Outcome>, o: Outcome, streamId: string) {
    o.Notice? ==> !EndsWithNotice(log) && o.count > 0 && o.event == Event(streamId, 0, Dropped(o.count))
  }

  /** The log after one more outcome, described by what each reading of it becomes. */
  lemma Extend(log: seq<Outcome>, o: Outcome, streamId: string) returns (longer: seq<Outcome>)
    requires NoticesProper(log, streamId) && NoticeProper(log, o, streamId)
    ensures Items(longer) == if o.Notice? then Items(log) else Items(log) + [o.event]
    ensures Heard(longer) == if o.Lost? then Heard(log) else Heard(log) + [o.event]
    ensures LostItems(longer) == if o.Lost? then LostItems(log) + [o.event] else LostItems(log)
    ensures DeliveredCount(longer) == DeliveredCount(log) + if o.Delivered? then 1 else 0
    ensures Announced(longer) == Announced(log) + if o.Notice? then o.count else 0
    ensures EndsWithNotice(longer) <==> o.Notice? || (o.Lost? && EndsWithNotice(log))
    ensures NoticesProper(longer, streamId)
  {
    longer := log + [o];
    assert longer[..|longer| - 1] == log;
  }

  lemma {:induction false} ItemsByKind(log: seq<Outcome>)
    ensures |Items(log)| == DeliveredCount(log) + |LostItems(log)|
  {
    if log == [] {
    } else {
      ItemsByKind(log[..|log| - 1]);
    }
  }

  /** Every item was either handed to the client or lost. */
  lemma {:induction false} ItemsHeardOrLost(log: seq<Outcome>)
    ensures forall e <- Items(log) :: e in Heard(log) || e in LostItems(log)
  {
    if log == [] {
    } else {
      ItemsHeardOrLost(log[..|log| - 1]);
    }
  }

  /** Numbered events handed to the client are items; only notices are not. */
  lemma {:induction false} HeardFromItems(log: seq<Outcome>, streamId: string)
    requires NoticesProper(log, streamId)
    ensures forall e <- Heard(log) :: e.sequence == 0 || e in Items(log)
  {
    if log == [] {
    } else {
      HeardFromItems(log[..|log| - 1], streamId);
    }
  }

  lemma {:induction false} LostFromItems(log: seq<Outcome>)
    ensures forall e <- LostItems(log) :: e in Items(log)
  {
    if log == [] {
    } else {
      LostFromItems(log[..|log| - 1]);
    }
  }

  // ---------- subscriptions ----------

  class EventSubscription {
    const capacity: nat
    var queue: seq<Event>
    var streamId: string
    var dropped: nat
    var deliveredDropNoticeLast: bool

    /** Since the last restart: what was published here and what became of it. */
    ghost var published: seq<Event>
    ghost var log: seq<Outcome>
    /** Handed over before the last restart. */
    ghost var heardBefore: seq<Event>
    /** Length of the broker's stream when this subscription began to follow it. */
    ghost var since: nat
    /** The notice queued by the last restart, if there was one. */
    ghost var header: seq<Event>

    ghost predicate Valid()
      reads this
    {
      && Items(log) + queue == published
      && |LostItems(log)| == Announced(log) + dropped
      && (deliveredDropNoticeLast <==> EndsWithNotice(log))
      && NoticesProper(log, streamId)
      && (capacity > 0 ==> |queue| <= capacity)
      && (capacity == 0 ==> dropped == 0)
      && (dropped > 0 && deliveredDropNoticeLast ==> queue != [])
    }

    constructor (bufferSize: nat, streamId: string, ghost since: nat)
      ensures this.since == since && header == []
      ensures Valid() && capacity == bufferSize && this.streamId == streamId
      ensures published == [] && log == [] && heardBefore == [] && queue == []
    {
      capacity := bufferSize;
      this.streamId := streamId;
      queue, dropped, deliveredDropNoticeLast := [], 0, false;
      published, log, heardBefore, header := [], [], [], [];
      this.since := since;
    }

    method Publish(event: Event)
      requires Valid()
      modifies this`queue, this`dropped, this`published, this`log
      ensures Valid() && published == old(published) + [event]
      ensures Heard(log) == Heard(old(log)) && DeliveredCount(log) == DeliveredCount(old(log))
      ensures |Items(log)| >= |Items(old(log))|
      ensures if capacity > 0 && |old(queue)| == capacity
              then queue == old(queue)[1..] + [event] && LostItems(log) == LostItems(old(log)) + [old(queue)[0]]
              else queue == old(queue) + [event] && LostItems(log) == LostItems(old(log))
    {
      if capacity > 0 && |queue| == capacity {
        dropped := dropped + 1;
        Shift(Items(log), queue);
        log := Extend(log, Lost(queue[0]), streamId);
        queue := queue[1..];
      }
      Associate(Items(log), queue, [event]);
      queue := queue + [event];
      published := published + [event];
    }

    /** Forgets queued evidence; the reset notice is then the first queued item. */
    method Restart(newStreamId: string)
      requires Valid()
      modifies this
      ensures Valid() && streamId == newStreamId
      ensures published == queue == [Event(newStreamId, 0, StreamReset)] && log == []
      ensures heardBefore == old(heardBefore) + Heard(old(log))
      ensures since == 0 && header == published
    {
      streamId := newStreamId;
      dropped, deliveredDropNoticeLast := 0, false;
      queue := [Event(newStreamId, 0, StreamReset)];
      published, header, since := queue, queue, 0;
      heardBefore := heardBefore + Heard(log);
      log := [];
    }

    /**
       The next event for the client, or None where the client has to wait. `waited` resumes
       a call that found nothing and has been waiting since: it takes the next item without
       looking for losses again, so those that arose meanwhile are announced after that item.
     */
    method Next(waited: bool) returns (event: Option<Event>)
      requires Valid()
      modifies this`queue, this`dropped, this`deliveredDropNoticeLast, this`log
      ensures Valid()
      ensures event.None? <==> old(queue) == [] && (waited || old(dropped) == 0 || old(deliveredDropNoticeLast))
      ensures event.None? ==> log == old(log) && queue == old(queue) && dropped == old(dropped)
      ensures event.None? && !waited ==> dropped == 0
      ensures event.Some? ==> Heard(log) == Heard(old(log)) + [event.value] && LostItems(log) == LostItems(old(log))
      ensures event.Some? ==>
                if !waited && old(dropped) > 0 && !old(deliveredDropNoticeLast) then
                  && event.value == Event(streamId, 0, Dropped(old(dropped)))
                  && dropped == 0 && queue == old(queue) && Items(log) == Items(old(log))
                else
                  && event.value == old(queue)[0] && queue == old(queue)[1..]
                  && dropped == old(dropped) && Items(log) == Items(old(log)) + [event.value]
    {
      if !waited && dropped > 0 && !deliveredDropNoticeLast {
        var notice := Event(streamId, 0, Dropped(dropped));
        log := Extend(log, Notice(notice, dropped), streamId);
        dropped := 0;
        deliveredDropNoticeLast := true;
        return Some(notice);
      }
      if queue == [] {
        return None;
      }
      var first := queue[0];
      Shift(Items(log), queue);
      log := Extend(log, Delivered(first), streamId);
      queue := queue[1..];
      deliveredDropNoticeLast := false;
      return Some(first);
    }

    /** Published = delivered + queued + announced as dropped + not yet announced. */
    lemma LossAccounting()
      requires Valid()
      ensures |published| == DeliveredCount(log) + |queue| + Announced(log) + dropped
      ensures Items(log) + queue == published
      ensures dropped > 0 && queue == [] ==> !deliveredDropNoticeLast
      ensures NoticesProper(log, streamId)
      ensures forall e <- published :: e in Heard(log) || e in LostItems(log) || e in queue
    {
      ItemsByKind(log);
      ItemsHeardOrLost(log);
    }
  }

  // ---------- history paging ----------

  datatype HistoryPage = HistoryPage(
    streamId: string,
    streamChanged: bool,
    events: seq<Event>,
    firstAvailableSequence: Option<nat>,
    latestSequence: nat,
    historyGap: bool,
    hasMore: bool)

  function After(events: seq<Event>, cursor: nat): seq<Event> {
    if events == [] then []
    else
      var init := After(events[..|events| - 1], cursor);
      if events[|events| - 1].sequence > cursor then init + [events[|events| - 1]] else init
  }

  function Take<T>(s: seq<T>, n: nat): seq<T> {
    if |s| <= n then s else s[..n]
  }

  function PageOf(history: seq<Event>, latest: nat, streamId: string,
                  cursor: nat, limit: nat, requested: Option<string>): HistoryPage {
    var first := if history == [] then None else Some(history[0].sequence);
    var changed := requested.Some? && requested.value != streamId;
    var effective := if changed then 0 else cursor;
    var gap := !changed && cursor > 0 && first.Some? && cursor + 1 < first.value;
    var events := Take(After(history, effective), limit);
    HistoryPage(streamId, changed, events, first, latest, gap,
                events != [] && events[|events| - 1].sequence < latest)
  }

  /** `all` is the stream from its first event on. */
  ghost predicate Numbered(all: seq<Event>, streamId: string) {
    forall i :: 0 <= i < |all| ==> all[i].streamId == streamId && all[i].sequence == i + 1
  }

  ghost predicate Retains(history: seq<Event>, all: seq<Event>, historySize: nat) {
    && |history| == (if |all| <= historySize then |all| else historySize)
    && history == all[|all| - |history|..]
  }

  /** On the contiguous history a cursor cuts off a suffix of the whole stream. */
  lemma {:induction false} AfterIsSuffix(all: seq<Event>, streamId: string, lo: nat, hi: nat, cursor: nat)
    requires Numbered(all, streamId) && lo <= hi <= |all|
    ensures var start := if cursor < lo then lo else if cursor < hi then cursor else hi;
            After(all[lo..hi], cursor) == all[start..hi]
    decreases hi
  {
    if lo == hi {
    } else {
      SliceSnoc(all, lo, hi);
      AfterIsSuffix(all, streamId, lo, hi - 1, cursor);
      AfterSnoc(all[lo..hi - 1], all[hi - 1], cursor);
      hide After;
      assert all[hi - 1].sequence == hi;
      if cursor < hi {
        SliceSnoc(all, if cursor < lo then lo else cursor, hi);
      }
    }
  }

  lemma AfterSnoc(events: seq<Event>, e: Event, cursor: nat)
    ensures After(events + [e], cursor) == After(events, cursor) + if e.sequence > cursor then [e] else []
  {
    DropLast(events, e);
  }

  /** Some event after the cursor is no longer retained. */
  ghost predicate Evicted(history: seq<Event>, all: seq<Event>, cursor: nat) {
    exists i :: 0 <= i < |all| && all[i].sequence > cursor && all[i] !in history
  }

  lemma EvictedExactly(history: seq<Event>, all: seq<Event>, streamId: string, historySize: nat, cursor: nat)
    requires Numbered(all, streamId) && Retains(history, all, historySize)
    ensures Evicted(history, all, cursor) <==> cursor < |all| - |history|
  {
    var evicted := |all| - |history|;
    if cursor < evicted {
      assert all[cursor].sequence > cursor && all[cursor] !in history;
    }
    forall i | evicted <= i < |all| ensures all[i] in history {
      assert history[i - evicted] == all[i];
    }
  }

  /**
     The gap flag of a page for the same stream says whether an event after the cursor was
     evicted if and only if the history keeps anything and the cursor is positive, or nothing
     after the cursor was evicted at all. It is never set without cause.
   */
  lemma GapIsExact(history: seq<Event>, all: seq<Event>, streamId: string, historySize: nat,
                   cursor: nat, limit: nat, requested: Option<string>)
    requires Numbered(all, streamId) && Retains(history, all, historySize)
    requires requested.Some? ==> requested.value == streamId
    ensures var gap := PageOf(history, |all|, streamId, cursor, limit, requested).historyGap;
            && (gap ==> Evicted(history, all, cursor))
            && ((gap <==> Evicted(history, all, cursor)) <==>
                (historySize > 0 && cursor > 0) || |all| - |history| <= cursor)
  {
    EvictedExactly(history, all, streamId, historySize, cursor);
    var evicted := |all| - |history|;
    if history != [] {
      assert history[0].sequence == evicted + 1;
    }
  }

  /** With cursor 0, or with a history that keeps nothing, eviction is never reported. */
  lemma UnreportedGap(history: seq<Event>, all: seq<Event>, streamId: string, historySize: nat,
                      cursor: nat, limit: nat, requested: Option<string>)
    requires Numbered(all, streamId) && Retains(history, all, historySize)
    requires requested.Some? ==> requested.value == streamId
    requires cursor == 0 || historySize == 0
    ensures !PageOf(history, |all|, streamId, cursor, limit, requested).historyGap
    ensures Evicted(history, all, cursor) <==> cursor + historySize < |all|
  {
    EvictedExactly(history, all, streamId, historySize, cursor);
  }

  /** Where the answer to a cursor starts in the stream. */
  function Start(evicted: nat, total: nat, cursor: nat): nat {
    if cursor < evicted then evicted else if cursor < total then cursor else total
  }

  lemma AnswerIsSuffix(all: seq<Event>, streamId: string, evicted: nat, cursor: nat)
    requires Numbered(all, streamId) && evicted <= |all|
    ensures After(all[evicted..], cursor) == all[Start(evicted, |all|, cursor)..]
  {
    AfterIsSuffix(all, streamId, evicted, |all|, cursor);
    assert all[..|all|] == all;
  }

  /** A page is a contiguous stretch of the stream, and `hasMore` says whether it stops short. */
  lemma PageIsStretch(all: seq<Event>, streamId: string, evicted: nat, cursor: nat, limit: nat)
    requires Numbered(all, streamId) && evicted <= |all| && limit > 0
    ensures var page := PageOf(all[evicted..], |all|, streamId, cursor, limit, Some(streamId));
            var start := Start(evicted, |all|, cursor);
            && start <= |all|
            && page.events == (if |all| - start <= limit then all[start..] else all[start..start + limit])
            && (page.hasMore <==> |all| - start > limit)
            && (page.hasMore ==> page.events[|page.events| - 1].sequence == start + limit)
  {
    hide After;
    AnswerIsSuffix(all, streamId, evicted, cursor);
    var start := Start(evicted, |all|, cursor);
    if |all| - start > limit {
      assert all[start..][..limit] == all[start..start + limit];
    }
  }

  /**
     A client that names another stream starts over: whatever its cursor, it gets the oldest
     retained events and no gap report.
   */
  lemma OtherStreamStartsOver(history: seq<Event>, all: seq<Event>, streamId: string, historySize: nat,
                              cursor: nat, limit: nat, requested: Option<string>)
    requires Numbered(all, streamId) && Retains(history, all, historySize)
    requires requested.Some? && requested.value != streamId
    ensures var page := PageOf(history, |all|, streamId, cursor, limit, requested);
            && page.streamChanged && !page.historyGap
            && page.events == (if |history| <= limit then history else history[..limit])
            && (page.hasMore <==> 0 < limit < |history|)
  {
    hide After;
    AnswerIsSuffix(all, streamId, |all| - |history|, 0);
    assert history == all[|all| - |history|..];
  }

  /** Every page names the stream, its latest number and its oldest retained one. */
  lemma PageHeader(history: seq<Event>, all: seq<Event>, streamId: string, historySize: nat,
                   cursor: nat, limit: nat, requested: Option<string>)
    requires Numbered(all, streamId) && Retains(history, all, historySize)
    ensures var page := PageOf(history, |all|, streamId, cursor, limit, requested);
            && page.streamId == streamId && page.latestSequence == |all|
            && (page.streamChanged <==> requested.Some? && requested.value != streamId)
            && page.firstAvailableSequence == if history == [] then None else Some(|all| - |history| + 1)
  {}

  /** Follows `hasMore` from page to page, each time from the last sequence seen. */
  ghost function FollowPages(all: seq<Event>, streamId: string, evicted: nat, cursor: nat, limit: nat): seq<Event>
    requires Numbered(all, streamId) && evicted <= |all| && limit > 0
    decreases |all| - cursor
  {
    PageIsStretch(all, streamId, evicted, cursor, limit);
    var page := PageOf(all[evicted..], |all|, streamId, cursor, limit, Some(streamId));
    if page.hasMore
    then page.events + FollowPages(all, streamId, evicted, page.events[|page.events| - 1].sequence, limit)
    else page.events
  }

  lemma Rejoin<T>(s: seq<T>, i: nat, j: nat)
    requires i <= j <= |s|
    ensures s[i..j] + s[j..] == s[i..]
  {}

  lemma {:induction false} PagingReachesTheEnd(all: seq<Event>, streamId: string, evicted: nat, cursor: nat, limit: nat)
    requires Numbered(all, streamId) && evicted <= |all| && limit > 0
    ensures FollowPages(all, streamId, evicted, cursor, limit) == all[Start(evicted, |all|, cursor)..]
    decreases |all| - cursor
  {
    hide PageOf, Numbered;
    PageIsStretch(all, streamId, evicted, cursor, limit);
    var start := Start(evicted, |all|, cursor);
    if |all| - start <= limit {
    } else {
      PagingReachesTheEnd(all, streamId, evicted, start + limit, limit);
      Rejoin(all, start, start + limit);
    }
  }

  /** Whatever the page size, following the pages yields the one-shot answer. */
  lemma PagingConcatenates(history: seq<Event>, all: seq<Event>, streamId: string, historySize: nat, cursor: nat,
                           limit: nat)
    requires Numbered(all, streamId) && Retains(history, all, historySize) && limit > 0
    ensures FollowPages(all, streamId, |all| - |history|, cursor, limit) == After(history, cursor)
  {
    PagingReachesTheEnd(all, streamId, |all| - |history|, cursor, limit);
    AnswerIsSuffix(all, streamId, |all| - |history|, cursor);
  }

  // ---------- the broker ----------

  class EventBroker {
    const historySize: nat
    const subscriberBufferSize: nat
    var history: seq<Event>
    var subscribers: set<EventSubscription>
    var streamId: string
    var sequence: nat
    var historyEvictions: nat

    /** Every event of the current stream, retained or not. */
    ghost var all: seq<Event>
    /** The stream identifiers drawn so far. */
    ghost var usedStreams: set<string>

    ghost predicate Valid()
      reads this, subscribers
    {
      && StreamValid()
      && forall s <- subscribers :: s.Valid() && Follows(s)
    }

    ghost predicate StreamValid()
      reads this
    {
      && Numbered(all, streamId)
      && Retains(history, all, historySize)
      && sequence == |all|
      && streamId in usedStreams
      && historyEvictions == |all| - |history|
    }

    ghost predicate Follows(s: EventSubscription)
      reads this, s
    {
      && s.streamId == streamId
      && s.since <= |all|
      && (s.header == [] || (s.header == [Event(streamId, 0, StreamReset)] && s.since == 0))
      && s.published == s.header + all[s.since..]
    }

    constructor (historySize: nat, subscriberBufferSize: nat, streamId: string)
      ensures Valid() && subscribers == {} && all == [] && this.streamId == streamId
      ensures this.historySize == historySize && this.subscriberBufferSize == subscriberBufferSize
    {
      this.historySize := historySize;
      this.subscriberBufferSize := subscriberBufferSize;
      this.streamId := streamId;
      history, subscribers, sequence, historyEvictions, all := [], {}, 0, 0, [];
      usedStreams := {streamId};
      new;
      assert StreamValid();
    }

    method Subscribe() returns (subscription: EventSubscription)
      requires Valid()
      modifies this`subscribers
      ensures Valid() && fresh(subscription) && subscribers == old(subscribers) + {subscription}
      ensures subscription.since == |all| && subscription.header == [] && subscription.heardBefore == []
      ensures subscription.log == [] && subscription.queue == [] && subscription.published == []
      ensures subscription.capacity == subscriberBufferSize
    {
      subscription := new EventSubscription(subscriberBufferSize, streamId, |all|);
      subscribers := subscribers + {subscription};
    }

    method Append(event: Event)
      requires StreamValid() && event == Event(streamId, sequence + 1, event.body)
      modifies this`history, this`sequence, this`historyEvictions, this`all
      ensures StreamValid() && all == old(all) + [event]
    {
      sequence := sequence + 1;
      all := all + [event];
      if |history| == historySize {
        historyEvictions := historyEvictions + 1;
        history := (history + [event])[1..];
      } else {
        history := history + [event];
      }
    }

    method Publish(body: Body) returns (sequenced: Event)
      requires Valid()
      modifies this`history, this`sequence, this`historyEvictions, this`all, subscribers
      ensures Valid() && sequenced == Event(streamId, old(sequence) + 1, body)
      ensures all == old(all) + [sequenced]
      ensures forall s <- subscribers :: SameClientSide(s) && s.published == old(s.published) + [sequenced]
    {
      sequenced := Event(streamId, sequence + 1, body);
      Append(sequenced);
      FanOut(sequenced);
      forall s <- subscribers ensures Follows(s) {
        assert all[s.since..] == old(all)[s.since..] + [sequenced];
        Associate(s.header, old(all)[s.since..], [sequenced]);
      }
    }

    method FanOut(event: Event)
      requires forall s <- subscribers :: s.Valid()
      modifies subscribers
      ensures forall s <- subscribers ::
                s.Valid() && SameClientSide(s) && s.published == old(s.published) + [event]
    {
      hide EventSubscription.Valid, Items, Heard, LostItems, DeliveredCount;
      var remaining := subscribers;
      while remaining != {}
        invariant remaining <= subscribers
        invariant forall s <- subscribers :: s.Valid() && SameClientSide(s)
        invariant forall s <- remaining :: s.published == old(s.published)
        invariant forall s <- subscribers - remaining :: s.published == old(s.published) + [event]
        decreases remaining
      {
        var s :| s in remaining;
        s.Publish(event);
        remaining := remaining - {s};
      }
    }

    /** What publishing leaves alone: all that was handed to the client. */
    twostate predicate SameClientSide(s: EventSubscription)
      reads s
    {
      && s.streamId == old(s.streamId) && s.since == old(s.since) && s.header == old(s.header)
      && s.heardBefore == old(s.heardBefore) && Heard(s.log) == old(Heard(s.log))
      && |Items(s.log)| >= old(|Items(s.log)|)
    }

    /** The new identifier is a random UUID; that it is new is the one thing assumed of it. */
    method Clear(newStreamId: string)
      requires Valid() && newStreamId !in usedStreams
      modifies this`history, this`sequence, this`historyEvictions, this`streamId, this`all, this`usedStreams,
          subscribers
      ensures usedStreams == old(usedStreams) + {newStreamId}
      ensures Valid() && streamId == newStreamId && all == []
      ensures forall s <- subscribers ::
                && s.heardBefore == old(s.heardBefore) + Heard(old(s.log))
                && s.log == [] && s.queue == s.header == [Event(newStreamId, 0, StreamReset)]
    {
      history, sequence, historyEvictions, streamId, all := [], 0, 0, newStreamId, [];
      usedStreams := usedStreams + {newStreamId};
      RestartAll();
    }

    method RestartAll()
      requires forall s <- subscribers :: s.Valid()
      modifies subscribers
      ensures forall s <- subscribers ::
                && s.Valid() && s.streamId == streamId && s.since == 0
                && s.heardBefore == old(s.heardBefore) + Heard(old(s.log))
                && s.log == [] && s.published == s.queue == s.header == [Event(streamId, 0, StreamReset)]
    {
      var remaining := subscribers;
      while remaining != {}
        invariant remaining <= subscribers
        invariant forall s <- remaining ::
                    s.Valid() && s.heardBefore == old(s.heardBefore) && s.log == old(s.log)
        invariant forall s <- subscribers - remaining ::
                    && s.Valid() && s.streamId == streamId && s.since == 0
                    && s.heardBefore == old(s.heardBefore) + Heard(old(s.log))
                    && s.log == [] && s.published == s.queue == s.header == [Event(streamId, 0, StreamReset)]
        decreases remaining
      {
        var s :| s in remaining;
        s.Restart(streamId);
        remaining := remaining - {s};
      }
    }

    function Page(cursor: nat, limit: nat, requested: Option<string>): HistoryPage
      reads this
    {
      PageOf(history, sequence, streamId, cursor, limit, requested)
    }
  }
}
