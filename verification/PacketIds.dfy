/**
 Packet identifiers: unique per source within a run, and quarantined for five minutes
 after their allocation once the run is over.

 `Shelf` is what the controller holds for one source. The class keeps it spread over
 three dictionaries, as the source does, and changes one source's shelf at a time.
 */
module PacketIds {
  import opened Sequences
  import opened Wrappers

  const QUARANTINE_SECONDS: real := 300.0
  const MAX_QUARANTINED: nat := 36000

  /** What the random generator can draw. */
  type PacketId = x: int | 1 <= x < 0xFFFF_FFFF witness 1

  datatype Grant = Grant(id: PacketId, at: real)

  datatype Entry = Entry(expiry: real, id: PacketId)

  /** `used` keeps insertion order; `ids` mirrors the quarantine queue for fast lookup. */
  datatype Shelf = Shelf(used: seq<Grant>, queue: seq<Entry>, ids: set<PacketId>)

  const EMPTY: Shelf := Shelf([], [], {})

  predicate Uses(used: seq<Grant>, id: PacketId) {
    exists i :: 0 <= i < |used| && used[i].id == id
  }

  // ---------- one source ----------

  /** Pops expired entries from the front only. */
  function Purge(s: Shelf, now: real): Shelf
    decreases |s.queue|
  {
    if s.queue != [] && s.queue[0].expiry <= now
    then Purge(s.(queue := s.queue[1..], ids := s.ids - {s.queue[0].id}), now)
    else s
  }

  predicate Acceptable(used: seq<Grant>, quarantined: set<PacketId>, id: PacketId) {
    !Uses(used, id) && id !in quarantined
  }

  predicate Grantable(s: Shelf, id: PacketId, now: real) {
    Acceptable(Purge(s, now).used, Purge(s, now).ids, id)
  }

  function Allocate(s: Shelf, id: PacketId, now: real): Shelf {
    var p := Purge(s, now);
    p.(used := p.used + [Grant(id, now)])
  }

  /** The grants whose quarantine is not over yet, as queue entries. */
  function Retained(used: seq<Grant>, now: real): seq<Entry> {
    if used == [] then []
    else
      var init, last := Retained(used[..|used| - 1], now), used[|used| - 1];
      if EntryOf(last).expiry > now then init + [EntryOf(last)] else init
  }

  function EntryOf(g: Grant): Entry {
    Entry(g.at + QUARANTINE_SECONDS, g.id)
  }

  function Ids(entries: seq<Entry>): set<PacketId> {
    set e <- entries :: e.id
  }

  predicate Fits(s: Shelf, now: real) {
    |Purge(s, now).queue| + |Retained(s.used, now)| <= MAX_QUARANTINED
  }

  /** Moves live grants to the quarantine; the run's own table is cleared separately. */
  function Merge(s: Shelf, now: real): Shelf {
    var p, live := Purge(s, now), Retained(s.used, now);
    Shelf(s.used, p.queue + live, p.ids + Ids(live))
  }

  function Retire(s: Shelf, now: real): Shelf {
    Merge(s, now).(used := [])
  }

  // ---------- histories of one source ----------

  /**
     What can happen to one source: a grant; a reset of all sources, and one in a run that
     never used this source; a reset that merges this source and then raises at a later one;
     a purge that merges nothing, which is what is left of a reset that raises at this
     source; and waiting while something happens to the others.
   */
  datatype Op =
    | Grants(id: PacketId, at: real)
    | Retires(at: real)
    | Skips(at: real)
    | Merges(at: real)
    | Purges(at: real)
    | Waits(at: real)

  /** A grant together with the number of the run it belongs to. */
  datatype Record = Record(id: PacketId, at: real, run: nat)

  datatype History = History(shelf: Shelf, log: seq<Record>, clock: real, run: nat)

  predicate Possible(h: History, op: Op) {
    h.clock <= op.at &&
    match op
    case Grants(id, at) => Grantable(h.shelf, id, at)
    case Retires(at) => Fits(h.shelf, at)
    case Skips(at) => h.shelf.used == []
    case Merges(at) => Fits(h.shelf, at)
    case Purges(at) => true
    case Waits(at) => true
  }

  function Apply(h: History, op: Op): History {
    match op
    case Grants(id, at) => History(Allocate(h.shelf, id, at), h.log + [Record(id, at, h.run)], at, h.run)
    case Retires(at) => History(Retire(h.shelf, at), h.log, at, h.run + 1)
    case Skips(at) => History(h.shelf, h.log, at, h.run + 1)
    case Merges(at) => History(Merge(h.shelf, at), h.log, at, h.run)
    case Purges(at) => History(Purge(h.shelf, at), h.log, at, h.run)
    case Waits(at) => History(h.shelf, h.log, at, h.run)
  }

  function Replay(h: History, ops: seq<Op>): History
    decreases |ops|
  {
    if ops == [] then h else Replay(Apply(h, ops[0]), ops[1..])
  }

  predicate Legal(h: History, ops: seq<Op>)
    decreases |ops|
  {
    ops == [] || (Possible(h, ops[0]) && Legal(Apply(h, ops[0]), ops[1..]))
  }

  /** In expiry order, and an identifier that occurs twice is the same entry twice. */
  predicate Precedes(a: Entry, b: Entry) {
    a.expiry <= b.expiry && (a.id == b.id ==> a == b)
  }

  predicate Ascending(queue: seq<Entry>) {
    forall i, j :: 0 <= i < j < |queue| ==> Precedes(queue[i], queue[j])
  }

  ghost predicate QueueTidy(s: Shelf) {
    && Ascending(s.queue)
    && s.ids == Ids(s.queue)
  }

  /** A grant of the current run that a reset has already queued. */
  predicate Queued(s: Shelf, i: nat)
    requires i < |s.used|
  {
    EntryOf(s.used[i]) in s.queue
  }

  /** An entry left by an earlier run. */
  ghost predicate Old(used: seq<Grant>, e: Entry) {
    forall i :: 0 <= i < |used| ==> e.id != used[i].id && e.expiry <= EntryOf(used[i]).expiry
  }

  ghost predicate IsCopy(used: seq<Grant>, e: Entry) {
    exists i :: 0 <= i < |used| && EntryOf(used[i]) == e
  }

  predicate GrantsTidy(used: seq<Grant>, clock: real) {
    && (forall i, j :: 0 <= i < j < |used| ==> used[i].at <= used[j].at && used[i].id != used[j].id)
    && (forall i :: 0 <= i < |used| ==> used[i].at <= clock)
  }

  /** Entries of this run are queued oldest first: with one, every older live one. */
  predicate QueuedFirst(s: Shelf, clock: real) {
    forall i, j :: 0 <= i < j < |s.used| && Queued(s, j) && EntryOf(s.used[i]).expiry > clock ==> Queued(s, i)
  }

  ghost predicate UsedTidy(s: Shelf, clock: real) {
    && GrantsTidy(s.used, clock)
    && (forall e <- s.queue :: e.expiry <= clock + QUARANTINE_SECONDS)
    && (forall e <- s.queue :: Old(s.used, e) || IsCopy(s.used, e))
    && QueuedFirst(s, clock)
  }

  /** Where a past grant is: in the run's table, in quarantine, or out of it for good. */
  ghost predicate Kept(h: History, r: Record) {
    && r.run <= h.run && r.at <= h.clock
    && if r.run == h.run then Grant(r.id, r.at) in h.shelf.used
       else r.at + QUARANTINE_SECONDS <= h.clock || Entry(r.at + QUARANTINE_SECONDS, r.id) in h.shelf.queue
  }

  /** Never twice in a run, and never again within the quarantine time. */
  ghost predicate Separated(log: seq<Record>) {
    forall i, j :: 0 <= i < j < |log| && log[i].id == log[j].id ==>
      log[i].run < log[j].run && log[i].at + 300.0 <= log[j].at
  }

  ghost predicate Sound(h: History) {
    && QueueTidy(h.shelf)
    && UsedTidy(h.shelf, h.clock)
    && (forall i :: 0 <= i < |h.log| ==> Kept(h, h.log[i]))
    && Separated(h.log)
  }

  /** No grant of the current run is queued yet, and no identifier is queued twice. */
  ghost predicate Fresh(s: Shelf) {
    && (forall i :: 0 <= i < |s.used| ==> s.used[i].id !in s.ids)
    && (forall i, j :: 0 <= i < j < |s.queue| ==> s.queue[i].id != s.queue[j].id)
  }

  /** Merging cannot put an entry behind a later one: what is already queued is no later than any live grant. */
  predicate Harmless(s: Shelf, now: real) {
    forall i, j :: 0 <= i < |s.used| && 0 <= j < |s.used| && Queued(s, i)
                   && EntryOf(s.used[i]).expiry > now && EntryOf(s.used[j]).expiry > now ==>
      s.used[i].at <= s.used[j].at
  }

  predicate Careful(h: History, op: Op) {
    op.Retires? || op.Merges? ==> Harmless(h.shelf, op.at)
  }

  predicate AllCareful(h: History, ops: seq<Op>)
    decreases |ops|
  {
    ops == [] || (Careful(h, ops[0]) && AllCareful(Apply(h, ops[0]), ops[1..]))
  }

  /** No reset raises after merging this source. */
  predicate AllUnraised(ops: seq<Op>) {
    forall i :: 0 <= i < |ops| ==> !ops[i].Merges?
  }

  // ---------- purging ----------

  function LiveIds(queue: seq<Entry>, now: real): set<PacketId> {
    set e <- queue | e.expiry > now :: e.id
  }

  /** The lookup set holds every live identifier of the queue and nothing foreign. */
  ghost predicate Covers(s: Shelf, now: real) {
    Ascending(s.queue) && LiveIds(s.queue, now) <= s.ids <= Ids(s.queue)
  }

  /** Popping may take away an identifier that is queued again, but then no copy of it is live. */
  lemma PopOne(s: Shelf, now: real)
    requires Covers(s, now) && s.queue != [] && s.queue[0].expiry <= now
    ensures Covers(s.(queue := s.queue[1..], ids := s.ids - {s.queue[0].id}), now)
    ensures forall e :: e in s.queue <==> e == s.queue[0] || e in s.queue[1..]
  {
    var first, rest := s.queue[0], s.queue[1..];
    assert s.queue == [first] + rest;
    forall k | 0 <= k < |rest| ensures Precedes(first, rest[k]) {
      assert s.queue[k + 1] == rest[k];
    }
    forall e <- rest ensures Precedes(first, e) {}
  }

  lemma NothingToPop(s: Shelf, now: real)
    requires Covers(s, now) && (s.queue == [] || s.queue[0].expiry > now)
    ensures QueueTidy(s) && forall e <- s.queue :: e.expiry > now
  {
    forall k | 0 <= k < |s.queue| ensures s.queue[k].expiry > now {
      assert k > 0 ==> Precedes(s.queue[0], s.queue[k]);
    }
  }

  lemma {:induction false} PurgePops(s: Shelf, now: real)
    requires Covers(s, now)
    ensures var p := Purge(s, now);
            && QueueTidy(p) && p.used == s.used && p.ids <= s.ids && |p.queue| <= |s.queue|
            && p.queue == s.queue[|s.queue| - |p.queue|..]
            && (forall e :: e in p.queue <==> e in s.queue && e.expiry > now)
    decreases |s.queue|
  {
    hide Covers, QueueTidy;
    if s.queue != [] && s.queue[0].expiry <= now {
      PopOne(s, now);
      PurgePops(s.(queue := s.queue[1..], ids := s.ids - {s.queue[0].id}), now);
    } else {
      NothingToPop(s, now);
    }
  }

  /** On a tidy queue, purging the front removes exactly the expired entries. */
  lemma PurgeRemovesExpired(s: Shelf, now: real)
    requires QueueTidy(s)
    ensures var p := Purge(s, now);
            && QueueTidy(p) && p.used == s.used && p.ids <= s.ids && |p.queue| <= |s.queue|
            && p.queue == s.queue[|s.queue| - |p.queue|..]
            && (forall e :: e in p.queue <==> e in s.queue && e.expiry > now)
  {
    PurgePops(s, now);
  }

  lemma PurgeKeepsUsed(s: Shelf, clock: real, now: real)
    requires QueueTidy(s) && UsedTidy(s, clock) && clock <= now
    ensures UsedTidy(Purge(s, now), now) && QueueTidy(Purge(s, now)) && Purge(s, now).used == s.used
  {
    hide Purge, Ascending, Ids;
    PurgeRemovesExpired(s, now);
    var p := Purge(s, now);
    assert forall i :: 0 <= i < |p.used| && Queued(p, i) ==> Queued(s, i);
    assert forall i :: 0 <= i < |s.used| && Queued(s, i) && EntryOf(s.used[i]).expiry > now ==> Queued(p, i);
  }

  lemma PurgeKeepsFresh(s: Shelf, now: real)
    requires QueueTidy(s) && Fresh(s)
    ensures Fresh(Purge(s, now))
  {
    hide Purge, Ascending, Ids;
    PurgeRemovesExpired(s, now);
  }

  lemma PurgedRecordsStayKept(h: History, now: real, r: Record)
    requires QueueTidy(h.shelf) && h.clock <= now && Kept(h, r)
    ensures Kept(h.(shelf := Purge(h.shelf, now), clock := now), r)
  {
    PurgeRemovesExpired(h.shelf, now);
  }

  lemma PurgeIsSound(h: History, now: real)
    requires Sound(h) && h.clock <= now
    ensures Sound(Apply(h, Purges(now)))
  {
    PurgeKeepsUsed(h.shelf, h.clock, now);
    forall i | 0 <= i < |h.log| ensures Kept(Apply(h, Purges(now)), h.log[i]) {
      PurgedRecordsStayKept(h, now, h.log[i]);
    }
  }

  // ---------- grants ----------

  /** Purging leaves a past grant in the run's table or, while it is live, in the quarantine. */
  lemma KeptIsHeld(h: History, now: real, r: Record)
    requires QueueTidy(h.shelf) && h.clock <= now && Kept(h, r)
    ensures var p := Purge(h.shelf, now);
            if r.run == h.run then Uses(p.used, r.id)
            else r.run < h.run && (r.at + QUARANTINE_SECONDS <= now || r.id in p.ids)
  {
    PurgeRemovesExpired(h.shelf, now);
    if r.run == h.run {
      var i :| 0 <= i < |h.shelf.used| && h.shelf.used[i] == Grant(r.id, r.at);
    }
  }

  /** An acceptable identifier was last granted in an earlier run, at least 300 seconds ago. */
  lemma GrantableIsFree(h: History, id: PacketId, now: real, r: Record)
    requires QueueTidy(h.shelf) && h.clock <= now && Kept(h, r) && Grantable(h.shelf, id, now) && r.id == id
    ensures r.run < h.run && r.at + QUARANTINE_SECONDS <= now
  {
    KeptIsHeld(h, now, r);
  }

  /** A new grant after a purge: later than everything queued, under an identifier not queued. */
  lemma AddGrant(p: Shelf, id: PacketId, now: real)
    requires QueueTidy(p) && UsedTidy(p, now) && !Uses(p.used, id) && id !in p.ids
    ensures UsedTidy(p.(used := p.used + [Grant(id, now)]), now)
  {
    var g := Grant(id, now);
    var next := p.(used := p.used + [g]);
    forall e <- p.queue ensures e.id != id && (Old(next.used, e) || IsCopy(next.used, e)) {
      assert e.id in Ids(p.queue);
      if IsCopy(p.used, e) {
        var i :| 0 <= i < |p.used| && EntryOf(p.used[i]) == e;
        assert next.used[i] == p.used[i];
      }
    }
    assert forall i :: 0 <= i < |p.used| ==> next.used[i] == p.used[i] && Queued(next, i) == Queued(p, i);
    assert !Queued(next, |p.used|);
  }

  lemma GrantIsTidy(s: Shelf, clock: real, id: PacketId, now: real)
    requires QueueTidy(s) && UsedTidy(s, clock) && clock <= now && Grantable(s, id, now)
    ensures QueueTidy(Allocate(s, id, now)) && UsedTidy(Allocate(s, id, now), now)
    ensures Fresh(s) ==> Fresh(Allocate(s, id, now))
  {
    PurgeKeepsUsed(s, clock, now);
    AddGrant(Purge(s, now), id, now);
    if Fresh(s) {
      PurgeKeepsFresh(s, now);
    }
  }

  lemma GrantIsSound(h: History, id: PacketId, now: real)
    requires Sound(h) && Possible(h, Grants(id, now))
    ensures Sound(Apply(h, Grants(id, now)))
  {
    GrantIsTidy(h.shelf, h.clock, id, now);
    hide QueuedFirst, Old, IsCopy, Uses;
    forall i | 0 <= i < |h.log|
      ensures Kept(Apply(h, Grants(id, now)), h.log[i])
      ensures h.log[i].id == id ==> h.log[i].run < h.run && h.log[i].at + QUARANTINE_SECONDS <= now
    {
      PurgedRecordsStayKept(h, now, h.log[i]);
      if h.log[i].id == id {
        GrantableIsFree(h, id, now, h.log[i]);
      }
    }
  }

  // ---------- resets ----------

  /** The retained entries belong to an increasing selection of the grants, all the live ones. */
  ghost predicate Selects(used: seq<Grant>, now: real, picks: seq<nat>) {
    var live := Retained(used, now);
    && |picks| == |live|
    && (forall k :: 0 <= k < |picks| ==>
          picks[k] < |used| && live[k] == EntryOf(used[picks[k]]) && live[k].expiry > now)
    && (forall j, k :: 0 <= j < k < |picks| ==> picks[j] < picks[k])
    && (forall i :: 0 <= i < |used| && EntryOf(used[i]).expiry > now ==> EntryOf(used[i]) in live)
  }

  lemma {:induction false} Selection(used: seq<Grant>, now: real) returns (picks: seq<nat>)
    ensures Selects(used, now, picks)
  {
    if used == [] {
      picks := [];
    } else {
      var n := |used| - 1;
      picks := Selection(used[..n], now);
      var init, live := Retained(used[..n], now), Retained(used, now);
      assert live == if EntryOf(used[n]).expiry > now then init + [EntryOf(used[n])] else init;
      hide Retained;
      if EntryOf(used[n]).expiry > now {
        picks := picks + [n];
      }
      forall i | 0 <= i < |used| && EntryOf(used[i]).expiry > now ensures EntryOf(used[i]) in live {
        assert i < n ==> used[..n][i] == used[i];
      }
    }
  }

  /** Retained entries are exactly the live grants, in order. */
  lemma RetainedAreLive(used: seq<Grant>, now: real)
    requires GrantsTidy(used, now)
    ensures var live := Retained(used, now);
            && Ascending(live)
            && (forall i, j :: 0 <= i < j < |live| ==> live[i].id != live[j].id)
            && (forall e :: e in live <==> IsCopy(used, e) && e.expiry > now)
            && (forall e <- live :: e.expiry <= now + QUARANTINE_SECONDS)
  {
    var live := Retained(used, now);
    var picks := Selection(used, now);
    hide Retained;
    forall i, j | 0 <= i < j < |live| ensures Precedes(live[i], live[j]) && live[i].id != live[j].id {
      assert picks[i] < picks[j];
    }
    forall e ensures e in live <==> IsCopy(used, e) && e.expiry > now {
      if e in live {
        var k :| 0 <= k < |live| && live[k] == e;
        assert EntryOf(used[picks[k]]) == e;
      }
    }
  }

  lemma HarmlessJoins(p: Shelf, now: real)
    requires UsedTidy(p, now) && (forall e <- p.queue :: e.expiry > now) && Harmless(p, now)
    ensures forall a <- p.queue, b <- Retained(p.used, now) :: Precedes(a, b)
  {
    RetainedAreLive(p.used, now);
    hide Retained, Ascending, QueuedFirst;
    forall a <- p.queue, b <- Retained(p.used, now) ensures Precedes(a, b) {
      var j :| 0 <= j < |p.used| && EntryOf(p.used[j]) == b;
      if IsCopy(p.used, a) {
        var i :| 0 <= i < |p.used| && EntryOf(p.used[i]) == a;
        assert Queued(p, i);
      }
    }
  }

  lemma JoinedIsHarmless(p: Shelf, now: real)
    requires GrantsTidy(p.used, now) && forall a <- p.queue, b <- Retained(p.used, now) :: Precedes(a, b)
    ensures Harmless(p, now)
  {
    RetainedAreLive(p.used, now);
    hide Retained, Ascending;
    forall i, j | 0 <= i < |p.used| && 0 <= j < |p.used| && Queued(p, i)
                  && EntryOf(p.used[i]).expiry > now && EntryOf(p.used[j]).expiry > now
      ensures p.used[i].at <= p.used[j].at
    {
      GrantIsCopied(p.used, j);
      assert Precedes(EntryOf(p.used[i]), EntryOf(p.used[j]));
    }
  }

  /** Joining live grants behind a purged queue keeps it in order exactly when that is harmless. */
  lemma JoinedInOrderExactly(p: Shelf, now: real)
    requires UsedTidy(p, now) && (forall e <- p.queue :: e.expiry > now)
    ensures (forall a <- p.queue, b <- Retained(p.used, now) :: Precedes(a, b)) <==> Harmless(p, now)
  {
    hide Harmless, Precedes, Retained, QueuedFirst, Old, IsCopy;
    if Harmless(p, now) {
      HarmlessJoins(p, now);
    }
    if forall a <- p.queue, b <- Retained(p.used, now) :: Precedes(a, b) {
      JoinedIsHarmless(p, now);
    }
  }

  lemma JoinedQueue(a: seq<Entry>, b: seq<Entry>)
    requires Ascending(a) && Ascending(b)
    ensures Ids(a + b) == Ids(a) + Ids(b)
    ensures Ascending(a + b) <==> forall x <- a, y <- b :: Precedes(x, y)
  {
    if Ascending(a + b) {
      forall x <- a, y <- b ensures Precedes(x, y) {
        var i :| 0 <= i < |a| && a[i] == x;
        var j :| 0 <= j < |b| && b[j] == y;
        assert Precedes((a + b)[i], (a + b)[|a| + j]);
      }
    }
  }

  lemma PurgeKeepsHarmless(s: Shelf, now: real)
    requires QueueTidy(s)
    ensures Harmless(Purge(s, now), now) <==> Harmless(s, now)
  {
    PurgeRemovesExpired(s, now);
    var p := Purge(s, now);
    hide Purge;
    assert forall i :: 0 <= i < |s.used| && EntryOf(s.used[i]).expiry > now ==> Queued(p, i) == Queued(s, i);
  }

  /** A merge keeps the queue in order, and so equal to its lookup set's meaning, exactly when it is harmless. */
  lemma MergeIsTidyExactly(s: Shelf, clock: real, now: real)
    requires QueueTidy(s) && UsedTidy(s, clock) && clock <= now
    ensures QueueTidy(Merge(s, now)) <==> Harmless(s, now)
    ensures UsedTidy(Merge(s, now), now)
    ensures forall e <- Merge(s, now).queue :: e.expiry <= now + QUARANTINE_SECONDS
  {
    hide Purge, Retained, Ascending, Ids, Harmless, Old, IsCopy, Precedes;
    var p, live := Purge(s, now), Retained(s.used, now);
    PurgeRemovesExpired(s, now);
    PurgeKeepsUsed(s, clock, now);
    PurgeKeepsHarmless(s, now);
    JoinedInOrderExactly(p, now);
    RetainedAreLive(p.used, now);
    JoinedQueue(p.queue, live);
    var m := Merge(s, now);
    forall i | 0 <= i < |s.used| && EntryOf(s.used[i]).expiry > now ensures Queued(m, i) {
      GrantIsCopied(s.used, i);
    }
  }

  lemma GrantIsCopied(used: seq<Grant>, i: nat)
    requires i < |used|
    ensures IsCopy(used, EntryOf(used[i]))
  {}

  lemma UnlistedIsUnqueued(s: Shelf, i: nat)
    requires i < |s.used| && s.used[i].id !in Ids(s.queue)
    ensures !Queued(s, i)
  {
    assert forall e <- s.queue :: e.id in Ids(s.queue);
  }

  lemma FreshIsHarmless(s: Shelf, now: real)
    requires QueueTidy(s) && Fresh(s)
    ensures Harmless(s, now)
  {
    hide Ascending, Ids;
    forall i | 0 <= i < |s.used| ensures !Queued(s, i) {
      UnlistedIsUnqueued(s, i);
    }
  }

  lemma JoinedIdsDiffer(p: Shelf, now: real)
    requires QueueTidy(p) && GrantsTidy(p.used, now) && Fresh(p)
    ensures forall i, j :: 0 <= i < |p.queue| && 0 <= j < |Retained(p.used, now)| ==>
              p.queue[i].id != Retained(p.used, now)[j].id
  {
    RetainedAreLive(p.used, now);
    var live := Retained(p.used, now);
    hide Retained, Ascending;
    forall i, j | 0 <= i < |p.queue| && 0 <= j < |live| ensures p.queue[i].id != live[j].id {
      assert live[j] in live && p.queue[i].id in Ids(p.queue);
    }
  }

  /** Grants not queued before join the queue under identifiers it does not hold. */
  lemma MergeOfFreshIsDistinct(s: Shelf, clock: real, now: real)
    requires QueueTidy(s) && UsedTidy(s, clock) && clock <= now && Fresh(s)
    ensures Harmless(s, now) && Fresh(Retire(s, now))
  {
    FreshIsHarmless(s, now);
    PurgeKeepsFresh(s, now);
    PurgeKeepsUsed(s, clock, now);
    RetainedAreLive(s.used, now);
    JoinedIdsDiffer(Purge(s, now), now);
    hide Purge, Retained, Ascending, QueuedFirst, Harmless, Old, IsCopy, Ids;
  }

  /** A live record is queued by a merge, an expired one needs nothing any more. */
  lemma MergeKeepsRecord(h: History, now: real, r: Record)
    requires QueueTidy(h.shelf) && h.clock <= now && Kept(h, r)
    ensures r.at + QUARANTINE_SECONDS <= now || Entry(r.at + QUARANTINE_SECONDS, r.id) in Merge(h.shelf, now).queue
  {
    PurgeRemovesExpired(h.shelf, now);
    var picks := Selection(h.shelf.used, now);
    if r.run == h.run {
      var i :| 0 <= i < |h.shelf.used| && h.shelf.used[i] == Grant(r.id, r.at);
      assert EntryOf(h.shelf.used[i]) == Entry(r.at + QUARANTINE_SECONDS, r.id);
    }
  }

  /** A reset keeps the history sound exactly when its merge is harmless, whether it raises later or not. */
  lemma ResetIsSoundExactly(h: History, op: Op)
    requires Sound(h) && Possible(h, op) && (op.Retires? || op.Merges?)
    ensures Sound(Apply(h, op)) <==> Harmless(h.shelf, op.at)
  {
    hide Harmless, Ascending, Ids, Purge, Retained, Separated, QueuedFirst, GrantsTidy, IsCopy;
    MergeIsTidyExactly(h.shelf, h.clock, op.at);
    ResetTidiesExactly(h, op);
    forall i | 0 <= i < |h.log| ensures Kept(Apply(h, op), h.log[i]) {
      MergeKeepsRecord(h, op.at, h.log[i]);
    }
  }

  /** Clearing the table changes nothing about the queue. */
  lemma ResetTidiesExactly(h: History, op: Op)
    requires op.Retires? || op.Merges?
    requires UsedTidy(Merge(h.shelf, op.at), op.at)
    ensures QueueTidy(Apply(h, op).shelf) <==> QueueTidy(Merge(h.shelf, op.at))
    ensures UsedTidy(Apply(h, op).shelf, op.at)
  {
    hide Ascending, Ids, Purge, Retained;
    if op.Retires? {
      assert forall e <- Merge(h.shelf, op.at).queue :: Old([], e);
    }
  }

  // ---------- all histories ----------

  lemma StepIsSound(h: History, op: Op)
    requires Sound(h) && Possible(h, op) && Careful(h, op)
    ensures Sound(Apply(h, op))
  {
    match op
    case Grants(id, at) => GrantIsSound(h, id, at);
    case Purges(at) => PurgeIsSound(h, at);
    case Retires(_) => ResetIsSoundExactly(h, op);
    case Merges(_) => ResetIsSoundExactly(h, op);
    case Waits(_) => TimePasses(h, op);
    case Skips(_) => TimePasses(h, op);
  }

  lemma TimePasses(h: History, op: Op)
    requires Sound(h) && Possible(h, op) && (op.Waits? || op.Skips?)
    ensures Sound(Apply(h, op))
  {
    hide Ascending, Ids, Old, IsCopy, Separated;
  }

  /** Nothing granted, nothing queued. */
  lemma NewHistoryIsSound(clock: real, run: nat)
    ensures Sound(History(EMPTY, [], clock, run)) && Fresh(EMPTY)
  {}

  /**
     Over any possible history whose resets are harmless, those that raise part way included,
     one source never gets an identifier twice in a run, nor again within 300 seconds of its
     grant, and the queue and its lookup set never disagree.
   */
  lemma {:induction false} QuarantineHolds(h: History, ops: seq<Op>)
    requires Sound(h) && Legal(h, ops) && AllCareful(h, ops)
    ensures Sound(Replay(h, ops)) && Separated(Replay(h, ops).log)
    decreases |ops|
  {
    if ops == [] {
    } else {
      StepIsSound(h, ops[0]);
      QuarantineHolds(Apply(h, ops[0]), ops[1..]);
    }
  }

  // ---------- what is refused ----------

  /** Some grant of the log expires when the entry does. */
  ghost predicate FromLog(log: seq<Record>, e: Entry) {
    exists k :: 0 <= k < |log| && log[k].id == e.id && log[k].at + 300.0 == e.expiry
  }

  /** Nothing is held back without a grant in the log that it goes back to. */
  ghost predicate Backed(h: History) {
    && (forall g <- h.shelf.used :: Record(g.id, g.at, h.run) in h.log)
    && (forall e <- h.shelf.queue :: FromLog(h.log, e))
  }

  lemma {:induction false} PurgeKeepsFrom(s: Shelf, now: real)
    ensures Purge(s, now).used == s.used && forall e <- Purge(s, now).queue :: e in s.queue
    decreases |s.queue|
  {
    if s.queue == [] || s.queue[0].expiry > now {
    } else {
      PurgeKeepsFrom(s.(queue := s.queue[1..], ids := s.ids - {s.queue[0].id}), now);
    }
  }

  lemma RetainedComeFromLog(h: History, now: real)
    requires Backed(h)
    ensures forall e <- Retained(h.shelf.used, now) :: FromLog(h.log, e)
  {
    var live := Retained(h.shelf.used, now);
    var picks := Selection(h.shelf.used, now);
    hide Retained;
    forall e <- live ensures FromLog(h.log, e) {
      var k :| 0 <= k < |live| && live[k] == e;
      var g := h.shelf.used[picks[k]];
      assert g in h.shelf.used && Record(g.id, g.at, h.run) in h.log;
      var i :| 0 <= i < |h.log| && h.log[i] == Record(g.id, g.at, h.run);
    }
  }

  lemma LongerLog(log: seq<Record>, r: Record)
    ensures forall e :: FromLog(log, e) ==> FromLog(log + [r], e)
  {
    forall e | FromLog(log, e) ensures FromLog(log + [r], e) {
      var k :| 0 <= k < |log| && log[k].id == e.id && log[k].at + 300.0 == e.expiry;
      assert (log + [r])[k] == log[k];
    }
  }

  lemma StepKeepsBacked(h: History, op: Op)
    requires Backed(h) && Possible(h, op)
    ensures Backed(Apply(h, op))
  {
    PurgeKeepsFrom(h.shelf, op.at);
    RetainedComeFromLog(h, op.at);
    hide Purge, Retained, Grantable, Fits, FromLog;
    match op
    case Grants(id, at) => LongerLog(h.log, Record(id, at, h.run));
    case _ =>
  }

  lemma NewHistoryIsBacked(clock: real, run: nat)
    ensures Backed(History(EMPTY, [], clock, run))
  {}

  /** Nothing but a grant of this run, or one less than 300 seconds ago, keeps an identifier back. */
  lemma GrantableExactly(h: History, id: PacketId, now: real)
    requires Sound(h) && Backed(h) && h.clock <= now
    ensures Grantable(h.shelf, id, now)
       <==> forall r <- h.log :: r.id == id ==> r.run < h.run && r.at + 300.0 <= now
  {
    hide Separated, UsedTidy, FromLog;
    PurgeRemovesExpired(h.shelf, now);
    if Grantable(h.shelf, id, now) {
      forall r <- h.log | r.id == id ensures r.run < h.run && r.at + 300.0 <= now {
        var k :| 0 <= k < |h.log| && h.log[k] == r;
        GrantableIsFree(h, id, now, h.log[k]);
      }
    }
    if !Grantable(h.shelf, id, now) {
      HeldBackHasRecord(h, id, now);
    }
  }

  lemma HeldBackHasRecord(h: History, id: PacketId, now: real)
    requires QueueTidy(h.shelf) && Backed(h) && !Grantable(h.shelf, id, now)
    ensures exists r <- h.log :: r.id == id && (r.run == h.run || r.at + 300.0 > now)
  {
    PurgeRemovesExpired(h.shelf, now);
    var p := Purge(h.shelf, now);
    if Uses(p.used, id) {
      var i :| 0 <= i < |p.used| && p.used[i].id == id;
      assert p.used[i] in h.shelf.used && Record(id, p.used[i].at, h.run) in h.log;
    } else {
      var e :| e in p.queue && e.id == id;
      assert FromLog(h.log, e);
      var k :| 0 <= k < |h.log| && h.log[k].id == e.id && h.log[k].at + 300.0 == e.expiry;
      assert h.log[k] in h.log;
    }
  }

  /**
     Over any possible history whose resets are harmless: an identifier is refused exactly when it
     was granted in this run or less than 300 seconds ago.
   */
  lemma {:induction false} RefusedExactly(h: History, ops: seq<Op>, id: PacketId, now: real)
    requires Sound(h) && Backed(h) && Legal(h, ops) && AllCareful(h, ops) && Replay(h, ops).clock <= now
    ensures var end := Replay(h, ops);
            Grantable(end.shelf, id, now) <==>
              forall r <- end.log :: r.id == id ==> r.run < end.run && r.at + 300.0 <= now
    decreases |ops|
  {
    if ops == [] {
      GrantableExactly(h, id, now);
    } else {
      hide Sound, Backed, Grantable, Apply, Possible, Careful;
      StepIsSound(h, ops[0]);
      StepKeepsBacked(h, ops[0]);
      RefusedExactly(Apply(h, ops[0]), ops[1..], id, now);
    }
  }

  lemma StepKeepsFresh(h: History, op: Op)
    requires Sound(h) && Fresh(h.shelf) && Possible(h, op)
    ensures Careful(h, op) && (!op.Merges? ==> Fresh(Apply(h, op).shelf))
  {
    hide Purge, Grantable, Fits;
    match op
    case Grants(id, at) => GrantIsTidy(h.shelf, h.clock, id, at);
    case Retires(at) => MergeOfFreshIsDistinct(h.shelf, h.clock, at);
    case Merges(at) => MergeOfFreshIsDistinct(h.shelf, h.clock, at);
    case Purges(at) => PurgeKeepsFresh(h.shelf, at);
    case _ =>
  }

  /** Where no reset raises, every reset is harmless and no identifier is ever queued twice. */
  lemma {:induction false} UnraisedIsCareful(h: History, ops: seq<Op>)
    requires Sound(h) && Fresh(h.shelf) && Legal(h, ops) && AllUnraised(ops)
    ensures AllCareful(h, ops) && Sound(Replay(h, ops)) && Fresh(Replay(h, ops).shelf)
    decreases |ops|
  {
    if ops == [] {
    } else {
      StepKeepsFresh(h, ops[0]);
      StepIsSound(h, ops[0]);
      UnraisedIsCareful(Apply(h, ops[0]), ops[1..]);
    }
  }

  // ---------- what the log says about capacity ----------

  function Live(queue: seq<Entry>, t: real): nat {
    if queue == [] then 0 else Live(queue[..|queue| - 1], t) + if queue[|queue| - 1].expiry > t then 1 else 0
  }

  function LiveGrants(used: seq<Grant>, t: real): nat {
    if used == [] then 0 else LiveGrants(used[..|used| - 1], t) + if EntryOf(used[|used| - 1]).expiry > t then 1 else 0
  }

  /** The grants of the log whose quarantine time is not over at `t`. */
  function Recent(log: seq<Record>, t: real): nat {
    if log == [] then 0
    else Recent(log[..|log| - 1], t) + if log[|log| - 1].at + QUARANTINE_SECONDS > t then 1 else 0
  }

  /** The records whose 300 seconds are not over at `t`. */
  lemma {:induction false} RecentCounts(log: seq<Record>, t: real)
    ensures Recent(log, t) == |set i | 0 <= i < |log| && log[i].at + 300.0 > t|
  {
    if log == [] {
    } else {
      var n := |log| - 1;
      RecentCounts(log[..n], t);
      var before := set i | 0 <= i < n && log[..n][i].at + 300.0 > t;
      OneMorePosition(before, (set i | 0 <= i < |log| && log[i].at + 300.0 > t), n, log[n].at + 300.0 > t);
    }
  }

  /** From now on, what is held for the source is counted by its log. */
  ghost predicate Accounted(h: History) {
    forall t: real :: h.clock <= t ==> Live(h.shelf.queue, t) + LiveGrants(h.shelf.used, t) == Recent(h.log, t)
  }

  lemma {:induction false} LiveJoined(a: seq<Entry>, b: seq<Entry>, t: real)
    ensures Live(a + b, t) == Live(a, t) + Live(b, t)
  {
    if b == [] {
      assert a + b == a;
    } else {
      assert (a + b)[..|a + b| - 1] == a + b[..|b| - 1];
      LiveJoined(a, b[..|b| - 1], t);
    }
  }

  lemma {:induction false} PurgeKeepsLive(s: Shelf, now: real, t: real)
    requires now <= t
    ensures Live(Purge(s, now).queue, t) == Live(s.queue, t)
    decreases |s.queue|
  {
    if s.queue == [] || s.queue[0].expiry > now {
    } else {
      var first, rest := s.queue[0], s.queue[1..];
      assert s.queue == [first] + rest && [first][..0] == [];
      LiveJoined([first], rest, t);
      PurgeKeepsLive(s.(queue := rest, ids := s.ids - {first.id}), now, t);
    }
  }

  lemma LiveSnoc(queue: seq<Entry>, e: Entry, t: real)
    ensures Live(queue + [e], t) == Live(queue, t) + if e.expiry > t then 1 else 0
  {
    DropLast(queue, e);
  }

  lemma {:induction false} RetainedLive(used: seq<Grant>, now: real, t: real)
    requires now <= t
    ensures Live(Retained(used, now), t) == LiveGrants(used, t)
  {
    if used == [] {
    } else {
      var rest, last := used[..|used| - 1], used[|used| - 1];
      var init := Retained(rest, now);
      assert Retained(used, now) == if EntryOf(last).expiry > now then init + [EntryOf(last)] else init;
      assert LiveGrants(used, t) == LiveGrants(rest, t) + if EntryOf(last).expiry > t then 1 else 0;
      hide Retained, Live, LiveGrants;
      RetainedLive(rest, now, t);
      LiveSnoc(init, EntryOf(last), t);
    }
  }

  lemma {:induction false} AllLive(queue: seq<Entry>, t: real)
    requires forall e <- queue :: e.expiry > t
    ensures Live(queue, t) == |queue|
  {
    if queue == [] {
    } else {
      AllLive(queue[..|queue| - 1], t);
    }
  }

  /** Every step but a merge that raises keeps the count. */
  lemma StepKeepsAccounted(h: History, op: Op)
    requires Accounted(h) && Possible(h, op) && !op.Merges?
    ensures Accounted(Apply(h, op))
  {
    var next := Apply(h, op);
    forall t: real | op.at <= t
      ensures Live(next.shelf.queue, t) + LiveGrants(next.shelf.used, t) == Recent(next.log, t)
    {
      assert h.clock <= t;
      CountsAfter(h, op, t);
    }
  }

  lemma CountsAfter(h: History, op: Op, t: real)
    requires Possible(h, op) && !op.Merges? && op.at <= t
    requires Live(h.shelf.queue, t) + LiveGrants(h.shelf.used, t) == Recent(h.log, t)
    ensures var next := Apply(h, op);
            Live(next.shelf.queue, t) + LiveGrants(next.shelf.used, t) == Recent(next.log, t)
  {
    PurgeKeepsLive(h.shelf, op.at, t);
    PurgeAddsNothing(h.shelf, op.at);
    hide Purge, Grantable, Fits;
    match op
    case Grants(id, at) =>
      DropLast(h.shelf.used, Grant(id, at));
      DropLast(h.log, Record(id, at, h.run));
    case Retires(at) =>
      RetainedLive(h.shelf.used, at, t);
      LiveJoined(Purge(h.shelf, at).queue, Retained(h.shelf.used, at), t);
    case _ =>
  }

  lemma RetainedAreAllLive(used: seq<Grant>, now: real)
    ensures forall e <- Retained(used, now) :: e.expiry > now
  {
    var picks := Selection(used, now);
  }

  /**
     A source fits exactly when it was granted no more identifiers in the last 300 seconds than the
     quarantine holds.
   */
  lemma FitsExactly(h: History, now: real)
    requires QueueTidy(h.shelf) && Accounted(h) && h.clock <= now
    ensures Fits(h.shelf, now) <==> Recent(h.log, now) <= 36_000
  {
    var p, live := Purge(h.shelf, now), Retained(h.shelf.used, now);
    PurgeRemovesExpired(h.shelf, now);
    PurgeKeepsLive(h.shelf, now, now);
    AllLive(p.queue, now);
    RetainedLive(h.shelf.used, now, now);
    RetainedAreAllLive(h.shelf.used, now);
    AllLive(live, now);
  }

  /** No reset has raised after merging this source: nothing is queued twice, and the log counts what is held. */
  ghost predicate Unmerged(h: History) {
    Fresh(h.shelf) && Accounted(h)
  }

  lemma StepKeepsUnmerged(h: History, op: Op)
    requires Sound(h) && Unmerged(h) && Possible(h, op) && !op.Merges?
    ensures Unmerged(Apply(h, op))
  {
    StepKeepsFresh(h, op);
    StepKeepsAccounted(h, op);
  }

  lemma NewHistoryIsUnmerged(clock: real, run: nat)
    ensures Unmerged(History(EMPTY, [], clock, run))
  {}

  // ---------- what a harmful reset leads to ----------

  /** Expired entries at the front are popped, and their identifiers are forgotten. */
  lemma {:induction false} PurgePrefix(s: Shelf, now: real, k: nat)
    requires k <= |s.queue| && forall i :: 0 <= i < k ==> s.queue[i].expiry <= now
    ensures Purge(s, now) == Purge(s.(queue := s.queue[k..], ids := s.ids - Ids(s.queue[..k])), now)
    decreases k
  {
    if k == 0 {
      assert s.queue[0..] == s.queue && s.ids - Ids(s.queue[..0]) == s.ids;
    } else {
      var first, next := s.queue[0], s.(queue := s.queue[1..], ids := s.ids - {s.queue[0].id});
      PurgePrefix(next, now, k - 1);
      assert s.queue[1..][k - 1..] == s.queue[k..];
      assert s.queue[..k] == [first] + next.queue[..k - 1];
      assert Ids(s.queue[..k]) == {first.id} + Ids(next.queue[..k - 1]);
      assert next.ids - Ids(next.queue[..k - 1]) == s.ids - Ids(s.queue[..k]);
    }
  }

  lemma {:induction false} PurgeAddsNothing(s: Shelf, now: real)
    ensures Purge(s, now).ids <= s.ids && Purge(s, now).used == s.used && |Purge(s, now).queue| <= |s.queue|
    decreases |s.queue|
  {
    if s.queue == [] || s.queue[0].expiry > now {
    } else {
      PurgeAddsNothing(s.(queue := s.queue[1..], ids := s.ids - {s.queue[0].id}), now);
    }
  }

  /** An identifier among the popped ones can be granted, whatever is queued behind. */
  lemma PoppedIsGrantable(s: Shelf, now: real, k: nat, i: nat)
    requires s.used == [] && i < k <= |s.queue| && forall j :: 0 <= j < k ==> s.queue[j].expiry <= now
    ensures Grantable(s, s.queue[i].id, now)
  {
    PurgePrefix(s, now, k);
    assert s.queue[..k][i] == s.queue[i];
    PurgeAddsNothing(s.(queue := s.queue[k..], ids := s.ids - Ids(s.queue[..k])), now);
  }

  /** The first live grant, queued already and again, with a later entry in between. */
  ghost predicate Inverted(queue: seq<Entry>, first: nat, between: nat, again: nat) {
    && first < between < again < |queue|
    && queue[first] == queue[again]
    && (forall j :: 0 <= j < between ==> queue[j].expiry <= queue[first].expiry)
    && queue[between].expiry > queue[first].expiry
    && (forall j :: 0 <= j < again ==> queue[j].expiry <= queue[again - 1].expiry)
  }

  lemma {:induction false} SplitAt(queue: seq<Entry>, t: real) returns (k: nat)
    requires Ascending(queue)
    ensures k <= |queue| && forall j :: 0 <= j < |queue| ==> (queue[j].expiry <= t <==> j < k)
    decreases |queue|
  {
    if queue == [] || queue[|queue| - 1].expiry <= t {
      k := |queue|;
    } else {
      k := SplitAt(queue[..|queue| - 1], t);
    }
  }

  lemma {:induction false} RetainedHead(used: seq<Grant>, now: real) returns (f: nat)
    requires Retained(used, now) != []
    ensures f < |used| && Retained(used, now)[0] == EntryOf(used[f])
    ensures EntryOf(used[f]).expiry > now && forall i :: 0 <= i < f ==> EntryOf(used[i]).expiry <= now
  {
    var n := |used| - 1;
    if Retained(used[..n], now) != [] {
      f := RetainedHead(used[..n], now);
    } else {
      f := n;
      var picks := Selection(used[..n], now);
      assert picks == [];
    }
  }

  lemma LiveIsRetained(used: seq<Grant>, j: nat, now: real)
    requires j < |used| && EntryOf(used[j]).expiry > now
    ensures Retained(used, now) != []
  {
    var picks := Selection(used, now);
  }

  /** The first live grant and a later one, both queued already. */
  lemma HarmfulPair(s: Shelf, clock: real, now: real) returns (f: nat, i: nat)
    requires UsedTidy(s, clock) && clock <= now && !Harmless(s, now)
    ensures f < i < |s.used| && s.used[f].at < s.used[i].at && EntryOf(s.used[f]).expiry > now
    ensures Queued(s, f) && Queued(s, i)
    ensures Retained(s.used, now) != [] && Retained(s.used, now)[0] == EntryOf(s.used[f])
  {
    hide Retained, Old, IsCopy, Ascending;
    var j;
    i, j :| 0 <= i < |s.used| && 0 <= j < |s.used| && Queued(s, i)
      && EntryOf(s.used[i]).expiry > now && EntryOf(s.used[j]).expiry > now && s.used[i].at > s.used[j].at;
    LiveIsRetained(s.used, j, now);
    f := RetainedHead(s.used, now);
  }

  lemma JoinInverts(queue: seq<Entry>, live: seq<Entry>, e: Entry, later: Entry) returns (first: nat, between: nat)
    requires Ascending(queue) && e in queue && later in queue && e.expiry < later.expiry
    requires live != [] && live[0] == e
    ensures Inverted(queue + live, first, between, |queue|) && (queue + live)[first] == e
  {
    first :| 0 <= first < |queue| && queue[first] == e;
    between := SplitAt(queue, e.expiry);
    var l :| 0 <= l < |queue| && queue[l] == later;
    forall j | 0 <= j < |queue| ensures queue[j].expiry <= queue[|queue| - 1].expiry {
      assert j < |queue| - 1 ==> Precedes(queue[j], queue[|queue| - 1]);
    }
  }

  lemma HarmInverts(s: Shelf, clock: real, now: real) returns (first: nat, between: nat, again: nat)
    requires QueueTidy(s) && UsedTidy(s, clock) && clock <= now && !Harmless(s, now)
    ensures Inverted(Merge(s, now).queue, first, between, again)
    ensures Retained(s.used, now) != [] && Purge(s, now).queue != []
    ensures Merge(s, now).queue[first] == Retained(s.used, now)[0]
    ensures again == |Purge(s, now).queue|
  {
    hide Purge, Retained, UsedTidy, Harmless, Inverted, Ascending, Ids;
    PurgeRemovesExpired(s, now);
    var f, i := HarmfulPair(s, clock, now);
    var queue := Purge(s, now).queue;
    first, between := JoinInverts(queue, Retained(s.used, now), EntryOf(s.used[f]), EntryOf(s.used[i]));
    again := |queue|;
  }

  /** The three steps: granted when its first entry expires, retired, and granted again too soon. */
  lemma InversionReleases(h: History, now: real)
    returns (id: PacketId, freed: real, reused: real)
    requires Sound(h) && Possible(h, Retires(now)) && !Harmless(h.shelf, now)
    ensures Retained(h.shelf.used, now) != [] && Purge(h.shelf, now).queue != []
    ensures Entry(freed, id) == Retained(h.shelf.used, now)[0]
    ensures reused == Purge(h.shelf, now).queue[|Purge(h.shelf, now).queue| - 1].expiry
    ensures var h1 := Apply(h, Retires(now));
            var h2 := Apply(h1, Grants(id, freed));
            var h3 := Apply(h2, Retires(freed));
            (&& Possible(h1, Grants(id, freed)) && Possible(h2, Retires(freed)) && Possible(h3, Grants(id, reused))
             && !Separated(Apply(h3, Grants(id, reused)).log))
  {
    hide Harmless, Retained, Purge, QueueTidy, UsedTidy, Kept, Separated, Fits;
    var first, between, again := HarmInverts(h.shelf, h.clock, now);
    MergeIsTidyExactly(h.shelf, h.clock, now);
    var queue := Merge(h.shelf, now).queue;
    var e := queue[first];
    id, freed, reused := e.id, e.expiry, queue[again - 1].expiry;
    LiveOutlasts(h.shelf, h.clock, now);
    FitsWhole(h.shelf, now);
    ReleaseSteps(Apply(h, Retires(now)), first, between, again);
  }

  /** What is queued expires less than a quarantine time after the first live grant's entry. */
  lemma LiveOutlasts(s: Shelf, clock: real, now: real)
    requires QueueTidy(s) && UsedTidy(s, clock) && clock <= now
    requires Retained(s.used, now) != [] && Purge(s, now).queue != []
    ensures now < Retained(s.used, now)[0].expiry
    ensures Purge(s, now).queue[|Purge(s, now).queue| - 1].expiry < Retained(s.used, now)[0].expiry + QUARANTINE_SECONDS
  {
    hide Purge, Retained, QueuedFirst, Old, IsCopy;
    PurgeRemovesExpired(s, now);
    var f := RetainedHead(s.used, now);
    var queue := Purge(s, now).queue;
    assert queue[|queue| - 1] in queue;
  }

  lemma FitsWhole(s: Shelf, now: real)
    requires Fits(s, now)
    ensures |Merge(s, now).queue| <= MAX_QUARANTINED
  {}

  lemma ReleaseSteps(h: History, first: nat, between: nat, again: nat)
    requires h.shelf.used == [] && Inverted(h.shelf.queue, first, between, again) && |h.shelf.queue| <= MAX_QUARANTINED
    requires h.clock <= h.shelf.queue[first].expiry
    requires h.shelf.queue[again - 1].expiry < h.shelf.queue[first].expiry + QUARANTINE_SECONDS
    ensures var id, freed := h.shelf.queue[first].id, h.shelf.queue[first].expiry;
            var reused := h.shelf.queue[again - 1].expiry;
            var h2 := Apply(h, Grants(id, freed));
            var h3 := Apply(h2, Retires(freed));
            (&& Possible(h, Grants(id, freed)) && Possible(h2, Retires(freed)) && Possible(h3, Grants(id, reused))
             && !Separated(Apply(h3, Grants(id, reused)).log))
  {
    var queue := h.shelf.queue;
    var id, freed, reused := queue[first].id, queue[first].expiry, queue[again - 1].expiry;
    assert reused > freed by {
      assert queue[between].expiry <= reused;
    }
    hide Purge, Retained, Grantable, Fits;
    PoppedIsGrantable(h.shelf, freed, between, first);
    GrantAfterPops(h, id, freed, between);
    var h2 := Apply(h, Grants(id, freed));
    RetireOne(h2, id, freed);
    var h3 := Apply(h2, Retires(freed));
    var last := again - between;
    assert h3.shelf.queue == queue[between..] + [Entry(freed + QUARANTINE_SECONDS, id)];
    assert forall j :: 0 <= j <= last ==> h3.shelf.queue[j] == queue[between + j];
    PoppedIsGrantable(h3.shelf, reused, last + 1, last);
    var end := Apply(h3, Grants(id, reused));
    assert end.log[|h.log|] == Record(id, freed, h.run) && end.log[|h.log| + 1] == Record(id, reused, h.run + 1);
  }

  lemma GrantAfterPops(h: History, id: PacketId, now: real, k: nat)
    requires h.shelf.used == [] && 0 < k < |h.shelf.queue| && h.shelf.queue[k].expiry > now
    requires forall j :: 0 <= j < k ==> h.shelf.queue[j].expiry <= now
    ensures var s := Apply(h, Grants(id, now)).shelf;
            s.used == [Grant(id, now)] && s.queue == h.shelf.queue[k..]
  {
    PurgePrefix(h.shelf, now, k);
  }

  lemma RetireOne(h: History, id: PacketId, now: real)
    requires h.shelf.used == [Grant(id, now)] && h.shelf.queue != [] && h.shelf.queue[0].expiry > now
    requires |h.shelf.queue| < MAX_QUARANTINED
    ensures Fits(h.shelf, now)
    ensures Apply(h, Retires(now)).shelf.queue == h.shelf.queue + [Entry(now + QUARANTINE_SECONDS, id)]
  {
    assert h.shelf.used[..0] == [];
    assert Retained(h.shelf.used, now) == [Entry(now + QUARANTINE_SECONDS, id)];
  }

  /**
     The exact condition. After a reset that succeeds, identifiers stay separated over every
     further history in which no reset raises if and only if that reset was harmless: no grant
     that an earlier, raising reset had queued was later than another grant still live.
   */
  lemma RetryBreaksQuarantineExactly(h: History, now: real)
    requires Sound(h) && Possible(h, Retires(now))
    ensures Harmless(h.shelf, now) <==>
            forall ops: seq<Op> :: Legal(Apply(h, Retires(now)), ops) && AllUnraised(ops) ==>
              Separated(Replay(Apply(h, Retires(now)), ops).log)
  {
    var h1 := Apply(h, Retires(now));
    if Harmless(h.shelf, now) {
      ResetIsSoundExactly(h, Retires(now));
      forall ops: seq<Op> | Legal(h1, ops) && AllUnraised(ops)
        ensures Separated(Replay(h1, ops).log)
      {
        AfterRetireIsCareful(h1, ops);
      }
    } else {
      var id, freed, reused := InversionReleases(h, now);
      var a, b, c := Grants(id, freed), Retires(freed), Grants(id, reused);
      OneMore(Apply(Apply(h1, a), b), c, []);
      OneMore(Apply(h1, a), b, [c] + []);
      OneMore(h1, a, [b] + ([c] + []));
      var ops := [a] + ([b] + ([c] + []));
      assert Legal(h1, ops) && !Separated(Replay(h1, ops).log);
      assert AllUnraised(ops);
    }
  }

  lemma OneMore(h: History, op: Op, rest: seq<Op>)
    requires Possible(h, op) && Legal(Apply(h, op), rest)
    ensures Legal(h, [op] + rest) && Replay(h, [op] + rest) == Replay(Apply(h, op), rest)
  {
    assert ([op] + rest)[1..] == rest;
  }

  /** No grant of the current run is queued. */
  predicate NoneQueued(s: Shelf) {
    forall i :: 0 <= i < |s.used| ==> !Queued(s, i)
  }

  lemma {:induction false} AfterRetireIsCareful(h: History, ops: seq<Op>)
    requires Sound(h) && NoneQueued(h.shelf) && Legal(h, ops) && AllUnraised(ops)
    ensures Separated(Replay(h, ops).log)
    decreases |ops|
  {
    if ops == [] {
    } else {
      var op := ops[0];
      assert Harmless(h.shelf, op.at);
      StepIsSound(h, op);
      StaysUnqueued(h, op);
      AfterRetireIsCareful(Apply(h, op), ops[1..]);
    }
  }

  lemma StaysUnqueued(h: History, op: Op)
    requires QueueTidy(h.shelf) && NoneQueued(h.shelf) && Possible(h, op) && !op.Merges?
    ensures NoneQueued(Apply(h, op).shelf)
  {
    if op.Grants? {
      GrantStaysUnqueued(h.shelf, op.id, op.at);
    } else if op.Purges? {
      PurgeRemovesExpired(h.shelf, op.at);
      var p := Purge(h.shelf, op.at);
      forall i | 0 <= i < |p.used| ensures !Queued(p, i) {
        assert !Queued(h.shelf, i);
      }
    }
  }

  lemma GrantStaysUnqueued(s: Shelf, id: PacketId, now: real)
    requires QueueTidy(s) && NoneQueued(s) && Grantable(s, id, now)
    ensures NoneQueued(Allocate(s, id, now))
  {
    PurgeRemovesExpired(s, now);
    var p, next := Purge(s, now), Allocate(s, id, now);
    hide Purge;
    forall i | 0 <= i < |next.used| ensures !Queued(next, i) {
      if i < |s.used| {
        assert next.used[i] == s.used[i] && !Queued(s, i);
      } else {
        UnlistedIsUnqueued(next, i);
      }
    }
  }

  // ---------- all sources ----------

  /** The first draw that is acceptable; None when none is. */
  predicate TakesFirst(used: seq<Grant>, quarantined: set<PacketId>, draws: seq<PacketId>, id: Option<PacketId>) {
    match id
    case None => forall d <- draws :: !Acceptable(used, quarantined, d)
    case Some(x) => exists k :: 0 <= k < |draws| && draws[k] == x && Acceptable(used, quarantined, x)
                                && forall j :: 0 <= j < k ==> !Acceptable(used, quarantined, draws[j])
  }

  /** The first draw that is neither used nor quarantined; None when every draw is one or the other. */
  method FirstAcceptable(used: seq<Grant>, quarantined: set<PacketId>, draws: seq<PacketId>)
    returns (id: Option<PacketId>)
    ensures TakesFirst(used, quarantined, draws, id)
  {
    for i := 0 to |draws|
      invariant forall k :: 0 <= k < i ==> !Acceptable(used, quarantined, draws[k])
    {
      if draws[i] !in quarantined && !Uses(used, draws[i]) {
        return Some(draws[i]);
      }
    }
    return None;
  }

  /** What an allocation for `source` does to the history of `s`. */
  function DrawOp(s: string, source: string, id: Option<PacketId>, now: real): Op {
    if s != source then Waits(now) else if id.Some? then Grants(id.value, now) else Purges(now)
  }

  lemma DrawIsApplied(h: History, s: string, source: string, id: Option<PacketId>, now: real)
    requires h.clock <= now && (s == source && id.Some? ==> Grantable(h.shelf, id.value, now))
    ensures Possible(h, DrawOp(s, source, id, now))
    ensures Apply(h, DrawOp(s, source, id, now))
         == if s != source then History(h.shelf, h.log, now, h.run)
            else if id.None? then History(Purge(h.shelf, now), h.log, now, h.run)
            else History(Allocate(h.shelf, id.value, now), h.log + [Record(id.value, now, h.run)], now, h.run)
  {}

  /** What a reset that reached the first `reached` of `sources` does to the history of `s`. */
  function ResetOp(s: string, sources: seq<string>, reached: nat, now: real): Op
    requires reached <= |sources|
  {
    if reached == |sources| then if s in sources then Retires(now) else Skips(now)
    else if s in sources[..reached] then Merges(now)
    else if s == sources[reached] then Purges(now)
    else Waits(now)
  }

  lemma DrawMergesNothing(s: string, source: string, id: Option<PacketId>, now: real)
    ensures var op := DrawOp(s, source, id, now);
            !op.Merges? && !op.Retires?
  {}

  lemma RetiringMergesNothing(s: string, sources: seq<string>, now: real)
    ensures !ResetOp(s, sources, |sources|, now).Merges?
  {}

  /** One step of one source, as far as it depends on what was sound, fresh and careful before. */
  lemma StepKeeps(h: History, op: Op)
    requires Possible(h, op)
    ensures Sound(h) && Careful(h, op) ==> Sound(Apply(h, op))
    ensures Sound(h) && Unmerged(h) ==> Careful(h, op) && (!op.Merges? ==> Unmerged(Apply(h, op)))
  {
    if Sound(h) && Careful(h, op) {
      StepIsSound(h, op);
    }
    if Sound(h) && Unmerged(h) {
      StepKeepsFresh(h, op);
      if !op.Merges? {
        StepKeepsUnmerged(h, op);
      }
    }
  }

  lemma DrawIsCareful(h: History, op: Op)
    requires !op.Merges? && !op.Retires?
    ensures Careful(h, op)
  {}

  /** The shelf of `s` once the source loop of a reset has stopped at `reached`. */
  function AfterLoop(shelf: Shelf, s: string, sources: seq<string>, reached: nat, now: real): Shelf
    requires reached <= |sources|
  {
    if s in sources[..reached] then Merge(shelf, now)
    else if reached < |sources| && s == sources[reached] then Purge(shelf, now)
    else shelf
  }

  lemma LoopShelf(shelf: Shelf, s: string, sources: seq<string>, reached: nat, now: real)
    requires reached <= |sources|
    ensures AfterLoop(shelf, s, sources, reached, now)
         == if s in sources[..reached] then Merge(shelf, now)
            else if reached < |sources| && s == sources[reached] then Purge(shelf, now) else shelf
  {}

  lemma OneFurther(sources: seq<string>, i: nat)
    requires i < |sources| && forall j, k :: 0 <= j < k < |sources| ==> sources[j] != sources[k]
    ensures sources[i] !in sources[..i]
    ensures forall s :: s in sources[..i + 1] <==> s in sources[..i] || s == sources[i]
  {
    assert sources[..i + 1] == sources[..i] + [sources[i]];
  }

  lemma LoopIsReset(h: History, s: string, sources: seq<string>, reached: nat, now: real)
    requires reached <= |sources| && h.clock <= now && (s !in sources ==> h.shelf.used == [])
    requires s in sources[..reached] ==> Fits(h.shelf, now)
    ensures Possible(h, ResetOp(s, sources, reached, now))
    ensures var after := AfterLoop(h.shelf, s, sources, reached, now);
            (Apply(h, ResetOp(s, sources, reached, now))
             == if reached == |sources| then History(after.(used := []), h.log, now, h.run + 1)
                else History(after, h.log, now, h.run))
  {
    hide Merge, Purge, Fits;
    assert sources[..|sources|] == sources;
  }

  datatype PoolStep = Draw(source: string, draws: seq<PacketId>, at: real) | Reset(at: real)

  /** Drawing at `now` takes the first draw that can be granted then. */
  predicate DrawsFirst(s: Shelf, draws: seq<PacketId>, id: Option<PacketId>, now: real) {
    TakesFirst(Purge(s, now).used, Purge(s, now).ids, draws, id)
  }

  lemma TakenIsGrantable(s: Shelf, draws: seq<PacketId>, id: Option<PacketId>, now: real)
    requires DrawsFirst(s, draws, id, now)
    ensures id.Some? ==> Grantable(s, id.value, now)
    ensures id.None? ==> forall d <- draws :: !Grantable(s, d, now)
  {}

  lemma TakenIsDrawn(s: Shelf, draws: seq<PacketId>, id: Option<PacketId>, now: real)
    requires DrawsFirst(s, draws, id, now)
    ensures id.Some? ==> id.value in draws
  {}

  class PacketIdPool {
    /** Sources in the order they first allocated in this run. */
    var sources: seq<string>
    var packetIdsBySource: map<string, seq<Grant>>
    var packetIdQuarantine: map<string, seq<Entry>>
    var quarantinedPacketIds: map<string, set<PacketId>>

    /** Every grant so far, by source, and the number of resets that succeeded. */
    ghost var logs: map<string, seq<Record>>
    ghost var clock: real
    ghost var run: nat
    /** Whether any reset raised, and whether every merge so far was harmless. */
    ghost var raised: bool
    ghost var harmless: bool
    /** Grants of all sources since the last reset that succeeded, and the most between two such resets. */
    ghost var drawn: nat
    ghost var busiest: nat

    ghost predicate Shaped()
      reads `sources, `packetIdsBySource
    {
      && packetIdsBySource.Keys == (set s <- sources)
      && (forall i, j :: 0 <= i < j < |sources| ==> sources[i] != sources[j])
    }

    ghost predicate Valid()
      reads this
    {
      && Shaped()
      && (harmless ==> forall s :: Sound(HistoryOf(s)))
      && (!raised ==> harmless && forall s :: Unmerged(HistoryOf(s)))
      && drawn <= busiest
    }

    ghost function ShelfOf(source: string): Shelf
      reads `packetIdsBySource, `packetIdQuarantine, `quarantinedPacketIds
    {
      Shelf(
        if source in packetIdsBySource then packetIdsBySource[source] else [],
        if source in packetIdQuarantine then packetIdQuarantine[source] else [],
        if source in quarantinedPacketIds then quarantinedPacketIds[source] else {})
    }

    ghost function LogOf(source: string): seq<Record>
      reads `logs
    {
      if source in logs then logs[source] else []
    }

    ghost function HistoryOf(source: string): History
      reads this
    {
      History(ShelfOf(source), LogOf(source), clock, run)
    }

    constructor (ghost now: real)
      ensures Valid() && !raised && harmless && clock == now && run == 0 && sources == []
      ensures drawn == 0 && busiest == 0
      ensures forall s :: HistoryOf(s) == History(EMPTY, [], now, 0)
    {
      sources, packetIdsBySource, packetIdQuarantine, quarantinedPacketIds := [], map[], map[], map[];
      logs, clock, run, raised, harmless, drawn, busiest := map[], now, 0, false, true, 0, 0;
      NewHistoryIsSound(now, 0);
      NewHistoryIsUnmerged(now, 0);
    }

    method PurgeQuarantine(source: string, now: real)
      modifies this`packetIdQuarantine, this`quarantinedPacketIds
      ensures ShelfOf(source) == Purge(old(ShelfOf(source)), now)
      ensures forall s :: s != source ==> ShelfOf(s) == old(ShelfOf(s))
      ensures source in packetIdQuarantine && source in quarantinedPacketIds
    {
      var queue := if source in packetIdQuarantine then packetIdQuarantine[source] else [];
      var ids := if source in quarantinedPacketIds then quarantinedPacketIds[source] else {};
      ghost var used := ShelfOf(source).used;
      while queue != [] && queue[0].expiry <= now
        invariant Purge(Shelf(used, queue, ids), now) == Purge(old(ShelfOf(source)), now)
        decreases |queue|
      {
        var id := queue[0].id;
        queue := queue[1..];
        ids := ids - {id};
      }
      packetIdQuarantine := packetIdQuarantine[source := queue];
      quarantinedPacketIds := quarantinedPacketIds[source := ids];
    }

    method AddTable(source: string)
      requires Shaped()
      modifies this`sources, this`packetIdsBySource
      ensures Shaped() && source in packetIdsBySource && forall s :: ShelfOf(s) == old(ShelfOf(s))
      ensures sources == if source in old(sources) then old(sources) else old(sources) + [source]
    {
      if source !in packetIdsBySource {
        packetIdsBySource := packetIdsBySource[source := []];
        sources := sources + [source];
      }
    }

    /** The allocation itself: purge, then the first acceptable draw. */
    method TakeDraw(source: string, draws: seq<PacketId>, now: real) returns (id: Option<PacketId>)
      requires Shaped()
      modifies this`sources, this`packetIdsBySource, this`packetIdQuarantine, this`quarantinedPacketIds
      ensures Shaped()
      ensures sources == if source in old(sources) then old(sources) else old(sources) + [source]
      ensures forall s :: s != source ==> ShelfOf(s) == old(ShelfOf(s))
      ensures DrawsFirst(old(ShelfOf(source)), draws, id, now)
      ensures ShelfOf(source) == if id.Some? then Allocate(old(ShelfOf(source)), id.value, now)
                                 else Purge(old(ShelfOf(source)), now)
    {
      PurgeQuarantine(source, now);
      AddTable(source);
      hide Purge, TakesFirst, Shaped;
      PurgeAddsNothing(old(ShelfOf(source)), now);
      id := FirstAcceptable(packetIdsBySource[source], quarantinedPacketIds[source], draws);
      if id.Some? {
        AddToTable(source, Grant(id.value, now));
      }
    }

    method AddToTable(source: string, g: Grant)
      requires Shaped() && source in packetIdsBySource
      modifies this`packetIdsBySource
      ensures Shaped() && forall s :: s != source ==> ShelfOf(s) == old(ShelfOf(s))
      ensures ShelfOf(source) == old(ShelfOf(source)).(used := old(ShelfOf(source)).used + [g])
    {
      packetIdsBySource := packetIdsBySource[source := packetIdsBySource[source] + [g]];
    }

    /** The allocation with its record. */
    method LogDraw(source: string, draws: seq<PacketId>, now: real) returns (id: Option<PacketId>)
      requires Shaped() && clock <= now
      modifies this
      ensures Shaped() && clock == now && run == old(run) && raised == old(raised) && harmless == old(harmless)
      ensures drawn == old(drawn) && busiest == old(busiest)
      ensures sources == if source in old(sources) then old(sources) else old(sources) + [source]
      ensures forall s :: HistoryOf(s) == Apply(old(HistoryOf(s)), DrawOp(s, source, id, now))
      ensures forall s :: Possible(old(HistoryOf(s)), DrawOp(s, source, id, now))
      ensures forall s :: LogOf(s) == if s == source && id.Some? then old(LogOf(s)) + [Record(id.value, now, run)]
                                      else old(LogOf(s))
      ensures id.Some? ==> id.value in draws
      ensures DrawsFirst(old(ShelfOf(source)), draws, id, now)
    {
      hide Purge, Allocate, Grantable, Shaped, DrawsFirst, Apply, DrawOp, Possible;
      id := TakeDraw(source, draws, now);
      TakenIsGrantable(old(ShelfOf(source)), draws, id, now);
      TakenIsDrawn(old(ShelfOf(source)), draws, id, now);
      clock := now;
      if id.Some? {
        logs := logs[source := LogOf(source) + [Record(id.value, now, run)]];
      }
      forall s
        ensures HistoryOf(s) == Apply(old(HistoryOf(s)), DrawOp(s, source, id, now))
        ensures Possible(old(HistoryOf(s)), DrawOp(s, source, id, now))
      {
        DrawIsApplied(old(HistoryOf(s)), s, source, id, now);
      }
    }

    /**
     Takes the first acceptable draw; the random stream is the argument. None means that
     none of these draws was acceptable, where the source would go on drawing.
     */
    method AllocatePacketId(source: string, draws: seq<PacketId>, now: real) returns (id: Option<PacketId>)
      requires Valid() && clock <= now
      modifies this
      ensures Valid() && clock == now && run == old(run) && raised == old(raised) && harmless == old(harmless)
      ensures drawn == old(drawn) + (if id.Some? then 1 else 0)
      ensures busiest == if old(busiest) < drawn then drawn else old(busiest)
      ensures sources == if source in old(sources) then old(sources) else old(sources) + [source]
      ensures forall s :: HistoryOf(s) == Apply(old(HistoryOf(s)), DrawOp(s, source, id, now))
      ensures forall s :: LogOf(s) == if s == source && id.Some? then old(LogOf(s)) + [Record(id.value, now, run)]
                                      else old(LogOf(s))
      ensures id.Some? ==> id.value in draws
      ensures DrawsFirst(old(ShelfOf(source)), draws, id, now)
    {
      hide Sound, Unmerged, Apply, Possible, DrawsFirst, Shaped, DrawOp, ShelfOf;
      id := LogDraw(source, draws, now);
      if id.Some? {
        drawn := drawn + 1;
        busiest := if busiest < drawn then drawn else busiest;
      }
      forall s
        ensures old(harmless) ==> Sound(HistoryOf(s))
        ensures !old(raised) ==> Unmerged(HistoryOf(s))
      {
        DrawMergesNothing(s, source, id, now);
        DrawIsCareful(old(HistoryOf(s)), DrawOp(s, source, id, now));
        StepKeeps(old(HistoryOf(s)), DrawOp(s, source, id, now));
      }
    }

    /** Puts the live grants of one source in quarantine, unless they do not fit. */
    method MergeSource(source: string, now: real) returns (fits: bool)
      requires source in packetIdsBySource
      modifies this`packetIdQuarantine, this`quarantinedPacketIds
      ensures fits == Fits(old(ShelfOf(source)), now)
      ensures forall s :: s != source ==> ShelfOf(s) == old(ShelfOf(s))
      ensures ShelfOf(source) == if fits then Merge(old(ShelfOf(source)), now) else Purge(old(ShelfOf(source)), now)
    {
      PurgeQuarantine(source, now);
      var grants := packetIdsBySource[source];
      var retained: seq<Entry> := [];
      for i := 0 to |grants|
        invariant retained == Retained(grants[..i], now)
      {
        assert grants[..i + 1][..i] == grants[..i];
        if grants[i].at + QUARANTINE_SECONDS > now {
          retained := retained + [Entry(grants[i].at + QUARANTINE_SECONDS, grants[i].id)];
        }
      }
      assert grants[..|grants|] == grants;
      if |packetIdQuarantine[source]| + |retained| > MAX_QUARANTINED {
        return false;
      }
      packetIdQuarantine := packetIdQuarantine[source := packetIdQuarantine[source] + retained];
      quarantinedPacketIds := quarantinedPacketIds[source := quarantinedPacketIds[source] + Ids(retained)];
      return true;
    }

    /**
     The source loop of a reset. Where one source does not fit it stops there: the sources
     before it are merged already, this one is purged, and the tables stay.
     */
    method MergeSources(now: real) returns (retired: bool, ghost reached: nat)
      requires Shaped()
      modifies this`packetIdQuarantine, this`quarantinedPacketIds
      ensures reached <= |sources| && (retired <==> reached == |sources|)
      ensures forall i :: 0 <= i < reached ==> Fits(old(ShelfOf(sources[i])), now)
      ensures !retired ==> !Fits(old(ShelfOf(sources[reached])), now)
      ensures forall s :: ShelfOf(s) == AfterLoop(old(ShelfOf(s)), s, sources, reached, now)
    {
      hide Merge, Fits, Purge, ShelfOf, AfterLoop;
      for i := 0 to |sources|
        invariant forall k :: 0 <= k < i ==> Fits(old(ShelfOf(sources[k])), now)
        invariant forall s :: ShelfOf(s) == if s in sources[..i] then Merge(old(ShelfOf(s)), now) else old(ShelfOf(s))
      {
        OneFurther(sources, i);
        var fits := MergeSource(sources[i], now);
        if !fits {
          forall s ensures ShelfOf(s) == AfterLoop(old(ShelfOf(s)), s, sources, i, now) {
            LoopShelf(old(ShelfOf(s)), s, sources, i, now);
          }
          return false, i;
        }
      }
      forall s ensures ShelfOf(s) == AfterLoop(old(ShelfOf(s)), s, sources, |sources|, now) {
        LoopShelf(old(ShelfOf(s)), s, sources, |sources|, now);
      }
      return true, |sources|;
    }

    /** The reset as far as it gets. */
    method LogReset(now: real) returns (retired: bool, ghost reached: nat)
      requires Shaped() && clock <= now
      modifies this
      ensures Shaped() && clock == now && raised == old(raised) && harmless == old(harmless)
      ensures drawn == old(drawn) && busiest == old(busiest)
      ensures reached <= |old(sources)| && (retired <==> reached == |old(sources)|)
      ensures retired <==> forall s <- old(sources) :: Fits(old(ShelfOf(s)), now)
      ensures !retired ==> !Fits(old(ShelfOf(sources[reached])), now)
      ensures sources == (if retired then [] else old(sources)) && run == old(run) + if retired then 1 else 0
      ensures forall s :: HistoryOf(s) == Apply(old(HistoryOf(s)), ResetOp(s, old(sources), reached, now))
      ensures forall s :: Possible(old(HistoryOf(s)), ResetOp(s, old(sources), reached, now))
    {
      hide Merge, Fits, Purge, Apply, Possible, ResetOp, AfterLoop;
      ghost var visited := sources;
      retired, reached := MergeSources(now);
      if retired {
        packetIdsBySource := map[];
        sources := [];
        run := run + 1;
      }
      clock := now;
      forall s
        ensures HistoryOf(s) == Apply(old(HistoryOf(s)), ResetOp(s, visited, reached, now))
        ensures Possible(old(HistoryOf(s)), ResetOp(s, visited, reached, now))
      {
        LoopIsReset(old(HistoryOf(s)), s, visited, reached, now);
      }
    }

    /** As long as no reset has raised, the logs say which sources fit. */
    lemma AllFitExactly(now: real)
      requires Valid() && !raised && clock <= now
      ensures forall s :: Fits(ShelfOf(s), now) <==> Recent(LogOf(s), now) <= 36_000
    {
      forall s ensures Fits(ShelfOf(s), now) <==> Recent(LogOf(s), now) <= 36_000 {
        assert Sound(HistoryOf(s)) && Unmerged(HistoryOf(s));
        hide UsedTidy, Kept, Separated, Fits, Recent, Fresh;
        FitsExactly(HistoryOf(s), now);
      }
    }

    /**
     The reset between runs. It succeeds exactly when every source fits. A reset that raises
     has merged the sources it reached, purged the one that did not fit and touched no other,
     and every grant of the run is still in its table.
     */
    method RetirePacketIds(now: real) returns (retired: bool, ghost reached: nat)
      requires Valid() && clock <= now
      modifies this
      ensures Valid() && clock == now
      ensures reached <= |old(sources)| && (retired <==> reached == |old(sources)|)
      ensures retired <==> forall s <- old(sources) :: Fits(old(ShelfOf(s)), now)
      ensures !retired ==> !Fits(old(ShelfOf(sources[reached])), now)
      ensures sources == (if retired then [] else old(sources)) && run == old(run) + if retired then 1 else 0
      ensures forall s :: HistoryOf(s) == Apply(old(HistoryOf(s)), ResetOp(s, old(sources), reached, now))
      ensures forall s :: Possible(old(HistoryOf(s)), ResetOp(s, old(sources), reached, now))
      ensures drawn == (if retired then 0 else old(drawn)) && busiest == old(busiest)
      ensures !old(raised) ==>
                (retired <==> forall s <- old(sources) :: Recent(old(LogOf(s)), now) <= 36_000)
      ensures raised == (old(raised) || !retired) && (!old(raised) ==> harmless)
      ensures harmless == (old(harmless)
                           && forall s :: Careful(old(HistoryOf(s)), ResetOp(s, old(sources), reached, now)))
    {
      hide Fits, Sound, Unmerged, Apply, Possible, Shaped, ResetOp, ShelfOf, Careful, Recent;
      ghost var visited := sources;
      if !raised {
        AllFitExactly(now);
      }
      retired, reached := LogReset(now);
      if retired {
        drawn := 0;
      }
      raised := raised || !retired;
      forall s ensures !old(raised) ==> Careful(old(HistoryOf(s)), ResetOp(s, visited, reached, now)) {
        if !old(raised) {
          StepKeeps(old(HistoryOf(s)), ResetOp(s, visited, reached, now));
        }
      }
      harmless := harmless && forall s :: Careful(old(HistoryOf(s)), ResetOp(s, visited, reached, now));
      forall s
        ensures harmless ==> Sound(HistoryOf(s))
        ensures !raised ==> Unmerged(HistoryOf(s))
      {
        StepKeeps(old(HistoryOf(s)), ResetOp(s, visited, reached, now));
        RetiringMergesNothing(s, visited, now);
      }
    }

    /** Any allocations and resets, at non-decreasing times. */
    method Drive(steps: seq<PoolStep>)
      requires Valid() && (steps != [] ==> clock <= steps[0].at)
      requires forall i, j :: 0 <= i < j < |steps| ==> steps[i].at <= steps[j].at
      modifies this
      ensures Valid()
      ensures harmless ==> forall s :: Separated(LogOf(s))
      ensures !raised ==> harmless
    {
      for i := 0 to |steps|
        invariant Valid() && (i < |steps| ==> clock <= steps[i].at)
      {
        match steps[i] {
          case Draw(source, draws, at) => {
            var _ := AllocatePacketId(source, draws, at);
          }
          case Reset(at) => {
            var _, _ := RetirePacketIds(at);
          }
        }
      }
      forall s ensures harmless ==> Separated(LogOf(s)) {
        assert harmless ==> Sound(HistoryOf(s));
      }
    }
  }
}
