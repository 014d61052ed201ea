/**
 A pool on which the quarantine fails, in runs of at most 10 000 messages each. Three runs
 fill the quarantine of source b; a fourth one adds what does not fit any more, so the reset
 after it raises at b when it has merged source a already.
 */
module OverfullPool {
  import opened Identifier
  import opened PacketIds
  import opened Sequences
  import opened Wrappers

  /** More identifiers than any quarantine holds, granted to source b within four runs. */
  const OVERFULL: nat := 37_000

  // ---------- source b ----------

  /** Identifiers above `lo` up to `n`, all granted at time 0. */
  function Batch(lo: nat, n: nat): seq<Grant>
    requires lo <= n <= OVERFULL
  {
    seq(n - lo, i requires 0 <= i < n - lo => Grant(lo + i + 1, 0.0))
  }

  /** Identifiers up to `n` in quarantine. */
  function Stock(n: nat): seq<Entry>
    requires n <= OVERFULL
  {
    seq(n, i requires 0 <= i < n => Entry(QUARANTINE_SECONDS, i + 1))
  }

  function Stocked(lo: nat, n: nat): Shelf
    requires lo <= n <= OVERFULL
  {
    Shelf(Batch(lo, n), Stock(lo), Ids(Stock(lo)))
  }

  lemma StockIds(n: nat)
    requires n <= OVERFULL
    ensures forall id: PacketId :: id in Ids(Stock(n)) <==> id <= n
  {
    forall id: PacketId | id <= n ensures id in Ids(Stock(n)) {
      assert Stock(n)[id - 1].id == id;
    }
  }

  lemma StockedAccepts(lo: nat, n: nat)
    requires lo <= n < OVERFULL
    ensures Grantable(Stocked(lo, n), n + 1, 0.0)
    ensures Allocate(Stocked(lo, n), n + 1, 0.0) == Stocked(lo, n + 1)
  {
    StockIds(lo);
    hide Ids;
    assert Batch(lo, n + 1) == Batch(lo, n) + [Grant(n + 1, 0.0)];
  }

  lemma {:induction false} BatchRetained(lo: nat, n: nat, now: real)
    requires lo <= n <= OVERFULL
    ensures Retained(Batch(lo, n), now) == if now < QUARANTINE_SECONDS then Stock(n)[lo..] else []
    decreases n
  {
    if n == lo {
      assert Batch(lo, n) == [] && Stock(n)[lo..] == [];
    } else {
      assert Batch(lo, n)[..n - 1 - lo] == Batch(lo, n - 1);
      BatchRetained(lo, n - 1, now);
      assert Stock(n)[lo..] == Stock(n - 1)[lo..] + [Entry(QUARANTINE_SECONDS, n)];
    }
  }

  lemma StockStays(lo: nat, n: nat, now: real)
    requires lo <= n <= OVERFULL && now < QUARANTINE_SECONDS
    ensures Purge(Stocked(lo, n), now) == Stocked(lo, n)
  {}

  /** A reset that fits moves the batch to the stock. */
  lemma StockedRetires(lo: nat, n: nat)
    requires lo <= n <= MAX_QUARANTINED
    ensures Fits(Stocked(lo, n), 0.0) && Retire(Stocked(lo, n), 0.0) == Stocked(n, n)
  {
    StockStays(lo, n, 0.0);
    BatchRetained(lo, n, 0.0);
    StockIds(lo);
    StockIds(n);
    var queue := Stock(lo) + Stock(n)[lo..];
    assert queue == Stock(n);
    JoinedIds(Stock(lo), Stock(n)[lo..]);
    hide Purge, Retained, Ids;
    assert Batch(n, n) == [];
  }

  lemma JoinedIds(a: seq<Entry>, b: seq<Entry>)
    ensures Ids(a + b) == Ids(a) + Ids(b)
  {}

  lemma {:induction false} NoneLive(queue: seq<Entry>, now: real)
    requires forall e <- queue :: e.expiry <= now
    ensures Live(queue, now) == 0
  {
    if queue == [] {
    } else {
      NoneLive(queue[..|queue| - 1], now);
    }
  }

  /** The last batch does not fit as long as the stock has not expired. */
  lemma StockedOverflows(lo: nat, now: real)
    requires lo <= OVERFULL && now >= 0.0
    ensures Fits(Stocked(lo, OVERFULL), now) <==> now >= QUARANTINE_SECONDS
  {
    var s := Stocked(lo, OVERFULL);
    BatchRetained(lo, OVERFULL, now);
    if now < QUARANTINE_SECONDS {
      StockStays(lo, OVERFULL, now);
    } else {
      PurgeRemovesExpired(s, now);
      PurgeKeepsLive(s, now, now);
      AllLive(Purge(s, now).queue, now);
      NoneLive(s.queue, now);
    }
  }

  // ---------- steps ----------

  /** One draw that is acceptable, and what is left of the rest of the pool. */
  method DrawOne(pool: PacketIdPool, source: string, id: PacketId, now: real)
    requires pool.Valid() && pool.clock <= now && Grantable(pool.HistoryOf(source).shelf, id, now)
    modifies pool
    ensures pool.Valid() && pool.clock == now && pool.run == old(pool.run)
    ensures pool.raised == old(pool.raised) && pool.harmless == old(pool.harmless)
    ensures pool.drawn == old(pool.drawn) + 1
    ensures pool.busiest == if old(pool.busiest) < pool.drawn then pool.drawn else old(pool.busiest)
    ensures pool.sources == if source in old(pool.sources) then old(pool.sources) else old(pool.sources) + [source]
    ensures pool.HistoryOf(source) == Apply(old(pool.HistoryOf(source)), Grants(id, now))
    ensures pool.HistoryOf(source).shelf == Allocate(old(pool.HistoryOf(source)).shelf, id, now)
    ensures forall s :: s != source ==> pool.HistoryOf(s) == Apply(old(pool.HistoryOf(s)), Waits(now))
    ensures forall s :: s != source ==> pool.HistoryOf(s).shelf == old(pool.HistoryOf(s)).shelf
  {
    hide Grantable, Apply, Sound, Unmerged;
    var drawn := pool.AllocatePacketId(source, [id], now);
    assert [id][0] in [id];
    TakenIsGrantable(old(pool.ShelfOf(source)), [id], drawn, now);
    TakenIsDrawn(old(pool.ShelfOf(source)), [id], drawn, now);
    ghost var h := old(pool.HistoryOf(source));
    ApplyShelf(h, Grants(id, now));
    forall s | s != source ensures pool.HistoryOf(s).shelf == old(pool.HistoryOf(s)).shelf {
      ApplyShelf(old(pool.HistoryOf(s)), Waits(now));
    }
  }

  lemma ApplyShelf(h: History, op: Op)
    ensures op.Grants? ==> Apply(h, op).shelf == Allocate(h.shelf, op.id, op.at)
    ensures op.Waits? ==> Apply(h, op).shelf == h.shelf
  {}

  ghost predicate Calm(pool: PacketIdPool, runs: nat)
    reads pool
  {
    pool.Valid() && !pool.raised && pool.clock == 0.0 && pool.run == runs && pool.busiest <= MAX_MESSAGES_PER_RUN
  }

  /** Grants to source b, within the run's cap. */
  method FillSource(pool: PacketIdPool, lo: nat, n: nat)
    requires lo < n <= OVERFULL && Calm(pool, pool.run) && pool.HistoryOf("b").shelf == Stocked(lo, lo)
    requires "b" !in pool.sources && pool.drawn + n - lo <= MAX_MESSAGES_PER_RUN
    modifies pool
    ensures Calm(pool, old(pool.run)) && pool.HistoryOf("b").shelf == Stocked(lo, n)
    ensures pool.sources == old(pool.sources) + ["b"] && pool.drawn == old(pool.drawn) + n - lo
    ensures pool.HistoryOf("a").shelf == old(pool.HistoryOf("a")).shelf
  {
    hide Allocate, Grantable, Apply, Stocked, PacketIdPool.Valid, PacketIdPool.HistoryOf;
    StockedAccepts(lo, lo);
    DrawOne(pool, "b", lo + 1, 0.0);
    for k := lo + 1 to n
      invariant Calm(pool, old(pool.run)) && pool.HistoryOf("b").shelf == Stocked(lo, k)
      invariant pool.sources == old(pool.sources) + ["b"] && pool.drawn == old(pool.drawn) + k - lo
      invariant pool.HistoryOf("a").shelf == old(pool.HistoryOf("a")).shelf
    {
      StockedAccepts(lo, k);
      DrawOne(pool, "b", k + 1, 0.0);
    }
  }

  /** A whole run of source b and the reset after it. */
  method FullRun(pool: PacketIdPool, lo: nat)
    requires lo + MAX_MESSAGES_PER_RUN <= MAX_QUARANTINED
    requires Calm(pool, pool.run) && pool.sources == [] && pool.drawn == 0
    requires pool.HistoryOf("a").shelf == EMPTY && pool.HistoryOf("b").shelf == Stocked(lo, lo)
    modifies pool
    ensures Calm(pool, old(pool.run) + 1) && pool.sources == [] && pool.drawn == 0
    ensures pool.HistoryOf("a").shelf == EMPTY
    ensures var n := lo + MAX_MESSAGES_PER_RUN;
            pool.HistoryOf("b").shelf == Stocked(n, n)
  {
    hide Allocate, Grantable, Fits, Retire, Stocked, Recent, PacketIdPool.Valid;
    var n := lo + MAX_MESSAGES_PER_RUN;
    FillSource(pool, lo, n);
    StockedRetires(lo, n);
    ghost var a, b := pool.HistoryOf("a"), pool.HistoryOf("b");
    var retired, reached := pool.RetirePacketIds(0.0);
    assert Fits(b.shelf, 0.0);
    assert retired;
    assert pool.HistoryOf("a") == Apply(a, Skips(0.0)) && pool.HistoryOf("b") == Apply(b, Retires(0.0));
  }

  // ---------- source a ----------

  /** Source a's grants, and its queue after a reset that merged it and then raised. */
  const THREE_GRANTS: seq<Grant> := [Grant(1, 0.0), Grant(2, 10.0), Grant(3, 20.0)]
  const THREE_ENTRIES: seq<Entry> := [Entry(300.0, 1), Entry(310.0, 2), Entry(320.0, 3)]

  lemma RetainOne(used: seq<Grant>, last: Grant, now: real)
    ensures Retained(used + [last], now)
         == Retained(used, now) + if EntryOf(last).expiry > now then [EntryOf(last)] else []
  {
    DropLast(used, last);
  }

  lemma ThreeRetained(now: real)
    requires 20.0 <= now <= 300.0
    ensures Retained(THREE_GRANTS, now) == if now < 300.0 then THREE_ENTRIES else THREE_ENTRIES[1..]
  {
    RetainOne([], Grant(1, 0.0), now);
    RetainOne([] + [Grant(1, 0.0)], Grant(2, 10.0), now);
    RetainOne([] + [Grant(1, 0.0)] + [Grant(2, 10.0)], Grant(3, 20.0), now);
    assert [] + [Grant(1, 0.0)] + [Grant(2, 10.0)] + [Grant(3, 20.0)] == THREE_GRANTS;
  }

  lemma ThreeMerged()
    ensures Fits(Shelf(THREE_GRANTS, [], {}), 20.0)
    ensures Merge(Shelf(THREE_GRANTS, [], {}), 20.0) == Shelf(THREE_GRANTS, THREE_ENTRIES, {1, 2, 3})
  {
    ThreeRetained(20.0);
    ThreeIds();
    hide Ids, Retained;
    assert [] + THREE_ENTRIES == THREE_ENTRIES;
  }

  lemma ThreeIds()
    ensures Ids(THREE_ENTRIES) == {1, 2, 3}
  {
    assert THREE_ENTRIES[0].id == 1 && THREE_ENTRIES[1].id == 2 && THREE_ENTRIES[2].id == 3;
  }

  /** The second reset is the harmful one. */
  lemma ThreeHarmed()
    ensures var s := Shelf(THREE_GRANTS, THREE_ENTRIES, {1, 2, 3});
            && Fits(s, 300.0) && !Harmless(s, 300.0)
            && Purge(s, 300.0).queue == THREE_ENTRIES[1..] && Retained(s.used, 300.0) == THREE_ENTRIES[1..]
  {
    var s := Shelf(THREE_GRANTS, THREE_ENTRIES, {1, 2, 3});
    ThreeRetained(300.0);
    PurgePrefix(s, 300.0, 1);
    assert Queued(s, 2) by {
      assert EntryOf(THREE_GRANTS[2]) == THREE_ENTRIES[2];
    }
  }

  lemma ThreeGranted()
    ensures Grantable(EMPTY, 1, 0.0)
    ensures var s := Allocate(EMPTY, 1, 0.0);
            && s == Shelf([Grant(1, 0.0)], [], {}) && Grantable(s, 2, 10.0)
            && var t := Allocate(s, 2, 10.0);
               Grantable(t, 3, 20.0) && Allocate(t, 3, 20.0) == Shelf(THREE_GRANTS, [], {})
  {
    assert [] + [Grant(1, 0.0)] == [Grant(1, 0.0)];
  }

  const LAST_LO: nat := 3 * MAX_MESSAGES_PER_RUN

  ghost predicate BeforeReset(pool: PacketIdPool)
    reads pool
  {
    && pool.Valid() && pool.sources == ["a", "b"] && pool.clock == 20.0 && pool.run == 3
    && pool.busiest <= MAX_MESSAGES_PER_RUN && pool.drawn <= 7_003
    && pool.HistoryOf("b").shelf == Stocked(LAST_LO, OVERFULL)
  }

  /** Three full runs of source b. */
  method FillQuarantine() returns (pool: PacketIdPool)
    ensures fresh(pool) && Calm(pool, 3) && pool.sources == [] && pool.drawn == 0
    ensures pool.HistoryOf("a").shelf == EMPTY && pool.HistoryOf("b").shelf == Stocked(LAST_LO, LAST_LO)
  {
    hide Sound, Unmerged;
    pool := new PacketIdPool(0.0);
    assert pool.HistoryOf("a").shelf == EMPTY && pool.HistoryOf("b").shelf == EMPTY;
    assert Stocked(0, 0) == EMPTY by {
      assert Batch(0, 0) == [] && Stock(0) == [] && Ids(Stock(0)) == {};
    }
    FullRun(pool, 0);
    FullRun(pool, MAX_MESSAGES_PER_RUN);
    FullRun(pool, 2 * MAX_MESSAGES_PER_RUN);
  }

  /** The fourth run: three grants of source a, and of source b more than still fits. */
  method Overfill() returns (pool: PacketIdPool)
    ensures fresh(pool) && BeforeReset(pool) && !pool.raised
    ensures pool.HistoryOf("a").shelf == Shelf(THREE_GRANTS, [], {})
  {
    hide Grantable, Allocate, Apply, Stocked, PacketIdPool.Valid, PacketIdPool.HistoryOf;
    ThreeGranted();
    pool := FillQuarantine();
    DrawOne(pool, "a", 1, 0.0);
    FillSource(pool, LAST_LO, OVERFULL);
    DrawOne(pool, "a", 2, 10.0);
    DrawOne(pool, "a", 3, 20.0);
  }

  lemma StopsAtSecond(reached: nat)
    requires reached < 2 && ["a", "b"][reached] != "a"
    ensures reached == 1
  {}

  lemma StopOps(now: real)
    ensures ResetOp("a", ["a", "b"], 1, now) == Merges(now) && ResetOp("b", ["a", "b"], 1, now) == Purges(now)
  {
    assert ["a", "b"][..1] == ["a"];
  }

  lemma ApplyReset(h: History, now: real)
    ensures Apply(h, Merges(now)).shelf == Merge(h.shelf, now) && Apply(h, Purges(now)).shelf == Purge(h.shelf, now)
  {}

  /** The reset that merges a and raises at b. */
  method RaisePartWay(pool: PacketIdPool)
    requires BeforeReset(pool) && !pool.raised && pool.HistoryOf("a").shelf == Shelf(THREE_GRANTS, [], {})
    modifies pool
    ensures BeforeReset(pool) && pool.raised && pool.harmless
    ensures pool.HistoryOf("a").shelf == Shelf(THREE_GRANTS, THREE_ENTRIES, {1, 2, 3})
  {
    hide Fits, Merge, Purge, Recent, Apply, ResetOp, PacketIdPool.Valid;
    StockedOverflows(LAST_LO, 20.0);
    StockStays(LAST_LO, OVERFULL, 20.0);
    ThreeMerged();
    ghost var a, b := pool.HistoryOf("a"), pool.HistoryOf("b");
    var retired, reached := pool.RetirePacketIds(20.0);
    assert !Fits(b.shelf, 20.0) && Fits(a.shelf, 20.0);
    StopsAtSecond(reached);
    StopOps(20.0);
    ApplyReset(a, 20.0);
    ApplyReset(b, 20.0);
  }

  /** The reset that succeeds once b's grants have expired. */
  method RetireAfterwards(pool: PacketIdPool)
    requires BeforeReset(pool) && pool.harmless
    requires pool.HistoryOf("a").shelf == Shelf(THREE_GRANTS, THREE_ENTRIES, {1, 2, 3})
    modifies pool
    ensures pool.Valid() && pool.clock == 300.0 && pool.run == 4 && pool.sources == []
    ensures pool.drawn == 0 && pool.busiest == old(pool.busiest)
        && (old(pool.raised) ==> pool.raised)
    ensures Possible(old(pool.HistoryOf("a")), Retires(300.0))
    ensures pool.HistoryOf("a") == Apply(old(pool.HistoryOf("a")), Retires(300.0))
  {
    hide Fits, Merge, Purge, Harmless, Recent, PacketIdPool.Valid;
    StockedOverflows(LAST_LO, 300.0);
    ThreeHarmed();
    ghost var a, b := pool.HistoryOf("a"), pool.HistoryOf("b");
    var retired, reached := pool.RetirePacketIds(300.0);
    assert Fits(b.shelf, 300.0) && Fits(a.shelf, 300.0);
    assert retired;
    assert pool.HistoryOf("a") == Apply(a, Retires(300.0));
  }

  /** A reset of a run that used only source a. */
  method RetireAlone(pool: PacketIdPool, now: real)
    requires pool.Valid() && pool.clock <= now && pool.sources == ["a"] && Possible(pool.HistoryOf("a"), Retires(now))
    modifies pool
    ensures pool.Valid() && pool.clock == now && pool.run == old(pool.run) + 1
    ensures pool.drawn == 0 && pool.busiest == old(pool.busiest)
    ensures pool.raised == old(pool.raised) && pool.HistoryOf("a") == Apply(old(pool.HistoryOf("a")), Retires(now))
  {
    hide Sound, Unmerged, Fits, Merge, Purge, Apply, Recent;
    assert Fits(pool.HistoryOf("a").shelf, now);
    var retired, reached := pool.RetirePacketIds(now);
  }

  /**
     A pool on which the quarantine fails, although no run draws more than 10 000 identifiers.
     In the fourth run source a has three grants and source b more than its quarantine still
     takes. The reset after it merges a and raises at b; once b's grants have expired the
     next one succeeds and queues a's live grants again, behind a later one.
     Identifier 2 is then granted at 310 s and, after one more run, at 320 s.
   */
  method PartialResetBreaksQuarantine() returns (pool: PacketIdPool)
    ensures pool.Valid() && pool.raised && pool.run == 5 && pool.busiest <= MAX_MESSAGES_PER_RUN
    ensures !Separated(pool.LogOf("a"))
  {
    hide Sound, Unmerged, Grantable, Fits, Allocate, Purge, Retained, Harmless, Separated, Apply;
    pool := Overfill();
    RaisePartWay(pool);
    ghost var a := pool.HistoryOf("a");
    RetireAfterwards(pool);
    ThreeHarmed();
    var id, freed, reused := InversionReleases(a, 300.0);
    assert id == 2 && freed == 310.0 && reused == 320.0;
    DrawOne(pool, "a", 2, 310.0);
    RetireAlone(pool, 310.0);
    DrawOne(pool, "a", 2, 320.0);
    assert pool.LogOf("a") == pool.HistoryOf("a").log;
  }
}
