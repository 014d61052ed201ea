/**
 Hop-bounded reachability in a directed graph by breadth-first search.

 The search marks a node when it leaves the queue, not when it enters, so a node may be
 queued several times; that the first copy to leave carries the shortest walk rests on
 the queue being ordered by hops.
 */
module Reachability {
  import opened Wrappers

  type Graph = map<string, set<string>>

  function Neighbors(g: Graph, node: string): set<string> {
    if node in g then g[node] else {}
  }

  /** A walk of exactly `hops` enabled links. */
  ghost predicate Walk(g: Graph, source: string, target: string, hops: nat)
    decreases hops
  {
    if hops == 0 then source == target
    else exists mid :: Walk(g, source, mid, hops - 1) && target in Neighbors(g, mid)
  }

  /** `target` is another node, at most `bound` links away (any number when unbounded). */
  ghost predicate Reachable(g: Graph, source: string, target: string, bound: Option<nat>) {
    source != target && exists hops: nat :: Within(hops, bound) && Walk(g, source, target, hops)
  }

  predicate Within(hops: nat, bound: Option<nat>) {
    bound.None? || hops <= bound.value
  }

  /** Direct neighbors are always taken, so a bound below one behaves as one. */
  function Bound(maxHops: Option<int>): Option<nat> {
    if maxHops.None? then None else if maxHops.value < 1 then Some(1) else Some(maxHops.value)
  }

  /** What the limit of the request means for the number of links. */
  lemma BoundIsLimit(hops: nat, maxHops: Option<int>)
    ensures Within(hops, Bound(maxHops)) <==> maxHops.None? || hops <= maxHops.value || hops <= 1
  {}

  predicate MayExpand(hops: nat, maxHops: Option<int>) {
    maxHops.None? || hops < maxHops.value
  }

  datatype Entry = Entry(target: string, hops: nat)

  predicate Layered(pending: seq<Entry>) {
    && (forall i, j :: 0 <= i < j < |pending| ==> pending[i].hops <= pending[j].hops)
    && (forall i :: 0 <= i < |pending| ==> pending[i].hops <= pending[0].hops + 1)
  }

  /** Every queued entry is the end of a walk of the recorded length, within the bound. */
  ghost predicate Justified(g: Graph, source: string, pending: seq<Entry>, bound: Option<nat>) {
    forall i :: 0 <= i < |pending| ==>
      Within(pending[i].hops, bound) && Walk(g, source, pending[i].target, pending[i].hops)
  }

  /** Visited nodes carry walk lengths no longer than anything still queued. */
  ghost predicate Settled(g: Graph, source: string, dist: map<string, nat>, pending: seq<Entry>, bound: Option<nat>) {
    && source in dist && dist[source] == 0
    && (forall v <- dist :: Walk(g, source, v, dist[v]) && (v != source ==> dist[v] > 0 && Within(dist[v], bound)))
    && (forall v <- dist, i :: 0 <= i < |pending| ==> dist[v] <= pending[i].hops)
  }

  /** A neighbor of an expanded node is visited in time or still queued in time. */
  predicate Covered(dist: map<string, nat>, pending: seq<Entry>, target: string, hops: nat) {
    || (target in dist && dist[target] <= hops)
    || Entry(target, hops) in pending
  }

  ghost predicate Frontier(g: Graph, dist: map<string, nat>, pending: seq<Entry>, bound: Option<nat>) {
    forall v <- dist, w <- Neighbors(g, v) :: Within(dist[v] + 1, bound) ==> Covered(dist, pending, w, dist[v] + 1)
  }

  /** With the queue exhausted, every walk within the bound ends at a node visited in time. */
  lemma {:induction false} WalksAreVisited(g: Graph, source: string, dist: map<string, nat>,
                                           bound: Option<nat>, target: string, hops: nat)
    requires source in dist && dist[source] == 0 && Frontier(g, dist, [], bound)
    requires Walk(g, source, target, hops) && Within(hops, bound)
    ensures target in dist && dist[target] <= hops
    decreases hops
  {
    if hops == 0 {
    } else {
      var mid :| Walk(g, source, mid, hops - 1) && target in Neighbors(g, mid);
      WalksAreVisited(g, source, dist, bound, mid, hops - 1);
      assert Covered(dist, [], target, dist[mid] + 1);
    }
  }

  /** The targets of one expansion, in whatever order the set yields them. */
  method Enumerate(targets: set<string>, hops: nat) returns (entries: seq<Entry>)
    ensures forall e :: e in entries <==> e.hops == hops && e.target in targets
  {
    entries := [];
    var remaining := targets;
    while remaining != {}
      invariant remaining <= targets
      invariant forall e :: e in entries <==> e.hops == hops && e.target in targets - remaining
      decreases remaining
    {
      var t :| t in remaining;
      remaining := remaining - {t};
      entries := entries + [Entry(t, hops)];
    }
  }

  ghost predicate Searching(g: Graph, source: string, dist: map<string, nat>, pending: seq<Entry>, bound: Option<nat>) {
    && Layered(pending)
    && Justified(g, source, pending, bound)
    && Settled(g, source, dist, pending, bound)
    && Frontier(g, dist, pending, bound)
  }

  /** An entry whose node is already visited can be forgotten. */
  lemma SkipVisited(g: Graph, source: string, dist: map<string, nat>, pending: seq<Entry>, bound: Option<nat>)
    requires Searching(g, source, dist, pending, bound)
    requires pending != [] && pending[0].target in dist
    ensures Searching(g, source, dist, pending[1..], bound)
  {
    forall v <- dist, w <- Neighbors(g, v) | Within(dist[v] + 1, bound)
      ensures Covered(dist, pending[1..], w, dist[v] + 1)
    {
      assert Covered(dist, pending, w, dist[v] + 1);
      if w !in dist || dist[w] > dist[v] + 1 {
        assert Entry(w, dist[v] + 1) != pending[0];
      }
    }
  }

  /** `more` queues the unvisited neighbors of the node at the front, one hop further. */
  ghost predicate Expands(g: Graph, dist: map<string, nat>, pending: seq<Entry>, more: seq<Entry>, bound: Option<nat>) {
    && pending != [] && pending[0].target !in dist && pending[0].hops > 0
    && var t, h := pending[0].target, pending[0].hops;
       if Within(h + 1, bound)
       then forall e :: e in more <==> e.hops == h + 1 && e.target in Neighbors(g, t) - dist.Keys - {t}
       else more == []
  }

  lemma VisitKeepsFrontier(g: Graph, source: string, dist: map<string, nat>, pending: seq<Entry>, more: seq<Entry>,
                           bound: Option<nat>)
    requires Searching(g, source, dist, pending, bound) && Expands(g, dist, pending, more, bound)
    ensures Frontier(g, dist[pending[0].target := pending[0].hops], pending[1..] + more, bound)
  {
    var t, h := pending[0].target, pending[0].hops;
    var after, queue := dist[t := h], pending[1..] + more;
    forall v <- after, w <- Neighbors(g, v) | Within(after[v] + 1, bound)
      ensures Covered(after, queue, w, after[v] + 1)
    {
      if v == t {
        if w !in after {
          assert Entry(w, h + 1) in more;
        }
      } else {
        assert Covered(dist, pending, w, dist[v] + 1);
        if w !in dist && w != t {
          assert Entry(w, dist[v] + 1) in pending[1..];
        }
      }
    }
  }

  lemma VisitKeepsLayers(g: Graph, dist: map<string, nat>, pending: seq<Entry>, more: seq<Entry>, bound: Option<nat>)
    requires Layered(pending) && Expands(g, dist, pending, more, bound)
    ensures Layered(pending[1..] + more)
    ensures forall i :: 0 <= i < |pending[1..] + more| ==> pending[0].hops <= (pending[1..] + more)[i].hops
    ensures forall i :: 0 <= i < |more| ==> more[i] in more && more[i].hops == pending[0].hops + 1
  {
    MoreAreOneFurther(g, dist, pending, more, bound);
    hide Neighbors, Expands;
    JoinLayers(pending[0].hops, pending[1..], more);
  }

  lemma MoreAreOneFurther(g: Graph, dist: map<string, nat>, pending: seq<Entry>, more: seq<Entry>, bound: Option<nat>)
    requires Expands(g, dist, pending, more, bound)
    ensures pending != [] && forall i :: 0 <= i < |more| ==> more[i] in more && more[i].hops == pending[0].hops + 1
  {
    assert forall e <- more :: e.hops == pending[0].hops + 1;
  }

  lemma JoinLayers(h: nat, a: seq<Entry>, b: seq<Entry>)
    requires forall i, j :: 0 <= i < j < |a| ==> a[i].hops <= a[j].hops
    requires forall i :: 0 <= i < |a| ==> h <= a[i].hops <= h + 1
    requires forall i :: 0 <= i < |b| ==> b[i].hops == h + 1
    ensures Layered(a + b) && forall i :: 0 <= i < |a + b| ==> h <= (a + b)[i].hops
  {
    forall i | 0 <= i < |a + b| ensures h <= (a + b)[i].hops <= h + 1 {
      assert (a + b)[i] == if i < |a| then a[i] else b[i - |a|];
    }
  }

  lemma VisitKeepsWalks(g: Graph, source: string, dist: map<string, nat>, pending: seq<Entry>, more: seq<Entry>,
                        bound: Option<nat>)
    requires Justified(g, source, pending, bound) && Expands(g, dist, pending, more, bound)
    ensures Justified(g, source, pending[1..] + more, bound)
  {
    var t, h := pending[0].target, pending[0].hops;
    forall i | 0 <= i < |more| ensures Within(more[i].hops, bound) && Walk(g, source, more[i].target, more[i].hops) {
      assert more[i] in more && Walk(g, source, t, h);
    }
  }

  /** Visiting the node at the front is a correct step of the search. */
  lemma VisitFront(g: Graph, source: string, dist: map<string, nat>, pending: seq<Entry>, more: seq<Entry>,
                   bound: Option<nat>)
    requires Searching(g, source, dist, pending, bound) && Expands(g, dist, pending, more, bound)
    ensures Searching(g, source, dist[pending[0].target := pending[0].hops], pending[1..] + more, bound)
  {
    VisitKeepsLayers(g, dist, pending, more, bound);
    VisitKeepsWalks(g, source, dist, pending, more, bound);
    VisitKeepsFrontier(g, source, dist, pending, more, bound);
    hide Walk, Frontier, Neighbors;
  }

  lemma StartSearch(g: Graph, source: string, pending: seq<Entry>, maxHops: Option<int>)
    requires forall e :: e in pending <==> e.hops == 1 && e.target in Neighbors(g, source)
    ensures Searching(g, source, map[source := 0], pending, Bound(maxHops))
  {
    assert Walk(g, source, source, 0);
    assert forall i :: 0 <= i < |pending| ==> pending[i] in pending;
    forall w <- Neighbors(g, source) ensures Covered(map[source := 0], pending, w, 1) {
      assert Entry(w, 1) in pending;
    }
  }

  lemma SearchIsExact(g: Graph, source: string, dist: map<string, nat>, bound: Option<nat>)
    requires Searching(g, source, dist, [], bound)
    ensures forall t :: t in dist.Keys - {source} <==> Reachable(g, source, t, bound)
  {
    forall t, hops: nat | Within(hops, bound) && Walk(g, source, t, hops) ensures t in dist {
      WalksAreVisited(g, source, dist, bound, t, hops);
    }
    forall t <- dist.Keys - {source} ensures Reachable(g, source, t, bound) {
      assert Walk(g, source, t, dist[t]) && Within(dist[t], bound);
    }
  }

  /** `target` is another node at the end of a walk of at most `maxHops` links, or of a single one. */
  ghost predicate InReach(g: Graph, source: string, target: string, maxHops: Option<int>) {
    source != target
    && exists hops: nat :: (maxHops.None? || hops <= maxHops.value || hops <= 1) && Walk(g, source, target, hops)
  }

  lemma ReachableIsInReach(g: Graph, source: string, target: string, maxHops: Option<int>)
    ensures Reachable(g, source, target, Bound(maxHops)) <==> InReach(g, source, target, maxHops)
  {
    if Reachable(g, source, target, Bound(maxHops)) {
      var hops: nat :| Within(hops, Bound(maxHops)) && Walk(g, source, target, hops);
      BoundIsLimit(hops, maxHops);
      assert InReach(g, source, target, maxHops);
    }
    if InReach(g, source, target, maxHops) {
      var hops: nat :|
        (maxHops.None? || hops <= maxHops.value || hops <= 1) && Walk(g, source, target, hops);
      BoundIsLimit(hops, maxHops);
      assert Reachable(g, source, target, Bound(maxHops));
    }
  }

  /**
     Breadth-first search from one source; nodes are marked when dequeued. It finds exactly the
     other nodes at the end of a walk of at most `maxHops` links, or of a single one.
   */
  method ReachableFrom(g: Graph, source: string, maxHops: Option<int>, ghost universe: set<string>)
    returns (reachable: set<string>)
    requires source in universe && forall v <- universe :: Neighbors(g, v) <= universe
    ensures forall t :: t in reachable <==> InReach(g, source, t, maxHops)
  {
    reachable := {};
    var pending := Enumerate(Neighbors(g, source), 1);
    var visited := {source};
    ghost var dist: map<string, nat> := map[source := 0];
    StartSearch(g, source, pending, maxHops);
    while pending != []
      invariant dist.Keys == visited <= universe && reachable == visited - {source}
      invariant forall e <- pending :: e.target in universe && e.hops > 0
      invariant Searching(g, source, dist, pending, Bound(maxHops))
      decreases universe - visited, |pending|
    {
      var target, hops := pending[0].target, pending[0].hops;
      if target in visited {
        SkipVisited(g, source, dist, pending, Bound(maxHops));
        pending := pending[1..];
        continue;
      }
      visited := visited + {target};
      reachable := reachable + {target};
      var more := [];
      if MayExpand(hops, maxHops) {
        more := Enumerate(Neighbors(g, target) - visited, hops + 1);
      }
      VisitFront(g, source, dist, pending, more, Bound(maxHops));
      pending := pending[1..] + more;
      dist := dist[target := hops];
    }
    SearchIsExact(g, source, dist, Bound(maxHops));
    hide Reachable, InReach;
    forall t ensures t in reachable <==> InReach(g, source, t, maxHops) {
      ReachableIsInReach(g, source, t, maxHops);
    }
  }
}
