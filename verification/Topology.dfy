/**
 Live topology changes. Three copies of the link table have to agree: the service's
 scenario, the medium's map, and the starting snapshot of a run with its recorded changes
 folded over it.
 */
module Topology {
  import opened Scenario
  import opened Sequences
  import opened Wrappers

  const MAX_TOPOLOGY_CHANGES: nat := 10_000

  type Links = map<Key, Link>

  /** A published link update: its event sequence and the link it announces. */
  datatype LinkEvent = LinkEvent(sequence: nat, link: Link)

  datatype Conflict =
    | InvalidLinkUpdate
    | InvalidLifecycleState
    | UnknownLink(key: Key)
    | TopologyHistoryFull
    | TrafficRunActive
    | LinkSetMismatch
    | Misaligned

  datatype Lifecycle = Stopped | Running | Transitional

  // ---------- link tables ----------

  /** The table after the recorded changes, oldest first. */
  function Fold(start: Links, changes: seq<LinkEvent>): Links {
    if changes == [] then start
    else
      var last := changes[|changes| - 1].link;
      Fold(start, changes[..|changes| - 1])[KeyOf(last) := last]
  }

  /** The links that differ from `previous`, in list order. */
  function Changed(links: seq<Link>, previous: Links): seq<Link>
    requires forall i :: 0 <= i < |links| ==> KeyOf(links[i]) in previous
  {
    if links == [] then []
    else
      var init, last := Changed(links[..|links| - 1], previous), links[|links| - 1];
      if previous[KeyOf(last)] != last then init + [last] else init
  }

  function EventsFor(links: seq<Link>, sequence: nat): seq<LinkEvent> {
    seq(|links|, i requires 0 <= i < |links| => LinkEvent(sequence + i + 1, links[i]))
  }

  /** Increasing positions, each below `bound`. */
  ghost predicate Picks(picks: seq<nat>, bound: nat) {
    && (forall k :: 0 <= k < |picks| ==> picks[k] < bound)
    && (forall k, l :: 0 <= k < l < |picks| ==> picks[k] < picks[l])
  }

  lemma PickLast(picks: seq<nat>, n: nat)
    requires Picks(picks, n)
    ensures Picks(picks, n + 1) && Picks(picks + [n], n + 1)
    ensures forall i :: i in picks + [n] <==> i in picks || i == n
  {}

  lemma {:induction false} ChangedExactly(links: seq<Link>, previous: Links) returns (picks: seq<nat>)
    requires forall i :: 0 <= i < |links| ==> KeyOf(links[i]) in previous
    ensures Picks(picks, |links|) && |Changed(links, previous)| == |picks|
    ensures forall i :: 0 <= i < |links| ==> (i in picks <==> previous[KeyOf(links[i])] != links[i])
    ensures forall k :: 0 <= k < |picks| ==> Changed(links, previous)[k] == links[picks[k]]
  {
    if links == [] {
      picks := [];
    } else {
      var n := |links| - 1;
      picks := ChangedExactly(links[..n], previous);
      PickLast(picks, n);
      assert n !in picks;
      if previous[KeyOf(links[n])] != links[n] {
        picks := picks + [n];
      }
    }
  }

  /** Exactly the links that differ from the previous table are announced, in order and numbered on. */
  lemma AnnouncedExactly(links: seq<Link>, previous: Links, sequence: nat) returns (picks: seq<nat>)
    requires forall i :: 0 <= i < |links| ==> (links[i].source, links[i].target) in previous
    ensures Picks(picks, |links|)
    ensures forall i :: 0 <= i < |links| ==>
              (i in picks <==> previous[(links[i].source, links[i].target)] != links[i])
    ensures |EventsFor(Changed(links, previous), sequence)| == |picks|
    ensures forall k :: 0 <= k < |picks| ==>
              EventsFor(Changed(links, previous), sequence)[k] == LinkEvent(sequence + k + 1, links[picks[k]])
  {
    picks := ChangedExactly(links, previous);
    hide Changed;
  }

  /** Folding appends: first the old changes, then the new ones. */
  lemma {:induction false} FoldAppend(start: Links, a: seq<LinkEvent>, b: seq<LinkEvent>)
    ensures Fold(start, a + b) == Fold(Fold(start, a), b)
  {
    if b == [] {
      assert a + b == a;
    } else {
      assert (a + b)[..|a + b| - 1] == a + b[..|b| - 1];
      FoldAppend(start, a, b[..|b| - 1]);
    }
  }

  /** One more listed link: folded in exactly when it differs. */
  lemma FoldLast(links: seq<Link>, previous: Links, sequence: nat)
    requires links != [] && forall i :: 0 <= i < |links| ==> KeyOf(links[i]) in previous
    ensures var init, last := links[..|links| - 1], links[|links| - 1];
            var before := Fold(previous, EventsFor(Changed(init, previous), sequence));
            (Fold(previous, EventsFor(Changed(links, previous), sequence))
             == if previous[KeyOf(last)] != last then before[KeyOf(last) := last] else before)
  {
    var before, now := Changed(links[..|links| - 1], previous), Changed(links, previous);
    if now != before {
      assert EventsFor(now, sequence)[..|before|] == EventsFor(before, sequence);
    }
  }

  lemma HasLinkLast(links: seq<Link>, key: Key)
    requires links != []
    ensures HasLink(links, key) <==> HasLink(links[..|links| - 1], key) || KeyOf(links[|links| - 1]) == key
  {
    if HasLink(links, key) {
      var i :| 0 <= i < |links| && KeyOf(links[i]) == key;
      if i < |links| - 1 {
        assert KeyOf(links[..|links| - 1][i]) == key;
      }
    }
    if HasLink(links[..|links| - 1], key) {
      var i :| 0 <= i < |links| - 1 && KeyOf(links[..|links| - 1][i]) == key;
      assert KeyOf(links[i]) == key;
    }
  }

  /** `after` is `previous` with every listed link written into it. */
  ghost predicate Rewritten(links: seq<Link>, previous: Links, after: Links) {
    && after.Keys == previous.Keys
    && (forall i :: 0 <= i < |links| ==> KeyOf(links[i]) in after && after[KeyOf(links[i])] == links[i])
    && (forall k <- previous :: !HasLink(links, k) ==> after[k] == previous[k])
  }

  lemma RewriteLast(links: seq<Link>, previous: Links, before: Links)
    requires links != [] && DistinctKeys(links) && Rewritten(links[..|links| - 1], previous, before)
    requires KeyOf(links[|links| - 1]) in previous
    ensures var last := links[|links| - 1];
            (Rewritten(links, previous, if previous[KeyOf(last)] != last then before[KeyOf(last) := last] else before))
  {
    var init, last := links[..|links| - 1], links[|links| - 1];
    var after := if previous[KeyOf(last)] != last then before[KeyOf(last) := last] else before;
    DistinctLast(links);
    hide HasLink, DistinctKeys;
    forall i | 0 <= i < |links| ensures KeyOf(links[i]) in after && after[KeyOf(links[i])] == links[i] {
      if i < |init| {
        assert KeyOf(init[i]) in before && before[KeyOf(init[i])] == links[i];
        NotTwice(links, i);
      }
    }
    forall k <- previous | !HasLink(links, k) ensures after[k] == previous[k] {
      HasLinkLast(links, k);
    }
  }

  lemma NotTwice(links: seq<Link>, i: nat)
    requires DistinctKeys(links) && i < |links| - 1
    ensures KeyOf(links[i]) != KeyOf(links[|links| - 1])
  {}

  /** Folding the changed links over the previous table writes every listed link into it. */
  lemma {:induction false} FoldChanged(links: seq<Link>, previous: Links, sequence: nat)
    requires DistinctKeys(links) && forall i :: 0 <= i < |links| ==> KeyOf(links[i]) in previous
    ensures Rewritten(links, previous, Fold(previous, EventsFor(Changed(links, previous), sequence)))
  {
    if links == [] {
    } else {
      var init := links[..|links| - 1];
      assert DistinctKeys(init);
      FoldChanged(init, previous, sequence);
      FoldLast(links, previous, sequence);
      RewriteLast(links, previous, Fold(previous, EventsFor(Changed(init, previous), sequence)));
    }
  }

  /** Two link lists over the same complete set of pairs. */
  lemma FoldReachesNewTable(links: seq<Link>, previous: Links, sequence: nat)
    requires DistinctKeys(links) && LinkMap(links).Keys == previous.Keys
    requires forall i :: 0 <= i < |links| ==> KeyOf(links[i]) in previous
    ensures Fold(previous, EventsFor(Changed(links, previous), sequence)) == LinkMap(links)
  {
    FoldChanged(links, previous, sequence);
    LinkMapLookup(links);
    var after := Fold(previous, EventsFor(Changed(links, previous), sequence));
    forall k <- previous ensures after[k] == LinkMap(links)[k] {
      assert HasLink(links, k);
      var i :| 0 <= i < |links| && KeyOf(links[i]) == k;
    }
  }

  lemma SameKeysSameTable(a: seq<Link>, b: seq<Link>)
    requires |a| == |b| && DistinctKeys(a) && forall i :: 0 <= i < |a| ==> KeyOf(a[i]) == KeyOf(b[i])
    ensures DistinctKeys(b) && LinkMap(a).Keys == LinkMap(b).Keys
    ensures forall i :: 0 <= i < |b| ==> KeyOf(b[i]) in LinkMap(a)
  {
    LinkMapLookup(a);
    LinkMapLookup(b);
    hide LinkMap, DistinctKeys, KeyOf;
    forall k | k in LinkMap(a) ensures k in LinkMap(b) {
      var i :| 0 <= i < |a| && KeyOf(a[i]) == k;
      assert KeyOf(b[i]) in LinkMap(b);
    }
    forall k | k in LinkMap(b) ensures k in LinkMap(a) {
      var i :| 0 <= i < |b| && KeyOf(b[i]) == k;
      assert KeyOf(a[i]) in LinkMap(a);
    }
  }

  // ---------- lists that repeat a pair ----------

  lemma {:induction false} LinkMapKeys(links: seq<Link>)
    ensures forall k :: k in LinkMap(links) <==> HasLink(links, k)
    ensures forall k <- LinkMap(links) :: KeyOf(LinkMap(links)[k]) == k
  {
    if links == [] {
    } else {
      var init, last := links[..|links| - 1], links[|links| - 1];
      LinkMapKeys(init);
      forall k ensures k in LinkMap(links) <==> HasLink(links, k) {
        HasLinkLast(links, k);
      }
    }
  }

  lemma DistinctLast(links: seq<Link>)
    requires links != []
    ensures var init, last := links[..|links| - 1], links[|links| - 1];
            (DistinctKeys(links) <==> DistinctKeys(init) && !HasLink(init, KeyOf(last)))
  {
    var init, last := links[..|links| - 1], links[|links| - 1];
    if DistinctKeys(init) && !HasLink(init, KeyOf(last)) {
      forall i | 0 <= i < |init| ensures KeyOf(links[i]) != KeyOf(last) {
        assert KeyOf(init[i]) == KeyOf(links[i]);
      }
    }
    if DistinctKeys(links) {
      forall i | 0 <= i < |init| ensures KeyOf(init[i]) != KeyOf(last) {
        NotTwice(links, i);
      }
    }
  }

  lemma LookupAt(links: seq<Link>, i: nat)
    requires DistinctKeys(links) && i < |links|
    ensures KeyOf(links[i]) in LinkMap(links) && LinkMap(links)[KeyOf(links[i])] == links[i]
  {
    LinkMapLookup(links);
  }

  /** The first position of a pair, or the length of the list. */
  function IndexOf(links: seq<Link>, key: Key): (k: nat)
    ensures k <= |links| && (k < |links| ==> KeyOf(links[k]) == key)
    ensures forall j :: 0 <= j < k ==> KeyOf(links[j]) != key
  {
    if links == [] || KeyOf(links[0]) == key then 0 else 1 + IndexOf(links[1..], key)
  }

  /** A dictionary's items: each pair where it first occurs, with the link that comes last. */
  function Collapse(links: seq<Link>): seq<Link> {
    if links == [] then []
    else
      var init, last := Collapse(links[..|links| - 1]), links[|links| - 1];
      var k := IndexOf(init, KeyOf(last));
      if k < |init| then init[k := last] else init + [last]
  }

  lemma TableReads(links: seq<Link>)
    ensures forall k <- LinkMap(links) :: exists i :: 0 <= i < |links| && KeyOf(links[i]) == k
  {
    LinkMapKeys(links);
  }

  lemma ReplaceInTable(links: seq<Link>, k: nat, last: Link)
    requires DistinctKeys(links) && k < |links| && KeyOf(links[k]) == KeyOf(last)
    ensures DistinctKeys(links[k := last]) && LinkMap(links[k := last]) == LinkMap(links)[KeyOf(last) := last]
  {
    hide LinkMap, DistinctKeys, KeyOf, HasLink;
    var next := links[k := last];
    assert forall i :: 0 <= i < |links| ==> KeyOf(next[i]) == KeyOf(links[i]);
    SameKeysSameTable(links, next);
    TableReads(next);
    LookupAt(next, k);
    LookupAt(links, k);
    forall key <- LinkMap(next) ensures LinkMap(next)[key] == LinkMap(links)[KeyOf(last) := last][key] {
      var i :| 0 <= i < |next| && KeyOf(next[i]) == key;
      LookupAt(next, i);
      LookupAt(links, i);
    }
  }

  lemma AppendToTable(links: seq<Link>, last: Link)
    requires DistinctKeys(links) && forall j :: 0 <= j < |links| ==> KeyOf(links[j]) != KeyOf(last)
    ensures DistinctKeys(links + [last]) && LinkMap(links + [last]) == LinkMap(links)[KeyOf(last) := last]
  {
    assert (links + [last])[..|links|] == links;
  }

  /** Collapsing a list keeps its table and leaves one link for each pair. */
  lemma {:induction false} CollapseTable(links: seq<Link>)
    ensures DistinctKeys(Collapse(links)) && LinkMap(Collapse(links)) == LinkMap(links)
  {
    if links == [] {
    } else {
      var init, last := Collapse(links[..|links| - 1]), links[|links| - 1];
      CollapseTable(links[..|links| - 1]);
      var k := IndexOf(init, KeyOf(last));
      if k < |init| {
        ReplaceInTable(init, k, last);
      } else {
        AppendToTable(init, last);
      }
    }
  }

  /** The first position of each pair in a list, in the list's order. */
  ghost predicate Firsts(links: seq<Link>, firsts: seq<nat>) {
    && Picks(firsts, |links|)
    && forall i :: 0 <= i < |links| ==>
        (i in firsts <==> forall j :: 0 <= j < i ==> KeyOf(links[j]) != KeyOf(links[i]))
  }

  /** Collapsing keeps each pair where it first occurs, with its last link. */
  lemma CollapseExactly(links: seq<Link>) returns (firsts: seq<nat>)
    ensures Firsts(links, firsts) && |Collapse(links)| == |firsts|
    ensures forall k, l :: 0 <= k < |firsts| && 0 <= l < |links|
              && KeyOf(links[l]) == KeyOf(links[firsts[k]])
              && (forall j :: l < j < |links| ==> KeyOf(links[j]) != KeyOf(links[l]))
              ==> Collapse(links)[k] == links[l]
  {
    firsts := CollapseOrder(links);
    CollapseTable(links);
    forall k, l | 0 <= k < |firsts| && 0 <= l < |links|
        && KeyOf(links[l]) == KeyOf(links[firsts[k]])
        && (forall j :: l < j < |links| ==> KeyOf(links[j]) != KeyOf(links[l]))
      ensures Collapse(links)[k] == links[l]
    {
      LastListedWins(links, l);
      LookupAt(Collapse(links), k);
    }
  }

  lemma {:induction false} CollapseOrder(links: seq<Link>) returns (firsts: seq<nat>)
    ensures Firsts(links, firsts) && |Collapse(links)| == |firsts|
    ensures forall k :: 0 <= k < |firsts| ==> firsts[k] < |links|
    ensures forall k :: 0 <= k < |firsts| ==> KeyOf(Collapse(links)[k]) == KeyOf(links[firsts[k]])
  {
    if links == [] {
      firsts := [];
    } else {
      hide Collapse, Firsts, IndexOf, KeyOf;
      var n := |links| - 1;
      firsts := CollapseOrder(links[..n]);
      FirstsGrow(links, firsts);
      CollapseLast(links, firsts);
      if IndexOf(Collapse(links[..n]), KeyOf(links[n])) == |Collapse(links[..n])| {
        firsts := firsts + [n];
      }
    }
  }

  lemma FirstsGrow(links: seq<Link>, firsts: seq<nat>)
    requires links != [] && Firsts(links[..|links| - 1], firsts)
    requires |Collapse(links[..|links| - 1])| == |firsts|
    requires forall k :: 0 <= k < |firsts| ==> firsts[k] < |links| - 1
    requires forall k :: 0 <= k < |firsts| ==> KeyOf(Collapse(links[..|links| - 1])[k]) == KeyOf(links[firsts[k]])
    ensures var n := |links| - 1;
            Firsts(links, if IndexOf(Collapse(links[..n]), KeyOf(links[n])) == |firsts| then firsts + [n] else firsts)
  {
    hide Firsts, Collapse, KeyOf, HasLink, IndexOf;
    var n := |links| - 1;
    FirstOrNot(links[..n], firsts, Collapse(links[..n]), links[n]);
    FirstsSnoc(links[..n], links[n], firsts);
    assert links[..n] + [links[n]] == links;
  }

  /** One more link takes the place of its pair, or a new place at the end. */
  lemma CollapseLast(links: seq<Link>, firsts: seq<nat>)
    requires links != [] && |Collapse(links[..|links| - 1])| == |firsts|
    requires forall k :: 0 <= k < |firsts| ==> firsts[k] < |links| - 1
    requires forall k :: 0 <= k < |firsts| ==> KeyOf(Collapse(links[..|links| - 1])[k]) == KeyOf(links[firsts[k]])
    ensures var n := |links| - 1;
            var after := if IndexOf(Collapse(links[..n]), KeyOf(links[n])) == |firsts| then firsts + [n] else firsts;
            && |Collapse(links)| == |after|
            && forall k :: 0 <= k < |after| ==> KeyOf(Collapse(links)[k]) == KeyOf(links[after[k]])
  {}

  lemma FirstsSnoc(links: seq<Link>, last: Link, firsts: seq<nat>)
    requires Firsts(links, firsts)
    ensures forall k :: 0 <= k < |firsts| ==> firsts[k] < |links|
    ensures Firsts(links + [last], if HasLink(links, KeyOf(last)) then firsts else firsts + [|links|])
  {
    var longer := links + [last];
    PickLast(firsts, |links|);
    assert forall i :: 0 <= i < |links| ==> longer[i] == links[i];
    hide Picks;
  }

  /** A link's pair has occurred before exactly when one of the first occurrences has it. */
  lemma FirstOrNot(links: seq<Link>, firsts: seq<nat>, collapsed: seq<Link>, last: Link)
    requires Firsts(links, firsts) && |collapsed| == |firsts|
    requires forall k :: 0 <= k < |firsts| ==> KeyOf(collapsed[k]) == KeyOf(links[firsts[k]])
    ensures IndexOf(collapsed, KeyOf(last)) == |collapsed| <==> !HasLink(links, KeyOf(last))
  {
    hide HasLink, KeyOf;
    var k := IndexOf(collapsed, KeyOf(last));
    if k < |collapsed| {
      ListedHas(links, firsts[k]);
    }
    if HasLink(links, KeyOf(last)) {
      var i := FirstWithPair(links, KeyOf(last));
      assert i in firsts;
      var h :| 0 <= h < |firsts| && firsts[h] == i;
      assert KeyOf(collapsed[h]) == KeyOf(last);
    }
  }

  lemma ListedHas(links: seq<Link>, i: nat)
    requires i < |links|
    ensures HasLink(links, KeyOf(links[i]))
  {}

  lemma FirstWithPair(links: seq<Link>, key: Key) returns (i: nat)
    requires HasLink(links, key)
    ensures i < |links| && KeyOf(links[i]) == key
    ensures forall h :: 0 <= h < i ==> KeyOf(links[h]) != KeyOf(links[i])
  {
    i := IndexOf(links, key);
  }

  /** A list without repetitions is its own collapse. */
  lemma {:induction false} DistinctCollapse(links: seq<Link>)
    requires DistinctKeys(links)
    ensures Collapse(links) == links
  {
    if links == [] {
    } else {
      var init, last := links[..|links| - 1], links[|links| - 1];
      DistinctLast(links);
      DistinctCollapse(init);
      var k := IndexOf(init, KeyOf(last));
      assert k == |init| by {
        assert k < |init| ==> HasLink(init, KeyOf(last));
      }
      assert init + [last] == links;
    }
  }

  // ---------- the medium ----------

  /** What the medium does with one outgoing link for one frame. */
  datatype Decision = Injected(link: Link) | LinkDisabled(link: Link)

  function Decide(link: Link): Decision {
    if link.enabled then Injected(link) else LinkDisabled(link)
  }

  /** The links of one transmitter, in the table's order. */
  function Outgoing(entries: seq<Link>, transmitter: string): seq<Link> {
    if entries == [] then []
    else
      var init, last := Outgoing(entries[..|entries| - 1], transmitter), entries[|entries| - 1];
      if last.source == transmitter then init + [last] else init
  }

  function Decisions(links: seq<Link>): seq<Decision> {
    seq(|links|, i requires 0 <= i < |links| => Decide(links[i]))
  }

  /** Every link of the transmitter goes out once, and no other. */
  lemma {:induction false} OutgoingExactly(entries: seq<Link>, transmitter: string)
    requires DistinctKeys(entries)
    ensures DistinctKeys(Outgoing(entries, transmitter))
    ensures forall l :: l in Outgoing(entries, transmitter) <==> l in entries && l.source == transmitter
  {
    if entries == [] {
    } else {
      var rest, last := entries[..|entries| - 1], entries[|entries| - 1];
      OutgoingExactly(rest, transmitter);
      assert entries == rest + [last];
      DistinctLast(entries);
      var init := Outgoing(rest, transmitter);
      forall i | 0 <= i < |init| ensures KeyOf(init[i]) != KeyOf(last) {
        assert init[i] in init;
        var j :| 0 <= j < |rest| && rest[j] == init[i];
        assert KeyOf(rest[j]) != KeyOf(last);
      }
    }
  }

  class DirectedMedium {
    /** The link dictionary's values in its own order. */
    var entries: seq<Link>
    /** The event broker's latest sequence, as far as link updates move it. */
    var sequence: nat

    ghost predicate Valid()
      reads this
    {
      DistinctKeys(entries)
    }

    function Table(): Links
      reads this
    {
      LinkMap(entries)
    }

    constructor (links: seq<Link>)
      ensures Valid() && Table() == LinkMap(links)
    {
      CollapseTable(links);
      entries, sequence := Collapse(links), 0;
    }

    /**
       Replaces the whole table at once and announces what changed. `updated` is read like a
       dictionary: a pair that is repeated counts where it first occurs, with its last link.
     */
    method ApplyLinks(updated: seq<Link>) returns (r: Result<seq<LinkEvent>, Conflict>)
      requires Valid()
      modifies this
      ensures Valid()
      ensures r.Ok? <==> LinkMap(updated).Keys == old(Table()).Keys
      ensures r.Err? ==> entries == old(entries) && sequence == old(sequence)
      ensures r.Ok? ==>
                && entries == Collapse(updated) && Table() == LinkMap(updated)
                && (forall i :: 0 <= i < |Collapse(updated)| ==> KeyOf(Collapse(updated)[i]) in old(Table()))
                && r.value == EventsFor(Changed(Collapse(updated), old(Table())), old(sequence))
                && sequence == old(sequence) + |r.value|
    {
      CollapseTable(updated);
      LinkMapLookup(Collapse(updated));
      var table := Table();
      if LinkMap(updated).Keys != table.Keys {
        return Err(LinkSetMismatch);
      }
      var changed := Changed(Collapse(updated), table);
      entries := Collapse(updated);
      var events := EventsFor(changed, sequence);
      sequence := sequence + |changed|;
      return Ok(events);
    }

    /**
       One frame on the air: every outgoing link of the snapshot is decided once, in the
       table's order: injected when it is enabled, and counted as disabled otherwise. `sent` are
       the places of those links in the table. `meanwhile` are the tables applied while the
       frame is being delivered; they decide nothing.
     */
    method Transmit(transmitter: string, meanwhile: seq<seq<Link>>)
      returns (decisions: seq<Decision>, ghost sent: seq<nat>)
      requires Valid()
      modifies this
      ensures Valid()
      ensures decisions == Decisions(Outgoing(old(entries), transmitter))
      ensures Picks(sent, |old(entries)|) && |sent| == |decisions|
      ensures forall i :: 0 <= i < |old(entries)| ==> (i in sent <==> old(entries)[i].source == transmitter)
      ensures forall k :: 0 <= k < |sent| ==>
                var link := old(entries)[sent[k]];
                decisions[k] == if link.enabled then Injected(link) else LinkDisabled(link)
    {
      var snapshot;
      snapshot, sent := Snapshot(entries, transmitter);
      decisions := DecideAll(snapshot, meanwhile);
    }

    static method Snapshot(table: seq<Link>, transmitter: string) returns (snapshot: seq<Link>, ghost sent: seq<nat>)
      ensures snapshot == Outgoing(table, transmitter)
      ensures Picks(sent, |table|) && |sent| == |snapshot|
      ensures forall i :: 0 <= i < |table| ==> (i in sent <==> table[i].source == transmitter)
      ensures forall k :: 0 <= k < |sent| ==> snapshot[k] == table[sent[k]]
    {
      snapshot, sent := [], [];
      for i := 0 to |table|
        invariant snapshot == Outgoing(table[..i], transmitter)
        invariant Picks(sent, i) && |sent| == |snapshot|
        invariant forall j :: 0 <= j < i ==> (j in sent <==> table[j].source == transmitter)
        invariant forall k :: 0 <= k < |sent| ==> snapshot[k] == table[sent[k]]
      {
        assert table[..i + 1][..i] == table[..i];
        PickLast(sent, i);
        assert i !in sent;
        if table[i].source == transmitter {
          snapshot := snapshot + [table[i]];
          sent := sent + [i];
        }
      }
      assert table[..|table|] == table;
    }

    method DecideAll(snapshot: seq<Link>, meanwhile: seq<seq<Link>>) returns (decisions: seq<Decision>)
      requires Valid()
      modifies this
      ensures Valid() && decisions == Decisions(snapshot)
    {
      decisions := [];
      for i := 0 to |snapshot|
        invariant Valid() && decisions == Decisions(snapshot[..i])
      {
        decisions := decisions + [Decide(snapshot[i])];
        if i < |meanwhile| {
          var _ := ApplyLinks(meanwhile[i]);
        }
      }
      assert snapshot[..|snapshot|] == snapshot;
    }
  }

  // ---------- the run's record ----------

  /** Recorded changes carry strictly increasing sequences up to `latest`. */
  ghost predicate InOrder(changes: seq<LinkEvent>, latest: nat) {
    && (forall i, j :: 0 <= i < j < |changes| ==> changes[i].sequence < changes[j].sequence)
    && (forall i :: 0 <= i < |changes| ==> changes[i].sequence <= latest)
  }

  /** Each event's sequence with the link beside it. */
  function Rejoined(events: seq<LinkEvent>, links: seq<Link>): (r: seq<LinkEvent>)
    requires |events| == |links|
  {
    seq(|events|, i requires 0 <= i < |events| => LinkEvent(events[i].sequence, links[i]))
  }

  /** The part of the traffic controller that topology changes touch. */
  class RunTimeline {
    /** The run's state is RUNNING or STOPPING. */
    var active: bool
    /** And its phase still lets it record events. */
    var acceptsEvents: bool
    var topologyChanges: seq<LinkEvent>
    const snapshot: seq<Link>

    constructor (snapshot: seq<Link>)
      ensures active && acceptsEvents && topologyChanges == [] && this.snapshot == snapshot
    {
      active, acceptsEvents, topologyChanges := true, true, [];
      this.snapshot := snapshot;
    }

    predicate HasCapacity(additional: nat)
      reads this
    {
      acceptsEvents ==> |topologyChanges| + additional <= MAX_TOPOLOGY_CHANGES
    }

    method RecordTopologyChange(event: LinkEvent, link: Link) returns (r: Result<(), Conflict>)
      modifies this`topologyChanges
      ensures r.Ok? <==> !acceptsEvents || |old(topologyChanges)| < 10_000
      ensures topologyChanges ==
        if r.Ok? && acceptsEvents then old(topologyChanges) + [LinkEvent(event.sequence, link)]
        else old(topologyChanges)
    {
      if !acceptsEvents {
        return Ok(());
      }
      if !HasCapacity(1) {
        return Err(TopologyHistoryFull);
      }
      topologyChanges := topologyChanges + [LinkEvent(event.sequence, link)];
      return Ok(());
    }

    /** Pairs each announced event with the service's own changed link; the pairing is strict. */
    method RecordAll(events: seq<LinkEvent>, links: seq<Link>) returns (r: Result<(), Conflict>)
      requires HasCapacity(0)
      modifies this`topologyChanges
      ensures r.Ok? <==> |events| == |links| && (!acceptsEvents || |old(topologyChanges)| + |events| <= 10_000)
      ensures r.Ok? && acceptsEvents ==> topologyChanges == old(topologyChanges) + Rejoined(events, links)
      ensures !acceptsEvents ==> topologyChanges == old(topologyChanges)
    {
      var n := if |events| <= |links| then |events| else |links|;
      for i := 0 to n
        invariant acceptsEvents ==> topologyChanges == old(topologyChanges) + Rejoined(events[..i], links[..i])
        invariant !acceptsEvents ==> topologyChanges == old(topologyChanges)
        invariant old(HasCapacity(i))
      {
        r := RecordTopologyChange(events[i], links[i]);
        if r.Err? {
          return;
        }
        assert Rejoined(events[..i + 1], links[..i + 1])
            == Rejoined(events[..i], links[..i]) + [LinkEvent(events[i].sequence, links[i])];
      }
      if |events| != |links| {
        return Err(Misaligned);
      }
      assert events[..n] == events && links[..n] == links;
      return Ok(());
    }

    method BeginFinalizing()
      modifies this`acceptsEvents
      ensures !acceptsEvents
    {
      acceptsEvents := false;
    }

    /** The run is frozen, or has failed. */
    method Freeze()
      modifies this`active, this`acceptsEvents
      ensures !active && !acceptsEvents
    {
      active, acceptsEvents := false, false;
    }
  }

  // ---------- the service ----------

  datatype Step =
    | UpdateLinks(updates: seq<Link>, runEnds: bool)
    | ApplyTopology(preset: TopologyPreset, runEnds: bool)
    | StartTraffic
    | FinalizeTraffic
    | FreezeTraffic
    | Publish(events: nat)
    | Start
    | BecomeRunning
    | Fail
    | Stop
    | ReplaceScenario(replacement: Scenario)

  /** Comparing sizes detects a repeated pair. */
  lemma {:induction false} LinkMapSize(links: seq<Link>)
    ensures |LinkMap(links)| <= |links|
    ensures |LinkMap(links)| == |links| <==> DistinctKeys(links)
  {
    if links == [] {
    } else {
      var init, last := links[..|links| - 1], links[|links| - 1];
      LinkMapSize(init);
      LinkMapKeys(init);
      DistinctLast(links);
      hide HasLink, DistinctKeys;
      assert LinkMap(links).Keys == LinkMap(init).Keys + {KeyOf(last)};
      assert |LinkMap(links)| == |LinkMap(links).Keys| && |LinkMap(init)| == |LinkMap(init).Keys|;
    }
  }

  /** The updated link list, in the scenario's order: an update for a pair replaces its link. */
  function Overlay(links: seq<Link>, updates: Links): seq<Link> {
    seq(|links|, i requires 0 <= i < |links| =>
      if KeyOf(links[i]) in updates then updates[KeyOf(links[i])] else links[i])
  }

  /** Overlaying keeps every pair in its place, and the table gains exactly the updates. */
  lemma OverlayTable(links: seq<Link>, updates: seq<Link>)
    requires DistinctKeys(links) && DistinctKeys(updates) && LinkMap(updates).Keys <= LinkMap(links).Keys
    ensures var after := Overlay(links, LinkMap(updates));
            (SamePairs(after, links) && LinkMap(after) == LinkMap(links) + LinkMap(updates))
  {
    hide LinkMap, DistinctKeys, KeyOf, HasLink;
    var after, table := Overlay(links, LinkMap(updates)), LinkMap(updates);
    LinkMapKeys(updates);
    SameKeysSameTable(links, after);
    TableReads(links);
    forall k <- LinkMap(links) ensures LinkMap(after)[k] == (LinkMap(links) + table)[k] {
      var i :| 0 <= i < |links| && KeyOf(links[i]) == k;
      LookupAt(links, i);
      LookupAt(after, i);
    }
  }

  ghost predicate SamePairs(a: seq<Link>, b: seq<Link>) {
    && |a| == |b|
    && forall i :: 0 <= i < |a| ==> KeyOf(a[i]) == KeyOf(b[i])
  }

  /** A scenario keeps its graph when every link keeps its pair. */
  lemma SamePairsKeepGraph(s: Scenario, links: seq<Link>)
    requires WellFormed(s) && SamePairs(links, s.links)
    ensures WellFormed(s.(links := links))
  {
    var ids := NodeIds(s.nodes);
    forall i | 0 <= i < |links| ensures ProperLink(links[i], ids) {
      assert ProperLink(s.links[i], ids) && KeyOf(links[i]) == KeyOf(s.links[i]);
    }
    forall a <- ids, b <- ids | a != b ensures HasLink(links, (a, b)) {
      assert HasLink(s.links, (a, b));
      var i :| 0 <= i < |s.links| && KeyOf(s.links[i]) == (a, b);
      assert KeyOf(links[i]) == (a, b);
    }
  }

  lemma SameTable(s: Scenario, links: seq<Link>)
    requires WellFormed(s) && SamePairs(links, s.links)
    ensures DistinctKeys(links) && LinkMap(links).Keys == LinkMap(s.links).Keys
    ensures forall i :: 0 <= i < |links| ==> KeyOf(links[i]) in LinkMap(s.links)
  {
    SameKeysSameTable(s.links, links);
  }

  lemma GraphIsDistinct(s: Scenario)
    requires WellFormed(s)
    ensures DistinctKeys(s.links)
  {}

  lemma PresetChangesLinksOnly(s: Scenario, preset: TopologyPreset)
    ensures ApplyPreset(s, preset) == s.(links := ApplyPreset(s, preset).links)
  {}

  /** Announced changes continue the recorded order. */
  lemma EventsContinueOrder(changes: seq<LinkEvent>, links: seq<Link>, sequence: nat)
    requires InOrder(changes, sequence)
    ensures InOrder(changes + EventsFor(links, sequence), sequence + |links|)
    ensures InOrder(changes, sequence + |links|)
  {}

  class SimulatorService {
    var state: Lifecycle
    var scenario: Scenario
    var medium: DirectedMedium?
    var timeline: RunTimeline?

    /**
       The three copies agree: the scenario's links, the medium's table, and the starting
       snapshot of the run with its recorded changes folded over it.
     */
    ghost predicate Valid()
      reads this, medium, timeline
    {
      && WellFormed(scenario)
      && (medium == null <==> state == Stopped)
      && (medium == null ==> timeline == null)
      && (medium != null ==> medium.Valid() && medium.Table() == LinkMap(scenario.links))
      && (timeline != null ==> RecordAgrees(timeline, medium, scenario))
    }

    static ghost predicate RecordAgrees(run: RunTimeline, air: DirectedMedium?, now: Scenario)
      reads run, air
    {
      && air != null
      && |run.topologyChanges| <= MAX_TOPOLOGY_CHANGES
      && InOrder(run.topologyChanges, air.sequence)
      && (run.acceptsEvents ==> Fold(LinkMap(run.snapshot), run.topologyChanges) == LinkMap(now.links))
    }

    constructor (scenario: Scenario)
      requires WellFormed(scenario)
      ensures Valid() && state == Stopped && this.scenario == scenario
    {
      state, this.scenario, medium, timeline := Stopped, scenario, null, null;
    }

    /** The links of `updated` that would be recorded as changes. */
    function Pending(updated: seq<Link>): seq<Link>
      requires forall i :: 0 <= i < |updated| ==> KeyOf(updated[i]) in LinkMap(scenario.links)
      reads this
    {
      Changed(updated, LinkMap(scenario.links))
    }

    predicate RoomFor(updated: seq<Link>)
      requires forall i :: 0 <= i < |updated| ==> KeyOf(updated[i]) in LinkMap(scenario.links)
      reads this, timeline
    {
      timeline != null ==> timeline.HasCapacity(|Pending(updated)|)
    }

    /**
       Applies a scenario that differs only in its links. The run may end while the medium is
       being updated (`runEnds`). Only a full history refuses, and then nothing has changed.
     */
    method ApplyRuntimeScenario(updated: seq<Link>, runEnds: bool) returns (r: Result<(), Conflict>)
      requires Valid() && medium != null && SamePairs(updated, scenario.links)
      requires forall i :: 0 <= i < |updated| ==> KeyOf(updated[i]) in LinkMap(scenario.links)
      modifies this`scenario, medium, timeline
      ensures Valid()
      ensures r.Ok? <==> old(RoomFor(updated))
      ensures r.Ok? <==>
                || timeline == null || !old(timeline.acceptsEvents)
                || old(|timeline.topologyChanges| + |Pending(updated)|) <= 10_000
      ensures r.Err? ==> r.error == TopologyHistoryFull
      ensures r.Err? ==> unchanged(this) && unchanged(medium) && (timeline != null ==> unchanged(timeline))
      ensures r.Ok? ==>
                && scenario == old(scenario).(links := updated)
                && medium.Table() == LinkMap(updated)
                && medium.sequence == old(medium.sequence) + |old(Pending(updated))|
                && (timeline != null ==>
                      && timeline.acceptsEvents == (old(timeline.acceptsEvents) && !runEnds)
                      && timeline.topologyChanges == old(timeline.topologyChanges)
                           + if timeline.acceptsEvents then EventsFor(old(Pending(updated)), old(medium.sequence))
                             else [])
    {
      hide Fold, Changed, LinkMap, WellFormed, InOrder;
      var changed := Pending(updated);
      if timeline != null && !timeline.HasCapacity(|changed|) {
        return Err(TopologyHistoryFull);
      }
      SamePairsKeepGraph(scenario, updated);
      SameTable(scenario, updated);
      FoldReachesNewTable(updated, medium.Table(), medium.sequence);
      DistinctCollapse(updated);
      if timeline != null {
        EventsContinueOrder(timeline.topologyChanges, changed, medium.sequence);
        FoldAppend(LinkMap(timeline.snapshot), timeline.topologyChanges, EventsFor(changed, medium.sequence));
      }
      var applied := medium.ApplyLinks(updated);
      assert applied.Ok?;
      scenario := scenario.(links := updated);
      if timeline != null {
        if runEnds {
          timeline.BeginFinalizing();
        }
        assert Rejoined(applied.value, changed) == applied.value;
        r := timeline.RecordAll(applied.value, changed);
        return;
      }
      return Ok(());
    }

    /**
       Replaces the given links. Accepted exactly when the updates are not empty and not
       repeated, the simulation runs, every pair is known and the run has room; then the table
       is overwritten by the updates. A refused batch changes nothing.
     */
    method UpdateLinks(updates: seq<Link>, runEnds: bool) returns (r: Result<seq<Link>, Conflict>)
      requires Valid()
      modifies this`scenario, medium, timeline
      ensures Valid()
      ensures (updates == [] || !DistinctKeys(updates)) <==> r == Err(InvalidLinkUpdate)
      ensures updates != [] && DistinctKeys(updates) && !old(state.Running?) <==> r == Err(InvalidLifecycleState)
      ensures r.Err? && r.error.UnknownLink? ==>
                HasLink(updates, r.error.key) && r.error.key !in old(LinkMap(scenario.links))
      ensures r.Err? && r.error.TopologyHistoryFull? ==>
                && LinkMap(updates).Keys <= old(LinkMap(scenario.links)).Keys
                && !old(Fits(updates))
      ensures r.Err? ==> unchanged(this) && (medium != null ==> unchanged(medium))
      ensures r.Err? && timeline != null ==> unchanged(timeline)
      ensures r.Ok? <==> && updates != [] && DistinctKeys(updates) && old(state.Running?)
                         && LinkMap(updates).Keys <= old(LinkMap(scenario.links)).Keys
                         && old(Fits(updates))
      ensures r.Ok? ==>
                && r.value == updates
                && scenario == old(scenario).(links := Overlay(old(scenario.links), LinkMap(updates)))
                && medium.Table() == old(medium.Table()) + LinkMap(updates)
    {
      hide Fold, Changed, LinkMap, WellFormed, InOrder, DistinctKeys, HasLink;
      if updates == [] {
        return Err(InvalidLinkUpdate);
      }
      var table := LinkMap(updates);
      LinkMapSize(updates);
      if |table| != |updates| {
        return Err(InvalidLinkUpdate);
      }
      if !state.Running? || medium == null {
        return Err(InvalidLifecycleState);
      }
      var existing := LinkMap(scenario.links);
      LinkMapKeys(updates);
      var unknown := table.Keys - existing.Keys;
      if unknown != {} {
        var key :| key in unknown;
        return Err(UnknownLink(key));
      }
      assert table.Keys <= existing.Keys by {
        assert forall k <- table.Keys :: k !in unknown;
      }
      GraphIsDistinct(scenario);
      OverlayTable(scenario.links, updates);
      SameTable(scenario, Overlay(scenario.links, table));
      var applied := ApplyRuntimeScenario(Overlay(scenario.links, table), runEnds);
      if applied.Err? {
        return Err(applied.error);
      }
      return Ok(updates);
    }

    /** The run, if any, has room for what the updates would change. */
    ghost predicate Fits(updates: seq<Link>)
      requires Valid()
      reads this, medium, timeline
    {
      var after := Overlay(scenario.links, LinkMap(updates));
      (forall i :: 0 <= i < |after| ==> KeyOf(after[i]) in LinkMap(scenario.links)) && RoomFor(after)
    }

    /** The run, if any, has room for what the preset would change. */
    ghost predicate PresetFits(preset: TopologyPreset)
      requires Valid()
      reads this, medium, timeline
    {
      var after := ApplyPreset(scenario, preset).links;
      (forall i :: 0 <= i < |after| ==> KeyOf(after[i]) in LinkMap(scenario.links)) && RoomFor(after)
    }

    /** Sets every enabled flag by a preset: at once when stopped, live when running. */
    method ApplyTopology(preset: TopologyPreset, runEnds: bool) returns (r: Result<Scenario, Conflict>)
      requires Valid()
      modifies this`scenario, medium, timeline
      ensures Valid()
      ensures r == Err(InvalidLifecycleState) <==> old(state.Transitional?)
      ensures r.Err? ==> unchanged(this) && (medium != null ==> unchanged(medium))
      ensures r.Err? && timeline != null ==> unchanged(timeline)
      ensures r.Err? ==> r.error.InvalidLifecycleState? || r.error.TopologyHistoryFull?
      ensures old(state.Stopped?) ==> r.Ok?
      ensures old(state.Running?) ==> (r.Ok? <==> old(PresetFits(preset)))
      ensures r.Ok? ==> scenario == ApplyPreset(old(scenario), preset) && r.value == scenario
    {
      hide Fold, Changed, LinkMap, WellFormed, InOrder, ApplyPreset;
      var updated := ApplyPreset(scenario, preset);
      PresetKeepsGraph(scenario, preset);
      PresetChangesLinksOnly(scenario, preset);
      if state.Stopped? {
        scenario := updated;
        return Ok(updated);
      }
      if !state.Running? || medium == null {
        return Err(InvalidLifecycleState);
      }
      SameTable(scenario, updated.links);
      var applied := ApplyRuntimeScenario(updated.links, runEnds);
      if applied.Err? {
        return Err(applied.error);
      }
      return Ok(updated);
    }

    /** A run starts from a snapshot of the scenario, with an empty record. */
    method StartTraffic() returns (r: Result<(), Conflict>)
      requires Valid()
      modifies this`timeline
      ensures Valid()
      ensures r == if !old(state.Running?) then Err(InvalidLifecycleState)
                   else if old(timeline != null && timeline.active) then Err(TrafficRunActive)
                   else Ok(())
      ensures r.Err? ==> timeline == old(timeline)
      ensures r.Ok? ==> timeline != null && fresh(timeline) && timeline.active && timeline.acceptsEvents
                        && timeline.snapshot == scenario.links && timeline.topologyChanges == []
    {
      if !state.Running? || medium == null {
        return Err(InvalidLifecycleState);
      }
      if timeline != null && timeline.active {
        return Err(TrafficRunActive);
      }
      timeline := new RunTimeline(scenario.links);
      return Ok(());
    }

    /** What each operation does, and when it is refused and does nothing. */
    twostate predicate Took(step: Step)
      requires old(Valid())
      reads this, medium, timeline
    {
      match step
      case UpdateLinks(updates, _) =>
        scenario == if updates != [] && DistinctKeys(updates) && old(state.Running?)
                       && LinkMap(updates).Keys <= LinkMap(old(scenario.links)).Keys && old(Fits(updates))
                    then old(scenario).(links := Overlay(old(scenario.links), LinkMap(updates)))
                    else old(scenario)
      case ApplyTopology(preset, _) =>
        scenario == if old(state.Stopped?) || (old(state.Running?) && old(PresetFits(preset)))
                    then ApplyPreset(old(scenario), preset) else old(scenario)
      case StartTraffic =>
        if old(state.Running?) && !old(timeline != null && timeline.active)
        then timeline != null && fresh(timeline) && timeline.active && timeline.snapshot == scenario.links
             && timeline.acceptsEvents && timeline.topologyChanges == []
        else timeline == old(timeline)
      case FinalizeTraffic => timeline == old(timeline) && (timeline != null ==> !timeline.acceptsEvents)
      case FreezeTraffic => timeline == old(timeline) && (timeline != null ==> !timeline.active)
      case Publish(events) =>
        medium == old(medium) && (medium != null ==> medium.sequence == old(medium.sequence) + events)
      case Start =>
        if old(state.Stopped?) then state == Transitional && medium != null && fresh(medium)
        else state == old(state) && medium == old(medium)
      case BecomeRunning => state == if old(state.Transitional?) then Running else old(state)
      case Fail => state == if old(state.Running?) then Transitional else old(state)
      case Stop => state == Stopped && medium == null && timeline == null
      case ReplaceScenario(replacement) =>
        scenario == if old(state.Stopped?) && WellFormed(replacement) then replacement else old(scenario)
    }

    /** One step of the service, refused ones included. */
    method Take(step: Step)
      requires Valid()
      modifies this, medium, timeline
      ensures Valid() && Took(step)
      ensures medium == old(medium) || medium == null || fresh(medium)
      ensures timeline == old(timeline) || timeline == null || fresh(timeline)
    {
      hide Fold, LinkMap, WellFormed;
      match step {
        case UpdateLinks(updates, runEnds) => {
          var _ := UpdateLinks(updates, runEnds);
        }
        case ApplyTopology(preset, runEnds) => {
          var _ := ApplyTopology(preset, runEnds);
        }
        case StartTraffic => {
          var _ := StartTraffic();
        }
        case FinalizeTraffic => {
          if timeline != null {
            timeline.BeginFinalizing();
          }
        }
        case FreezeTraffic => {
          if timeline != null {
            timeline.Freeze();
          }
        }
        case Publish(events) => {
          if medium != null {
            medium.sequence := medium.sequence + events;
          }
        }
        case Start => {
          if state.Stopped? {
            medium := new DirectedMedium(scenario.links);
            state := Transitional;
          }
        }
        case BecomeRunning => {
          if state.Transitional? {
            state := Running;
          }
        }
        case Fail => {
          if state.Running? {
            state := Transitional;
          }
        }
        case Stop => {
          state, medium, timeline := Stopped, null, null;
        }
        case ReplaceScenario(replacement) => {
          var checked := ValidateGraph(replacement);
          if state.Stopped? && checked.Ok? {
            scenario := replacement;
          }
        }
      }
    }

    /** Whatever is asked of the service, in any order, the three copies agree. */
    method Drive(steps: seq<Step>)
      requires Valid()
      modifies this, medium, timeline
      ensures Valid()
    {
      for i := 0 to |steps|
        invariant Valid()
        invariant medium == old(medium) || medium == null || fresh(medium)
        invariant timeline == old(timeline) || timeline == null || fresh(timeline)
      {
        Take(steps[i]);
      }
    }
  }
}
