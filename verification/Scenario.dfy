/**
 The scenario graph: validation, topology presets, and which pairs of nodes a preset
 connects within a hop limit.
 */
module Scenario {
  import opened Reachability
  import opened Sequences
  import opened Wrappers

  datatype Node = Node(id: string, apiPort: int)

  datatype Link = Link(source: string, target: string, enabled: bool, rssiDbm: int, snrDb: real)

  datatype Scenario = Scenario(nodeCount: int, nodes: seq<Node>, links: seq<Link>)

  datatype TopologyPreset = FullMesh | Line | Star | AllIsolated

  datatype GraphError =
    | NodeCountMismatch
    | DuplicateNodeId
    | DuplicatePort
    | SelfLink
    | UnknownNode
    | DuplicateLink
    | MissingLinks

  type Key = (string, string)

  function KeyOf(link: Link): Key {
    (link.source, link.target)
  }

  function NodeIds(nodes: seq<Node>): seq<string> {
    seq(|nodes|, i requires 0 <= i < |nodes| => nodes[i].id)
  }

  function Ports(nodes: seq<Node>): seq<int> {
    seq(|nodes|, i requires 0 <= i < |nodes| => nodes[i].apiPort)
  }

  // ---------- validation ----------

  ghost predicate DistinctKeys(links: seq<Link>) {
    forall i, j :: 0 <= i < j < |links| ==> KeyOf(links[i]) != KeyOf(links[j])
  }

  predicate ProperLink(link: Link, ids: seq<string>) {
    link.source != link.target && link.source in ids && link.target in ids
  }

  ghost predicate HasLink(links: seq<Link>, key: Key) {
    exists i :: 0 <= i < |links| && KeyOf(links[i]) == key
  }

  /** One link, enabled or not, for every ordered pair of different nodes, and nothing else. */
  ghost predicate CompleteGraph(ids: seq<string>, links: seq<Link>) {
    && Distinct(ids)
    && DistinctKeys(links)
    && (forall i :: 0 <= i < |links| ==> ProperLink(links[i], ids))
    && (forall a <- ids, b <- ids :: a != b ==> HasLink(links, (a, b)))
  }

  ghost predicate WellFormed(s: Scenario) {
    && s.nodeCount == |s.nodes|
    && Distinct(Ports(s.nodes))
    && CompleteGraph(NodeIds(s.nodes), s.links)
  }

  /** Comparing sizes detects duplicates. */
  lemma {:induction false} SizeDetectsDuplicates<T>(s: seq<T>)
    ensures |Elements(s)| <= |s|
    ensures |Elements(s)| == |s| <==> Distinct(s)
  {
    if s == [] {
    } else {
      var init, last := s[..|s| - 1], s[|s| - 1];
      SizeDetectsDuplicates(init);
      assert s == init + [last];
      assert Elements(s) == Elements(init) + {last};
      if last in init {
        var i :| 0 <= i < |init| && init[i] == last;
        assert s[i] == s[|s| - 1];
        assert Elements(s) == Elements(init);
      } else {
        assert Distinct(s) <==> Distinct(init) by {
          if Distinct(init) {
            assert forall i :: 0 <= i < |init| ==> s[i] == init[i] && init[i] in init;
          }
          assert forall i :: 0 <= i < |init| ==> init[i] == s[i];
        }
      }
    }
  }

  /** Well-formedness in terms of the nodes and links themselves. */
  lemma WellFormedReads(s: Scenario)
    ensures WellFormed(s) <==>
      && s.nodeCount == |s.nodes|
      && (forall i, j :: 0 <= i < j < |s.nodes| ==> s.nodes[i].id != s.nodes[j].id)
      && (forall i, j :: 0 <= i < j < |s.nodes| ==> s.nodes[i].apiPort != s.nodes[j].apiPort)
      && (forall k :: 0 <= k < |s.links| ==> JoinsNodes(s, s.links[k]))
      && (forall k, l :: 0 <= k < l < |s.links| ==>
            s.links[k].source != s.links[l].source || s.links[k].target != s.links[l].target)
      && (forall i, j :: 0 <= i < |s.nodes| && 0 <= j < |s.nodes| && s.nodes[i].id != s.nodes[j].id ==>
            IsLinked(s, s.nodes[i].id, s.nodes[j].id))
  {
    IdsRead(s);
    PortsRead(s);
    PairsRead(s);
    LinkedReads(s);
    forall k | 0 <= k < |s.links| ensures ProperLink(s.links[k], NodeIds(s.nodes)) <==> JoinsNodes(s, s.links[k]) {
      ProperLinkReads(s, s.links[k]);
    }
    hide Distinct, DistinctKeys, Ports, NodeIds, ProperLink, JoinsNodes, HasLink, IsLinked;
  }

  lemma IdsRead(s: Scenario)
    ensures Distinct(NodeIds(s.nodes)) <==> forall i, j :: 0 <= i < j < |s.nodes| ==> s.nodes[i].id != s.nodes[j].id
  {
    var ids := NodeIds(s.nodes);
    assert forall i :: 0 <= i < |s.nodes| ==> ids[i] == s.nodes[i].id;
  }

  lemma PortsRead(s: Scenario)
    ensures Distinct(Ports(s.nodes))
       <==> forall i, j :: 0 <= i < j < |s.nodes| ==> s.nodes[i].apiPort != s.nodes[j].apiPort
  {
    var ports := Ports(s.nodes);
    assert forall i :: 0 <= i < |s.nodes| ==> ports[i] == s.nodes[i].apiPort;
  }

  lemma PairsRead(s: Scenario)
    ensures DistinctKeys(s.links)
       <==> forall k, l :: 0 <= k < l < |s.links| ==>
              s.links[k].source != s.links[l].source || s.links[k].target != s.links[l].target
  {}

  /** The link leads from one node of the scenario to another one. */
  ghost predicate JoinsNodes(s: Scenario, l: Link) {
    exists i, j :: 0 <= i < |s.nodes| && 0 <= j < |s.nodes|
                   && s.nodes[i].id == l.source && s.nodes[j].id == l.target && l.source != l.target
  }

  ghost predicate IsLinked(s: Scenario, a: string, b: string) {
    exists k :: 0 <= k < |s.links| && s.links[k].source == a && s.links[k].target == b
  }

  lemma ProperLinkReads(s: Scenario, l: Link)
    ensures ProperLink(l, NodeIds(s.nodes)) <==> JoinsNodes(s, l)
  {
    var ids := NodeIds(s.nodes);
    if ProperLink(l, ids) {
      var i :| 0 <= i < |ids| && ids[i] == l.source;
      var j :| 0 <= j < |ids| && ids[j] == l.target;
      assert s.nodes[i].id == l.source && s.nodes[j].id == l.target;
    }
    if JoinsNodes(s, l) {
      var i, j :| 0 <= i < |s.nodes| && 0 <= j < |s.nodes|
                  && s.nodes[i].id == l.source && s.nodes[j].id == l.target && l.source != l.target;
      assert ids[i] == l.source && ids[j] == l.target;
    }
  }

  lemma LinkedReads(s: Scenario)
    ensures (forall a <- NodeIds(s.nodes), b <- NodeIds(s.nodes) :: a != b ==> HasLink(s.links, (a, b)))
       <==> (forall i, j :: 0 <= i < |s.nodes| && 0 <= j < |s.nodes| && s.nodes[i].id != s.nodes[j].id ==>
               IsLinked(s, s.nodes[i].id, s.nodes[j].id))
  {
    var ids := NodeIds(s.nodes);
    forall a, b ensures HasLink(s.links, (a, b)) <==> IsLinked(s, a, b) {
      if HasLink(s.links, (a, b)) {
        var k :| 0 <= k < |s.links| && KeyOf(s.links[k]) == (a, b);
        assert s.links[k].source == a && s.links[k].target == b;
      }
      if IsLinked(s, a, b) {
        var k :| 0 <= k < |s.links| && s.links[k].source == a && s.links[k].target == b;
        assert KeyOf(s.links[k]) == (a, b);
      }
    }
    hide HasLink, IsLinked;
    assert forall i :: 0 <= i < |s.nodes| ==> ids[i] == s.nodes[i].id && ids[i] in ids;
  }

  method ValidateGraph(s: Scenario) returns (r: Result<(), GraphError>)
    ensures r.Ok? <==> WellFormed(s)
    ensures r == Err(NodeCountMismatch) <==> s.nodeCount != |s.nodes|
    ensures r == Err(DuplicateNodeId) ==> !Distinct(NodeIds(s.nodes))
    ensures r == Err(DuplicatePort) ==> !Distinct(Ports(s.nodes))
    ensures r == Err(SelfLink) ==> exists l <- s.links :: l.source == l.target
    ensures r == Err(UnknownNode) ==>
              exists l <- s.links :: l.source !in NodeIds(s.nodes) || l.target !in NodeIds(s.nodes)
    ensures r == Err(DuplicateLink) ==> !DistinctKeys(s.links)
    ensures r == Err(MissingLinks) ==>
              exists a <- NodeIds(s.nodes), b <- NodeIds(s.nodes) :: a != b && !HasLink(s.links, (a, b))
  {
    if s.nodeCount != |s.nodes| {
      return Err(NodeCountMismatch);
    }
    var ids, ports := NodeIds(s.nodes), Ports(s.nodes);
    SizeDetectsDuplicates(ids);
    if |Elements(ids)| != |ids| {
      return Err(DuplicateNodeId);
    }
    SizeDetectsDuplicates(ports);
    if |Elements(ports)| != |ports| {
      return Err(DuplicatePort);
    }
    var known, keys: set<Key> := Elements(ids), {};
    for i := 0 to |s.links|
      invariant forall k <- keys :: exists j :: 0 <= j < i && KeyOf(s.links[j]) == k
      invariant forall j :: 0 <= j < i ==> ProperLink(s.links[j], ids) && KeyOf(s.links[j]) in keys
      invariant forall j, k :: 0 <= j < k < i ==> KeyOf(s.links[j]) != KeyOf(s.links[k])
    {
      var link := s.links[i];
      if link.source == link.target {
        return Err(SelfLink);
      }
      if link.source !in known || link.target !in known {
        return Err(UnknownNode);
      }
      if KeyOf(link) in keys {
        return Err(DuplicateLink);
      }
      keys := keys + {KeyOf(link)};
    }
    if exists a <- ids, b <- ids :: a != b && (a, b) !in keys {
      return Err(MissingLinks);
    }
    return Ok(());
  }

  // ---------- link maps ----------

  /** Later links win, as in a dictionary built from the list. */
  function LinkMap(links: seq<Link>): map<Key, Link> {
    if links == [] then map[]
    else LinkMap(links[..|links| - 1])[KeyOf(links[|links| - 1]) := links[|links| - 1]]
  }

  lemma {:induction false} LinkMapLookup(links: seq<Link>)
    requires DistinctKeys(links)
    ensures forall i :: 0 <= i < |links| ==>
              KeyOf(links[i]) in LinkMap(links) && LinkMap(links)[KeyOf(links[i])] == links[i]
    ensures forall k <- LinkMap(links) :: HasLink(links, k)
  {
    if links == [] {
    } else {
      var init := links[..|links| - 1];
      LinkMapLookup(init);
      forall k <- LinkMap(links) ensures HasLink(links, k) {
        if k in LinkMap(init) {
          var i :| 0 <= i < |init| && KeyOf(init[i]) == k;
          assert KeyOf(links[i]) == k;
        } else {
          assert KeyOf(links[|links| - 1]) == k;
        }
      }
      forall i | 0 <= i < |links| - 1
        ensures KeyOf(links[i]) in LinkMap(links) && LinkMap(links)[KeyOf(links[i])] == links[i]
      {
        assert links[i] == init[i];
      }
    }
  }

  /** Of several links for one pair, the last one listed is found. */
  lemma {:induction false} LastListedWins(links: seq<Link>, i: nat)
    requires i < |links| && forall j :: i < j < |links| ==> KeyOf(links[j]) != KeyOf(links[i])
    ensures (links[i].source, links[i].target) in LinkMap(links)
    ensures LinkMap(links)[(links[i].source, links[i].target)] == links[i]
  {
    if i == |links| - 1 {
    } else {
      LastListedWins(links[..|links| - 1], i);
    }
  }

  // ---------- presets ----------

  predicate PresetEnables(ids: seq<string>, preset: TopologyPreset, i: nat, j: nat)
    requires i < |ids| && j < |ids|
  {
    match preset
    case FullMesh => true
    case Line => i - j == 1 || j - i == 1
    case Star => ids[i] == ids[0] || ids[j] == ids[0]
    case AllIsolated => false
  }

  function LinkAt(ids: seq<string>, preset: TopologyPreset, rssi: int, snr: real, i: nat, j: nat): Link
    requires i < |ids| && j < |ids|
  {
    Link(ids[i], ids[j], PresetEnables(ids, preset, i, j), rssi, snr)
  }

  /** The links out of source `i` to the first `n` nodes. */
  function Row(ids: seq<string>, preset: TopologyPreset, rssi: int, snr: real, i: nat, n: nat): seq<Link>
    requires i < |ids| && n <= |ids|
  {
    if n == 0 then []
    else
      var init := Row(ids, preset, rssi, snr, i, n - 1);
      if ids[i] == ids[n - 1] then init else init + [LinkAt(ids, preset, rssi, snr, i, n - 1)]
  }

  /** The links out of the first `m` sources. */
  function Rows(ids: seq<string>, preset: TopologyPreset, rssi: int, snr: real, m: nat): seq<Link>
    requires m <= |ids|
  {
    if m == 0 then [] else Rows(ids, preset, rssi, snr, m - 1) + Row(ids, preset, rssi, snr, m - 1, |ids|)
  }

  method GenerateLinks(ids: seq<string>, preset: TopologyPreset, rssi: int := -85, snr: real := 8.0)
    returns (links: seq<Link>)
    requires ids != []
    ensures links == Rows(ids, preset, rssi, snr, |ids|)
  {
    links := [];
    var hub := ids[0];
    for i := 0 to |ids|
      invariant links == Rows(ids, preset, rssi, snr, i)
    {
      ghost var before := links;
      for j := 0 to |ids|
        invariant links == before + Row(ids, preset, rssi, snr, i, j)
      {
        if ids[i] == ids[j] {
          continue;
        }
        var enabled := false;
        if preset.FullMesh? {
          enabled := true;
        } else if preset.Line? {
          enabled := i - j == 1 || j - i == 1;
        } else if preset.Star? {
          enabled := ids[i] == hub || ids[j] == hub;
        }
        Associate(before, Row(ids, preset, rssi, snr, i, j), [Link(ids[i], ids[j], enabled, rssi, snr)]);
        links := links + [Link(ids[i], ids[j], enabled, rssi, snr)];
      }
    }
  }

  lemma {:induction false} RowHas(ids: seq<string>, preset: TopologyPreset, rssi: int, snr: real, i: nat, n: nat,
                                  j: nat)
    requires Distinct(ids) && i < |ids| && n <= |ids| && j < n && j != i
    ensures LinkAt(ids, preset, rssi, snr, i, j) in Row(ids, preset, rssi, snr, i, n)
  {
    var init, row := Row(ids, preset, rssi, snr, i, n - 1), Row(ids, preset, rssi, snr, i, n);
    assert row == if ids[i] == ids[n - 1] then init else init + [LinkAt(ids, preset, rssi, snr, i, n - 1)];
    hide Row, LinkAt;
    if j < n - 1 {
      RowHas(ids, preset, rssi, snr, i, n - 1, j);
    }
  }

  lemma RowsUnfold(ids: seq<string>, preset: TopologyPreset, rssi: int, snr: real, m: nat)
    requires 0 < m <= |ids|
    ensures Rows(ids, preset, rssi, snr, m)
         == Rows(ids, preset, rssi, snr, m - 1) + Row(ids, preset, rssi, snr, m - 1, |ids|)
  {}

  /** Every ordered pair of different positions has its link among the rows. */
  lemma {:induction false} RowsHave(ids: seq<string>, preset: TopologyPreset, rssi: int, snr: real, m: nat, i: nat,
                                    j: nat)
    requires Distinct(ids) && m <= |ids| && i < m && j < |ids| && j != i
    ensures LinkAt(ids, preset, rssi, snr, i, j) in Rows(ids, preset, rssi, snr, m)
  {
    hide Rows, Row, LinkAt, Distinct;
    RowsUnfold(ids, preset, rssi, snr, m);
    if i < m - 1 {
      RowsHave(ids, preset, rssi, snr, m - 1, i, j);
    } else {
      RowHas(ids, preset, rssi, snr, i, |ids|, j);
    }
  }

  predicate Runs(ids: seq<string>, m: nat, l: Link)
    requires m <= |ids|
  {
    l.source != l.target && l.source in ids[..m] && l.target in ids
  }

  lemma PrefixIsDistinct(ids: seq<string>, n: nat)
    requires Distinct(ids) && 0 < n <= |ids|
    ensures ids[n - 1] !in ids[..n - 1] && ids[..n] == ids[..n - 1] + [ids[n - 1]]
  {}

  /** One more link whose pair is new. */
  lemma AppendDistinct(links: seq<Link>, l: Link)
    requires DistinctKeys(links) && forall k :: 0 <= k < |links| ==> KeyOf(links[k]) != KeyOf(l)
    ensures DistinctKeys(links + [l])
  {}

  /** A row runs from one source to earlier targets, each once. */
  lemma {:induction false} RowRuns(ids: seq<string>, preset: TopologyPreset, rssi: int, snr: real, i: nat, n: nat)
    requires Distinct(ids) && i < |ids| && n <= |ids|
    ensures DistinctKeys(Row(ids, preset, rssi, snr, i, n))
    ensures forall l <- Row(ids, preset, rssi, snr, i, n) :: l.source == ids[i] != l.target && l.target in ids[..n]
  {
    if n == 0 {
    } else {
      RowRuns(ids, preset, rssi, snr, i, n - 1);
      PrefixIsDistinct(ids, n);
      hide Distinct, DistinctKeys;
      var init := Row(ids, preset, rssi, snr, i, n - 1);
      if ids[i] != ids[n - 1] {
        forall k | 0 <= k < |init| ensures KeyOf(init[k]) != (ids[i], ids[n - 1]) {
          assert init[k] in init;
        }
        AppendDistinct(init, LinkAt(ids, preset, rssi, snr, i, n - 1));
      }
    }
  }

  lemma JoinDistinct(a: seq<Link>, b: seq<Link>)
    requires DistinctKeys(a) && DistinctKeys(b)
    requires forall x <- a, y <- b :: KeyOf(x) != KeyOf(y)
    ensures DistinctKeys(a + b)
  {
    forall i, j | 0 <= i < j < |a + b| ensures KeyOf((a + b)[i]) != KeyOf((a + b)[j]) {
      if i < |a| <= j {
        assert a[i] in a && b[j - |a|] in b;
      }
    }
  }

  /** The rows hold nothing but links between different nodes, and no pair twice. */
  lemma {:induction false} RowsAreDistinct(ids: seq<string>, preset: TopologyPreset, rssi: int, snr: real, m: nat)
    requires Distinct(ids) && m <= |ids|
    ensures DistinctKeys(Rows(ids, preset, rssi, snr, m))
    ensures forall l <- Rows(ids, preset, rssi, snr, m) :: Runs(ids, m, l)
  {
    if m == 0 {
    } else {
      hide Row, Rows, Distinct, DistinctKeys, Runs;
      RowsAreDistinct(ids, preset, rssi, snr, m - 1);
      RowRuns(ids, preset, rssi, snr, m - 1, |ids|);
      PrefixIsDistinct(ids, m);
      RowsUnfold(ids, preset, rssi, snr, m);
      assert ids[..|ids|] == ids;
      JoinRuns(ids, m, Rows(ids, preset, rssi, snr, m - 1), Row(ids, preset, rssi, snr, m - 1, |ids|));
    }
  }

  /** The links of earlier sources, and the row of the next one. */
  lemma JoinRuns(ids: seq<string>, m: nat, init: seq<Link>, row: seq<Link>)
    requires 0 < m <= |ids| && ids[m - 1] !in ids[..m - 1]
    requires DistinctKeys(init) && forall l <- init :: Runs(ids, m - 1, l)
    requires DistinctKeys(row) && forall l <- row :: l.source == ids[m - 1] != l.target && l.target in ids
    ensures DistinctKeys(init + row) && forall l <- init + row :: Runs(ids, m, l)
  {
    assert ids[..m] == ids[..m - 1] + [ids[m - 1]];
    hide DistinctKeys;
    JoinDistinct(init, row);
    forall l <- init + row ensures Runs(ids, m, l) {
      assert l in init || l in row;
    }
  }

  lemma {:induction false} RowAt(ids: seq<string>, preset: TopologyPreset, rssi: int, snr: real, i: nat, n: nat, j: nat)
    requires Distinct(ids) && i < |ids| && n <= |ids|
    ensures |Row(ids, preset, rssi, snr, i, n)| == if i < n then n - 1 else n
    ensures j < n && j != i ==>
              Row(ids, preset, rssi, snr, i, n)[if j < i then j else j - 1] == LinkAt(ids, preset, rssi, snr, i, j)
  {
    hide LinkAt;
    if n == 0 {
    } else {
      assert ids[i] == ids[n - 1] <==> i == n - 1;
      RowAt(ids, preset, rssi, snr, i, n - 1, j);
    }
  }

  lemma {:induction false} RowsAt(ids: seq<string>, preset: TopologyPreset, rssi: int, snr: real, m: nat, i: nat,
                                  p: nat)
    returns (at: nat)
    requires Distinct(ids) && m <= |ids| && i < m && p < |ids| - 1
    ensures at == i * (|ids| - 1) + p < |Rows(ids, preset, rssi, snr, m)| == m * (|ids| - 1)
    ensures |Row(ids, preset, rssi, snr, i, |ids|)| == |ids| - 1
    ensures Rows(ids, preset, rssi, snr, m)[at] == Row(ids, preset, rssi, snr, i, |ids|)[p]
  {
    hide Row, Rows, Distinct;
    RowsLength(ids, preset, rssi, snr, m - 1);
    RowsLength(ids, preset, rssi, snr, m);
    RowAt(ids, preset, rssi, snr, i, |ids|, 0);
    RowsUnfold(ids, preset, rssi, snr, m);
    if i == m - 1 {
      at := |Rows(ids, preset, rssi, snr, m - 1)| + p;
    } else {
      at := RowsAt(ids, preset, rssi, snr, m - 1, i, p);
    }
  }

  lemma {:induction false} RowsLength(ids: seq<string>, preset: TopologyPreset, rssi: int, snr: real, m: nat)
    requires Distinct(ids) && m <= |ids|
    ensures |Rows(ids, preset, rssi, snr, m)| == m * (|ids| - 1)
  {
    if m == 0 {
    } else {
      RowsLength(ids, preset, rssi, snr, m - 1);
      RowAt(ids, preset, rssi, snr, m - 1, |ids|, 0);
      RowsUnfold(ids, preset, rssi, snr, m);
      hide Row, Rows, Distinct;
      assert m * (|ids| - 1) == (m - 1) * (|ids| - 1) + (|ids| - 1);
    }
  }

  /**
     Where every generated link stands and what it says: pairs in the order of the identifiers,
     source by source, each enabled as its preset wants it, all with the given radio values.
   */
  lemma GeneratedLinkAt(ids: seq<string>, preset: TopologyPreset, rssi: int, snr: real, i: nat, j: nat)
    returns (at: nat)
    requires Distinct(ids) && i < |ids| && j < |ids| && i != j
    ensures at == i * (|ids| - 1) + if j < i then j else j - 1
    ensures at < |Rows(ids, preset, rssi, snr, |ids|)| == |ids| * (|ids| - 1)
    ensures var link := Rows(ids, preset, rssi, snr, |ids|)[at];
            && link.source == ids[i] && link.target == ids[j] && link.rssiDbm == rssi && link.snrDb == snr
            && (link.enabled <==>
                match preset
                case FullMesh => true
                case Line => i + 1 == j || j + 1 == i
                case Star => i == 0 || j == 0
                case AllIsolated => false)
  {
    RowAt(ids, preset, rssi, snr, i, |ids|, j);
    at := RowsAt(ids, preset, rssi, snr, |ids|, i, if j < i then j else j - 1);
    hide Rows, Row;
  }

  /** Generated links always form a complete graph over distinct node identifiers. */
  lemma GeneratedLinksAreComplete(ids: seq<string>, preset: TopologyPreset, rssi: int, snr: real)
    requires Distinct(ids)
    ensures CompleteGraph(ids, Rows(ids, preset, rssi, snr, |ids|))
  {
    var rows := Rows(ids, preset, rssi, snr, |ids|);
    RowsAreDistinct(ids, preset, rssi, snr, |ids|);
    hide Rows, DistinctKeys;
    assert ids[..|ids|] == ids;
    forall i | 0 <= i < |rows| ensures ProperLink(rows[i], ids) {
      assert rows[i] in rows;
    }
    forall a <- ids, b <- ids | a != b ensures HasLink(rows, (a, b)) {
      var i :| 0 <= i < |ids| && ids[i] == a;
      var j :| 0 <= j < |ids| && ids[j] == b;
      RowsHave(ids, preset, rssi, snr, |ids|, i, j);
      var link := LinkAt(ids, preset, rssi, snr, i, j);
      var k :| 0 <= k < |rows| && rows[k] == link;
      assert KeyOf(rows[k]) == (a, b);
    }
  }

  /** The preset's decision for every pair, looked up as the source does. */
  lemma PresetLookup(ids: seq<string>, preset: TopologyPreset, rssi: int, snr: real, i: nat, j: nat)
    requires Distinct(ids) && i < |ids| && j < |ids| && i != j
    ensures var m := LinkMap(Rows(ids, preset, rssi, snr, |ids|));
            (ids[i], ids[j]) in m && m[(ids[i], ids[j])] == LinkAt(ids, preset, rssi, snr, i, j)
  {
    var rows := Rows(ids, preset, rssi, snr, |ids|);
    RowsHave(ids, preset, rssi, snr, |ids|, i, j);
    RowsAreDistinct(ids, preset, rssi, snr, |ids|);
    LinkMapLookup(rows);
    hide Rows, LinkMap;
    var link := LinkAt(ids, preset, rssi, snr, i, j);
    var k :| 0 <= k < |rows| && rows[k] == link;
    assert KeyOf(rows[k]) in LinkMap(rows);
  }

  function EnabledByPair(ids: seq<string>, preset: TopologyPreset, link: Link): bool {
    var m := LinkMap(Rows(ids, preset, -85, 8.0, |ids|));
    KeyOf(link) in m && m[KeyOf(link)].enabled
  }

  /** Only the enabled flags change; nodes, order, endpoints and radio values stay. */
  function ApplyPreset(s: Scenario, preset: TopologyPreset): (r: Scenario)
    ensures |r.links| == |s.links| && r == s.(links := r.links)
    ensures forall i :: 0 <= i < |s.links| ==> r.links[i].(enabled := s.links[i].enabled) == s.links[i]
  {
    s.(links := seq(|s.links|, i requires 0 <= i < |s.links| =>
                      s.links[i].(enabled := EnabledByPair(NodeIds(s.nodes), preset, s.links[i]))))
  }

  /** A well-formed scenario stays well-formed, and each link gets the preset's decision. */
  lemma PresetKeepsGraph(s: Scenario, preset: TopologyPreset)
    requires WellFormed(s)
    ensures WellFormed(ApplyPreset(s, preset))
    ensures forall k :: 0 <= k < |s.links| ==> KeyOf(ApplyPreset(s, preset).links[k]) == KeyOf(s.links[k])
  {
    var r, ids := ApplyPreset(s, preset), NodeIds(s.nodes);
    assert forall k :: 0 <= k < |s.links| ==> KeyOf(r.links[k]) == KeyOf(s.links[k]);
    forall a <- ids, b <- ids | a != b ensures HasLink(r.links, (a, b)) {
      assert HasLink(s.links, (a, b));
      var k :| 0 <= k < |s.links| && KeyOf(s.links[k]) == (a, b);
      assert KeyOf(r.links[k]) == (a, b);
    }
    assert forall k :: 0 <= k < |r.links| ==> ProperLink(s.links[k], ids);
  }

  /** A preset forgets every flag set before it: of two presets only the last counts. */
  lemma LastPresetWins(s: Scenario, first: TopologyPreset, second: TopologyPreset)
    ensures ApplyPreset(ApplyPreset(s, first), second) == ApplyPreset(s, second)
  {
    var a, b := ApplyPreset(ApplyPreset(s, first), second).links, ApplyPreset(s, second).links;
    forall i | 0 <= i < |s.links| ensures a[i] == b[i] {
      assert KeyOf(ApplyPreset(s, first).links[i]) == KeyOf(s.links[i]);
    }
  }

  // ---------- reachable pairs ----------

  ghost predicate EnabledLink(links: seq<Link>, source: string, target: string) {
    exists k :: 0 <= k < |links| && links[k].enabled && KeyOf(links[k]) == (source, target)
  }

  ghost predicate IsAdjacency(g: Graph, s: Scenario) {
    && g.Keys == Elements(NodeIds(s.nodes))
    && forall a, b :: b in Neighbors(g, a) <==> EnabledLink(s.links, a, b)
  }

  method BuildAdjacency(s: Scenario) returns (g: Graph)
    requires WellFormed(s)
    ensures IsAdjacency(g, s)
  {
    hide WellFormed, EnabledLink, Neighbors;
    LinksAreProper(s);
    g := map id <- Elements(NodeIds(s.nodes)) :: {};
    NoLinksYet(g, s.links);
    for i := 0 to |s.links|
      invariant g.Keys == Elements(NodeIds(s.nodes))
      invariant forall a, b :: b in Neighbors(g, a) <==> EnabledLink(s.links[..i], a, b)
    {
      var link := s.links[i];
      AddLink(g, s.links, i);
      if link.enabled {
        g := g[link.source := g[link.source] + {link.target}];
      }
    }
    assert s.links[..|s.links|] == s.links;
  }

  lemma LinksAreProper(s: Scenario)
    requires WellFormed(s)
    ensures forall i :: 0 <= i < |s.links| ==> s.links[i].source in Elements(NodeIds(s.nodes))
  {
    forall i | 0 <= i < |s.links| ensures s.links[i].source in Elements(NodeIds(s.nodes)) {
      assert ProperLink(s.links[i], NodeIds(s.nodes));
    }
  }

  lemma NoLinksYet(g: Graph, links: seq<Link>)
    requires forall a <- g :: g[a] == {}
    ensures forall a, b :: b in Neighbors(g, a) <==> EnabledLink(links[..0], a, b)
  {}

  lemma AddLink(g: Graph, links: seq<Link>, i: nat)
    requires i < |links| && links[i].source in g
    requires forall a, b :: b in Neighbors(g, a) <==> EnabledLink(links[..i], a, b)
    ensures var link := links[i];
            var g' := if link.enabled then g[link.source := g[link.source] + {link.target}] else g;
            forall a, b :: b in Neighbors(g', a) <==> EnabledLink(links[..i + 1], a, b)
  {
    var link := links[i];
    var g' := if link.enabled then g[link.source := g[link.source] + {link.target}] else g;
    forall a, b ensures b in Neighbors(g', a) <==> EnabledLink(links[..i + 1], a, b) {
      assert b in Neighbors(g', a) <==> EnabledLink(links[..i], a, b) || (link.enabled && KeyOf(link) == (a, b));
      OneMoreLink(links, i, a, b);
    }
  }

  lemma OneMoreLink(links: seq<Link>, i: nat, a: string, b: string)
    requires i < |links|
    ensures EnabledLink(links[..i + 1], a, b)
       <==> EnabledLink(links[..i], a, b) || (links[i].enabled && KeyOf(links[i]) == (a, b))
  {
    assert forall k :: 0 <= k < i ==> links[..i + 1][k] == links[..i][k];
    assert links[..i + 1][i] == links[i];
  }

  /** A path of exactly `hops` enabled links. */
  ghost predicate Path(links: seq<Link>, source: string, target: string, hops: nat)
    decreases hops
  {
    if hops == 0 then source == target
    else exists mid :: Path(links, source, mid, hops - 1) && EnabledLink(links, mid, target)
  }

  /** Two different nodes joined by a path of at most `maxHops` enabled links, or of a single one. */
  ghost predicate Connected(links: seq<Link>, source: string, target: string, maxHops: Option<int>) {
    source != target
    && exists hops: nat ::
         (maxHops.None? || hops <= maxHops.value || hops <= 1) && Path(links, source, target, hops)
  }

  lemma {:induction false} WalkIsPath(g: Graph, s: Scenario, source: string, target: string, hops: nat)
    requires IsAdjacency(g, s)
    ensures Walk(g, source, target, hops) <==> Path(s.links, source, target, hops)
    decreases hops
  {
    hide EnabledLink, Neighbors;
    if hops == 0 {
    } else {
      var fewer := hops - 1;
      forall mid: string ensures Walk(g, source, mid, fewer) <==> Path(s.links, source, mid, fewer) {
        WalkIsPath(g, s, source, mid, fewer);
      }
    }
  }

  lemma ReachIsConnected(g: Graph, s: Scenario, source: string, target: string, maxHops: Option<int>)
    requires IsAdjacency(g, s)
    ensures InReach(g, source, target, maxHops) <==> Connected(s.links, source, target, maxHops)
  {
    hide IsAdjacency, Walk, Path;
    forall hops: nat ensures Walk(g, source, target, hops) <==> Path(s.links, source, target, hops) {
      WalkIsPath(g, s, source, target, hops);
    }
  }

  /** A path that uses a link starts at a node of the scenario. */
  lemma {:induction false} PathStartsAtNode(s: Scenario, source: string, target: string, hops: nat)
    requires WellFormed(s) && hops > 0 && Path(s.links, source, target, hops)
    ensures source in NodeIds(s.nodes)
    decreases hops
  {
    hide WellFormed;
    var mid :| Path(s.links, source, mid, hops - 1) && EnabledLink(s.links, mid, target);
    if hops == 1 {
      LinksAreProper(s);
      var k :| 0 <= k < |s.links| && KeyOf(s.links[k]) == (mid, target);
    } else {
      PathStartsAtNode(s, source, mid, hops - 1);
    }
  }

  lemma ConnectedStartsAtNode(s: Scenario, source: string, target: string, maxHops: Option<int>)
    requires WellFormed(s) && Connected(s.links, source, target, maxHops)
    ensures source in NodeIds(s.nodes)
  {
    var hops: nat :|
      (maxHops.None? || hops <= maxHops.value || hops <= 1) && Path(s.links, source, target, hops);
    PathStartsAtNode(s, source, target, hops);
  }

  /** Exactly the ordered pairs of different nodes joined by a short enough path of enabled links. */
  method ReachablePairs(s: Scenario, maxHops: Option<int>) returns (pairs: set<Key>)
    requires WellFormed(s)
    ensures forall a, b :: (a, b) in pairs <==> Connected(s.links, a, b, maxHops)
  {
    var adjacency := BuildAdjacency(s);
    NeighborsAreNodes(s, adjacency);
    hide WellFormed, InReach, Connected;
    pairs := {};
    var sources := adjacency.Keys;
    while sources != {}
      invariant sources <= adjacency.Keys
      invariant forall a, b :: (a, b) in pairs <==>
                  a in adjacency.Keys - sources && InReach(adjacency, a, b, maxHops)
      decreases sources
    {
      var source :| source in sources;
      var targets := ReachableFrom(adjacency, source, maxHops, adjacency.Keys);
      pairs := pairs + (set t <- targets :: (source, t));
      sources := sources - {source};
    }
    forall a, b ensures (a, b) in pairs <==> Connected(s.links, a, b, maxHops) {
      ReachIsConnected(adjacency, s, a, b, maxHops);
      if Connected(s.links, a, b, maxHops) {
        ConnectedStartsAtNode(s, a, b, maxHops);
      }
    }
  }

  lemma NeighborsAreNodes(s: Scenario, g: Graph)
    requires WellFormed(s) && IsAdjacency(g, s)
    ensures forall v <- g.Keys :: Neighbors(g, v) <= g.Keys
  {
    forall v <- g.Keys, w <- Neighbors(g, v) ensures w in g.Keys {
      assert EnabledLink(s.links, v, w);
      var k :| 0 <= k < |s.links| && KeyOf(s.links[k]) == (v, w);
      assert ProperLink(s.links[k], NodeIds(s.nodes));
    }
  }

  // ---------- what each preset connects ----------

  /** Hops between two different nodes of a preset, by position. */
  function PresetDistance(preset: TopologyPreset, i: nat, j: nat): Option<nat> {
    match preset
    case FullMesh => Some(1)
    case Line => Some(if i < j then j - i else i - j)
    case Star => Some(if i == 0 || j == 0 then 1 else 2)
    case AllIsolated => None
  }

  lemma PresetLinks(s: Scenario, preset: TopologyPreset, i: nat, j: nat)
    requires WellFormed(s) && i < |s.nodes| && j < |s.nodes|
    ensures EnabledLink(ApplyPreset(s, preset).links, s.nodes[i].id, s.nodes[j].id)
       <==> i != j && PresetEnables(NodeIds(s.nodes), preset, i, j)
  {
    var ids, r := NodeIds(s.nodes), ApplyPreset(s, preset);
    PresetKeepsGraph(s, preset);
    if i != j {
      PresetLookup(ids, preset, -85, 8.0, i, j);
      assert HasLink(s.links, (ids[i], ids[j]));
      var k :| 0 <= k < |s.links| && KeyOf(s.links[k]) == (ids[i], ids[j]);
      assert r.links[k].enabled == PresetEnables(ids, preset, i, j);
      forall k' | 0 <= k' < |r.links| && KeyOf(r.links[k']) == (ids[i], ids[j]) ensures k' == k {
        assert KeyOf(r.links[k]) == (ids[i], ids[j]);
      }
    } else {
      forall k | 0 <= k < |r.links| ensures KeyOf(r.links[k]) != (ids[i], ids[j]) {
        assert ProperLink(r.links[k], ids);
      }
    }
  }

  lemma LinkIsOneStep(s: Scenario, preset: TopologyPreset, m: nat, target: string) returns (j: nat)
    requires WellFormed(s) && m < |s.nodes| && EnabledLink(ApplyPreset(s, preset).links, s.nodes[m].id, target)
    ensures j < |s.nodes| && s.nodes[j].id == target && j != m && PresetDistance(preset, m, j) == Some(1)
  {
    PresetKeepsGraph(s, preset);
    j := PositionOfTarget(ApplyPreset(s, preset), m, target);
    PresetLinks(s, preset, m, j);
    IdsAreDistinct(s, 0, m);
    IdsAreDistinct(s, 0, j);
    hide WellFormed, ApplyPreset, EnabledLink;
  }

  /** An enabled link leads to a node of the scenario. */
  lemma PositionOfTarget(s: Scenario, m: nat, target: string) returns (j: nat)
    requires WellFormed(s) && m < |s.nodes| && EnabledLink(s.links, s.nodes[m].id, target)
    ensures j < |s.nodes| && s.nodes[j].id == target
  {
    var ids := NodeIds(s.nodes);
    var k :| 0 <= k < |s.links| && s.links[k].enabled && KeyOf(s.links[k]) == (ids[m], target);
    assert ProperLink(s.links[k], ids);
    j :| 0 <= j < |ids| && ids[j] == target;
  }

  ghost predicate AtMost(preset: TopologyPreset, i: nat, j: nat, hops: nat) {
    i == j || (PresetDistance(preset, i, j).Some? && PresetDistance(preset, i, j).value <= hops)
  }

  lemma OneStepFurther(preset: TopologyPreset, i: nat, m: nat, j: nat, hops: nat)
    requires AtMost(preset, i, m, hops) && m != j && PresetDistance(preset, m, j) == Some(1)
    ensures AtMost(preset, i, j, hops + 1)
  {}

  /** No path beats the preset distance. */
  lemma {:induction false} PathIsAtLeastDistance(s: Scenario, preset: TopologyPreset, i: nat, target: string, hops: nat)
    returns (j: nat)
    requires WellFormed(s) && i < |s.nodes| && Path(ApplyPreset(s, preset).links, s.nodes[i].id, target, hops)
    ensures j < |s.nodes| && s.nodes[j].id == target && AtMost(preset, i, j, hops)
    decreases hops
  {
    hide WellFormed, ApplyPreset, PresetDistance, EnabledLink;
    if hops == 0 {
      j := i;
    } else {
      var links := ApplyPreset(s, preset).links;
      var mid :| Path(links, s.nodes[i].id, mid, hops - 1) && EnabledLink(links, mid, target);
      var m := PathIsAtLeastDistance(s, preset, i, mid, hops - 1);
      j := LinkIsOneStep(s, preset, m, target);
      OneStepFurther(preset, i, m, j, hops - 1);
    }
  }

  lemma ExtendPath(links: seq<Link>, source: string, mid: string, target: string, hops: nat)
    requires Path(links, source, mid, hops) && EnabledLink(links, mid, target)
    ensures Path(links, source, target, hops + 1)
  {}

  /** The last stop before `j` on the way from `i`. */
  function StopBefore(preset: TopologyPreset, i: nat, j: nat): (m: nat)
    requires i != j && PresetDistance(preset, i, j).Some?
    ensures m != j && (m <= i || m <= j)
    ensures PresetDistance(preset, m, j) == Some(1)
    ensures if PresetDistance(preset, i, j).value == 1 then m == i
            else i != m && PresetDistance(preset, i, m) == Some(PresetDistance(preset, i, j).value - 1)
  {
    if PresetDistance(preset, i, j).value == 1 then i else if preset.Star? then 0 else if i < j then j - 1 else j + 1
  }

  lemma LinkOfDistanceOne(s: Scenario, preset: TopologyPreset, m: nat, j: nat)
    requires WellFormed(s) && m < |s.nodes| && j < |s.nodes| && m != j && PresetDistance(preset, m, j) == Some(1)
    ensures EnabledLink(ApplyPreset(s, preset).links, s.nodes[m].id, s.nodes[j].id)
  {
    PresetLinks(s, preset, m, j);
  }

  /** A path of the preset distance exists. */
  lemma {:induction false} DistanceIsWalked(s: Scenario, preset: TopologyPreset, i: nat, j: nat)
    requires WellFormed(s) && i < |s.nodes| && j < |s.nodes| && i != j && PresetDistance(preset, i, j).Some?
    ensures Path(ApplyPreset(s, preset).links, s.nodes[i].id, s.nodes[j].id, PresetDistance(preset, i, j).value)
    decreases PresetDistance(preset, i, j).value
  {
    hide WellFormed, ApplyPreset, PresetDistance, EnabledLink;
    var links := ApplyPreset(s, preset).links;
    var d := PresetDistance(preset, i, j).value;
    var m := StopBefore(preset, i, j);
    LinkOfDistanceOne(s, preset, m, j);
    if d == 1 {
      ExtendPath(links, s.nodes[i].id, s.nodes[i].id, s.nodes[j].id, 0);
    } else {
      DistanceIsWalked(s, preset, i, m);
      ExtendPath(links, s.nodes[i].id, s.nodes[m].id, s.nodes[j].id, d - 1);
    }
  }

  lemma IdsAreDistinct(s: Scenario, i: nat, j: nat)
    requires WellFormed(s) && i < |s.nodes| && j < |s.nodes|
    ensures s.nodes[i].id == s.nodes[j].id <==> i == j
  {
    assert s.nodes[i].id == NodeIds(s.nodes)[i] && s.nodes[j].id == NodeIds(s.nodes)[j];
  }

  /**
     Which pairs a preset connects within a hop limit: everything directly in a full mesh,
     positions at most the limit apart on a line, two hops over the hub of a star, and
     nothing when all nodes are isolated.
   */
  lemma PresetReach(s: Scenario, preset: TopologyPreset, i: nat, j: nat, maxHops: Option<int>)
    requires WellFormed(s) && i < |s.nodes| && j < |s.nodes|
    ensures Connected(ApplyPreset(s, preset).links, s.nodes[i].id, s.nodes[j].id, maxHops)
       <==> i != j && PresetDistance(preset, i, j).Some?
            && (var d := PresetDistance(preset, i, j).value; maxHops.None? || d <= maxHops.value || d <= 1)
  {
    hide WellFormed, ApplyPreset, Path;
    var links, a, b := ApplyPreset(s, preset).links, s.nodes[i].id, s.nodes[j].id;
    IdsAreDistinct(s, i, j);
    if i != j && PresetDistance(preset, i, j).Some? {
      DistanceIsWalked(s, preset, i, j);
    }
    if Connected(links, a, b, maxHops) {
      var hops: nat :| (maxHops.None? || hops <= maxHops.value || hops <= 1) && Path(links, a, b, hops);
      var k := PathIsAtLeastDistance(s, preset, i, b, hops);
      IdsAreDistinct(s, k, j);
    }
  }
}
