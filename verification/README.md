# Verification model of the mesh simulator backend

A Dafny model of the parts of the backend whose correctness depends on state and order:
the byte framing between gateway and native daemon, the gateway's downstream multiplexer,
the event log with its slow-consumer subscriptions and WebSocket replay, the scenario graph
with its hop-bounded reachability, the live topology timeline, and the accounting of a
traffic run from its schedule to its frozen result. Each module says what its code does and
proves what that code is for.

Code that changes state step by step is a class or a method with a loop; code that only
computes is a function. A method's contract ties its result or new state to a function of
the old one, and the theorems are lemmas about those functions: over every input, every
split of a byte stream, every schedule of steps, every history of events.

| file | models |
|---|---|
| `Framing.dfy` | the resynchronising frame parser and the frame encoder |
| `Gateway.dfy` | one downstream connection: bounded queues, one external client, one writer |
| `Events.dfy` | the event broker, its retained history and paging, and its subscriptions |
| `Replay.dfy` | one WebSocket connection: subscribe, replay, forward |
| `Reachability.dfy`, `Scenario.dfy` | graph validation, presets, reachable pairs |
| `Topology.dfy` | link updates across service, medium and running traffic |
| `Schedule.dfy` | messages per source, offsets, the merged submission order |
| `Identifier.dfy` | the payload identifier and the size admission of a run |
| `PacketIds.dfy` | packet-ID allocation and the five-minute quarantine |
| `Airtime.dfy` | airtime, retransmission delay, drain windows |
| `Metrics.dfy` | counters, percentiles and the metrics calculation |
| `Ledger.dfy` | the records of a traffic run as a value, one function per handler |
| `Orphans.dfy` | when a frozen result adds up, and the messages that keep it from doing so |
| `Evidence.dfy` | what recorded facts say about the events of the run |
| `Accounts.dfy` | what one step does to every other record |
| `Controller.dfy` | the traffic controller with its incremental counters, drain and finish |
| `OverfullPool.dfy` | a pool history within the run cap on which the quarantine fails |
| `TrafficRun.dfy` | one run from its schedule to its frozen result, with the parts above used together |
| `Wrappers.dfy` | Option and Result, and a few facts about sequences and reals |

How a traffic run is modelled: `Ledger` says what each handler records and nothing else; a
run is any sequence of enabled events, so every interleaving of the tasks is covered.
`Controller` keeps the same records in mutable fields together with the incremental
counters, and is proved to perform exactly the ledger's steps while every counter stays
equal to a recount.

## Model

| member | source | states |
|---|---|---|
| Framing.HeadIsStable | backend/app/gateway/framing.py:48-75 | a token found at the front of a buffer is found there whatever bytes arrive later |
| Framing.ChunkIndependence | backend/app/gateway/framing.py:37-76 | feeding a and then b leaves the same tokens, and so the same frames and counters, and the same residue as feeding both at once |
| Framing.AnyChunking | backend/app/gateway/framing.py:37-76 | any split of any stream into chunks gives the result of the unsplit stream |
| Framing.ResumeStops | backend/app/gateway/framing.py:42-76 | after a feed no further token can be taken, and at most 3 + maximum payload bytes stay buffered |
| Framing.ByteConservation | backend/app/gateway/framing.py:42-76 | for any input, bytes fed = raw bytes of frames + discarded bytes + buffered bytes |
| Framing.NoiseBeforeMagic | backend/app/gateway/framing.py:44-52 | bytes before the first MAGIC are discarded one for one and parsing goes on at the MAGIC |
| Framing.NoiseWithoutMagic | backend/app/gateway/framing.py:44-52 | without MAGIC everything is discarded except a possible first byte of it at the end |
| Framing.NoiseIsOnlyDiscarded | backend/app/gateway/framing.py:42-52 | noise adds no frame and no oversize count, and its length to the discarded bytes |
| Framing.EncodedHead | backend/app/gateway/framing.py:79-84 | an encoded payload in front of any tail is recognised as exactly its frame |
| Framing.EncodeLayout | backend/app/gateway/framing.py:79-84 | an encoded payload is 0x94 0xC3, its length big-endian in two bytes, and itself; more than 512 bytes are refused |
| Framing.NoisyRoundTrip | backend/app/gateway/framing.py:37-84 | MAGIC-free noise between encoded payloads: the parser takes exactly those frames and discards exactly the noise |
| Framing.NoisyRoundTripCounts | backend/app/gateway/framing.py:37-84 | in that stream frames, discarded bytes and oversize count are the sent payloads, the noise length and zero |
| Framing.OversizedHeaderHidesNothing | backend/app/gateway/framing.py:60-66 | a header that announces too much costs its own four bytes and no more: the frame right behind it is found, even when its length field looks like MAGIC |
| Framing.FindMagic | backend/app/gateway/framing.py:44 | the first position of the two MAGIC bytes, or -1 exactly when there is none |
| Framing.FrameParser.Resynchronize | backend/app/gateway/framing.py:43-53 | dropping noise in place keeps what the buffer parses to |
| Framing.FrameParser.TakeFrame | backend/app/gateway/framing.py:54-75 | cutting a frame, dropping an oversized header by one MAGIC, or waiting is the next parser step |
| Framing.FrameParser.Feed | backend/app/gateway/framing.py:37-76 | the frames returned, the new buffer and both counters are those of resuming the parse on buffer + data |
| Framing.ReadStream | backend/app/gateway/framing.py:24-76 | a fresh parser fed any chunks returns the frames of the whole stream |
| Gateway.WholeFramesReadBack | backend/app/gateway/node_gateway.py:377-385 | concatenated whole frames parse back to exactly those frames, nothing discarded, nothing left |
| Gateway.ParsedFramesAreWhole | backend/app/gateway/node_gateway.py:348-352 | every frame the client's parser returns is itself an encoded payload |
| Gateway.FromPrefix | backend/app/gateway/node_gateway.py:377-385 | one producer's dequeued frames are a prefix of what that producer queued |
| Gateway.NodeGateway.SendToRadio | backend/app/gateway/node_gateway.py:187-194 | succeeds exactly when running, small enough and not full; then queues one encoded frame, otherwise nothing changes; which error is which |
| Gateway.NodeGateway.ConnectClient | backend/app/gateway/node_gateway.py:295-346 | admits one client at a time, public ones only when enabled, and counts every refusal |
| Gateway.NodeGateway.ReadClient | backend/app/gateway/node_gateway.py:348-352 | after any read, frames queued and waiting are those of all bytes the client has sent |
| Gateway.NodeGateway.PutParsedFrame | backend/app/gateway/node_gateway.py:348-352 | queues the client's next parsed frame, in order |
| Gateway.NodeGateway.DisconnectClient | backend/app/gateway/node_gateway.py:325-346 | drops the client's parser and its unsent frames; what it had queued is kept, and stays the first frames of the bytes it sent |
| Gateway.NodeGateway.WriteOne | backend/app/gateway/node_gateway.py:377-385 | moves the oldest queued write to the wire, whole |
| Gateway.NodeGateway.HandleDownstreamFrame | backend/app/gateway/node_gateway.py:391-428 | RF frames go to the RF queue only, others to the client only; every frame for a client is queued or counted as dropped |
| Gateway.NodeGateway.TakeStep | backend/app/gateway/node_gateway.py:187-428 | every step of every task does what it can do in that state, or nothing, and keeps the multiplexer invariant |
| Gateway.NodeGateway.Drive | backend/app/gateway/node_gateway.py:187-428 | over any schedule the wire is whole frames that parse back to the dequeued ones, and each producer's order is kept; every client's queued frames are the first ones of the bytes it sent, for clients that have left as well |
| Gateway.NodeGateway.WireReadsBack | backend/app/gateway/node_gateway.py:377-385 | the same of any state that satisfies the invariant |
| Gateway.ReadWire | backend/app/gateway/node_gateway.py:377-385 | a fresh parser reading the wire in any chunks returns the dequeued frames with zero discarded bytes |
| Events.EventSubscription.Publish | backend/app/metrics/events.py:86-92 | appends; when full it first loses exactly the oldest item and counts it |
| Events.EventSubscription.Restart | backend/app/metrics/events.py:94-110 | forgets queued items and counters, and queues only the reset notice |
| Events.EventSubscription.Next | backend/app/metrics/events.py:112-126 | a fresh call gives a drop notice for all uncounted losses, or the oldest item, and waits only when both are absent; a call that has waited takes the next item first |
| Events.EventSubscription.LossAccounting | backend/app/metrics/events.py:79-126 | published = delivered + queued + announced as dropped + pending; items leave in the order they were published; never two notices in a row; with an empty queue pending losses are announced next |
| Events.HeardFromItems | backend/app/metrics/events.py:112-126 | every numbered event handed to the client is a published item; only notices are not |
| Events.LostFromItems | backend/app/metrics/events.py:86-92 | everything lost was a published item |
| Events.ItemsHeardOrLost | backend/app/metrics/events.py:86-126 | every item that left the queue was heard or lost |
| Events.AfterIsSuffix | backend/app/metrics/events.py:207 | on a contiguous history the events after a cursor are a suffix of the stream |
| Events.GapIsExact | backend/app/metrics/events.py:196-207 | on the same stream, for every cursor and history size: the gap flag tells whether an event after the cursor was evicted if and only if cursor and history size are positive or nothing was; it is never set without cause |
| Events.UnreportedGap | backend/app/metrics/events.py:198-203 | with cursor 0 or history size 0 the flag is never set, although events are evicted exactly when the stream outgrows cursor + history size |
| Events.PageIsStretch | backend/app/metrics/events.py:188-216 | a page is one contiguous stretch after the cursor, and hasMore says exactly whether it ends before the latest event |
| Events.OtherStreamStartsOver | backend/app/metrics/events.py:199-216 | a client that names another stream gets the first events of the whole retained history, whatever its cursor; the change is flagged, a gap never |
| Events.PageHeader | backend/app/metrics/events.py:188-216 | every page names the stream, its latest number, its oldest retained one, and whether the client named another stream |
| Events.PagingReachesTheEnd | backend/app/metrics/events.py:188-216 | following hasMore with any limit of at least 1 collects every retained event after the cursor |
| Events.PagingConcatenates | backend/app/metrics/events.py:188-216 | the pages concatenate to the one-shot answer |
| Events.EventBroker.Subscribe | backend/app/metrics/events.py:219-227 | a new subscription follows the stream from the current position |
| Events.EventBroker.Append | backend/app/metrics/events.py:147-154 | the history stays the last history-size events, numbered first to latest without holes; evictions are counted |
| Events.EventBroker.Publish | backend/app/metrics/events.py:146-156 | the next sequence number, appended to the stream and to every subscription alike |
| Events.EventBroker.FanOut | backend/app/metrics/events.py:154-156 | every subscriber receives the event and none loses anything it was already handed |
| Events.EventBroker.Clear | backend/app/metrics/events.py:158-166 | a new stream from number 1, an empty history, every subscription restarted |
| Events.EventBroker.RestartAll | backend/app/metrics/events.py:165-166 | every subscription is restarted on the new stream |
| Replay.EventStream.constructor | backend/app/main.py:241-276 | subscribing and replaying in one step: sent are the reset notice for a client of another stream, else the gap notice where events after a positive cursor are gone, then at most 5000 events: all retained ones after a stream change, those from the cursor on otherwise |
| Replay.EventStream.QueueContinuesStream | backend/app/main.py:277-298 | the oldest queued item is a notice or the next number of the stream |
| Replay.EventStream.TakeNext | backend/app/main.py:278-291 | one subscription item: a notice or the next number of the stream |
| Replay.EventStream.ForwardNext | backend/app/main.py:290-298 | every item is sent; the duplicate filter never has anything to filter |
| Replay.EventStream.TakeStep | backend/app/main.py:277-298 | publishing adds the next event, clearing begins a new stream, forwarding sends one more item whenever one is queued; each keeps the connection's invariant |
| Replay.EventStream.Drive | backend/app/main.py:240-298 | over any such steps, numbered events of one stream go out in strictly increasing order |
| Replay.EventStream.NothingIsMissed | backend/app/main.py:241-298 | with no gap or stream change reported and a positive cursor, every later event is sent, queued or counted as dropped if and only if something is retained at all (or nothing is missing) and what was retained after the cursor fits one page of 5000 |
| Replay.EventStream.RetainedIsNotMissed | backend/app/main.py:241-298 | whatever was reported on connecting, a stream change or a gap included: each retained event asked for and each later one is sent, queued or counted as dropped if and only if those retained at that moment fit one page of 5000 |
| Replay.EventStream.NothingIsMissedAfterClear | backend/app/metrics/events.py:94-110 | after a clear, every event of the new stream is sent, queued or counted as dropped |
| Replay.SendKeepsOrder | backend/app/main.py:291-298 | sending one more event under the duplicate filter's rule keeps the order |
| Replay.OpeningIsOrdered | backend/app/main.py:242-276 | the replayed notices and page are in order up to the latest sequence |
| Replay.OpeningExactly | backend/app/main.py:242-276 | exactly which notice a connection begins with, and which stretch of the stream follows |
| Reachability.WalksAreVisited | backend/app/models/scenario.py:172-182 | when the queue is empty every walk within the bound ends at a node visited at least as early |
| Reachability.SkipVisited | backend/app/models/scenario.py:176-178 | ignoring a copy of a visited node keeps the search correct |
| Reachability.VisitFront | backend/app/models/scenario.py:179-182 | visiting the front of the hop-ordered queue keeps the search correct, in any set order |
| Reachability.SearchIsExact | backend/app/models/scenario.py:172-183 | nodes visited are exactly those joined to the source by a short enough walk |
| Reachability.ReachableIsInReach | backend/app/models/scenario.py:173-182 | the bound of the search is the limit of the request: at most max_hops links, or one |
| Reachability.ReachableFrom | backend/app/models/scenario.py:172-183 | exactly the other nodes at the end of a walk of h links, for some h with no limit, h <= max_hops or h <= 1 |
| Scenario.SizeDetectsDuplicates | backend/app/models/scenario.py:131-136 | comparing a list's length with its set's size detects exactly the duplicates |
| Scenario.ValidateGraph | backend/app/models/scenario.py:126-158 | accepts exactly the well-formed scenarios, and each error names a defect the scenario has |
| Scenario.WellFormedReads | backend/app/models/scenario.py:126-158 | accepted scenarios in terms of nodes and links: the announced number of nodes, no id and no port twice, links from one node to another, no pair twice, and one link for every pair of different nodes |
| Scenario.LinkMapLookup | backend/app/models/scenario.py:160-161 | the link map holds each listed link under its pair and nothing else |
| Scenario.LastListedWins | backend/app/models/scenario.py:160-161 | of several links for one pair the map holds the last |
| Scenario.GenerateLinks | backend/app/models/scenario.py:200-227 | the nested loops produce the preset's rows in order |
| Scenario.GeneratedLinkAt | backend/app/models/scenario.py:200-227 | where the link from position i to position j stands in the generated list, that it is enabled exactly as its preset wants it, and that it has the given radio values |
| Scenario.GeneratedLinksAreComplete | backend/app/models/scenario.py:200-227 | generated links form a valid complete graph for any distinct ids |
| Scenario.PresetLookup | backend/app/models/scenario.py:230-234 | looking a pair up in the generated links gives the preset's decision for it |
| Scenario.LastPresetWins | backend/app/models/scenario.py:230-239 | applying two presets is applying the second |
| Scenario.PresetKeepsGraph | backend/app/models/scenario.py:230-239 | a valid scenario stays valid and every link keeps its pair |
| Scenario.BuildAdjacency | backend/app/models/scenario.py:166-169 | the neighbour sets are exactly the enabled links |
| Scenario.ReachIsConnected | backend/app/models/scenario.py:166-183 | a walk over the neighbour sets within the limit is a path of enabled links within it |
| Scenario.ReachablePairs | backend/app/models/scenario.py:163-183 | exactly the pairs of different nodes joined by a directed path of h enabled links, for some h with no limit, h <= max_hops or h <= 1 |
| Scenario.PresetLinks | backend/app/models/scenario.py:200-239 | after a preset the link between two positions is enabled exactly when the preset enables it |
| Scenario.PathIsAtLeastDistance | backend/app/models/scenario.py:163-239 | no path in a preset graph beats the preset's distance |
| Scenario.DistanceIsWalked | backend/app/models/scenario.py:163-239 | a path of exactly that distance exists |
| Scenario.PresetReach | backend/app/models/scenario.py:163-239 | which pairs each preset connects within a hop limit, both ways |
| Topology.FoldAppend | backend/app/traffic/controller.py:682-692 | folding old and new changes is folding the new ones over the result of the old |
| Topology.FoldReachesNewTable | backend/app/simulator/service.py:444-457 | recording only the links that differ still folds to the whole new table |
| Topology.AnnouncedExactly | backend/app/simulator/medium.py:99-117 | announced are exactly the links that differ from the previous table, in list order and numbered on from the latest event |
| Topology.OverlayTable | backend/app/simulator/service.py:421-424 | overlaying updates keeps every pair in its place and the table gains exactly the updates |
| Topology.LinkMapSize | backend/app/simulator/service.py:408-410 | comparing sizes detects exactly a repeated pair |
| Topology.CollapseTable | backend/app/simulator/medium.py:95-98 | reading a list as a dictionary keeps its table and leaves one link for each pair, the last one |
| Topology.CollapseExactly | backend/app/simulator/medium.py:95-98 | a list read as a dictionary keeps each pair where it first occurs, with the link listed last |
| Topology.DirectedMedium.ApplyLinks | backend/app/simulator/medium.py:94-117 | for any list: replaces the table when the pairs are the same, announces exactly the changed links in dictionary order; otherwise nothing changes |
| Topology.OutgoingExactly | backend/app/simulator/medium.py:121-124 | the snapshot holds every link of the transmitter once, and no other |
| Topology.DirectedMedium.Transmit | backend/app/simulator/medium.py:119-201 | for exactly the table positions with this transmitter, in order: one decision each, injected if and only if the link is enabled, whatever tables are applied meanwhile |
| Topology.RunTimeline.RecordTopologyChange | backend/app/traffic/controller.py:674-692 | appends one change, refuses only at the limit, ignores it when no run accepts events |
| Topology.RunTimeline.RecordAll | backend/app/simulator/service.py:455-457 | the strict pairing succeeds exactly when the lists align and the run has room |
| Topology.SimulatorService.ApplyRuntimeScenario | backend/app/simulator/service.py:441-457 | refuses exactly when the history is full and then changes nothing; otherwise scenario, medium and recorded changes agree, even if the run ends meanwhile |
| Topology.SimulatorService.UpdateLinks | backend/app/simulator/service.py:405-426 | the exact conditions of each error; a rejected batch changes nothing; an accepted one overwrites the table by the updates |
| Topology.SimulatorService.ApplyTopology | backend/app/simulator/service.py:428-439 | at once when stopped; live when running, and then refused exactly when the history has no room for what the preset changes; refused otherwise |
| Topology.SimulatorService.StartTraffic | backend/app/simulator/service.py:459-484 | refused unless running and no run is active, finalizing ones included; a run starts with an empty record over a snapshot of the current links |
| Topology.SimulatorService.Take | backend/app/simulator/service.py:393-489 | what each operation does and when it is refused; all of them, refused ones included, keep the three copies in agreement |
| Topology.SimulatorService.Drive | backend/app/simulator/service.py:393-489 | so does any sequence of them |
| Schedule.TicksInsideDuration | backend/app/traffic/controller.py:57-63 | messages per source are exactly the ticks k with k * interval < duration |
| Schedule.OffsetsBelowInterval | backend/app/traffic/controller.py:1533-1545 | every offset lies in [0, interval), and is 0 for aligned sources |
| Schedule.OffsetsFollowTiming | backend/app/traffic/controller.py:1533-1545 | offsets are 0, staggered so that n of them make an interval, or jitter times interval, as the timing asks |
| Schedule.GenerationBound | backend/app/traffic/controller.py:909-914 | aligned flows schedule strictly inside the duration, the others strictly before duration + interval |
| Schedule.PlanOfIsValid | backend/app/traffic/controller.py:862-881 | the plan of an admissible request is one the merge accepts |
| Schedule.Earliest | backend/app/traffic/controller.py:899-906 | the key with the least (time, flow, source) |
| Schedule.MergeStep | backend/app/traffic/controller.py:898-932 | submitting the earliest key's tick keeps the output sorted and complete so far |
| Schedule.MergedSchedule | backend/app/traffic/controller.py:876-932 | the order holds exactly the ticks (flow, source, k) with k below the flow's message count, by offset + k * interval, then flow, then source |
| Schedule.SubmittedTicks | backend/app/traffic/controller.py:862-932 | for the plan of a request: tick k of a source is submitted if and only if k * 60 / rate < duration, at the source's own offset plus k intervals, and those times keep the generation bound |
| Schedule.SameSourceInOrder | backend/app/traffic/controller.py:898-932 | one source's ticks are ordered by number |
| Schedule.ScheduleIsPermutation | backend/app/traffic/controller.py:1492-1496 | such an order is a permutation of all ticks, has exactly maximum-sequence entries, and each source's ticks run in order |
| Identifier.DecimalParses | backend/app/traffic/controller.py:1699-1706 | reading a printed number gives the number back |
| Identifier.DecimalReads | backend/app/traffic/controller.py:959-966 | the decimal digits of a number, one after the other |
| Identifier.DigitsAccepted | backend/app/traffic/controller.py:1704 | digits are accepted if and only if the text begins and ends with one and holds nothing else but single underscores |
| Identifier.DigitsCount | backend/app/traffic/controller.py:1704 | each digit counts ten times the next; underscores count nothing |
| Identifier.SignsAndSpaces | backend/app/traffic/controller.py:1704 | white space around a number is ignored and a sign is its sign |
| Identifier.NumbersHaveForm | backend/app/traffic/controller.py:1704 | nothing but white space, a sign, digits and white space is a number |
| Identifier.DecimalLengthIsMonotone | backend/app/traffic/controller.py:424-434 | a larger number never has fewer digits |
| Identifier.RoundTrip | backend/app/traffic/controller.py:1699-1706 | for a colon-free run id the padded payload parses to run id and sequence |
| Identifier.IdentifierForm | backend/app/traffic/controller.py:1699-1706 | `ML1`, a run, a number and anything else, separated by colons, parse to run and number, or to nothing when the number does not parse |
| Identifier.AcceptedHasForm | backend/app/traffic/controller.py:1699-1706 | and whatever parses has this form |
| Identifier.PayloadLayout | backend/app/traffic/controller.py:959-966 | a payload is marker and padding of exactly the requested size, or an error naming the marker's size exactly when that is larger |
| Identifier.PayloadsIdentifyMessages | backend/app/traffic/controller.py:959-966 | equal payloads belong to the same run and sequence, whatever their sizes |
| Identifier.AdmissionIsExact | backend/app/traffic/controller.py:424-434 | a request is admitted exactly when it is not too long and no sequence up to its maximum fails the size check |
| Identifier.AdmittedRunsFit | backend/app/traffic/controller.py:959-966 | a run admitted under the maximum sequence of its own schedule never fails the size check of a submission |
| Identifier.RefusedRunsFail | backend/app/traffic/controller.py:429-434 | one refused for its payload size would have failed at its last submission |
| PacketIds.PurgeRemovesExpired | backend/app/traffic/controller.py:1630-1635 | on a queue in expiry order, purging the front removes exactly the expired entries and leaves the lookup set equal to the queue, even where an identifier is queued twice |
| PacketIds.GrantIsSound | backend/app/traffic/controller.py:1552-1561 | a grant keeps queue, set and table in agreement and the separation of all grants |
| PacketIds.MergeIsTidyExactly | backend/app/traffic/controller.py:1610-1628 | merging live grants keeps the queue in order and equal to its lookup set if and only if no grant queued by an earlier reset is later than a live one |
| PacketIds.ResetIsSoundExactly | backend/app/traffic/controller.py:1610-1628 | a reset, whether it raises later or not, keeps a history sound exactly under that condition |
| PacketIds.NewHistoryIsSound | backend/app/traffic/controller.py:1552-1561 | a source without grants starts out sound |
| PacketIds.QuarantineHolds | backend/app/traffic/controller.py:1552-1635 | over any history whose resets meet it, those that raise part way included, one source never gets an ID twice in a run nor again within 300 seconds |
| PacketIds.GrantableExactly | backend/app/traffic/controller.py:1552-1561 | an identifier is refused exactly when the log holds a grant of it in this run or less than 300 seconds ago |
| PacketIds.RefusedExactly | backend/app/traffic/controller.py:1552-1635 | so over any possible history whose resets are harmless: nothing is held back longer than it has to be |
| PacketIds.StepKeepsBacked | backend/app/traffic/controller.py:1552-1635 | everything held back goes back to a grant in the log, in every step |
| PacketIds.UnraisedIsCareful | backend/app/traffic/controller.py:1610-1628 | where no reset raises after merging this source, every reset meets it and queued IDs stay distinct |
| PacketIds.RetryBreaksQuarantineExactly | backend/app/traffic/controller.py:1610-1635 | after a reset that succeeds, IDs stay separated over every further history in which no reset raises after merging this source, if and only if no grant that a raising reset had queued was later than a live one |
| PacketIds.InversionReleases | backend/app/traffic/controller.py:1610-1635 | otherwise three steps grant one ID twice within 300 seconds: which ID, and when |
| OverfullPool.PartialResetBreaksQuarantine | backend/app/traffic/controller.py:1610-1628 | a pool in which no run draws more than 10 000 identifiers: a reset merges one source, raises at another and later succeeds, and then one ID is granted at 310 s and at 320 s |
| PacketIds.FitsExactly | backend/app/traffic/controller.py:1621-1624 | where no reset has raised, a source fits exactly when it was granted at most 36 000 IDs in the last 300 seconds |
| PacketIds.RecentCounts | backend/app/traffic/controller.py:1621-1624 | the grants of the last 300 seconds are those of the log that expire later than now |
| PacketIds.FirstAcceptable | backend/app/traffic/controller.py:1557-1561 | the first draw neither used nor quarantined, every earlier one being so; none exactly when every draw is |
| PacketIds.PacketIdPool.PurgeQuarantine | backend/app/traffic/controller.py:1630-1635 | one source's shelf is purged and every other is untouched |
| PacketIds.PacketIdPool.AllocatePacketId | backend/app/traffic/controller.py:1552-1561 | the first draw that can be granted is recorded for its source; for every other source only time passes |
| PacketIds.PacketIdPool.MergeSource | backend/app/traffic/controller.py:1613-1627 | one source is merged into the quarantine unless that exceeds its capacity |
| PacketIds.PacketIdPool.RetirePacketIds | backend/app/traffic/controller.py:1610-1628 | succeeds exactly when every source fits, by the log exactly when no source of the run was granted more than 36 000 IDs in the last 300 seconds; a reset that raises has merged the sources before, purged the one that did not fit, left the others, and keeps every table |
| PacketIds.PacketIdPool.Drive | backend/app/traffic/controller.py:1552-1635 | over any allocations and resets of all sources: separated for every source while merges are harmless, and they are as long as no reset raised |
| Airtime.LongerTakesLonger | backend/app/metrics/airtime.py:36-70 | airtime and retry delay are monotone in the packet length for every preset |
| Airtime.AirtimeIsPositive | backend/app/metrics/airtime.py:36-70 | every packet takes airtime, and its retry delay exceeds it |
| Airtime.AirtimeIsExact | backend/app/metrics/airtime.py:36-70 | airtime and retry bound in whole numbers: the least number of payload symbols that carries the coded bits, 20.25 symbols more, and the rounding of each |
| Airtime.KnownAirtimes | backend/tests/unit/test_metrics.py:20-31 | the airtimes that the unit tests expect |
| Airtime.KnownDelays | backend/tests/unit/test_metrics.py:34-40 | the retry bounds that the unit tests expect |
| Airtime.RunningMaximaAreForLongest | backend/app/traffic/controller.py:1005-1014 | the running maxima over any packets are the values of the longest |
| Airtime.LongestIsMaximum | backend/app/traffic/controller.py:1005-1014 | the longest packet is one of them, and none is longer |
| Airtime.DeadlineBounds | backend/app/traffic/controller.py:1142-1168 | the deadline is at most 300 s, and covers the quiet window exactly when delay and airtime are at most 300 s |
| Airtime.WindowsCoverRetries | backend/app/traffic/controller.py:1142-1168 | quiet time and deadline in milliseconds, with three attempts per hop when acknowledgments are requested, two when packets are relayed and one otherwise |
| Airtime.DelayWithinDrainLimit | backend/app/metrics/airtime.py:56-70 | no packet of at most 512 bytes has a longer retry delay than that, on any preset |
| Metrics.SortIsOrderedPermutation | backend/app/metrics/calculations.py:45-59 | sorting gives an ordered permutation |
| Metrics.SortedIsUnique | backend/app/metrics/calculations.py:45-59 | there is only one |
| Metrics.PercentileIsOnTheLine | backend/app/metrics/calculations.py:45-59 | for any ordered listing of the sample: no value below the minimum size, an error outside [0, 1], otherwise the point of the straight line between the two neighbouring values |
| Metrics.MedianIsInTheMiddle | backend/app/metrics/calculations.py:131 | the median is the middle value or the mean of the two in the middle |
| Metrics.CountIsMultiplicity | backend/app/metrics/calculations.py:139-142 | a counter holds exactly the keys that occur, each with its number of occurrences |
| Metrics.WeightIsPositionalSum | backend/app/metrics/calculations.py:113-116 | totals by transmitter: exactly the transmitters that occur, each with the sum of the airtimes at its positions |
| Metrics.WeightsTotal | backend/app/metrics/calculations.py:113-116 | added over any listing of the transmitters they give the sum of all airtimes |
| Metrics.PercentileMonotone | backend/app/metrics/calculations.py:62-77 | a higher proportion never gives a lower percentile, and both lie within the sample |
| Metrics.PercentileIgnoresOrder | backend/app/metrics/calculations.py:45-59 | percentiles depend on the multiset of values only |
| Metrics.CalculateFromLists | backend/app/metrics/calculations.py:80-148 | drops and transmissions by their numbers of occurrences, airtimes by the sums at each transmitter's positions, the rest from the inputs; fails exactly when transmitters and airtimes differ in number |
| Ledger.StepKeepsConsistent | backend/app/traffic/controller.py:607-853 | every handler and run-loop step keeps acknowledged => transmitted => submitted => no error, and receivers distinct and applicable |
| Ledger.RunsAreConsistent | backend/app/traffic/controller.py:607-1063 | hence every reachable state |
| Ledger.StartIsSound | backend/app/traffic/controller.py:1708-1745 | a fresh run satisfies both invariants; it is running, every record is empty and the statistics start from the given baselines |
| Ledger.StepKeepsPartition | backend/app/traffic/controller.py:816-1063 | under an honest rejection every step keeps each message in exactly one of pending, submitted, failed |
| Ledger.FiledCounts | backend/app/traffic/controller.py:1002-1043 | the pending table has exactly one entry per waiting message |
| Ledger.Conservation | backend/app/traffic/controller.py:1045-1084 | requested = submitted + failed + pending |
| Ledger.RunsConserveSubmissions | backend/app/traffic/controller.py:816-1063 | over every run whose rejections are honest |
| Ledger.RejectionKeepsPartitionExactly | backend/app/traffic/controller.py:760-834 | without that assumption: a rejection keeps the partition if and only if the message is the node's own, or was admitted and nothing waits under the key taken away |
| Ledger.ForeignAnswerIsReachable | backend/app/traffic/controller.py:1637-1658 | two steps that file a's message under an identifier of b |
| Ledger.ForeignRejectionBreaksPartition | backend/app/traffic/controller.py:816-834 | there a rejection at b breaks the partition |
| Ledger.FinalizedRecordsAreFrozen | backend/app/traffic/controller.py:1210-1217 | from FINALIZING on no event changes any record |
| Ledger.FinalizationSettlesEverything | backend/app/traffic/controller.py:1197-1204 | at finalization nothing is pending, and each message is either submitted or failed |
| Orphans.StepKeepsKeyed | backend/app/traffic/controller.py:607-1063 | in every step messages keep keys of their own and pending keys lead to their messages |
| Orphans.StepOrphansExactly | backend/app/traffic/controller.py:816-834 | a message is left without key and outcome after a step exactly when it was before and is not rejected now, or when a rejection of another message takes its key |
| Orphans.FinalizationAddsUpExactly | backend/app/traffic/controller.py:1197-1204 | finalizing makes requested = submitted + failed hold if and only if no message was orphaned |
| Orphans.FrozenRunsAddUp | backend/app/traffic/controller.py:816-1322 | from start to frozen result, over every run in which no rejection takes the key of another waiting message: nothing pending, requested = submitted + failed, each message exactly one of them |
| Orphans.FrozenRunsAddUpExactly | backend/app/traffic/controller.py:816-1322 | for every run: its frozen counts add up if and only if nothing was orphaned when finalization began |
| Orphans.HonestRunsAreUnstolen | backend/app/traffic/controller.py:816-834 | runs that reject only a node's own messages are among them |
| Orphans.StolenKeyBreaksTheSum | backend/app/traffic/controller.py:816-834 | an input where the sum fails: a rejection of a's packet at b takes the key of b's own message |
| Orphans.BothWaitingIsReachable | backend/app/traffic/controller.py:1637-1658 | three steps from a fresh run lead to that input |
| Orphans.ForeignRejectionStillAddsUp | backend/app/traffic/controller.py:816-834 | a rejection of a foreign message that takes nobody's key breaks no sum |
| Ledger.ReceiversFit | backend/app/traffic/controller.py:995-999 | deliveries never exceed opportunities, acknowledgments never exceed submissions |
| Ledger.TotalsRead | backend/app/traffic/controller.py:1354-1402 | each total is the number of messages with that outcome |
| Ledger.ReceiversRead | backend/app/traffic/controller.py:728-729 | the receiver total is the number of pairs of a message and a node it reached |
| Ledger.OfferedReads | backend/app/traffic/controller.py:995-999 | a broadcast offers all nodes but one, a direct message one |
| Ledger.UnresolvedReads | backend/app/traffic/controller.py:1173-1190 | the drain's count is the number of messages without error, routing error and complete delivery |
| Ledger.SettledReads | backend/app/traffic/controller.py:1120-1124 | nothing to wait for: nothing pending and, for direct messages, each failed, ended by a routing error, or delivered and, if asked for, acknowledged |
| Evidence.StepEvidence | backend/app/traffic/controller.py:607-814 | a fact about a message becomes true by the event that establishes it and stays true |
| Evidence.FactsHaveCauses | backend/app/traffic/controller.py:607-814 | over any run: a message is transmitted if and only if a frame carried it after its admission; delivered to a node if and only if its payload and packet arrived there, at the destination or, for a broadcast, away from the source; acknowledged if and only if, after a transmission, a response without error came from the destination's radio or, for a broadcast, from another radio than the receiving node's |
| Evidence.SubmittedStep | backend/app/traffic/controller.py:816-834 | a message is submitted after a step if and only if a queue status admits it or it was submitted and no rate-limit error takes that back |
| Accounts.StepFrame | backend/app/traffic/controller.py:607-1063 | which records an event can change at all |
| Accounts.MessagesStep | backend/app/traffic/controller.py:949-1063 | a submission adds its message, numbered on; nothing else adds or removes one, and what it fixed never changes |
| Accounts.SubmissionErrorStep | backend/app/traffic/controller.py:816-1084 | which event gives a message which error text, and when none does |
| Accounts.DeliveriesStep | backend/app/traffic/controller.py:711-738 | an arrival appends the node and its latency in milliseconds; the first one is the message's |
| Accounts.OnlyArrivalsAddLatencies | backend/app/traffic/controller.py:733-737 | nothing else adds a latency |
| Accounts.DuplicatesStep | backend/app/traffic/controller.py:662-727 | duplicates grow by a reported total's growth, or by one for an arrival at a node that had the message while nothing is sampled |
| Accounts.FailedReceptionsStep | backend/app/traffic/controller.py:650-660 | failed receptions grow by a reported total's growth, never by a first report |
| Accounts.TransmissionsStep | backend/app/traffic/controller.py:607-637 | one entry for each frame that carries an admitted message, relayed exactly when another radio made it |
| Accounts.DropsStep | backend/app/traffic/controller.py:639-801 | one reason for each drop of such a frame and each routing error that counts, which also ends the message's routing |
| Accounts.OnlyDropsAreDropped | backend/app/traffic/controller.py:639-801 | nothing else adds a reason or ends a routing |
| Accounts.PacketsStep | backend/app/traffic/controller.py:1637-1658 | under which message a packet is filed after a step, for every packet and step |
| Accounts.PendingStep | backend/app/traffic/controller.py:816-1063 | which keys wait after a step, for every key and step |
| Accounts.ActivityStep | backend/app/traffic/controller.py:1206-1208 | what the quiet time is counted from |
| Accounts.OnlyActivityCounts | backend/app/traffic/controller.py:1206-1208 | nothing else counts as activity |
| Evidence.RunsSamplePerReceiver | backend/app/traffic/controller.py:728-738 | over any run there is exactly one latency sample per recorded receiver |
| Evidence.DeliveredStaySubmittedExactly | backend/app/traffic/controller.py:816-834 | a step leaves delivered messages submitted if and only if it takes back no delivered message |
| Evidence.DeliveredThenRejected | backend/app/traffic/controller.py:711-834 | a run of four events that ends with a delivered message counted as failed |
| Controller.TrafficController.constructor | backend/app/traffic/controller.py:1708-1745 | the fields of a new run are the fresh ledger, all counters agreeing |
| Controller.TrafficController.MessageForPacketIdentity | backend/app/traffic/controller.py:1637-1658 | finds the message of a packet or of the request it answers, and files answers under it |
| Controller.TrafficController.RecordRfTransmission | backend/app/traffic/controller.py:607-637 | performs the ledger's transmission step, counters in agreement, and returns run and sequence of the admitted message the frame carries |
| Controller.PublishedExactly | backend/app/traffic/controller.py:607-637 | a frame is published under a sequence exactly when it transmits that admitted message |
| Controller.TrafficController.RecordDrop | backend/app/traffic/controller.py:639-648 | performs the ledger's drop step |
| Controller.TrafficController.ResolveSubmission | backend/app/traffic/controller.py:1045-1084 | an outcome is given once; counters follow |
| Controller.TrafficController.RecordQueueStatus | backend/app/traffic/controller.py:1028-1043 | performs the ledger's admission step |
| Controller.TrafficController.HandleTextDelivery | backend/app/traffic/controller.py:711-758 | performs the ledger's delivery step, including duplicates and latencies |
| Controller.TrafficController.RecordPretransmissionRejection | backend/app/traffic/controller.py:816-834 | takes a submission back, in records and counters alike |
| Controller.TrafficController.HandleRoutingResponse | backend/app/traffic/controller.py:760-814 | performs the ledger's response step: error, acknowledgment or nothing |
| Controller.TrafficController.Submit | backend/app/traffic/controller.py:949-1026 | performs the ledger's submission step, with or without a gateway error |
| Controller.TrafficController.RecordFailedReceptions | backend/app/traffic/controller.py:650-660 | adds only growth since the last total |
| Controller.TrafficController.RecordDuplicateReceptions | backend/app/traffic/controller.py:662-672 | likewise for duplicates |
| Controller.TrafficController.SetEventLoopLag | backend/app/traffic/controller.py:694-697 | keeps the latest lag while the run accepts events |
| Controller.TrafficController.FinalizePendingSubmissions | backend/app/traffic/controller.py:1197-1204 | every open admission fails with the timeout, in any table order |
| Controller.TrafficController.Handle | backend/app/traffic/controller.py:607-1063 | any event: fields and ledger move together |
| Controller.TrafficController.HandleAll | backend/app/traffic/controller.py:607-1063 | over any legal run the fields record exactly what the ledger says |
| Controller.TrafficController.UnresolvedDirectMessages | backend/app/traffic/controller.py:1173-1190 | the loop counts the messages that `Ledger.UnresolvedReads` describes, and none for a broadcast run |
| Controller.TrafficController.ReadyToSettle | backend/app/traffic/controller.py:1120-1124 | ready exactly when there is nothing to wait for, in the sense of `Ledger.SettledReads` |
| Controller.TrafficController.Wait | backend/app/traffic/controller.py:1117-1137 | the waiting loop ends settled and quiet, or exactly at the deadline |
| Controller.TrafficController.Drain | backend/app/traffic/controller.py:1111-1140 | ends by its deadline: early only when settled and quiet, else at it; the records are those of the events handled meanwhile, and no admission is pending |
| Controller.TrafficController.DrainFixed | backend/app/traffic/controller.py:1103-1110 | with a fixed settling time no admission is pending afterwards either |
| Controller.TrafficController.Finish | backend/app/traffic/controller.py:1277-1322 | the frozen result is the recount of the final records; requested = submitted + failed exactly when no message was orphaned |
| Controller.TrafficController.ComputeResult | backend/app/traffic/controller.py:1287-1296 | the result's counters are totals over its records |
| Controller.TrafficController.FinalMetrics | backend/app/traffic/controller.py:1354-1402 | the final metrics are the recount of records and raw lists |
| Controller.RecountedMessages | backend/app/traffic/controller.py:1354-1402 | the recount in terms of the records: messages, those delivered, and the receivers of each |
| Controller.RecountedRatios | backend/app/traffic/controller.py:1354-1402 | the four ratios by their numerators and denominators, undefined exactly for denominator 0 |
| Controller.RecountedLatencies | backend/app/metrics/calculations.py:131-133 | median, 95th percentile of at least 20 and 99th of at least 100 latencies |
| Controller.RecountedRadio | backend/app/traffic/controller.py:1354-1402 | frames, relayed ones, airtime, frames by transmitter and drops by reason, each counted over the raw lists |
| Controller.RecountedAirtime | backend/app/metrics/calculations.py:113-116 | airtime by transmitter: the sum over its own frames |
| Controller.RecountedReceivers | backend/app/traffic/controller.py:1369-1380 | receivers of each broadcast by its number; none for direct messages |
| Controller.TrafficController.LiveIsRecount | backend/app/traffic/controller.py:1407-1438 | in every reachable state live metrics equal the recount, except receivers per broadcast and latencies beyond the last 2048; equal percentiles up to 2048 samples |
| Controller.TrafficController.MaximaAreForLongest | backend/app/traffic/controller.py:1142-1168 | the drain's maxima are the modem's values for the longest generated packet, and the quiet window fits for firmware packets |
| Controller.DeliveredSize | backend/app/traffic/controller.py:728-732 | counting delivered messages and collecting their sequences agree |
| Controller.DeliveredIdsAgree | backend/app/traffic/controller.py:1354-1370 | the final pass over records finds exactly the incrementally collected sequences |
| Controller.RatiosAreFractions | backend/app/metrics/calculations.py:103-148 | delivery, receiver and acknowledgment ratios lie in [0, 1] in every reachable state |
| Controller.DrainKeepsMaxima | backend/app/traffic/controller.py:1113-1138 | nothing handled during a drain moves its windows |
| TrafficRun.Allocate | backend/app/traffic/controller.py:967 | an identifier that no message of the source has yet, or none exactly because no draw can be granted |
| TrafficRun.Turnover | backend/app/traffic/controller.py:949-1026 | one submission after any handlers: the size check passes, the key is new, and the records are those of a legal run |
| TrafficRun.Generate | backend/app/traffic/controller.py:897-932 | the loop submits one message for each tick in the schedule's order, unless it is stuck on a turn without a grantable draw |
| TrafficRun.DrainRun | backend/app/traffic/controller.py:1102-1140 | the drain as further steps of the run, after which no admission is pending |
| TrafficRun.RunToEnd | backend/app/traffic/controller.py:897-936 | generation, drain and final samples are one legal run that keeps the schedule |
| TrafficRun.RunTraffic | backend/app/traffic/controller.py:855-947 | from plan to frozen result: an admitted run that is not stuck requests exactly the messages of its schedule, in chronological order and each from the node the request names for its tick; its counts add up if and only if no message was orphaned |

## Where the code decides against a plainer reading

- A hop limit below 1 behaves as 1: direct neighbours are always queued (backend/app/models/scenario.py:173).
- Cursor 0 never reports a history gap, even when events were evicted, and neither does a history of size 0 (backend/app/metrics/events.py:198-203, `Events.GapIsExact`).
- A call of `next` that has waited hands over the next item before the notice for losses that arose meanwhile (backend/app/metrics/events.py:113-126).
- The duplicate filter of the WebSocket loop never filters, because subscription and page are taken without a suspension in between.
- Delivery requires submission but not transmission, so a rate-limit error can still turn a delivered message into a failed one (`Evidence.DeliveredThenRejected`).
- A reset that raises at one source has already merged earlier sources; a second reset merges them again. Where a grant queued the first time is later than another live one, an ID can then be granted too soon (`PacketIds.RetryBreaksQuarantineExactly`). A first reset raises exactly when a source was granted more than 36 000 IDs in the last 300 seconds (`PacketIds.FitsExactly`); four runs within the cap of 10 000 messages do that (`OverfullPool.PartialResetBreaksQuarantine`), although the 600 messages a minute that a request may ask of one source allow only 3000 in that time unless a run falls far behind its schedule.
- A rate-limit error removes the pending key of the node that received it, which can be the key of another message (`Orphans.StolenKeyBreaksTheSum`).

## Left out

- Sockets, asyncio transports and tasks, subprocesses, files, persistence, HTTP routing and logging; their effects appear as steps or parameters.
- Protobuf: packets carry just the fields the handlers read; a decoded frame arrives as a case of a datatype.
- Random generators and SHA-256: drawn identifiers, jitter values and destinations are arbitrary inputs; the ID retry loop is modelled over a finite stream of draws, so its termination is not claimed.
- Binary floating point: times, latencies, airtime and percentiles are exact reals.
- The lifecycle locks and cleanup: each topology operation is one step, and starting, failing and stopping are reduced to three states and the presence of medium and run.
- Gateway readiness, reconnecting and transport shutdown: the downstream connection is taken as established.
- `fail()` and `stop()` as orchestration; the events they cause (state changes, finalization, freeze) are events of a run.
- Publishing of packet and metric events by the handlers; the broker itself is modelled.
- The wording of a firmware queue error, which names the result code.
- Destination strategies and request validation other than size, schedule and graph checks.
- UTF-8 and Unicode digits: payloads are character strings, and the integer parser knows ASCII digits, signs, underscores between digits and white space.
- `update_link` of the medium, which the service does not call, and the `recent` query of the broker.
- The controller's topology changes live in `Topology.RunTimeline` and not in `Controller.TrafficController`.
- Ledger.RunsConserveSubmissions: assumes that a rate-limit error that takes effect at a node concerns a message of that node, because the partition it states is stronger than the sum; `Ledger.RejectionKeepsPartitionExactly` says exactly when a single rejection keeps it without that.
- PacketIds.RetryBreaksQuarantineExactly: the exact condition is for one reset that succeeds from a sound history; for histories with several harmful merges in a row only the sufficient side is proved (`PacketIds.QuarantineHolds`).
- TrafficRun.RunTraffic: the schedule is merged before the first submission and not between submissions, which makes no difference to its order; stopping, cancelling and failing in between are events of `Ledger` runs and not of this method.
- Controller.TrafficController.Wait: timers end exactly when they are due.
- Identifier.RoundTrip: assumes a colon-free run id, which generated UUIDs are.
- Controller.TrafficController.Submit: takes the allocated packet identifier as not used before by its source in this run, which `TrafficRun.Allocate` proves of allocation and `TrafficRun.Turnover` uses.
- Controller.TrafficController.Finish: computing and persisting the result is one step, since from FINALIZING on nothing is recorded.
- Topology.SimulatorService.StartTraffic: baseline sampling and request validation are not modelled.
