/**
 One downstream connection of a node gateway.

 Controller sends and the frames parsed out of an external client's byte stream meet
 in one bounded queue that a single writer drains. Every task of the gateway is cut
 into the atomic steps between its suspension points; `Drive` takes any schedule of
 them. The ghost fields record what happened since the connection was opened.
 */
module Gateway {
  import opened Framing
  import opened Sequences
  import opened Wrappers

  datatype GatewayState = Stopped | Connecting | Running | Failed | Stopping

  datatype Producer = Controller | External

  datatype DownstreamWrite = DownstreamWrite(raw: seq<byte>, source: Producer)

  datatype GatewayError = NotRunning | TooLarge | DownstreamQueueFull

  /** What a FromRadio payload decodes to, as far as routing it is concerned. */
  datatype FromRadio = Undecodable | SimulatedRf(packetId: int) | Other

  /** The schedulable steps of the gateway's tasks. */
  datatype Step =
    | Send(payload: seq<byte>)
    | Connect(isPublic: bool)
    | Read(data: seq<byte>)
    | PutParsed
    | Disconnect
    | WriteDownstream
    | FromDaemon(frame: Frame, content: FromRadio)
    | WriteClient
    | Fail

  function Concat(ws: seq<DownstreamWrite>): seq<byte> {
    if ws == [] then [] else ws[0].raw + Concat(ws[1..])
  }

  /** The frames of one producer, in order. */
  function From(ws: seq<DownstreamWrite>, p: Producer): seq<seq<byte>> {
    if ws == [] then []
    else
      var init := From(ws[..|ws| - 1], p);
      if ws[|ws| - 1].source == p then init + [ws[|ws| - 1].raw] else init
  }

  function RawsOf(fs: seq<Frame>): seq<seq<byte>> {
    seq(|fs|, i requires 0 <= i < |fs| => fs[i].raw)
  }

  ghost predicate IsFrame(raw: seq<byte>) {
    |raw| >= HEADER_SIZE && |raw| - HEADER_SIZE <= MAX_PROTOBUF_SIZE && raw == Encode(raw[HEADER_SIZE..])
  }

  ghost predicate WholeFrames(ws: seq<DownstreamWrite>) {
    forall i :: 0 <= i < |ws| ==> IsFrame(ws[i].raw)
  }

  lemma FromSnoc(ws: seq<DownstreamWrite>, w: DownstreamWrite, p: Producer)
    ensures From(ws + [w], p) == if w.source == p then From(ws, p) + [w.raw] else From(ws, p)
  {
    assert (ws + [w])[..|ws|] == ws;
  }

  lemma {:induction false} ConcatSnoc(ws: seq<DownstreamWrite>, w: DownstreamWrite)
    ensures Concat(ws + [w]) == Concat(ws) + w.raw
    decreases |ws|
  {
    if ws == [] {
      assert ws + [w] == [w] && [w][1..] == [];
    } else {
      assert (ws + [w])[1..] == ws[1..] + [w];
      ConcatSnoc(ws[1..], w);
      Associate(ws[0].raw, Concat(ws[1..]), w.raw);
    }
  }

  function AsPieces(ws: seq<DownstreamWrite>): seq<Piece>
    requires forall i :: 0 <= i < |ws| ==> HEADER_SIZE <= |ws[i].raw| < HEADER_SIZE + 0x1_0000
  {
    seq(|ws|, i requires 0 <= i < |ws| => Piece([], ws[i].raw[HEADER_SIZE..]))
  }

  function FramesOf(ws: seq<DownstreamWrite>): seq<Frame>
    requires forall i :: 0 <= i < |ws| ==> HEADER_SIZE <= |ws[i].raw|
  {
    seq(|ws|, i requires 0 <= i < |ws| => Frame(ws[i].raw, ws[i].raw[HEADER_SIZE..]))
  }

  lemma {:induction false} PiecesOfWholeFrames(ws: seq<DownstreamWrite>)
    requires WholeFrames(ws)
    ensures Wire(AsPieces(ws)) == Concat(ws)
    ensures SentFrames(AsPieces(ws)) == FramesOf(ws)
    ensures NoiseLength(AsPieces(ws)) == 0
    decreases |ws|
  {
    if ws == [] {
    } else {
      assert IsFrame(ws[0].raw);
      assert AsPieces(ws)[1..] == AsPieces(ws[1..]);
      PiecesOfWholeFrames(ws[1..]);
      assert [] + Encode(ws[0].raw[HEADER_SIZE..]) == ws[0].raw;
      assert FramesOf(ws) == [FramesOf(ws)[0]] + FramesOf(ws[1..]);
    }
  }

  /** Whole frames put on a wire back to back are read back exactly, with nothing discarded. */
  lemma WholeFramesReadBack(ws: seq<DownstreamWrite>)
    requires WholeFrames(ws)
    ensures var r := Parse(Concat(ws), MAX_PROTOBUF_SIZE);
            && Frames(r.tokens) == FramesOf(ws)
            && Discarded(r.tokens) == 0
            && OversizedCount(r.tokens) == 0
            && r.rest == []
  {
    forall i | 0 <= i < |ws| ensures |AsPieces(ws)[i].payload| <= MAX_PROTOBUF_SIZE {
      assert IsFrame(ws[i].raw);
    }
    PiecesOfWholeFrames(ws);
    NoisyRoundTrip([], AsPieces(ws), MAX_PROTOBUF_SIZE);
    NoisyRoundTripCounts([], AsPieces(ws));
  }

  lemma {:induction false} ParsedFramesAreWhole(ts: seq<Token>)
    requires AllWellFormed(ts, MAX_PROTOBUF_SIZE)
    ensures forall i :: 0 <= i < |Frames(ts)| ==> IsFrame(Frames(ts)[i].raw)
  {
    if ts == [] {
    } else {
      assert WellFormed(ts[|ts| - 1], MAX_PROTOBUF_SIZE);
      ParsedFramesAreWhole(ts[..|ts| - 1]);
      if ts[|ts| - 1].Whole? {
        var f := ts[|ts| - 1].frame;
        assert f.raw[HEADER_SIZE..] == f.payload;
      }
    }
  }

  /** A client that has left: the bytes it sent and the frames put on the queue for it. */
  datatype Client = Client(received: seq<byte>, put: seq<seq<byte>>)

  function Puts(clients: seq<Client>): seq<seq<byte>> {
    if clients == [] then [] else Puts(clients[..|clients| - 1]) + clients[|clients| - 1].put
  }

  lemma PutsSnoc(clients: seq<Client>, c: Client)
    ensures Puts(clients + [c]) == Puts(clients) + c.put
  {
    assert (clients + [c])[..|clients|] == clients;
  }

  /** The frames put for a client are the first ones of the bytes it sent. */
  predicate PutInOrder(c: Client) {
    c.put <= RawsOf(Frames(Parse(c.received, MAX_PROTOBUF_SIZE).tokens))
  }

  predicate Full<T>(queue: seq<T>, size: nat) {
    size > 0 && |queue| >= size
  }

  class NodeGateway {
    const queueSize: nat
    var state: GatewayState
    var publicClientsEnabled: bool
    var rejectedClients: nat
    var droppedExternalFrames: nat
    var rfFrames: seq<int>
    var downstreamWrites: seq<DownstreamWrite>
    var externalWrites: seq<seq<byte>>
    /** The attached client's parser; null while no client is attached. */
    var parser: FrameParser?
    /** Frames the client's reader has parsed and not yet put on the queue. */
    var parsed: seq<Frame>

    /** Bytes on the downstream wire and the writes they came from. */
    ghost var wire: seq<byte>
    ghost var written: seq<DownstreamWrite>
    /** Sends accepted from the controller. */
    ghost var accepted: seq<seq<byte>>
    /** Frames put for earlier clients, and for the attached one with the bytes it sent. */
    ghost var clients: seq<Client>
    ghost var earlier: seq<seq<byte>>
    ghost var put: seq<seq<byte>>
    ghost var received: seq<byte>

    ghost predicate Valid()
      reads this, parser
    {
      && !(queueSize > 0 && |downstreamWrites| > queueSize)
      && wire == Concat(written)
      && WholeFrames(written + downstreamWrites)
      && From(written + downstreamWrites, Controller) == accepted
      && From(written + downstreamWrites, External) == earlier + put
      && EarlierValid()
      && ClientValid()
    }

    ghost predicate EarlierValid()
      reads `earlier, `clients
    {
      earlier == Puts(clients) && forall c <- clients :: PutInOrder(c)
    }

    ghost predicate ClientValid()
      reads this, parser
    {
      && (forall i :: 0 <= i < |parsed| ==> IsFrame(parsed[i].raw))
      && (parser == null ==> parsed == [] && put == [])
      && (parser != null ==>
            && parser.Valid()
            && parser.maximumPayloadSize == MAX_PROTOBUF_SIZE
            && Scan(parser.taken, parser.buffer) == Resume([], received, MAX_PROTOBUF_SIZE)
            && put + RawsOf(parsed) == RawsOf(Frames(parser.taken)))
    }

    constructor (queueSize: nat, publicClientsEnabled: bool)
      ensures Valid() && state == Running && wire == [] && downstreamWrites == []
      ensures this.queueSize == queueSize && parser == null
    {
      this.queueSize := queueSize;
      this.publicClientsEnabled := publicClientsEnabled;
      state, rejectedClients, droppedExternalFrames := Running, 0, 0;
      rfFrames, downstreamWrites, externalWrites, parsed, parser := [], [], [], [], null;
      wire, written, accepted, clients, earlier, put, received := [], [], [], [], [], [], [];
    }

    ghost method Enqueue(w: DownstreamWrite)
      requires Valid() && IsFrame(w.raw) && !Full(downstreamWrites, queueSize)
      ensures WholeFrames(written + (downstreamWrites + [w]))
      ensures From(written + (downstreamWrites + [w]), Controller)
           == if w.source == Controller then accepted + [w.raw] else accepted
      ensures From(written + (downstreamWrites + [w]), External)
           == if w.source == External then earlier + (put + [w.raw]) else earlier + put
    {
      var all := written + downstreamWrites;
      assert written + (downstreamWrites + [w]) == all + [w];
      FromSnoc(all, w, Controller);
      FromSnoc(all, w, External);
      Associate(earlier, put, [w.raw]);
    }

    method SendToRadio(payload: seq<byte>) returns (r: Result<(), GatewayError>)
      requires Valid()
      modifies this`downstreamWrites, this`accepted
      ensures Valid()
      ensures r.Ok? <==>
                state == Running && |payload| <= 512 && (queueSize == 0 || |old(downstreamWrites)| < queueSize)
      ensures r.Err? ==> downstreamWrites == old(downstreamWrites) && accepted == old(accepted)
      ensures r.Ok? ==> downstreamWrites == old(downstreamWrites) + [DownstreamWrite(Encode(payload), Controller)]
      ensures r.Ok? ==> accepted == old(accepted) + [Encode(payload)]
      ensures r.Err? ==> (r.error == NotRunning <==> state != Running)
      ensures r.Err? && state == Running ==> (r.error == TooLarge <==> |payload| > 512)
    {
      hide EarlierValid, Parse, Resume, Frames, Concat, From, RawsOf;
      if state != Running {
        return Err(NotRunning);
      }
      var encoded := EncodeFrame(payload);
      if encoded.Err? {
        return Err(TooLarge);
      }
      if Full(downstreamWrites, queueSize) {
        return Err(DownstreamQueueFull);
      }
      var w := DownstreamWrite(encoded.value, Controller);
      assert w.raw[HEADER_SIZE..] == payload;
      Enqueue(w);
      downstreamWrites := downstreamWrites + [w];
      accepted := accepted + [w.raw];
      return Ok(());
    }

    method ConnectClient(isPublic: bool) returns (admitted: bool)
      requires Valid()
      modifies this`parser, this`received, this`rejectedClients
      ensures Valid()
      ensures admitted <==> old(parser) == null && (isPublic ==> publicClientsEnabled)
      ensures admitted ==> fresh(parser) && received == [] && rejectedClients == old(rejectedClients)
      ensures !admitted ==> parser == old(parser) && received == old(received)
      ensures !admitted ==> rejectedClients == old(rejectedClients) + 1
    {
      hide EarlierValid, Concat, From;
      if isPublic && !publicClientsEnabled {
        rejectedClients := rejectedClients + 1;
        return false;
      }
      if parser != null {
        rejectedClients := rejectedClients + 1;
        return false;
      }
      parser := new FrameParser(MAX_PROTOBUF_SIZE);
      received := [];
      return true;
    }

    /** One read of the client's reader loop; it reads only after every parsed frame is queued. */
    method ReadClient(data: seq<byte>)
      requires Valid() && parser != null && parsed == []
      modifies this`parsed, this`received, parser
      ensures Valid() && parser == old(parser)
      ensures received == old(received) + data
    {
      hide EarlierValid, Resume, Parse, Frames, From, Concat, IsFrame;
      ghost var before := parser.taken;
      var frames := parser.Feed(data);
      ChunkIndependence([], received, data, MAX_PROTOBUF_SIZE);
      received := received + data;
      parsed := frames;
      ResumeCoversInput([], received, MAX_PROTOBUF_SIZE);
      ParsedFramesAreWhole(parser.taken);
      ReadMore(put, Frames(before), frames);
    }

    /** The reader's blocking put: it waits while the queue is full. */
    method PutParsedFrame()
      requires Valid() && parsed != [] && !Full(downstreamWrites, queueSize)
      modifies this`downstreamWrites, this`parsed, this`put
      ensures Valid()
      ensures downstreamWrites == old(downstreamWrites) + [DownstreamWrite(old(parsed)[0].raw, External)]
      ensures parsed == old(parsed)[1..] && put == old(put) + [old(parsed)[0].raw]
    {
      hide EarlierValid, Parse, Resume, Frames, Concat, From;
      var w := DownstreamWrite(parsed[0].raw, External);
      Enqueue(w);
      downstreamWrites := downstreamWrites + [w];
      PutOne(put, parsed);
      put := put + [w.raw];
      parsed := parsed[1..];
    }

    /** End of input or cancellation; frames still waiting to be queued are lost with the client. */
    method DisconnectClient()
      requires Valid()
      modifies this`parser, this`parsed, this`externalWrites, this`clients, this`earlier, this`put
      ensures Valid() && parser == null && externalWrites == []
      ensures earlier == old(earlier) + old(put)
      ensures clients == if old(parser) == null then old(clients) else old(clients) + [Client(received, old(put))]
    {
      hide Parse, Resume, Frames, From, Concat, IsFrame, RawsOf, Puts, PutInOrder;
      assert earlier + put == (earlier + put) + [] && (put == [] ==> earlier + put == earlier);
      if parser != null {
        ReceivedPrefix(received, put, parsed, parser.taken, parser.buffer);
        PutsSnoc(clients, Client(received, put));
        clients := clients + [Client(received, put)];
      }
      earlier, put := earlier + put, [];
      parser, parsed, externalWrites := null, [], [];
    }

    /** One turn of the only task that writes to the daemon. */
    method WriteOne()
      requires Valid() && downstreamWrites != []
      modifies this`downstreamWrites, this`wire, this`written
      ensures Valid()
      ensures written == old(written) + [old(downstreamWrites)[0]]
      ensures downstreamWrites == old(downstreamWrites)[1..]
      ensures wire == old(wire) + old(downstreamWrites)[0].raw
    {
      hide EarlierValid, Parse, Resume, Frames, From, RawsOf;
      var w := downstreamWrites[0];
      ConcatSnoc(written, w);
      Shift(written, downstreamWrites);
      wire := wire + w.raw;
      written := written + [w];
      downstreamWrites := downstreamWrites[1..];
    }

    /** Routes one daemon frame to the RF queue or to the client, never to both. */
    method HandleDownstreamFrame(frame: Frame, content: FromRadio)
      requires Valid()
      modifies this`rfFrames, this`externalWrites, this`droppedExternalFrames
      ensures Valid()
      ensures rfFrames == if content.SimulatedRf? && (queueSize == 0 || |old(rfFrames)| < queueSize)
                          then old(rfFrames) + [content.packetId] else old(rfFrames)
      ensures externalWrites
           == if content.Other? && parser != null && (queueSize == 0 || |old(externalWrites)| < queueSize)
              then old(externalWrites) + [frame.raw] else old(externalWrites)
      ensures |externalWrites| + droppedExternalFrames
           == |old(externalWrites)| + old(droppedExternalFrames) + if content.Other? && parser != null then 1 else 0
    {
      hide EarlierValid, Parse, Resume, Frames, Concat, From, IsFrame, RawsOf;
      match content
      case Undecodable =>
      case SimulatedRf(packetId) =>
        if !Full(rfFrames, queueSize) {
          rfFrames := rfFrames + [packetId];
        }
      case Other =>
        if parser != null {
          if Full(externalWrites, queueSize) {
            droppedExternalFrames := droppedExternalFrames + 1;
          } else {
            externalWrites := externalWrites + [frame.raw];
          }
        }
    }

    /** There is room for one more write downstream. */
    predicate HasRoom()
      reads `downstreamWrites
    {
      queueSize == 0 || |downstreamWrites| < queueSize
    }

    /** What a step of each task does: all of it, or nothing where the task cannot take it. */
    twostate predicate Took(step: Step)
      reads this
    {
      match step
      case Send(payload) =>
        downstreamWrites == old(downstreamWrites)
          + if state == Running && |payload| <= 512 && old(HasRoom())
            then [DownstreamWrite(Encode(payload), Controller)] else []
      case Connect(isPublic) =>
        if old(parser) == null && (isPublic ==> publicClientsEnabled)
        then parser != null && received == [] && rejectedClients == old(rejectedClients)
        else parser == old(parser) && received == old(received) && rejectedClients == old(rejectedClients) + 1
      case Read(data) =>
        if old(parser) == null || old(parsed) != [] then parser == old(parser) && received == old(received)
        else if data == [] then parser == null && earlier == old(earlier) + old(put)
        else parser == old(parser) && received == old(received) + data
      case PutParsed =>
        if old(parsed) == [] || !old(HasRoom())
        then parsed == old(parsed) && downstreamWrites == old(downstreamWrites)
        else
          && parsed == old(parsed)[1..]
          && downstreamWrites == old(downstreamWrites) + [DownstreamWrite(old(parsed)[0].raw, External)]
      case Disconnect => parser == null && externalWrites == [] && earlier == old(earlier) + old(put)
      case WriteDownstream =>
        if old(downstreamWrites) == [] then wire == old(wire) && downstreamWrites == []
        else wire == old(wire) + old(downstreamWrites)[0].raw && downstreamWrites == old(downstreamWrites)[1..]
      case FromDaemon(frame, content) =>
        && rfFrames == (if content.SimulatedRf? && (queueSize == 0 || |old(rfFrames)| < queueSize)
                        then old(rfFrames) + [content.packetId] else old(rfFrames))
        && externalWrites == (if content.Other? && parser != null
                                 && (queueSize == 0 || |old(externalWrites)| < queueSize)
                              then old(externalWrites) + [frame.raw] else old(externalWrites))
      case WriteClient => externalWrites == if old(externalWrites) == [] then [] else old(externalWrites)[1..]
      case Fail => state == Failed
    }

    /** Runs one step of one task if that task can take it in the present state. */
    method TakeStep(step: Step)
      requires Valid()
      modifies this, parser
      ensures Valid() && Took(step)
      ensures parser != old(parser) && parser != null ==> fresh(parser)
      ensures old(accepted) <= accepted
    {
      hide Valid, IsFrame, Encode;
      match step
      case Send(payload) =>
        var _ := SendToRadio(payload);
      case Connect(isPublic) =>
        var _ := ConnectClient(isPublic);
      case Read(data) =>
        if parser != null && parsed == [] {
          if data == [] { DisconnectClient(); } else { ReadClient(data); }
        }
      case PutParsed =>
        if parsed != [] && !Full(downstreamWrites, queueSize) { PutParsedFrame(); }
      case Disconnect =>
        DisconnectClient();
      case WriteDownstream =>
        if downstreamWrites != [] { WriteOne(); }
      case FromDaemon(frame, content) =>
        HandleDownstreamFrame(frame, content);
      case WriteClient =>
        WriteClient();
      case Fail =>
        Fail();
    }

    method WriteClient()
      requires Valid()
      modifies this`externalWrites
      ensures Valid()
      ensures externalWrites == if old(externalWrites) == [] then [] else old(externalWrites)[1..]
    {
      if externalWrites != [] {
        externalWrites := externalWrites[1..];
      }
    }

    method Fail()
      requires Valid()
      modifies this`state
      ensures Valid() && state == Failed
    {
      state := Failed;
    }

    /**
     Whatever the schedule, the wire holds whole frames only: a parser reading it finds
     exactly the dequeued writes in order, discards nothing and waits for nothing; and
     each producer's frames are dequeued in the order that producer offered them. For the
     attached client those are the frames of the bytes it sent, however they were read,
     and for one that has left the first of them.
     */
    method Drive(schedule: seq<Step>)
      requires Valid()
      modifies this, parser
      ensures Valid()
      ensures WholeFrames(written)
      ensures var r := Parse(wire, MAX_PROTOBUF_SIZE);
              Frames(r.tokens) == FramesOf(written) && Discarded(r.tokens) == 0 && r.rest == []
      ensures From(written, Controller) <= accepted && From(written, External) <= earlier + put
      ensures parser != null ==>
        put + RawsOf(parsed) == RawsOf(Frames(Parse(received, MAX_PROTOBUF_SIZE).tokens))
      ensures earlier == Puts(clients) && forall c <- clients :: PutInOrder(c)
    {
      for i := 0 to |schedule|
        invariant Valid()
        invariant parser != old(parser) && parser != null ==> fresh(parser)
        invariant old(accepted) <= accepted
      {
        TakeStep(schedule[i]);
      }
      WireReadsBack();
    }

    lemma WireReadsBack()
      requires Valid()
      ensures WholeFrames(written)
      ensures var r := Parse(wire, MAX_PROTOBUF_SIZE);
              Frames(r.tokens) == FramesOf(written) && Discarded(r.tokens) == 0 && r.rest == []
      ensures From(written, Controller) <= accepted && From(written, External) <= earlier + put
      ensures parser != null ==>
        put + RawsOf(parsed) == RawsOf(Frames(Parse(received, MAX_PROTOBUF_SIZE).tokens))
      ensures earlier == Puts(clients) && forall c <- clients :: PutInOrder(c)
    {
      forall i | 0 <= i < |written| ensures IsFrame(written[i].raw) {
        assert (written + downstreamWrites)[i] == written[i];
      }
      WholeFramesReadBack(written);
      FromPrefix(written, downstreamWrites, Controller);
      FromPrefix(written, downstreamWrites, External);
    }
  }

  /** A fresh parser at the daemon's end, whatever the chunks it reads the wire in. */
  method ReadWire(gateway: NodeGateway, chunks: seq<seq<byte>>) returns (frames: seq<Frame>, parser: FrameParser)
    requires gateway.Valid() && Flatten(chunks) == gateway.wire
    ensures WholeFrames(gateway.written) && frames == FramesOf(gateway.written)
    ensures fresh(parser) && parser.discardedBytes == 0 && parser.buffer == []
  {
    gateway.WireReadsBack();
    frames, parser := ReadStream(chunks, MAX_PROTOBUF_SIZE);
  }

  lemma ReceivedPrefix(received: seq<byte>, put: seq<seq<byte>>, parsed: seq<Frame>, taken: seq<Token>,
                       buffer: seq<byte>)
    requires Scan(taken, buffer) == Resume([], received, MAX_PROTOBUF_SIZE)
    requires put + RawsOf(parsed) == RawsOf(Frames(taken))
    ensures PutInOrder(Client(received, put))
  {}

  lemma PutOne(put: seq<seq<byte>>, parsed: seq<Frame>)
    requires parsed != []
    ensures (put + [parsed[0].raw]) + RawsOf(parsed[1..]) == put + RawsOf(parsed)
  {}

  lemma ReadMore(put: seq<seq<byte>>, before: seq<Frame>, frames: seq<Frame>)
    requires put + RawsOf([]) == RawsOf(before)
    requires forall i :: 0 <= i < |before + frames| ==> IsFrame((before + frames)[i].raw)
    ensures put + RawsOf(frames) == RawsOf(before + frames)
    ensures forall i :: 0 <= i < |frames| ==> IsFrame(frames[i].raw)
  {
    forall i | 0 <= i < |frames| ensures IsFrame(frames[i].raw) {
      assert (before + frames)[|before| + i] == frames[i];
    }
    assert RawsOf(before + frames) == RawsOf(before) + RawsOf(frames);
  }

  lemma {:induction false} FromPrefix(a: seq<DownstreamWrite>, b: seq<DownstreamWrite>, p: Producer)
    ensures From(a, p) <= From(a + b, p)
  {
    if b == [] {
      assert a + b == a;
    } else {
      assert (a + b)[..|a + b| - 1] == a + b[..|b| - 1];
      FromPrefix(a, b[..|b| - 1], p);
    }
  }
}
