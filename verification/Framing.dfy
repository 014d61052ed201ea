/**
 The stream framing of the Client API: a two-byte magic, a two-byte big-endian
 length and a protobuf body, cut out of a byte stream that may hold noise.

 `Parse` is the reference: it looks at one position at a time and never searches.
 `FrameParser.Feed` searches, deletes prefixes and keeps a residual buffer between
 reads; it is proved to compute `Parse` of everything it was fed.
 */
module Framing {
  import opened Sequences
  import opened Wrappers

  newtype byte = b: int | 0 <= b < 256

  const START: byte := 0x94
  const SECOND: byte := 0xC3
  const HEADER_SIZE := 4
  const MAX_PROTOBUF_SIZE := 512

  /** Bodies whose length fits the two-byte field of the header. */
  type Body = p: seq<byte> | |p| < 0x1_0000

  datatype Frame = Frame(raw: seq<byte>, payload: seq<byte>)

  /** What a stretch of input turned out to be: a dropped byte or a whole frame. */
  datatype Token = Noise(b: byte) | Oversized(b: byte) | Whole(frame: Frame)

  datatype Scan = Scan(tokens: seq<Token>, rest: seq<byte>)

  datatype FramingError = PayloadTooLarge(size: nat)

  // ---------- reference semantics ----------

  function BigEndian(high: int, low: int): int {
    high * 256 + low
  }

  /** The token at the front of `s`, or None when more input is needed to decide. */
  function Head(s: seq<byte>, max: nat): Option<Token> {
    if |s| == 0 then None
    else if s[0] != START then Some(Noise(s[0]))
    else if |s| == 1 then None
    else if s[1] != SECOND then Some(Noise(s[0]))
    else if |s| < HEADER_SIZE then None
    else
      var size := BigEndian(s[2] as int, s[3] as int);
      if size > max then Some(Oversized(s[0]))
      else if |s| < HEADER_SIZE + size then None
      else Some(Whole(Frame(s[..HEADER_SIZE + size], s[HEADER_SIZE..HEADER_SIZE + size])))
  }

  function Bytes(t: Token): seq<byte> {
    match t
    case Noise(b) => [b]
    case Oversized(b) => [b]
    case Whole(f) => f.raw
  }

  /** Goes on reading `s` when the tokens `taken` are already decided. */
  function Resume(taken: seq<Token>, s: seq<byte>, max: nat): Scan
    decreases |s|
  {
    match Head(s, max)
    case None => Scan(taken, s)
    case Some(t) => Resume(taken + [t], s[|Bytes(t)|..], max)
  }

  function Parse(s: seq<byte>, max: nat): Scan {
    Resume([], s, max)
  }

  function AllBytes(ts: seq<Token>): seq<byte> {
    if ts == [] then [] else AllBytes(ts[..|ts| - 1]) + Bytes(ts[|ts| - 1])
  }

  function Frames(ts: seq<Token>): seq<Frame> {
    if ts == [] then []
    else
      var f := Frames(ts[..|ts| - 1]);
      if ts[|ts| - 1].Whole? then f + [ts[|ts| - 1].frame] else f
  }

  function Discarded(ts: seq<Token>): nat {
    if ts == [] then 0
    else Discarded(ts[..|ts| - 1]) + if ts[|ts| - 1].Whole? then 0 else 1
  }

  function OversizedCount(ts: seq<Token>): nat {
    if ts == [] then 0
    else OversizedCount(ts[..|ts| - 1]) + if ts[|ts| - 1].Oversized? then 1 else 0
  }

  lemma TokensSnoc(ts: seq<Token>, t: Token)
    ensures AllBytes(ts + [t]) == AllBytes(ts) + Bytes(t)
    ensures Frames(ts + [t]) == if t.Whole? then Frames(ts) + [t.frame] else Frames(ts)
    ensures Discarded(ts + [t]) == Discarded(ts) + if t.Whole? then 0 else 1
    ensures OversizedCount(ts + [t]) == OversizedCount(ts) + if t.Oversized? then 1 else 0
  {
    assert (ts + [t])[..|ts|] == ts;
  }

  /** `taken` followed by every byte of `s` as noise. */
  function WithNoise(taken: seq<Token>, s: seq<byte>): seq<Token>
    decreases |s|
  {
    if s == [] then taken else WithNoise(taken + [Noise(s[0])], s[1..])
  }

  lemma {:induction false} NoiseIsOnlyDiscarded(taken: seq<Token>, s: seq<byte>)
    ensures var longer := WithNoise(taken, s);
            && Frames(longer) == Frames(taken)
            && Discarded(longer) == Discarded(taken) + |s|
            && OversizedCount(longer) == OversizedCount(taken)
    decreases |s|
  {
    if s == [] {
    } else {
      TokensSnoc(taken, Noise(s[0]));
      NoiseIsOnlyDiscarded(taken + [Noise(s[0])], s[1..]);
    }
  }

  // ---------- what the reference promises ----------

  /** A decision taken on a prefix is never revised by later input. */
  lemma HeadIsStable(s: seq<byte>, t: seq<byte>, max: nat)
    requires Head(s, max).Some?
    ensures Head(s + t, max) == Head(s, max)
  {
    if Head(s, max).value.Whole? {
      var n := |Head(s, max).value.frame.raw|;
      assert (s + t)[..n] == s[..n];
      assert (s + t)[HEADER_SIZE..n] == s[HEADER_SIZE..n];
    }
  }

  /** Parsing `a` and then resuming on `b` is parsing `a + b`. */
  lemma {:induction false} ChunkIndependence(taken: seq<Token>, a: seq<byte>, b: seq<byte>, max: nat)
    ensures var first := Resume(taken, a, max);
            Resume(taken, a + b, max) == Resume(first.tokens, first.rest + b, max)
    decreases |a|
  {
    match Head(a, max)
    case None =>
    case Some(t) =>
      HeadIsStable(a, b, max);
      var n := |Bytes(t)|;
      assert (a + b)[n..] == a[n..] + b;
      ChunkIndependence(taken + [t], a[n..], b, max);
  }

  function Flatten(chunks: seq<seq<byte>>): seq<byte> {
    if chunks == [] then [] else chunks[0] + Flatten(chunks[1..])
  }

  /** Feeding the chunks one after another, each on top of the bytes left over. */
  function FeedAll(from: Scan, chunks: seq<seq<byte>>, max: nat): Scan
    decreases |chunks|
  {
    if chunks == [] then from
    else FeedAll(Resume(from.tokens, from.rest + chunks[0], max), chunks[1..], max)
  }

  /** However a stream is cut into reads, the tokens and the residue are those of one read. */
  lemma {:induction false} AnyChunking(from: Scan, chunks: seq<seq<byte>>, max: nat)
    requires Head(from.rest, max).None?
    ensures FeedAll(from, chunks, max) == Resume(from.tokens, from.rest + Flatten(chunks), max)
    decreases |chunks|
  {
    if chunks == [] {
      assert from.rest + Flatten(chunks) == from.rest;
    } else {
      var s, tail := from.rest + chunks[0], Flatten(chunks[1..]);
      var next := Resume(from.tokens, s, max);
      ResumeStops(from.tokens, s, max);
      AnyChunking(next, chunks[1..], max);
      ChunkIndependence(from.tokens, s, tail, max);
      Associate(from.rest, chunks[0], tail);
      assert FeedAll(from, chunks, max) == Resume(next.tokens, next.rest + tail, max);
    }
  }

  /** The residue is undecided, and shorter than a header plus the largest payload. */
  lemma {:induction false} ResumeStops(taken: seq<Token>, s: seq<byte>, max: nat)
    ensures var r := Resume(taken, s, max);
            Head(r.rest, max).None? && |r.rest| <= HEADER_SIZE - 1 + max
    decreases |s|
  {
    match Head(s, max)
    case None =>
    case Some(t) => ResumeStops(taken + [t], s[|Bytes(t)|..], max);
  }

  predicate WellFormed(t: Token, max: nat) {
    t.Whole? ==> |t.frame.payload| <= max && |t.frame.payload| < 0x1_0000 && t.frame.raw == Encode(t.frame.payload)
  }

  lemma HeadReadsItsBytes(s: seq<byte>, max: nat)
    requires Head(s, max).Some?
    ensures var t := Head(s, max).value;
            0 < |Bytes(t)| <= |s| && Bytes(t) == s[..|Bytes(t)|] && WellFormed(t, max)
  {
    var t := Head(s, max).value;
    if t.Whole? {
      assert t.frame.raw == [s[0], s[1], s[2], s[3]] + t.frame.payload;
    }
  }

  ghost predicate AllWellFormed(ts: seq<Token>, max: nat) {
    forall i :: 0 <= i < |ts| ==> WellFormed(ts[i], max)
  }

  lemma MoveSplit<T>(a: seq<T>, s: seq<T>, n: nat)
    requires n <= |s|
    ensures (a + s[..n]) + s[n..] == a + s
  {}

  /** Nothing is lost, invented or reordered. */
  lemma {:induction false} ResumeCoversInput(taken: seq<Token>, s: seq<byte>, max: nat)
    requires AllWellFormed(taken, max)
    ensures var r := Resume(taken, s, max);
            AllBytes(r.tokens) + r.rest == AllBytes(taken) + s && AllWellFormed(r.tokens, max)
    decreases |s|
  {
    match Head(s, max)
    case None =>
    case Some(t) =>
      HeadReadsItsBytes(s, max);
      var n := |Bytes(t)|;
      TokensSnoc(taken, t);
      MoveSplit(AllBytes(taken), s, n);
      ResumeCoversInput(taken + [t], s[n..], max);
  }

  function RawBytes(fs: seq<Frame>): nat {
    if fs == [] then 0 else RawBytes(fs[..|fs| - 1]) + |fs[|fs| - 1].raw|
  }

  lemma {:induction false} TokenBytesByKind(ts: seq<Token>)
    ensures |AllBytes(ts)| == RawBytes(Frames(ts)) + Discarded(ts)
  {
    if ts == [] {
    } else {
      var init, last := ts[..|ts| - 1], ts[|ts| - 1];
      TokenBytesByKind(init);
      assert ts == init + [last];
      TokensSnoc(init, last);
      hide AllBytes, Frames, Discarded;
      if last.Whole? {
        DropLast(Frames(init), last.frame);
      }
    }
  }

  /** Bytes fed = raw bytes of frames + discarded bytes + buffered bytes. */
  lemma ByteConservation(s: seq<byte>, max: nat)
    ensures var r := Parse(s, max);
            |s| == RawBytes(Frames(r.tokens)) + Discarded(r.tokens) + |r.rest|
  {
    ResumeCoversInput([], s, max);
    TokenBytesByKind(Parse(s, max).tokens);
  }

  // ---------- encoding ----------

  function Encode(payload: Body): seq<byte> {
    [START, SECOND, (|payload| / 256) as byte, (|payload| % 256) as byte] + payload
  }

  function EncodeFrame(payload: seq<byte>): Result<seq<byte>, FramingError> {
    if |payload| > MAX_PROTOBUF_SIZE then Err(PayloadTooLarge(|payload|))
    else Ok(Encode(payload))
  }

  /** The bytes on the wire: two magic bytes, the payload's length big-endian in two, the payload. */
  lemma EncodeLayout(payload: seq<byte>)
    ensures EncodeFrame(payload) == Err(PayloadTooLarge(|payload|)) <==> |payload| > 512
    ensures |payload| <= 512 ==>
              && EncodeFrame(payload).Ok?
              && var raw := EncodeFrame(payload).value;
                 (&& |raw| == 4 + |payload| && raw[0] == 0x94 && raw[1] == 0xC3
                  && raw[2] as int * 256 + raw[3] as int == |payload| && raw[4..] == payload)
  {
    if |payload| <= 512 {
      assert EncodeFrame(payload).value[4..] == payload;
    }
  }

  predicate HasMagicAt(s: seq<byte>, i: nat) {
    i + 1 < |s| && s[i] == START && s[i + 1] == SECOND
  }

  ghost predicate HasMagic(s: seq<byte>) {
    exists i: nat :: HasMagicAt(s, i)
  }

  /** Bytes before the first magic are dropped one by one. */
  lemma {:induction false} NoiseBeforeMagic(taken: seq<Token>, s: seq<byte>, start: nat, max: nat)
    requires HasMagicAt(s, start) && forall i: nat :: i < start ==> !HasMagicAt(s, i)
    ensures Resume(taken, s, max) == Resume(WithNoise(taken, s[..start]), s[start..], max)
    decreases start
  {
    if start == 0 {
      assert s[start..] == s;
    } else {
      assert !HasMagicAt(s, 0);
      var next := s[1..];
      forall i: nat | i < start - 1 ensures !HasMagicAt(next, i) {
        assert !HasMagicAt(s, i + 1);
      }
      NoiseBeforeMagic(taken + [Noise(s[0])], next, start - 1, max);
      assert next[start - 1..] == s[start..];
      assert next[..start - 1] == s[..start][1..];
    }
  }

  function Kept(s: seq<byte>): nat {
    if |s| > 0 && s[|s| - 1] == START then 1 else 0
  }

  /** Without a magic everything is dropped except a trailing first magic byte. */
  lemma {:induction false} NoiseWithoutMagic(taken: seq<Token>, s: seq<byte>, max: nat)
    requires !HasMagic(s)
    ensures var n := |s| - Kept(s);
            Resume(taken, s, max) == Scan(WithNoise(taken, s[..n]), s[n..])
    decreases |s|
  {
    var n := |s| - Kept(s);
    if n == 0 {
      assert s[n..] == s;
    } else {
      assert !HasMagicAt(s, 0);
      var next := s[1..];
      forall i: nat ensures !HasMagicAt(next, i) {
        assert !HasMagicAt(s, i + 1);
      }
      NoiseWithoutMagic(taken + [Noise(s[0])], next, max);
      assert next[n - 1..] == s[n..];
      assert next[..n - 1] == s[..n][1..];
    }
  }

  /** One piece of line traffic: some noise and then one framed payload. */
  datatype Piece = Piece(noise: seq<byte>, payload: Body)

  ghost predicate Sendable(ps: seq<Piece>, max: nat) {
    forall i :: 0 <= i < |ps| ==> !HasMagic(ps[i].noise) && |ps[i].payload| <= max
  }

  function Wire(ps: seq<Piece>): seq<byte> {
    if ps == [] then [] else ps[0].noise + Encode(ps[0].payload) + Wire(ps[1..])
  }

  function FrameOf(payload: Body): Frame {
    Frame(Encode(payload), payload)
  }

  function WireTokens(taken: seq<Token>, ps: seq<Piece>): seq<Token>
    decreases |ps|
  {
    if ps == [] then taken
    else WireTokens(WithNoise(taken, ps[0].noise) + [Whole(FrameOf(ps[0].payload))], ps[1..])
  }

  lemma EncodedHead(payload: Body, tail: seq<byte>, max: nat)
    requires |payload| <= max
    ensures Head(Encode(payload) + tail, max) == Some(Whole(FrameOf(payload)))
    ensures FrameOf(payload).raw == Encode(payload) && FrameOf(payload).payload == payload
  {
    var s := Encode(payload) + tail;
    var n := HEADER_SIZE + |payload|;
    assert BigEndian(s[2] as int, s[3] as int) == |payload|;
    assert s[..n] == Encode(payload);
    assert s[HEADER_SIZE..n] == payload;
  }

  lemma OnePiece(taken: seq<Token>, p: Piece, tail: seq<byte>, max: nat)
    requires !HasMagic(p.noise) && |p.payload| <= max
    ensures Resume(taken, p.noise + Encode(p.payload) + tail, max)
         == Resume(WithNoise(taken, p.noise) + [Whole(FrameOf(p.payload))], tail, max)
  {
    var body := Encode(p.payload) + tail;
    var s := p.noise + Encode(p.payload) + tail;
    var k := |p.noise|;
    assert s == p.noise + body;
    forall i: nat | i < k ensures !HasMagicAt(s, i) {
      assert !HasMagicAt(p.noise, i);
    }
    NoiseBeforeMagic(taken, s, k, max);
    assert s[..k] == p.noise && s[k..] == body;
    EncodedHead(p.payload, tail, max);
    assert body[|Encode(p.payload)|..] == tail;
  }

  /** Noise that holds no magic neither hides nor damages the frames around it. */
  lemma {:induction false} NoisyRoundTrip(taken: seq<Token>, ps: seq<Piece>, max: nat)
    requires Sendable(ps, max)
    ensures Resume(taken, Wire(ps), max) == Scan(WireTokens(taken, ps), [])
    decreases |ps|
  {
    if ps == [] {
    } else {
      OnePiece(taken, ps[0], Wire(ps[1..]), max);
      NoisyRoundTrip(WithNoise(taken, ps[0].noise) + [Whole(FrameOf(ps[0].payload))], ps[1..], max);
    }
  }

  function SentFrames(ps: seq<Piece>): seq<Frame> {
    if ps == [] then [] else [FrameOf(ps[0].payload)] + SentFrames(ps[1..])
  }

  function NoiseLength(ps: seq<Piece>): nat {
    if ps == [] then 0 else |ps[0].noise| + NoiseLength(ps[1..])
  }

  /** Exactly the payloads come out, and exactly the noise is counted as discarded. */
  lemma {:induction false} NoisyRoundTripCounts(taken: seq<Token>, ps: seq<Piece>)
    ensures var ts := WireTokens(taken, ps);
            && Frames(ts) == Frames(taken) + SentFrames(ps)
            && Discarded(ts) == Discarded(taken) + NoiseLength(ps)
            && OversizedCount(ts) == OversizedCount(taken)
    decreases |ps|
  {
    if ps == [] {
    } else {
      var noisy, t := WithNoise(taken, ps[0].noise), Whole(FrameOf(ps[0].payload));
      NoiseIsOnlyDiscarded(taken, ps[0].noise);
      TokensSnoc(noisy, t);
      NoisyRoundTripCounts(noisy + [t], ps[1..]);
      Associate(Frames(taken), [t.frame], SentFrames(ps[1..]));
    }
  }

  // ---------- oversized headers ----------

  /**
     A header that announces too much costs its own four bytes and nothing behind it: the frame
     that follows is found, although no byte of the announced body was skipped.
   */
  lemma OversizedHeaderHidesNothing(taken: seq<Token>, high: byte, low: byte, payload: Body, tail: seq<byte>, max: nat)
    returns (more: seq<Token>)
    requires high as int * 256 + low as int > max && |payload| <= max
    ensures Resume(taken, [0x94, 0xC3, high, low] + Encode(payload) + tail, max) == Resume(more, tail, max)
    ensures Frames(more) == Frames(taken) + [FrameOf(payload)]
    ensures Discarded(more) == Discarded(taken) + 4 && OversizedCount(more) > OversizedCount(taken)
  {
    hide Resume, Frames, Discarded, OversizedCount, Encode;
    var rest := [0xC3, high, low] + Encode(payload) + tail;
    var first := taken + [Oversized(0x94)];
    SkipOversized(taken, [0x94, 0xC3, high, low] + Encode(payload) + tail, max);
    assert ([0x94, 0xC3, high, low] + Encode(payload) + tail)[1..] == rest;
    if high == 0x94 && low == 0xC3 {
      more := MagicInLength(first, payload, tail, max);
    } else {
      LengthIsNoise(high, low);
      more := NoiseThenFrame(first, [0xC3, high, low], payload, tail, max);
    }
  }

  lemma SkipOversized(taken: seq<Token>, s: seq<byte>, max: nat)
    requires |s| >= 4 && s[0] == 0x94 && s[1] == 0xC3 && s[2] as int * 256 + s[3] as int > max
    ensures Resume(taken, s, max) == Resume(taken + [Oversized(0x94)], s[1..], max)
    ensures Frames(taken + [Oversized(0x94)]) == Frames(taken)
    ensures Discarded(taken + [Oversized(0x94)]) == Discarded(taken) + 1
    ensures OversizedCount(taken + [Oversized(0x94)]) == OversizedCount(taken) + 1
  {
    TokensSnoc(taken, Oversized(0x94));
  }

  lemma LengthIsNoise(high: byte, low: byte)
    requires high != 0x94 || low != 0xC3
    ensures !HasMagic([0xC3, high, low])
  {}

  lemma NoiseThenFrame(taken: seq<Token>, noise: seq<byte>, payload: Body, tail: seq<byte>, max: nat)
    returns (more: seq<Token>)
    requires !HasMagic(noise) && |payload| <= max
    ensures Resume(taken, noise + Encode(payload) + tail, max) == Resume(more, tail, max)
    ensures Frames(more) == Frames(taken) + [FrameOf(payload)]
    ensures Discarded(more) == Discarded(taken) + |noise| && OversizedCount(more) == OversizedCount(taken)
  {
    hide Resume, Frames, Discarded, OversizedCount, Encode;
    OnePiece(taken, Piece(noise, payload), tail, max);
    NoiseIsOnlyDiscarded(taken, noise);
    TokensSnoc(WithNoise(taken, noise), Whole(FrameOf(payload)));
    more := WithNoise(taken, noise) + [Whole(FrameOf(payload))];
  }

  /** A length field that looks like MAGIC is read as an oversized header of its own. */
  lemma MagicInLength(taken: seq<Token>, payload: Body, tail: seq<byte>, max: nat) returns (more: seq<Token>)
    requires 0x94C3 > max && |payload| <= max
    ensures Resume(taken, [0xC3, 0x94, 0xC3] + Encode(payload) + tail, max) == Resume(more, tail, max)
    ensures Frames(more) == Frames(taken) + [FrameOf(payload)]
    ensures Discarded(more) == Discarded(taken) + 3 && OversizedCount(more) > OversizedCount(taken)
  {
    hide Resume, Frames, Discarded, OversizedCount, Encode;
    EncodeStarts(payload);
    var s := [0x94, 0xC3] + Encode(payload) + tail;
    assert ([0xC3, 0x94, 0xC3] + Encode(payload) + tail)[1..] == s;
    SkipNoise(taken, [0xC3, 0x94, 0xC3] + Encode(payload) + tail, max);
    SkipOversized(taken + [Noise(0xC3)], s, max);
    assert s[1..] == [0xC3] + Encode(payload) + tail;
    NoMagicInOne(0xC3);
    more := NoiseThenFrame(taken + [Noise(0xC3)] + [Oversized(0x94)], [0xC3], payload, tail, max);
  }

  lemma EncodeStarts(payload: Body)
    ensures |Encode(payload)| >= 4 && Encode(payload)[0] == 0x94 && Encode(payload)[1] == 0xC3
  {}

  lemma SkipNoise(taken: seq<Token>, s: seq<byte>, max: nat)
    requires s != [] && s[0] != 0x94
    ensures Resume(taken, s, max) == Resume(taken + [Noise(s[0])], s[1..], max)
    ensures Frames(taken + [Noise(s[0])]) == Frames(taken)
    ensures Discarded(taken + [Noise(s[0])]) == Discarded(taken) + 1
    ensures OversizedCount(taken + [Noise(s[0])]) == OversizedCount(taken)
  {
    TokensSnoc(taken, Noise(s[0]));
  }

  lemma NoMagicInOne(b: byte)
    ensures !HasMagic([b])
  {}

  // ---------- the parser object ----------

  /** Index of the first magic, or -1. */
  function FindMagic(s: seq<byte>): (start: int)
    ensures start < 0 ==> start == -1 && !HasMagic(s)
    ensures start >= 0 ==> HasMagicAt(s, start) && forall i: nat :: i < start ==> !HasMagicAt(s, i)
    decreases |s|
  {
    if |s| < 2 then -1
    else if HasMagicAt(s, 0) then 0
    else
      var i := FindMagic(s[1..]);
      assert forall j: nat :: HasMagicAt(s, j) ==> j > 0 && HasMagicAt(s[1..], j - 1);
      if i < 0 then -1
      else
        assert HasMagicAt(s, i + 1);
        i + 1
  }

  lemma SliceOfPrefix<T>(s: seq<T>, lo: nat, hi: nat)
    requires lo <= hi <= |s|
    ensures s[..hi][lo..] == s[lo..hi]
  {}

  lemma HeadIsFrame(s: seq<byte>, max: nat)
    requires HasMagicAt(s, 0) && |s| >= HEADER_SIZE
    requires 0 <= BigEndian(s[2] as int, s[3] as int) <= max
    requires |s| >= HEADER_SIZE + BigEndian(s[2] as int, s[3] as int)
    ensures var raw := s[..HEADER_SIZE + BigEndian(s[2] as int, s[3] as int)];
            Head(s, max) == Some(Whole(Frame(raw, raw[HEADER_SIZE..]))) && |Bytes(Head(s, max).value)| == |raw|
  {
    SliceOfPrefix(s, HEADER_SIZE, HEADER_SIZE + BigEndian(s[2] as int, s[3] as int));
  }

  lemma HeadIsOversized(s: seq<byte>, max: nat)
    requires HasMagicAt(s, 0) && |s| >= HEADER_SIZE && BigEndian(s[2] as int, s[3] as int) > max
    ensures Head(s, max) == Some(Oversized(s[0])) && |Bytes(Oversized(s[0]))| == 1
  {}

  /** A frame that is not complete yet stops the parser. */
  lemma WaitForMore(taken: seq<Token>, s: seq<byte>, max: nat)
    requires HasMagicAt(s, 0)
    requires |s| >= HEADER_SIZE ==>
               && BigEndian(s[2] as int, s[3] as int) <= max
               && |s| < HEADER_SIZE + BigEndian(s[2] as int, s[3] as int)
    ensures Resume(taken, s, max) == Scan(taken, s)
  {}

  lemma TakeHead(taken: seq<Token>, s: seq<byte>, max: nat)
    requires Head(s, max).Some?
    ensures var t := Head(s, max).value;
            && Resume(taken, s, max) == Resume(taken + [t], s[|Bytes(t)|..], max)
            && Frames(taken + [t]) == (if t.Whole? then Frames(taken) + [t.frame] else Frames(taken))
            && Discarded(taken + [t]) == Discarded(taken) + (if t.Whole? then 0 else 1)
            && OversizedCount(taken + [t]) == OversizedCount(taken) + (if t.Oversized? then 1 else 0)
  {
    TokensSnoc(taken, Head(s, max).value);
  }

  lemma TakeNoise(taken: seq<Token>, s: seq<byte>, start: nat, max: nat)
    requires HasMagicAt(s, start) && forall i: nat :: i < start ==> !HasMagicAt(s, i)
    ensures var longer := WithNoise(taken, s[..start]);
            && Resume(taken, s, max) == Resume(longer, s[start..], max)
            && HasMagicAt(s[start..], 0)
            && Frames(longer) == Frames(taken)
            && Discarded(longer) == Discarded(taken) + start
            && OversizedCount(longer) == OversizedCount(taken)
  {
    NoiseBeforeMagic(taken, s, start, max);
    NoiseIsOnlyDiscarded(taken, s[..start]);
  }

  lemma TakeAllNoise(taken: seq<Token>, s: seq<byte>, max: nat)
    requires !HasMagic(s)
    ensures var n := |s| - Kept(s);
            var longer := WithNoise(taken, s[..n]);
            && Resume(taken, s, max) == Resume(longer, s[n..], max) == Scan(longer, s[n..])
            && Frames(longer) == Frames(taken)
            && Discarded(longer) == Discarded(taken) + n
            && OversizedCount(longer) == OversizedCount(taken)
  {
    var n := |s| - Kept(s);
    NoiseWithoutMagic(taken, s, max);
    NoiseIsOnlyDiscarded(taken, s[..n]);
    ResumeStops(taken, s, max);
  }

  class FrameParser {
    var buffer: seq<byte>
    const maximumPayloadSize: nat
    var discardedBytes: nat
    var oversizedFrames: nat
    /** Everything decided since the parser was made. */
    ghost var taken: seq<Token>

    ghost predicate Valid()
      reads this
    {
      && Head(buffer, maximumPayloadSize).None?
      && Counted()
    }

    ghost predicate Counted()
      reads this
    {
      discardedBytes == Discarded(taken) && oversizedFrames == OversizedCount(taken)
    }

    constructor (maximumPayloadSize: nat := MAX_PROTOBUF_SIZE)
      ensures this.maximumPayloadSize == maximumPayloadSize
      ensures Valid() && buffer == [] && taken == []
    {
      this.maximumPayloadSize := maximumPayloadSize;
      buffer, discardedBytes, oversizedFrames, taken := [], 0, 0, [];
    }

    /** Drops the bytes before the first magic; false when no magic is left to look at. */
    method Resynchronize() returns (aligned: bool)
      requires Counted() && buffer != []
      modifies this
      ensures Counted()
      ensures Resume(taken, buffer, maximumPayloadSize) == old(Resume(taken, buffer, maximumPayloadSize))
      ensures Frames(taken) == Frames(old(taken)) && |buffer| <= old(|buffer|)
      ensures if aligned then HasMagicAt(buffer, 0)
              else Resume(taken, buffer, maximumPayloadSize) == Scan(taken, buffer)
    {
      var start := FindMagic(buffer);
      if start < 0 {
        TakeAllNoise(taken, buffer, maximumPayloadSize);
        var keep := if buffer[|buffer| - 1] == START then 1 else 0;
        var discarded := |buffer| - keep;
        taken := WithNoise(taken, buffer[..discarded]);
        discardedBytes := discardedBytes + discarded;
        buffer := if keep == 1 then buffer[|buffer| - 1..] else [];
        return false;
      }
      if start > 0 {
        TakeNoise(taken, buffer, start, maximumPayloadSize);
        taken := WithNoise(taken, buffer[..start]);
        buffer := buffer[start..];
        discardedBytes := discardedBytes + start;
      }
      return true;
    }

    /** Consumes what the magic at the front introduces: Err when more bytes are needed. */
    method TakeFrame() returns (cut: Result<Option<Frame>, ()>)
      requires Counted() && HasMagicAt(buffer, 0)
      modifies this
      ensures Counted()
      ensures Resume(taken, buffer, maximumPayloadSize) == old(Resume(taken, buffer, maximumPayloadSize))
      ensures match cut
              case Err(_) =>
                && Frames(taken) == Frames(old(taken))
                && Resume(taken, buffer, maximumPayloadSize) == Scan(taken, buffer)
              case Ok(None) => Frames(taken) == Frames(old(taken)) && |buffer| < old(|buffer|)
              case Ok(Some(f)) => Frames(taken) == Frames(old(taken)) + [f] && |buffer| < old(|buffer|)
    {
      hide Head, Resume, Frames, Discarded, OversizedCount, Bytes;
      if |buffer| < HEADER_SIZE {
        WaitForMore(taken, buffer, maximumPayloadSize);
        return Err(());
      }
      var payloadSize := BigEndian(buffer[2] as int, buffer[3] as int);
      if payloadSize > maximumPayloadSize {
        HeadIsOversized(buffer, maximumPayloadSize);
        TakeHead(taken, buffer, maximumPayloadSize);
        taken := taken + [Oversized(buffer[0])];
        oversizedFrames := oversizedFrames + 1;
        discardedBytes := discardedBytes + 1;
        buffer := buffer[1..];
        return Ok(None);
      }
      var frameSize := HEADER_SIZE + payloadSize;
      if |buffer| < frameSize {
        WaitForMore(taken, buffer, maximumPayloadSize);
        return Err(());
      }
      var raw := buffer[..frameSize];
      var frame := Frame(raw, raw[HEADER_SIZE..]);
      HeadIsFrame(buffer, maximumPayloadSize);
      TakeHead(taken, buffer, maximumPayloadSize);
      taken := taken + [Whole(frame)];
      buffer := buffer[frameSize..];
      return Ok(Some(frame));
    }

    method Feed(data: seq<byte>) returns (frames: seq<Frame>)
      requires Valid()
      modifies this
      ensures Valid()
      ensures Scan(taken, buffer) == Resume(old(taken), old(buffer) + data, maximumPayloadSize)
      ensures Frames(taken) == Frames(old(taken)) + frames
      ensures |buffer| <= HEADER_SIZE - 1 + maximumPayloadSize
    {
      buffer := buffer + data;
      frames := [];
      ResumeStops(taken, buffer, maximumPayloadSize);
      ghost var whole := Resume(taken, buffer, maximumPayloadSize);
      while buffer != []
        invariant whole == Resume(taken, buffer, maximumPayloadSize)
        invariant Frames(taken) == Frames(old(taken)) + frames
        invariant Counted()
        decreases |buffer|
      {
        var aligned := Resynchronize();
        if !aligned {
          break;
        }
        var cut := TakeFrame();
        if cut.Err? {
          break;
        }
        if cut.value.Some? {
          Associate(Frames(old(taken)), frames, [cut.value.value]);
          frames := frames + [cut.value.value];
        }
      }
    }
  }

  /** A fresh parser fed a stream in any chunks yields the frames of the whole stream. */
  method ReadStream(chunks: seq<seq<byte>>, maximumPayloadSize: nat) returns (frames: seq<Frame>, parser: FrameParser)
    ensures fresh(parser) && parser.maximumPayloadSize == maximumPayloadSize
    ensures var r := Parse(Flatten(chunks), maximumPayloadSize);
            && frames == Frames(r.tokens)
            && parser.buffer == r.rest
            && parser.discardedBytes == Discarded(r.tokens)
            && parser.oversizedFrames == OversizedCount(r.tokens)
  {
    parser := new FrameParser(maximumPayloadSize);
    frames := [];
    var empty := Scan([], []);
    for i := 0 to |chunks|
      invariant parser.Valid() && fresh(parser)
      invariant parser.maximumPayloadSize == maximumPayloadSize
      invariant frames == Frames(parser.taken)
      invariant FeedAll(Scan(parser.taken, parser.buffer), chunks[i..], maximumPayloadSize)
             == FeedAll(empty, chunks, maximumPayloadSize)
    {
      assert chunks[i..][0] == chunks[i] && chunks[i..][1..] == chunks[i + 1..];
      var more := parser.Feed(chunks[i]);
      frames := frames + more;
    }
    AnyChunking(empty, chunks, maximumPayloadSize);
    assert [] + Flatten(chunks) == Flatten(chunks);
  }
}
