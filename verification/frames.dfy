/** Protocol frames: a fixed header and a checksummed payload, cut from and reassembled out of a byte stream. */
module Frames {
  import opened Codec
  import Digests

  const HEADER_BYTES: nat := 32
  const MAGIC: Bytes := "FTWP"
  const PROTOCOL_VERSION: nat := 1
  const MESSAGE_TYPES: nat := 12

  datatype Head = Head(version: nat, kind: nat, flags: nat, sequence: nat)

  datatype Frame = Frame(head: Head, payload: Bytes)

  function ToByte(c: char): bv8 {
    (c as int % 256) as bv8
  }

  function PayloadBytes(payload: Bytes): (bytes: seq<bv8>)
    ensures |bytes| == |payload|
  {
    seq(|payload|, i requires 0 <= i < |payload| => ToByte(payload[i]))
  }

  function Checksum(payload: Bytes): (crc: nat)
    ensures crc < U32
  {
    Digests.BitSerialCrc(PayloadBytes(payload)) as int
  }

  predicate KnownKind(code: nat) {
    0 < code < MESSAGE_TYPES
  }

  /** The message kinds of the protocol. */
  datatype MessageKind =
    | Hello | Welcome | Goodbye | Publish | PublishResult | Heartbeat | Fence | Query | QueryResult | ShutdownRequest
    | ErrorReport

  function CodeOf(kind: MessageKind): nat {
    match kind
    case Hello => 1
    case Welcome => 2
    case Goodbye => 3
    case Publish => 4
    case PublishResult => 5
    case Heartbeat => 6
    case Fence => 7
    case Query => 8
    case QueryResult => 9
    case ShutdownRequest => 10
    case ErrorReport => 11
  }

  /** A code is known exactly when it is the code of one kind, and of one only. */
  lemma KnownKinds(code: nat)
    ensures KnownKind(code) <==> exists kind :: CodeOf(kind) == code
    ensures forall a, b :: CodeOf(a) == CodeOf(b) ==> a == b
  {
    if KnownKind(code) {
      var kinds := [Hello, Welcome, Goodbye, Publish, PublishResult, Heartbeat, Fence, Query, QueryResult,
                    ShutdownRequest, ErrorReport];
      assert CodeOf(kinds[code - 1]) == code;
    }
  }

  /** A frame a peer may send: every field fits, and the payload is within the limit. */
  predicate Sendable(f: Frame, maxPayload: nat) {
    && f.head.version == PROTOCOL_VERSION && KnownKind(f.head.kind) && f.head.flags < U32 && f.head.sequence < U64
    && |f.payload| <= maxPayload && |f.payload| < U32
  }

  function HeaderBytes(h: Head, size: nat, crc: nat): (s: Bytes)
    ensures |s| == HEADER_BYTES
  {
    LittleEndian(4, 4) + MAGIC + LittleEndian(h.version, 2) + LittleEndian(h.kind, 2) + LittleEndian(h.flags, 4)
    + LittleEndian(h.sequence, 8) + LittleEndian(size, 4) + LittleEndian(crc, 4)
  }

  function FrameBytes(f: Frame): (s: Bytes)
    ensures |s| == HEADER_BYTES + |f.payload|
  {
    HeaderBytes(f.head, |f.payload|, Checksum(f.payload)) + f.payload
  }

  method EncodeFrame(f: Frame) returns (s: Bytes)
    requires f.head.version < U16 && f.head.kind < U16 && f.head.flags < U32 && f.head.sequence < U64
    requires |f.payload| < U32
    ensures s == FrameBytes(f)
  {
    hide LittleEndian, Checksum;
    Widths();
    var w := new RecordWriter();
    w.PutBlob(MAGIC);
    w.PutNumber(f.head.version, 2);
    w.PutNumber(f.head.kind, 2);
    w.PutNumber(f.head.flags, 4);
    w.PutNumber(f.head.sequence, 8);
    w.PutNumber(|f.payload|, 4);
    w.PutNumber(Checksum(f.payload), 4);
    s := w.data + f.payload;
  }

  // ---- Decoding ---------------------------------------------------------------------------

  datatype Decoded = Incomplete | Malformed | Complete(frame: Frame, consumed: nat)

  predicate MagicAt(buffer: Bytes)
    requires |buffer| >= HEADER_BYTES
  {
    NumberOf(buffer[0..4]) == 4 && buffer[4..8] == MAGIC
  }

  function HeadAt(buffer: Bytes): Head
    requires |buffer| >= HEADER_BYTES
  {
    Head(NumberOf(buffer[8..10]), NumberOf(buffer[10..12]), NumberOf(buffer[12..16]), NumberOf(buffer[16..24]))
  }

  function SizeAt(buffer: Bytes): nat
    requires |buffer| >= HEADER_BYTES
  {
    NumberOf(buffer[24..28])
  }

  function CrcAt(buffer: Bytes): nat
    requires |buffer| >= HEADER_BYTES
  {
    NumberOf(buffer[28..32])
  }

  function Decode(buffer: Bytes, maxPayload: nat): Decoded {
    if |buffer| < HEADER_BYTES then Incomplete
    else if !MagicAt(buffer) || HeadAt(buffer).version != PROTOCOL_VERSION || !KnownKind(HeadAt(buffer).kind)
        then Malformed
    else if SizeAt(buffer) > maxPayload then Malformed
    else
      var total := HEADER_BYTES + SizeAt(buffer);
      if |buffer| < total then Incomplete
      else if Checksum(buffer[HEADER_BYTES..total]) != CrcAt(buffer) then Malformed
      else Complete(Frame(HeadAt(buffer), buffer[HEADER_BYTES..total]), total)
  }

  method DecodeFrame(buffer: Bytes, maxPayload: nat) returns (d: Decoded)
    ensures d == Decode(buffer, maxPayload)
  {
    hide NumberOf, Checksum;
    if |buffer| < HEADER_BYTES {
      return Incomplete;
    }
    var header := buffer[..HEADER_BYTES];
    var r := new RecordReader(header);
    var magic := r.TakeBlob(4);
    assert header[0..4] == buffer[0..4];
    if !r.ok || magic != MAGIC {
      return Malformed;
    }
    assert r.offset == 8 && header[4..8] == buffer[4..8];
    var version := r.TakeNumber(2);
    var kind := r.TakeNumber(2);
    var flags := r.TakeNumber(4);
    var sequence := r.TakeNumber(8);
    var size := r.TakeNumber(4);
    var crc := r.TakeNumber(4);
    assert header[8..10] == buffer[8..10] && header[10..12] == buffer[10..12] && header[12..16] == buffer[12..16];
    assert header[16..24] == buffer[16..24] && header[24..28] == buffer[24..28] && header[28..32] == buffer[28..32];
    if version != PROTOCOL_VERSION || !KnownKind(kind) || size > maxPayload {
      return Malformed;
    }
    var total := HEADER_BYTES + size;
    if |buffer| < total {
      return Incomplete;
    }
    var body := buffer[HEADER_BYTES..total];
    if Checksum(body) != crc {
      return Malformed;
    }
    return Complete(Frame(Head(version, kind, flags, sequence), body), total);
  }

  // ---- What a header says ------------------------------------------------------------------

  lemma HeaderSlices(h: Head, size: nat, crc: nat, buffer: Bytes)
    requires HeaderBytes(h, size, crc) <= buffer
    ensures buffer[0..4] == LittleEndian(4, 4) && buffer[4..8] == MAGIC && buffer[8..10] == LittleEndian(h.version, 2)
    ensures buffer[10..12] == LittleEndian(h.kind, 2) && buffer[12..16] == LittleEndian(h.flags, 4)
    ensures buffer[16..24] == LittleEndian(h.sequence, 8) && buffer[24..28] == LittleEndian(size, 4)
    ensures buffer[28..32] == LittleEndian(crc, 4)
  {
    hide LittleEndian;
    var header := HeaderBytes(h, size, crc);
    assert forall i, j :: 0 <= i <= j <= HEADER_BYTES ==> buffer[i..j] == header[i..j];
  }

  lemma HeaderReads(f: Frame, maxPayload: nat, buffer: Bytes)
    requires Sendable(f, maxPayload) && HeaderBytes(f.head, |f.payload|, Checksum(f.payload)) <= buffer
    ensures MagicAt(buffer) && HeadAt(buffer) == f.head && SizeAt(buffer) == |f.payload|
    ensures CrcAt(buffer) == Checksum(f.payload)
  {
    hide LittleEndian, NumberOf, Checksum, Pow256;
    Widths();
    HeaderSlices(f.head, |f.payload|, Checksum(f.payload), buffer);
    NumberRoundTrip(4, 4);
    NumberRoundTrip(f.head.version, 2);
    NumberRoundTrip(f.head.kind, 2);
    NumberRoundTrip(f.head.flags, 4);
    NumberRoundTrip(f.head.sequence, 8);
    NumberRoundTrip(|f.payload|, 4);
    NumberRoundTrip(Checksum(f.payload), 4);
  }

  /** A frame at the front of a buffer is decoded as itself, whatever follows it. */
  lemma DecodesItself(f: Frame, maxPayload: nat, rest: Bytes)
    requires Sendable(f, maxPayload)
    ensures Decode(FrameBytes(f) + rest, maxPayload) == Complete(f, |FrameBytes(f)|)
  {
    hide HeaderBytes, Checksum, MagicAt, HeadAt, SizeAt, CrcAt;
    var buffer := FrameBytes(f) + rest;
    HeaderReads(f, maxPayload, buffer);
    assert buffer[HEADER_BYTES..HEADER_BYTES + |f.payload|] == f.payload;
  }

  /** Nothing short of the whole frame is taken for a frame, or for garbage. */
  lemma PrefixIsIncomplete(f: Frame, maxPayload: nat, buffer: Bytes)
    requires Sendable(f, maxPayload) && buffer < FrameBytes(f)
    ensures Decode(buffer, maxPayload) == Incomplete
  {
    hide HeaderBytes, Checksum, MagicAt, HeadAt, SizeAt, CrcAt;
    if |buffer| >= HEADER_BYTES {
      assert HeaderBytes(f.head, |f.payload|, Checksum(f.payload)) <= buffer;
      HeaderReads(f, maxPayload, buffer);
    }
  }

  /** What is decoded is exactly what the sender must have encoded: frames have one encoding. */
  lemma DecodedWasEncoded(buffer: Bytes, maxPayload: nat)
    requires Decode(buffer, maxPayload).Complete? && forall i :: 0 <= i < |buffer| ==> buffer[i] as int < 256
    ensures var d := Decode(buffer, maxPayload);
            Sendable(d.frame, maxPayload) && d.consumed <= |buffer| && buffer[..d.consumed] == FrameBytes(d.frame)
  {
    hide LittleEndian, NumberOf, Checksum, Pow256;
    Widths();
    var d := Decode(buffer, maxPayload);
    BytesRoundTrip(buffer[0..4]);
    BytesRoundTrip(buffer[8..10]);
    BytesRoundTrip(buffer[10..12]);
    BytesRoundTrip(buffer[12..16]);
    BytesRoundTrip(buffer[16..24]);
    BytesRoundTrip(buffer[24..28]);
    BytesRoundTrip(buffer[28..32]);
    assert buffer[..HEADER_BYTES] == buffer[0..4] + buffer[4..8] + buffer[8..10] + buffer[10..12] + buffer[12..16]
                                     + buffer[16..24] + buffer[24..28] + buffer[28..32];
    assert buffer[..d.consumed] == buffer[..HEADER_BYTES] + buffer[HEADER_BYTES..d.consumed];
  }

  // ---- What the checksum is for ---------------------------------------------------------------

  lemma WordTells(x: bv32, y: bv32)
    requires x != y
    ensures x as int != y as int
  {
    assert (x as int) as bv32 == x && (y as int) as bv32 == y;
  }

  lemma ChecksumTells(payload: Bytes, i: nat, c: char)
    requires i < |payload| && ToByte(payload[i]) != ToByte(c)
    ensures Checksum(payload[i := c]) != Checksum(payload)
  {
    hide Digests.BitSerialCrc, ToByte;
    var bytes, changed := PayloadBytes(payload), PayloadBytes(payload[i := c]);
    assert bytes == bytes[..i] + [ToByte(payload[i])] + bytes[i + 1..];
    assert changed == bytes[..i] + [ToByte(c)] + bytes[i + 1..];
    Digests.OneByteTells(bytes[..i], ToByte(payload[i]), ToByte(c), bytes[i + 1..]);
    WordTells(Digests.BitSerialCrc(bytes), Digests.BitSerialCrc(changed));
  }

  /** A frame whose payload arrives with one byte changed is recognised as damaged, whatever follows it. */
  lemma DamageIsDetected(f: Frame, maxPayload: nat, i: nat, c: char, rest: Bytes)
    requires Sendable(f, maxPayload) && i < |f.payload| && ToByte(f.payload[i]) != ToByte(c)
    ensures Decode(FrameBytes(f)[HEADER_BYTES + i := c] + rest, maxPayload) == Malformed
  {
    hide HeaderBytes, Checksum, MagicAt, HeadAt, SizeAt, CrcAt, ToByte;
    var header := HeaderBytes(f.head, |f.payload|, Checksum(f.payload));
    var buffer := FrameBytes(f)[HEADER_BYTES + i := c] + rest;
    assert buffer == header + f.payload[i := c] + rest;
    HeaderReads(f, maxPayload, buffer);
    assert buffer[HEADER_BYTES..HEADER_BYTES + |f.payload|] == f.payload[i := c];
    ChecksumTells(f.payload, i, c);
  }

  // ---- Reassembly ----------------------------------------------------------------------------

  function Stream(frames: seq<Frame>): Bytes {
    if frames == [] then [] else FrameBytes(frames[0]) + Stream(frames[1..])
  }

  ghost predicate AllSendable(frames: seq<Frame>, maxPayload: nat) {
    forall i :: 0 <= i < |frames| ==> Sendable(frames[i], maxPayload)
  }

  /** What the socket delivers: a chunk of bytes, or nothing for now. After the last event the peer has closed. */
  datatype Event = Quiet | Chunk(bytes: Bytes)

  function Delivered(events: seq<Event>): Bytes {
    if events == [] then []
    else (if events[0].Chunk? then events[0].bytes else []) + Delivered(events[1..])
  }

  datatype Received = Got(frame: Frame) | Idle | Closed | Failed

  class FrameTransport {
    var buffer: Bytes
    var received: nat
    const maxPayload: nat
    const maxFrame: nat

    constructor (maxPayload: nat, maxFrame: nat)
      ensures buffer == [] && received == 0 && this.maxPayload == maxPayload && this.maxFrame == maxFrame
    {
      buffer, received := [], 0;
      this.maxPayload, this.maxFrame := maxPayload, maxFrame;
    }

    /** However the stream is cut, the next frame comes out whole and in order, and nothing else ever does. */
    method Receive(events: seq<Event>, ghost frames: seq<Frame>) returns (result: Received, rest: seq<Event>)
      requires maxPayload <= maxFrame && AllSendable(frames, maxPayload)
      requires forall i :: 0 <= i < |events| && events[i].Chunk? ==> events[i].bytes != []
      requires buffer + Delivered(events) == Stream(frames)
      modifies this
      ensures |rest| <= |events|
      ensures forall i :: 0 <= i < |rest| && rest[i].Chunk? ==> rest[i].bytes != []
      ensures !result.Failed?
      ensures result.Got? ==> && frames != [] && result.frame == frames[0] && received == old(received) + 1
                              && buffer + Delivered(rest) == Stream(frames[1..])
      ensures result.Idle? || result.Closed? ==> received == old(received) && buffer + Delivered(rest) == Stream(frames)
      ensures result.Idle? ==> |rest| < |events|
      ensures result.Closed? ==> frames == [] && rest == [] && buffer == []
    {
      hide FrameBytes, Decode;
      rest := events;
      while true
        invariant |rest| <= |events| && received == old(received)
        invariant forall i :: 0 <= i < |rest| && rest[i].Chunk? ==> rest[i].bytes != []
        invariant buffer + Delivered(rest) == Stream(frames)
        decreases |rest|
      {
        var d := DecodeFrame(buffer, maxPayload);
        NextFrame(buffer, Delivered(rest), frames, maxPayload);
        if d.Complete? {
          buffer := buffer[d.consumed..];
          received := received + 1;
          return Got(d.frame), rest;
        }
        if d.Malformed? {
          return Failed, rest;
        }
        if |buffer| > maxFrame + HEADER_BYTES {
          return Failed, rest;
        }
        if rest == [] {
          return Closed, rest;
        }
        var event := rest[0];
        rest := rest[1..];
        match event {
          case Quiet => return Idle, rest;
          case Chunk(bytes) => buffer := buffer + bytes;
        }
      }
    }
  }

  /** What decoding finds at the front of a stream of frames of which only some bytes have arrived. */
  lemma NextFrame(buffer: Bytes, coming: Bytes, frames: seq<Frame>, maxPayload: nat)
    requires AllSendable(frames, maxPayload) && buffer + coming == Stream(frames)
    ensures var d := Decode(buffer, maxPayload);
            && !d.Malformed?
            && (d.Complete? ==> && frames != [] && d.frame == frames[0] && d.consumed <= |buffer|
                                && buffer[d.consumed..] + coming == Stream(frames[1..]))
            && (d.Incomplete? ==> |buffer| < HEADER_BYTES + maxPayload)
            && (d.Incomplete? && coming == [] ==> frames == [] && buffer == [])
  {
    hide FrameBytes, Decode, Sendable;
    if frames == [] {
      assert buffer == [];
      NothingIsIncomplete(maxPayload);
    } else {
      var first, later := FrameBytes(frames[0]), Stream(frames[1..]);
      CutStream(buffer, coming, first, later);
      if |buffer| < |first| {
        PrefixIsIncomplete(frames[0], maxPayload, buffer);
        FitsLimit(frames[0], maxPayload);
      } else {
        DecodesItself(frames[0], maxPayload, buffer[|first|..]);
      }
    }
  }

  lemma NothingIsIncomplete(maxPayload: nat)
    ensures Decode([], maxPayload) == Incomplete
  {
  }

  lemma FitsLimit(f: Frame, maxPayload: nat)
    requires Sendable(f, maxPayload)
    ensures HEADER_BYTES <= |FrameBytes(f)| <= HEADER_BYTES + maxPayload
  {
    hide HeaderBytes, Checksum;
  }

  /** Either the first piece is still arriving, or it is all there. */
  lemma CutStream(buffer: Bytes, coming: Bytes, first: Bytes, later: Bytes)
    requires buffer + coming == first + later
    ensures |buffer| < |first| ==> buffer < first && coming != []
    ensures |buffer| >= |first| ==> buffer == first + buffer[|first|..] && buffer[|first|..] + coming == later
  {
    var stream := first + later;
    if |buffer| < |first| {
      assert buffer == stream[..|buffer|] == first[..|buffer|];
      assert |stream| == |buffer| + |coming|;
    } else {
      assert first == stream[..|first|] == buffer[..|first|];
      assert buffer[|first|..] + coming == (buffer + coming)[|first|..];
      assert stream[|first|..] == later;
    }
  }

  /** Receive until the peer closes: the frames that were sent, all of them, in order. */
  method ReceiveAll(t: FrameTransport, events: seq<Event>, ghost frames: seq<Frame>) returns (got: seq<Frame>)
    requires t.maxPayload <= t.maxFrame && AllSendable(frames, t.maxPayload)
    requires forall i :: 0 <= i < |events| && events[i].Chunk? ==> events[i].bytes != []
    requires t.buffer == [] && Delivered(events) == Stream(frames)
    modifies t
    ensures got == frames && t.received == old(t.received) + |frames|
  {
    hide Delivered, Stream;
    got := [];
    var rest := events;
    ghost var left := frames;
    while true
      invariant frames == got + left && t.received == old(t.received) + |got| && AllSendable(left, t.maxPayload)
      invariant forall i :: 0 <= i < |rest| && rest[i].Chunk? ==> rest[i].bytes != []
      invariant t.buffer + Delivered(rest) == Stream(left)
      decreases |left|, |rest|
    {
      var result;
      result, rest := t.Receive(rest, left);
      match result {
        case Got(frame) =>
          got := got + [frame];
          left := left[1..];
        case Idle =>
        case Closed => return;
        case Failed => assert false;
      }
    }
  }
}
