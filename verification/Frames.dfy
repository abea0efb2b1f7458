/** The multiplexing frame: varint stream id, type byte, varint body length, body. */
module Frames {
  import opened Bytes
  import opened Varint
  import opened Reader

  const OPEN_STREAM: byte := 0x01
  const OPEN_STREAM_ACK: byte := 0x02
  const STREAM_DATA: byte := 0x03
  const STREAM_CLOSE: byte := 0x04
  const DATAGRAM: byte := 0x05
  const PING: byte := 0x06
  const PONG: byte := 0x07
  const AUTH_REQUEST: byte := 0x08
  const AUTH_RESPONSE: byte := 0x09
  const STREAM_CREDIT: byte := 0x0b

  /** Longest body the decoder accepts. */
  const MAX_BODY_LEN := 65536

  datatype Frame = Frame(streamId: nat, frameType: byte, body: seq<byte>)

  /** The frame's integers fit the 64-bit fields that carry them. */
  predicate Sized(f: Frame) {
    f.streamId < TWO_64 && |f.body| < TWO_64
  }

  /** The frames that survive the wire unchanged. */
  predicate Encodable(f: Frame) {
    f.streamId < TWO_62 && |f.body| <= MAX_BODY_LEN
  }

  function FrameBytes(f: Frame): seq<byte>
    requires Sized(f)
  {
    VarintBytes(f.streamId) + ([f.frameType] + (VarintBytes(|f.body|) + f.body))
  }

  function DecodeFrame(buf: seq<byte>): Result<(Frame, nat)> {
    var (streamId, p1) :- VarintAt(buf, 0);
    var (frameType, p2) :- U8At(buf, p1);
    var (bodyLen, p3) :- VarintAt(buf, p2);
    if bodyLen > MAX_BODY_LEN then Err(InvalidData)
    else if |buf| < p3 + bodyLen then Err(UnexpectedEof)
    else Ok((Frame(streamId, frameType, buf[p3..p3 + bodyLen]), p3 + bodyLen))
  }

  /** A frame with a small id and a short body: three header bytes, id first and length last, and the body. */
  lemma SmallFrame(f: Frame)
    requires f.streamId < 64 && |f.body| < 64
    ensures FrameBytes(f) == [f.streamId, f.frameType, |f.body|] + f.body
  {
  }

  method Encode(f: Frame, buf: Buffer)
    requires Sized(f)
    modifies buf
    ensures buf.data == old(buf.data) + FrameBytes(f)
  {
    EncodeVarint(buf, f.streamId);
    buf.Push(f.frameType);
    EncodeVarint(buf, |f.body|);
    buf.Extend(f.body);
  }

  method Decode(buf: seq<byte>) returns (r: Result<(Frame, nat)>)
    ensures r == DecodeFrame(buf)
  {
    assert buf[0..] == buf;
    var id :- ReadVarint(buf);
    var pos := id.1;
    if pos >= |buf| {
      return Err(UnexpectedEof);
    }
    var frameType := buf[pos];
    pos := pos + 1;
    var len :- ReadVarint(buf[pos..]);
    var bodyLen := len.0;
    pos := pos + len.1;
    if bodyLen > MAX_BODY_LEN {
      return Err(InvalidData);
    }
    var end := pos + bodyLen;
    if |buf| < end {
      return Err(UnexpectedEof);
    }
    return Ok((Frame(id.0, frameType, buf[pos..end]), end));
  }

  /** The header of a frame that announces n bytes of body. */
  function HeaderBytes(streamId: nat, frameType: byte, n: nat): seq<byte>
    requires streamId < TWO_64 && n < TWO_64
  {
    VarintBytes(streamId) + ([frameType] + VarintBytes(n))
  }

  /** Where decoding finds the three header fields, whatever follows them. */
  lemma HeaderFound(streamId: nat, frameType: byte, n: nat, rest: seq<byte>)
    requires streamId < TWO_64 && n < TWO_64
    ensures var buf, p := HeaderBytes(streamId, frameType, n) + rest, |VarintBytes(streamId)|;
      && VarintAt(buf, 0) == Ok((streamId % TWO_62, p))
      && U8At(buf, p) == Ok((frameType, p + 1))
      && VarintAt(buf, p + 1) == Ok((n % TWO_62, |HeaderBytes(streamId, frameType, n)|))
  {
    hide VarintBytes, DecodeVarint, VarintAt, Carries;
    var header := HeaderBytes(streamId, frameType, n);
    var buf, id, len := header + rest, VarintBytes(streamId), VarintBytes(n);
    CarriesStart(header, rest);
    SplitCarries(buf, 0, id, [frameType] + len);
    SplitCarries(buf, |id|, [frameType], len);
    VarintFound(buf, 0, streamId);
    VarintFound(buf, |id| + 1, n);
    U8Found(buf, |id|, frameType);
  }

  /**
   * A header decides before the body is looked at: one that announces too long a body is refused whatever follows,
   * and any other is an end-of-input error or a frame as the bytes that follow fall short of the body or not.
   */
  lemma HeaderDecides(streamId: nat, frameType: byte, n: nat, rest: seq<byte>)
    requires streamId < TWO_64 && n < TWO_62
    ensures var header := HeaderBytes(streamId, frameType, n);
      DecodeFrame(header + rest) ==
        if n > 65536 then Err(InvalidData)
        else if |rest| < n then Err(UnexpectedEof)
        else Ok((Frame(streamId % TWO_62, frameType, rest[..n]), |header| + n))
  {
    hide VarintBytes, DecodeVarint, VarintAt;
    var header := HeaderBytes(streamId, frameType, n);
    HeaderFound(streamId, frameType, n, rest);
    assert n % TWO_62 == n;
    if n <= |rest| {
      assert (header + rest)[|header|..|header| + n] == rest[..n];
    }
  }

  /** A frame round-trips, whatever bytes follow it, exactly when its id and body are within the limits. */
  lemma FrameRoundTrip(f: Frame, tail: seq<byte>)
    requires Sized(f)
    ensures DecodeFrame(FrameBytes(f) + tail) == Ok((f, |FrameBytes(f)|)) <==> Encodable(f)
    ensures MAX_BODY_LEN < |f.body| < TWO_62 ==> DecodeFrame(FrameBytes(f) + tail) == Err(InvalidData)
  {
    hide VarintBytes, DecodeVarint, VarintAt, DecodeFrame, HeaderBytes, FrameBytes;
    HeaderThenBody(f, tail);
    if |f.body| < TWO_62 {
      HeaderDecides(f.streamId, f.frameType, |f.body|, f.body + tail);
      assert (f.body + tail)[..|f.body|] == f.body;
      IdKept(f.streamId);
    } else {
      DecodedBodyFits(FrameBytes(f) + tail);
    }
  }

  lemma HeaderThenBody(f: Frame, tail: seq<byte>)
    requires Sized(f)
    ensures var header := HeaderBytes(f.streamId, f.frameType, |f.body|);
      FrameBytes(f) + tail == header + (f.body + tail) && |FrameBytes(f)| == |header| + |f.body|
  {
    hide VarintBytes;
  }

  lemma IdKept(streamId: nat)
    ensures streamId % TWO_62 == streamId <==> streamId < TWO_62
  {
  }

  lemma DecodedBodyFits(buf: seq<byte>)
    ensures DecodeFrame(buf).Ok? ==> |DecodeFrame(buf).value.0.body| <= MAX_BODY_LEN
  {
    hide DecodeVarint;
  }

  /** The length an input announces for its body and where the body starts, if the whole header is there. */
  function Announced(buf: seq<byte>): Option<(nat, nat)> {
    match VarintAt(buf, 0)
    case Err(_) => None
    case Ok(id) =>
      if id.1 >= |buf| then None
      else match VarintAt(buf, id.1 + 1)
        case Err(_) => None
        case Ok(len) => Some(len)
  }

  /**
   * For every input: refused as invalid exactly for a whole header that announces too much, as too short exactly when
   * header or body is cut off, and otherwise read as its header and the bytes after it say.
   */
  lemma DecodesIff(buf: seq<byte>)
    ensures DecodeFrame(buf) == Err(InvalidData) <==> Announced(buf).Some? && Announced(buf).value.0 > 65536
    ensures DecodeFrame(buf) == Err(UnexpectedEof) <==>
      || Announced(buf).None?
      || (Announced(buf).value.0 <= 65536 && |buf| < Announced(buf).value.1 + Announced(buf).value.0)
    ensures DecodeFrame(buf).Ok? ==>
      var (f, n) := DecodeFrame(buf).value;
      && VarintAt(buf, 0).Ok? && f.streamId == VarintAt(buf, 0).value.0
      && VarintAt(buf, 0).value.1 < |buf| && f.frameType == buf[VarintAt(buf, 0).value.1]
      && Announced(buf) == Some((|f.body|, n - |f.body|)) && n <= |buf| && f.body == buf[n - |f.body|..n]
  {
    Varint.DecodesIff(buf);
    if VarintAt(buf, 0).Ok? && VarintAt(buf, 0).value.1 < |buf| {
      Varint.DecodesIff(buf[VarintAt(buf, 0).value.1 + 1..]);
    }
    hide DecodeVarint, BigEndian;
  }

  /** Every strict cut of the bytes an accepted frame consumed is an end-of-input error; later bytes are never read. */
  lemma FrameCut(buf: seq<byte>, k: nat)
    requires k <= |buf| && DecodeFrame(buf).Ok?
    ensures k < DecodeFrame(buf).value.1 ==> DecodeFrame(buf[..k]) == Err(UnexpectedEof)
    ensures k >= DecodeFrame(buf).value.1 ==> DecodeFrame(buf[..k]) == DecodeFrame(buf)
  {
    var (_, p1) := VarintAt(buf, 0).value;
    VarintAtRange(buf, 0);
    VarintAtCut(buf, 0, k);
    if k > p1 {
      VarintAtRange(buf, p1 + 1);
      VarintAtCut(buf, p1 + 1, k);
      var (len, p3) := VarintAt(buf, p1 + 1).value;
      if k >= p3 + len {
        assert buf[..k][p3..p3 + len] == buf[p3..p3 + len];
      }
    }
  }

  /** Re-encoding an accepted frame never needs more bytes than it consumed and decodes to the same frame. */
  lemma FrameNormalises(buf: seq<byte>)
    requires DecodeFrame(buf).Ok?
    ensures var (f, n) := DecodeFrame(buf).value;
      Encodable(f) && |FrameBytes(f)| <= n <= |buf|
      && DecodeFrame(FrameBytes(f)) == Ok((f, |FrameBytes(f)|))
  {
    var (f, n) := DecodeFrame(buf).value;
    var (_, p1) := VarintAt(buf, 0).value;
    VarintAtRange(buf, 0);
    VarintAtRange(buf, p1 + 1);
    EncodedLength(f.streamId);
    EncodedLength(|f.body|);
    FrameRoundTrip(f, []);
    assert FrameBytes(f) + [] == FrameBytes(f);
  }
}
