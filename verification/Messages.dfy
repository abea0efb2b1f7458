/** Message bodies as lists of fields: one proof of the codec laws serves every message. */
module Messages {
  import opened Bytes
  import opened Varint
  import opened Reader
  import opened Addresses

  const STATUS_OK: byte := 0x00
  const STATUS_ERR: byte := 0x01
  const ERR_NONE: byte := 0x00
  const ERR_BAD_CREDENTIALS: byte := 0x01
  const ERR_UNSUPPORTED: byte := 0x04
  const ERR_PROTOCOL: byte := 0x05

  // ----- Fields -----

  datatype Kind = KU8 | KInt | KBytes | KFixed(width: nat) | KAddress

  /** A message field: one byte, a varint, a length-prefixed string, a fixed-width integer, or an address. */
  datatype Field = U8(b: byte) | Int(n: nat) | Str(bs: seq<byte>) | Fixed(v: nat, width: nat) | Addr(a: Address)

  function KindOf(f: Field): Kind {
    match f
    case U8(_) => KU8
    case Int(_) => KInt
    case Str(_) => KBytes
    case Fixed(_, w) => KFixed(w)
    case Addr(_) => KAddress
  }

  /** The field fits the integer type that carries it or its length. */
  predicate FieldSized(f: Field) {
    match f
    case Int(n) => n < TWO_64
    case Str(bs) => |bs| < TWO_64
    case _ => true
  }

  /** What decoding the encoded field gives back: integers are reduced to what the wire carries. */
  predicate FieldExact(f: Field) {
    match f
    case Int(n) => n < TWO_62
    case Str(bs) => |bs| < TWO_62
    case Fixed(v, w) => v < Pow256(w)
    case _ => true
  }

  function FieldBytes(f: Field): seq<byte>
    requires FieldSized(f)
  {
    match f
    case U8(b) => [b]
    case Int(n) => VarintBytes(n)
    case Str(bs) => Prefixed(bs)
    case Fixed(v, w) => BigEndian(v, w)
    case Addr(a) => AddressBytes(a)
  }

  function FieldAt(k: Kind, buf: seq<byte>, pos: nat): (r: Result<(Field, nat)>)
    requires pos <= |buf|
    ensures r.Ok? ==> pos <= r.value.1 <= |buf| && KindOf(r.value.0) == k
  {
    match k
    case KU8 =>
      var (b, q) :- U8At(buf, pos);
      Ok((U8(b), q))
    case KInt =>
      var (n, q) :- VarintAt(buf, pos);
      VarintAtRange(buf, pos);
      Ok((Int(n), q))
    case KBytes =>
      var (bs, q) :- BytesAt(buf, pos);
      BytesAtRange(buf, pos);
      Ok((Str(bs), q))
    case KFixed(w) =>
      if |buf| < pos + w then Err(UnexpectedEof) else Ok((Fixed(Fold(0, buf[pos..pos + w]), w), pos + w))
    case KAddress =>
      var (a, q) :- AddressAt(buf, pos);
      Ok((Addr(a), q))
  }

  function EncodeFields(fs: seq<Field>): seq<byte>
    requires forall f <- fs :: FieldSized(f)
  {
    if fs == [] then [] else FieldBytes(fs[0]) + EncodeFields(fs[1..])
  }

  function DecodeFields(ks: seq<Kind>, buf: seq<byte>, pos: nat): (r: Result<(seq<Field>, nat)>)
    requires pos <= |buf|
    ensures r.Ok? ==> pos <= r.value.1 <= |buf| && Kinds(r.value.0) == ks
  {
    if ks == [] then Ok(([], pos))
    else
      var (f, p) :- FieldAt(ks[0], buf, pos);
      var (fs, q) :- DecodeFields(ks[1..], buf, p);
      Ok(([f] + fs, q))
  }

  function Kinds(fs: seq<Field>): seq<Kind> {
    seq(|fs|, i requires 0 <= i < |fs| => KindOf(fs[i]))
  }

  /** The length prefix of a string is exact. */
  predicate Prefixable(f: Field) {
    f.Str? ==> |f.bs| < TWO_62
  }

  /** What the wire carries of a field: integers lose the bits that have no place in their form. */
  function Reduced(f: Field): (r: Field)
    ensures KindOf(r) == KindOf(f)
  {
    match f
    case Int(n) => Int(n % TWO_62)
    case Fixed(v, w) => Fixed(v % Pow256(w), w)
    case _ => f
  }

  lemma ReducedIffExact(f: Field)
    requires Prefixable(f)
    ensures Reduced(f) == f <==> FieldExact(f)
  {
    match f {
      case Int(n) => ModBelow(n, TWO_62);
      case Fixed(v, w) => ModBelow(v, Pow256(w));
      case _ =>
    }
  }

  lemma ModBelow(v: nat, d: nat)
    requires d >= 1
    ensures v % d == v <==> v < d
  {
    assert 0 <= v % d < d;
    if v < d {
      SmallMod(v, d);
    }
  }

  function ReducedAll(fs: seq<Field>): (rs: seq<Field>)
    ensures |rs| == |fs| && Kinds(rs) == Kinds(fs)
    ensures forall i | 0 <= i < |fs| :: rs[i] == Reduced(fs[i])
  {
    seq(|fs|, i requires 0 <= i < |fs| => Reduced(fs[i]))
  }

  lemma FieldFound(f: Field, buf: seq<byte>, pos: nat)
    requires FieldSized(f) && Prefixable(f) && Carries(buf, pos, FieldBytes(f))
    ensures FieldAt(KindOf(f), buf, pos) == Ok((Reduced(f), pos + |FieldBytes(f)|))
  {
    hide VarintBytes, DecodeVarint, BigEndian, AddressBytes, AddressAt;
    match f {
      case U8(b) =>
      case Int(n) => VarintFound(buf, pos, n);
      case Str(bs) => BytesFound(buf, pos, bs);
      case Fixed(v, w) => FoldBigEndian(0, v, w);
      case Addr(a) => AddressFound(buf, pos, a);
    }
  }

  lemma SmallMod(v: nat, d: nat)
    requires v < d
    ensures v % d == v
  {
  }

  /**
   * Decoding the encoded fields of any message, wherever they lie in a buffer, returns what the wire carries of those
   * fields and stops right after them.
   */
  lemma {:induction false} FieldsRoundTrip(fs: seq<Field>, buf: seq<byte>, pos: nat)
    requires forall f <- fs :: FieldSized(f) && Prefixable(f)
    requires Carries(buf, pos, EncodeFields(fs))
    ensures DecodeFields(Kinds(fs), buf, pos) == Ok((ReducedAll(fs), pos + |EncodeFields(fs)|))
  {
    hide FieldBytes, FieldAt, Reduced;
    if fs != [] {
      SplitCarries(buf, pos, FieldBytes(fs[0]), EncodeFields(fs[1..]));
      FieldFound(fs[0], buf, pos);
      FieldsRoundTrip(fs[1..], buf, pos + |FieldBytes(fs[0])|);
      assert Kinds(fs)[1..] == Kinds(fs[1..]);
      assert [Reduced(fs[0])] + ReducedAll(fs[1..]) == ReducedAll(fs);
    }
  }

  lemma FieldAtCut(kind: Kind, buf: seq<byte>, pos: nat, k: nat)
    requires pos <= k <= |buf| && FieldAt(kind, buf, pos).Ok?
    ensures k < FieldAt(kind, buf, pos).value.1 ==> FieldAt(kind, buf[..k], pos) == Err(UnexpectedEof)
    ensures k >= FieldAt(kind, buf, pos).value.1 ==> FieldAt(kind, buf[..k], pos) == FieldAt(kind, buf, pos)
  {
    match kind {
      case KU8 =>
      case KInt => VarintAtCut(buf, pos, k);
      case KBytes => BytesAtCut(buf, pos, k);
      case KFixed(w) =>
        if k >= pos + w {
          assert buf[..k][pos..pos + w] == buf[pos..pos + w];
        }
      case KAddress => AddressAtCut(buf, pos, k);
    }
  }

  /**
   * For any accepted buffer, a cut inside the consumed bytes is an end-of-input error and any other cut changes
   * nothing.
   */
  lemma {:induction false} FieldsCut(ks: seq<Kind>, buf: seq<byte>, pos: nat, k: nat)
    requires pos <= k <= |buf| && DecodeFields(ks, buf, pos).Ok?
    ensures k < DecodeFields(ks, buf, pos).value.1 ==> DecodeFields(ks, buf[..k], pos) == Err(UnexpectedEof)
    ensures k >= DecodeFields(ks, buf, pos).value.1 ==> DecodeFields(ks, buf[..k], pos) == DecodeFields(ks, buf, pos)
  {
    if ks != [] {
      FieldAtCut(ks[0], buf, pos, k);
      var p := FieldAt(ks[0], buf, pos).value.1;
      if k >= p {
        FieldsCut(ks[1..], buf, p, k);
      }
    }
  }

  // ----- Messages -----

  datatype Message =
    | AuthRequest(version: nat, authMethod: byte, clientNonce: seq<byte>, authProof: seq<byte>,
                  ccRx: nat, features: byte, requestPadding: seq<byte>)
    | AuthResponse(status: byte, errorCode: byte, text: seq<byte>, serverCcRx: nat, serverFeatures: byte,
                   responsePadding: seq<byte>)
    | OpenStream(address: Address)
    | OpenStreamAck(ackStatus: byte, ackCode: byte, ackText: seq<byte>)
    | DatagramHeader(sessionId: nat, packetId: nat, fragId: byte, fragCount: byte, target: Address)

  datatype Tag = TAuthRequest | TAuthResponse | TOpenStream | TOpenStreamAck | TDatagramHeader

  function TagOf(m: Message): Tag {
    match m
    case AuthRequest(_, _, _, _, _, _, _) => TAuthRequest
    case AuthResponse(_, _, _, _, _, _) => TAuthResponse
    case OpenStream(_) => TOpenStream
    case OpenStreamAck(_, _, _) => TOpenStreamAck
    case DatagramHeader(_, _, _, _, _) => TDatagramHeader
  }

  /** The order in which each decoder reads its fields. */
  function Layout(t: Tag): seq<Kind> {
    match t
    case TAuthRequest => [KInt, KU8, KBytes, KBytes, KInt, KU8, KBytes]
    case TAuthResponse => [KU8, KU8, KBytes, KInt, KU8, KBytes]
    case TOpenStream => [KAddress]
    case TOpenStreamAck => [KU8, KU8, KBytes]
    case TDatagramHeader => [KFixed(4), KFixed(2), KU8, KU8, KAddress]
  }

  /** The order in which each encoder writes its fields. */
  function ToFields(m: Message): seq<Field> {
    match m
    case AuthRequest(version, authMethod, nonce, proof, ccRx, features, padding) =>
      [Int(version), U8(authMethod), Str(nonce), Str(proof), Int(ccRx), U8(features), Str(padding)]
    case AuthResponse(status, code, text, ccRx, features, padding) =>
      [U8(status), U8(code), Str(text), Int(ccRx), U8(features), Str(padding)]
    case OpenStream(address) => [Addr(address)]
    case OpenStreamAck(status, code, text) => [U8(status), U8(code), Str(text)]
    case DatagramHeader(sessionId, packetId, fragId, fragCount, target) =>
      [Fixed(sessionId, 4), Fixed(packetId, 2), U8(fragId), U8(fragCount), Addr(target)]
  }

  function FromFields(t: Tag, fs: seq<Field>): (m: Message)
    requires Kinds(fs) == Layout(t)
    ensures TagOf(m) == t
  {
    assert |fs| == |Kinds(fs)| && forall i | 0 <= i < |fs| :: KindOf(fs[i]) == Kinds(fs)[i];
    match t
    case TAuthRequest => AuthRequest(fs[0].n, fs[1].b, fs[2].bs, fs[3].bs, fs[4].n, fs[5].b, fs[6].bs)
    case TAuthResponse => AuthResponse(fs[0].b, fs[1].b, fs[2].bs, fs[3].n, fs[4].b, fs[5].bs)
    case TOpenStream => OpenStream(fs[0].a)
    case TOpenStreamAck => OpenStreamAck(fs[0].b, fs[1].b, fs[2].bs)
    case TDatagramHeader => DatagramHeader(fs[0].v, fs[1].v, fs[2].b, fs[3].b, fs[4].a)
  }

  predicate Sized(m: Message) {
    forall f <- ToFields(m) :: FieldSized(f)
  }

  /** Varint values below 2^62, datagram ids within their 32 and 16 bits. */
  predicate Exact(m: Message) {
    forall f <- ToFields(m) :: FieldExact(f)
  }

  function MessageBytes(m: Message): seq<byte>
    requires Sized(m)
  {
    EncodeFields(ToFields(m))
  }

  function DecodeMessage(t: Tag, buf: seq<byte>): (r: Result<(Message, nat)>)
    ensures r.Ok? ==> TagOf(r.value.0) == t
  {
    var (fs, q) :- DecodeFields(Layout(t), buf, 0);
    Ok((FromFields(t, fs), q))
  }

  /** The bytes of an authentication request, field after field, as its encoder appends them. */
  lemma RequestLayout(m: Message)
    requires m.AuthRequest? && Sized(m)
    ensures m.version < TWO_64 && m.ccRx < TWO_64
    ensures |m.clientNonce| < TWO_64 && |m.authProof| < TWO_64 && |m.requestPadding| < TWO_64
    ensures MessageBytes(m) ==
      VarintBytes(m.version) + ([m.authMethod] + (Prefixed(m.clientNonce) + (Prefixed(m.authProof)
        + (VarintBytes(m.ccRx) + ([m.features] + Prefixed(m.requestPadding))))))
  {
    hide VarintBytes;
    var fs := ToFields(m);
    assert FieldSized(fs[0]) && FieldSized(fs[2]) && FieldSized(fs[3]) && FieldSized(fs[4]) && FieldSized(fs[6]);
    FirstOf(fs, 7);
  }

  lemma ResponseLayout(m: Message)
    requires m.AuthResponse? && Sized(m)
    ensures m.serverCcRx < TWO_64 && |m.text| < TWO_64 && |m.responsePadding| < TWO_64
    ensures MessageBytes(m) ==
      [m.status] + ([m.errorCode] + (Prefixed(m.text) + (VarintBytes(m.serverCcRx)
        + ([m.serverFeatures] + Prefixed(m.responsePadding)))))
  {
    hide VarintBytes;
    var fs := ToFields(m);
    assert FieldSized(fs[2]) && FieldSized(fs[3]) && FieldSized(fs[5]);
    FirstOf(fs, 6);
  }

  lemma DatagramLayout(m: Message)
    requires m.DatagramHeader? && Sized(m)
    ensures MessageBytes(m) ==
      BigEndian(m.sessionId, 4) + (BigEndian(m.packetId, 2) + ([m.fragId] + ([m.fragCount] + AddressBytes(m.target))))
  {
    hide VarintBytes, BigEndian, AddressBytes;
    FirstOf(ToFields(m), 5);
  }

  lemma OpenStreamLayout(m: Message)
    requires m.OpenStream? && Sized(m)
    ensures MessageBytes(m) == AddressBytes(m.address)
  {
    hide VarintBytes, AddressBytes;
    FirstOf(ToFields(m), 1);
  }

  /** Encoding from any field on is that field's bytes and the encoding of the rest. */
  lemma FirstOf(fs: seq<Field>, n: nat)
    requires |fs| == n && forall f <- fs :: FieldSized(f)
    ensures EncodeFields(fs) == EncodeFields(fs[0..])
    ensures forall i | 0 <= i < n - 1 :: EncodeFields(fs[i..]) == FieldBytes(fs[i]) + EncodeFields(fs[i + 1..])
    ensures n > 0 ==> EncodeFields(fs[n - 1..]) == FieldBytes(fs[n - 1])
  {
    assert fs[0..] == fs;
    forall i | 0 <= i < n
      ensures EncodeFields(fs[i..]) == FieldBytes(fs[i]) + EncodeFields(fs[i + 1..])
    {
      assert fs[i..][1..] == fs[i + 1..];
    }
    if n > 0 {
      assert fs[n..] == [] && FieldBytes(fs[n - 1]) + [] == FieldBytes(fs[n - 1]);
    }
  }

  lemma ExactIsPrefixable(m: Message)
    requires Exact(m)
    ensures forall f <- ToFields(m) :: Prefixable(f)
  {
    assert forall f <- ToFields(m) :: FieldExact(f) ==> Prefixable(f);
  }

  lemma DecodedFields(m: Message, buf: seq<byte>)
    requires DecodeMessage(TagOf(m), buf) == Ok((m, |buf|))
    ensures DecodeFields(Layout(TagOf(m)), buf, 0).Ok? && DecodeFields(Layout(TagOf(m)), buf, 0).value.1 == |buf|
  {
  }

  lemma FieldsInverse(m: Message)
    ensures Kinds(ToFields(m)) == Layout(TagOf(m)) && FromFields(TagOf(m), ToFields(m)) == m
  {
    assert Kinds(ToFields(m)) == Layout(TagOf(m));
  }

  /** What the wire carries of a message. */
  function Wired(m: Message): Message {
    FieldsInverse(m);
    FromFields(TagOf(m), ReducedAll(ToFields(m)))
  }

  /**
   * Every message decodes, in front of any tail, to what the wire carries of it, which is itself exactly when it is
   * exact.
   */
  lemma MessageDecodes(m: Message, tail: seq<byte>)
    requires Sized(m) && forall f <- ToFields(m) :: Prefixable(f)
    ensures DecodeMessage(TagOf(m), MessageBytes(m) + tail) == Ok((Wired(m), |MessageBytes(m)|))
    ensures Wired(m) == m <==> Exact(m)
  {
    var enc, fs := MessageBytes(m), ToFields(m);
    FieldsInverse(m);
    CarriesStart(enc, tail);
    FieldsRoundTrip(fs, enc + tail, 0);
    FieldsInverse(Wired(m));
    hide MessageBytes, DecodeFields;
    assert ReducedAll(fs) == fs <==> Exact(m) by { ExactFields(fs); }
    assert Wired(m) == m <==> ReducedAll(fs) == fs by { FromFieldsInjective(TagOf(m), ReducedAll(fs), fs); }
  }

  lemma ExactFields(fs: seq<Field>)
    requires forall f <- fs :: Prefixable(f)
    ensures ReducedAll(fs) == fs <==> forall f <- fs :: FieldExact(f)
  {
    hide Reduced, FieldExact, Prefixable;
    forall i | 0 <= i < |fs|
      ensures ReducedAll(fs)[i] == fs[i] <==> FieldExact(fs[i])
    {
      ReducedIffExact(fs[i]);
    }
    if ReducedAll(fs) == fs {
      forall f | f in fs
        ensures FieldExact(f)
      {
        var i :| 0 <= i < |fs| && fs[i] == f;
        assert ReducedAll(fs)[i] == fs[i];
      }
    }
  }

  lemma FromFieldsInjective(t: Tag, a: seq<Field>, b: seq<Field>)
    requires Kinds(a) == Kinds(b) == Layout(t)
    ensures FromFields(t, a) == FromFields(t, b) ==> a == b
  {
    assert |a| == |Kinds(a)| && |b| == |Kinds(b)|;
    forall i | 0 <= i < |a|
      ensures KindOf(a[i]) == Layout(t)[i] == KindOf(b[i])
    {
      assert Kinds(a)[i] == Kinds(b)[i];
    }
  }

  /**
   * Every message type round-trips in front of any tail, and every strict prefix of its encoding is an end-of-input
   * error.
   */
  lemma MessageRoundTrip(m: Message, tail: seq<byte>)
    requires Sized(m) && Exact(m)
    ensures DecodeMessage(TagOf(m), MessageBytes(m) + tail) == Ok((m, |MessageBytes(m)|))
    ensures forall k | 0 <= k < |MessageBytes(m)| :: DecodeMessage(TagOf(m), MessageBytes(m)[..k]) == Err(UnexpectedEof)
  {
    var enc := MessageBytes(m);
    ExactIsPrefixable(m);
    MessageDecodes(m, tail);
    MessageDecodes(m, []);
    assert enc + [] == enc;
    DecodedFields(m, enc);
    hide Wired, MessageBytes;
    forall k | 0 <= k < |enc|
      ensures DecodeMessage(TagOf(m), enc[..k]) == Err(UnexpectedEof)
    {
      FieldsCut(Layout(TagOf(m)), enc, 0, k);
    }
  }

  /** An arbitrary accepted buffer: decoding reads exactly the bytes it reports and no fewer would do. */
  lemma MessageCut(t: Tag, buf: seq<byte>, k: nat)
    requires k <= |buf| && DecodeMessage(t, buf).Ok?
    ensures k < DecodeMessage(t, buf).value.1 ==> DecodeMessage(t, buf[..k]) == Err(UnexpectedEof)
    ensures k >= DecodeMessage(t, buf).value.1 ==> DecodeMessage(t, buf[..k]) == DecodeMessage(t, buf)
  {
    FieldsCut(Layout(t), buf, 0, k);
  }

  // ----- Datagrams: the payload takes the rest of the buffer -----

  datatype Datagram = Datagram(header: Message, payload: seq<byte>)

  function DecodeDatagram(buf: seq<byte>): Result<(Datagram, nat)> {
    var (fs, q) :- DecodeFields(Layout(TDatagramHeader), buf, 0);
    Ok((Datagram(FromFields(TDatagramHeader, fs), buf[q..]), |buf|))
  }

  /** A datagram round-trips without a tail; with one, the tail becomes payload. */
  lemma DatagramRoundTrip(d: Datagram, tail: seq<byte>)
    requires d.header.DatagramHeader? && Exact(d.header)
    ensures Sized(d.header)
    ensures var buf := MessageBytes(d.header) + d.payload + tail;
      DecodeDatagram(buf) == Ok((Datagram(d.header, d.payload + tail), |buf|))
  {
    var enc := MessageBytes(d.header);
    var buf := enc + d.payload + tail;
    assert buf == enc + (d.payload + tail);
    FieldsInverse(d.header);
    ExactIsPrefixable(d.header);
    ExactFields(ToFields(d.header));
    CarriesStart(enc, d.payload + tail);
    FieldsRoundTrip(ToFields(d.header), buf, 0);
  }

  // ----- An encoder appending to a buffer and a decoder advancing a cursor -----

  method EncodeOpenStreamAck(m: Message, buf: Buffer)
    requires m.OpenStreamAck? && Sized(m)
    modifies buf
    ensures buf.data == old(buf.data) + MessageBytes(m)
  {
    hide VarintBytes, MessageBytes;
    assert FieldSized(ToFields(m)[2]);
    OpenStreamAckLayout(m);
    buf.Push(m.ackStatus);
    buf.Push(m.ackCode);
    EncodeVarint(buf, |m.ackText|);
    buf.Extend(m.ackText);
  }

  lemma OpenStreamAckLayout(m: Message)
    requires m.OpenStreamAck? && Sized(m)
    ensures |m.ackText| < TWO_64
    ensures MessageBytes(m) == [m.ackStatus, m.ackCode] + Prefixed(m.ackText)
  {
    hide VarintBytes;
    var fs := ToFields(m);
    assert FieldSized(fs[2]);
    assert EncodeFields(fs[2..]) == FieldBytes(fs[2]) + EncodeFields([]) by { assert fs[2..][1..] == []; }
    assert EncodeFields(fs[1..]) == FieldBytes(fs[1]) + EncodeFields(fs[2..]) by { assert fs[1..][1..] == fs[2..]; }
  }

  method ReadOpenStreamAck(buf: seq<byte>) returns (r: Result<(Message, nat)>)
    ensures r == DecodeMessage(TOpenStreamAck, buf)
  {
    hide BytesAt;
    OpenStreamAckReads(buf);
    var rd := new Cursor(buf);
    var status :- rd.U8();
    var code :- rd.U8();
    var text :- rd.Bytes();
    return Ok((OpenStreamAck(status, code, text), rd.pos));
  }

  lemma OpenStreamAckReads(buf: seq<byte>)
    ensures DecodeMessage(TOpenStreamAck, buf) ==
      if |buf| < 2 then Err(UnexpectedEof)
      else match BytesAt(buf, 2)
        case Err(e) => Err(e)
        case Ok(v) => Ok((OpenStreamAck(buf[0], buf[1], v.0), v.1))
  {
    hide BytesAt, DecodeFields;
    var ks := Layout(TOpenStreamAck);
    assert ks[1..][1..] == ks[2..] && ks[2..][1..] == [];
    DecodeStep(ks, buf, 0);
    if |buf| >= 1 {
      DecodeStep(ks[1..], buf, 1);
      if |buf| >= 2 {
        DecodeStep(ks[2..], buf, 2);
        BytesAtEnd(buf);
      }
    }
  }

  lemma BytesAtEnd(buf: seq<byte>)
    requires |buf| >= 2
    ensures BytesAt(buf, 2).Ok? ==>
      var end := BytesAt(buf, 2).value.1;
      end <= |buf| && DecodeFields([], buf, end) == Ok(([], end))
  {
    if BytesAt(buf, 2).Ok? {
      BytesAtRange(buf, 2);
    }
  }

  lemma DecodeStep(ks: seq<Kind>, buf: seq<byte>, pos: nat)
    requires ks != [] && pos <= |buf|
    ensures DecodeFields(ks, buf, pos) == match FieldAt(ks[0], buf, pos)
      case Err(e) => Err(e)
      case Ok(v) => match DecodeFields(ks[1..], buf, v.1)
        case Err(e) => Err(e)
        case Ok(w) => Ok(([v.0] + w.0, w.1))
  {
  }
}
