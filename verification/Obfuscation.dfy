/** The obfuscation envelope around each frame, and the pipeline encode, seal, open, decode over a whole connection. */
module Obfuscation {
  import opened Bytes
  import opened Varint
  import opened Frames
  import opened ReplayFilter

  const SALT_LEN := 8
  const TAG_LEN := 16
  const SEQ_LEN := 8
  const WINDOW := 65536

  type Block = bs: seq<byte> | |bs| == 32 witness seq(32, _ => 0)
  type Tag = bs: seq<byte> | |bs| == TAG_LEN witness seq(16, _ => 0)

  /** A pre-shared key, as the two hash functions it induces; nothing is assumed of them. */
  datatype Key = Key(stream: seq<byte> -> Block, mac: seq<byte> -> Tag)

  datatype Outcome = Plain(payload: seq<byte>) | Replay | Invalid

  // ----- The key stream -----

  function XorStream(bs: seq<byte>, ks: Block): (r: seq<byte>)
    ensures |r| == |bs|
  {
    seq(|bs|, i requires 0 <= i < |bs| => XorByte(bs[i], ks[i % 32]))
  }

  /** Bit j of byte i of out is the sum, modulo two, of that bit of bs and of the key stream, which repeats. */
  ghost predicate Masked(out: seq<byte>, bs: seq<byte>, ks: Block) {
    && |out| == |bs|
    && forall i, j | 0 <= i < |bs| && 0 <= j < 8 ::
         (out[i] / Pow2(j)) % 2 == (bs[i] / Pow2(j) + ks[i % 32] / Pow2(j)) % 2
  }

  method XorInPlace(buf: array<byte>, ks: Block)
    modifies buf
    ensures buf[..] == XorStream(old(buf[..]), ks)
    ensures Masked(buf[..], old(buf[..]), ks)
  {
    for i := 0 to buf.Length
      invariant forall j | 0 <= j < i :: buf[j] == XorByte(old(buf[j]), ks[j % 32])
      invariant forall j | i <= j < buf.Length :: buf[j] == old(buf[j])
    {
      buf[i] := XorByte(buf[i], ks[i % 32]);
    }
    MaskedIff(buf[..], old(buf[..]), ks);
  }

  /** The key stream masks every bit of every byte, and nothing else does. */
  lemma MaskedIff(out: seq<byte>, bs: seq<byte>, ks: Block)
    ensures Masked(out, bs, ks) <==> out == XorStream(bs, ks)
  {
    forall i, j | 0 <= i < |bs| && 0 <= j < 8
      ensures (XorStream(bs, ks)[i] / Pow2(j)) % 2 == (bs[i] / Pow2(j) + ks[i % 32] / Pow2(j)) % 2
    {
      XorBit(bs[i], ks[i % 32], j);
    }
    hide XorStream, Xor;
    if Masked(out, bs, ks) {
      forall i | 0 <= i < |bs|
        ensures out[i] == XorStream(bs, ks)[i]
      {
        ByteBits(out[i], XorStream(bs, ks)[i]);
      }
    }
  }

  lemma ByteBits(a: byte, b: byte)
    requires forall j | 0 <= j < 8 :: (a / Pow2(j)) % 2 == (b / Pow2(j)) % 2
    ensures a == b
  {
    assert Pow2(8) == 256 by { assert Pow2(4) == 16; }
    BitsDetermine(a, b, 8);
  }

  /** Applying the same key stream twice is the identity. */
  lemma XorStreamTwice(bs: seq<byte>, ks: Block)
    ensures XorStream(XorStream(bs, ks), ks) == bs
  {
    forall i | 0 <= i < |bs|
      ensures XorByte(XorByte(bs[i], ks[i % 32]), ks[i % 32]) == bs[i]
    {
      XorTwice(bs[i], ks[i % 32]);
    }
  }

  // ----- The envelope -----

  /** salt, masked sequence number and payload, tag of the masked bytes. */
  function Seal(k: Key, n: nat, salt: seq<byte>, payload: seq<byte>): seq<byte> {
    var body := XorStream(BigEndian(n, SEQ_LEN) + payload, k.stream(salt));
    salt + body + k.mac(body)
  }

  datatype Envelope = Sealed(n: nat, payload: seq<byte>) | Garbage

  /** The sequence number and payload of a message whose length and tag are right. */
  function Unseal(k: Key, buf: seq<byte>): Envelope {
    if |buf| < SALT_LEN + TAG_LEN + SEQ_LEN then Garbage
    else
      var salt, rest := buf[..SALT_LEN], buf[SALT_LEN..];
      var body, tag := rest[..|rest| - TAG_LEN], rest[|rest| - TAG_LEN..];
      if k.mac(body) != tag then Garbage
      else
        var plain := XorStream(body, k.stream(salt));
        Sealed(Fold(0, plain[..SEQ_LEN]), plain[SEQ_LEN..])
  }

  /** The envelope inverts: sealing with any salt and any 64-bit number opens to that number and payload. */
  lemma SealInverts(k: Key, n: nat, salt: seq<byte>, payload: seq<byte>)
    requires |salt| == SALT_LEN
    ensures Unseal(k, Seal(k, n, salt, payload)) == Sealed(n % TWO_64, payload)
  {
    var plain := BigEndian(n, SEQ_LEN) + payload;
    var body := XorStream(plain, k.stream(salt));
    var buf := Seal(k, n, salt, payload);
    assert buf[..SALT_LEN] == salt && buf[SALT_LEN..] == body + k.mac(body);
    XorStreamTwice(plain, k.stream(salt));
    assert plain[..SEQ_LEN] == BigEndian(n, SEQ_LEN) && plain[SEQ_LEN..] == payload;
    FoldBigEndian(0, n, SEQ_LEN);
    assert Pow256(8) == TWO_64 by { Powers(); }
  }

  /**
   * Only what Seal produces with the salt the message itself carries is opened: the lengths, the tag and the masked
   * bytes match.
   */
  lemma OpensOnlySealed(k: Key, buf: seq<byte>)
    requires Unseal(k, buf).Sealed?
    ensures var v := Unseal(k, buf);
      v.n < TWO_64 && buf == Seal(k, v.n, buf[..SALT_LEN], v.payload)
  {
    hide Fold, BigEndian, XorStream;
    var salt, rest := buf[..SALT_LEN], buf[SALT_LEN..];
    var body, tag := Body(buf), rest[|rest| - TAG_LEN..];
    FoldBound(0, XorStream(body, k.stream(salt))[..SEQ_LEN]);
    assert Pow256(8) == TWO_64 by { Powers(); }
    MaskedBody(k, buf);
    assert buf == salt + (body + tag);
    Associate(salt, body, tag);
  }

  /**
   * The tag covers the masked bytes and not the salt: an opened message opens with any other salt too, as whatever
   * that salt's key stream makes of the same masked bytes, and it is delivered if and only if the number so obtained
   * is fresh.
   */
  lemma TagIgnoresSalt(k: Key, g: Filter, h: seq<nat>, buf: seq<byte>, salt: seq<byte>)
    requires |salt| == SALT_LEN && Unseal(k, buf).Sealed? && Abstracts(g, h)
    ensures var v, v' := Unseal(k, buf), Unseal(k, salt + buf[SALT_LEN..]);
      && v'.Sealed?
      && BigEndian(v'.n, SEQ_LEN) + v'.payload
           == XorStream(XorStream(BigEndian(v.n, SEQ_LEN) + v.payload, k.stream(buf[..SALT_LEN])), k.stream(salt))
      && (OutcomeOf(g, v').Plain? <==> Fresh(h, g.window, v'.n))
  {
    var buf' := salt + buf[SALT_LEN..];
    assert buf'[..SALT_LEN] == salt && buf'[SALT_LEN..] == buf[SALT_LEN..];
    hide Fold, BigEndian, XorStream, Abstracts, Fresh, Admits;
    MaskedBody(k, buf);
    MaskedBody(k, buf');
    ObserveAgrees(g, h, Unseal(k, buf').n);
  }

  /**
   * The number and payload of an opened message spell its unmasked body, and masking them again gives the body back.
   */
  lemma MaskedBody(k: Key, buf: seq<byte>)
    requires Unseal(k, buf).Sealed?
    ensures var v := Unseal(k, buf);
      && BigEndian(v.n, SEQ_LEN) + v.payload == XorStream(Body(buf), k.stream(buf[..SALT_LEN]))
      && XorStream(BigEndian(v.n, SEQ_LEN) + v.payload, k.stream(buf[..SALT_LEN])) == Body(buf)
  {
    hide Fold, BigEndian, XorStream;
    var plain := XorStream(Body(buf), k.stream(buf[..SALT_LEN]));
    BigEndianFold(plain[..SEQ_LEN]);
    assert plain[..SEQ_LEN] + plain[SEQ_LEN..] == plain;
    XorStreamTwice(Body(buf), k.stream(buf[..SALT_LEN]));
  }

  /** The masked bytes between salt and tag. */
  function Body(buf: seq<byte>): seq<byte>
    requires |buf| >= SALT_LEN + TAG_LEN
  {
    buf[SALT_LEN..][..|buf| - SALT_LEN - TAG_LEN]
  }

  function OutcomeOf(g: Filter, v: Envelope): Outcome {
    if v.Garbage? then Invalid else if Admits(g, v.n) then Plain(v.payload) else Replay
  }

  function FilterAfter(g: Filter, v: Envelope): Filter {
    if v.Garbage? then g else Observed(g, v.n)
  }

  /** salt, the number's eight big-endian bytes and the payload, every bit masked, and the tag of the masked bytes. */
  ghost predicate IsSealing(k: Key, n: nat, salt: seq<byte>, payload: seq<byte>, out: seq<byte>) {
    && |out| == |salt| + SEQ_LEN + |payload| + TAG_LEN
    && out[..|salt|] == salt
    && Masked(out[|salt|..|out| - TAG_LEN], BigEndian(n, SEQ_LEN) + payload, k.stream(salt))
    && out[|out| - TAG_LEN..] == k.mac(out[|salt|..|out| - TAG_LEN])
  }

  /** Sealing is determined by where each part lies and how each bit is masked. */
  lemma SealsIff(k: Key, n: nat, salt: seq<byte>, payload: seq<byte>, out: seq<byte>)
    ensures IsSealing(k, n, salt, payload, out) <==> out == Seal(k, n, salt, payload)
  {
    var plain := BigEndian(n, SEQ_LEN) + payload;
    hide XorStream, Masked, BigEndian;
    if IsSealing(k, n, salt, payload, out) {
      var body := out[|salt|..|out| - TAG_LEN];
      MaskedIff(body, plain, k.stream(salt));
      assert out == out[..|salt|] + body + out[|out| - TAG_LEN..];
    }
    if out == Seal(k, n, salt, payload) {
      var body := XorStream(plain, k.stream(salt));
      MaskedIff(body, plain, k.stream(salt));
      assert out == salt + (body + k.mac(body));
      assert out[|salt|..|out| - TAG_LEN] == body;
    }
  }

  /** Long enough for salt, number and tag, and the last sixteen bytes are the tag of those after the salt. */
  predicate Authentic(k: Key, buf: seq<byte>) {
    |buf| >= 32 && k.mac(buf[8..|buf| - 16]) == buf[|buf| - 16..]
  }

  /** A message opens exactly when it is authentic, and then to what unmasking makes of the bytes between. */
  lemma OpensIff(k: Key, buf: seq<byte>)
    ensures Unseal(k, buf).Garbage? <==> !Authentic(k, buf)
    ensures Authentic(k, buf) ==>
      Masked(BigEndian(Unseal(k, buf).n, SEQ_LEN) + Unseal(k, buf).payload, buf[8..|buf| - 16], k.stream(buf[..8]))
  {
    if |buf| >= 32 {
      assert buf[8..][..|buf| - 24] == buf[8..|buf| - 16] && buf[8..][|buf| - 24..] == buf[|buf| - 16..];
      if Unseal(k, buf).Sealed? {
        MaskedBody(k, buf);
        MaskedIff(BigEndian(Unseal(k, buf).n, SEQ_LEN) + Unseal(k, buf).payload, Body(buf), k.stream(buf[..8]));
      }
    }
    hide XorStream, Masked, Fold, BigEndian;
  }

  /**
   * The three outcomes, for a receiver that has accepted the numbers h: invalid if and only if the message is not
   * authentic, a replay if and only if it is and its number is not fresh, and otherwise the payload.
   */
  lemma OutcomeIff(k: Key, g: Filter, h: seq<nat>, buf: seq<byte>)
    requires Abstracts(g, h)
    ensures var v, o := Unseal(k, buf), OutcomeOf(g, Unseal(k, buf));
      && (o.Invalid? <==> !Authentic(k, buf))
      && (o.Replay? <==> Authentic(k, buf) && !Fresh(h, g.window, v.n))
      && (o.Plain? ==> o.payload == v.payload)
  {
    hide Abstracts, Fresh, Admits, Unseal, Authentic, Masked;
    OpensIff(k, buf);
    if Authentic(k, buf) {
      ObserveAgrees(g, h, Unseal(k, buf).n);
    }
  }

  class Obfuscator {
    const key: Key
    var sendSeq: nat
    const recv: ReplayWindow

    ghost predicate Valid()
      reads this
    {
      sendSeq < TWO_64
    }

    constructor (key: Key)
      ensures Valid() && this.key == key && sendSeq == 0 && fresh(recv) && recv.View() == NewFilter(WINDOW)
    {
      this.key := key;
      sendSeq := 0;
      recv := new ReplayWindow(WINDOW);
    }

    /** The counter wraps at 64 bits; the salt comes from outside. */
    method Encrypt(payload: seq<byte>, salt: seq<byte>) returns (out: seq<byte>)
      requires Valid()
      modifies this
      ensures Valid() && sendSeq == (old(sendSeq) + 1) % TWO_64
      ensures out == Seal(key, old(sendSeq), salt, payload)
      ensures |salt| == SALT_LEN ==> IsSealing(key, old(sendSeq), salt, payload, out)
    {
      var n := sendSeq;
      sendSeq := (sendSeq + 1) % TWO_64;
      var plain := BigEndian(n, SEQ_LEN) + payload;
      var body := new byte[|plain|](i requires 0 <= i < |plain| => plain[i]);
      assert body[..] == plain;
      XorInPlace(body, key.stream(salt));
      out := salt + body[..] + key.mac(body[..]);
      SealsIff(key, n, salt, payload, out);
    }

    method Decrypt(buf: seq<byte>) returns (r: Outcome)
      requires Valid()
      modifies recv
      ensures r == OutcomeOf(old(recv.View()), Unseal(key, buf))
      ensures recv.View() == FilterAfter(old(recv.View()), Unseal(key, buf))
      ensures r == Invalid <==> !Authentic(key, buf)
    {
      OpensIff(key, buf);
      if |buf| < SALT_LEN + TAG_LEN + SEQ_LEN {
        return Invalid;
      }
      var salt, rest := buf[..SALT_LEN], buf[SALT_LEN..];
      var body, tag := rest[..|rest| - TAG_LEN], rest[|rest| - TAG_LEN..];
      if key.mac(body) != tag {
        return Invalid;
      }
      var plain := new byte[|body|](i requires 0 <= i < |body| => body[i]);
      assert plain[..] == body;
      XorInPlace(plain, key.stream(salt));
      var n := Fold(0, plain[..SEQ_LEN]);
      var fresh' := recv.Observe(n);
      if !fresh' {
        return Replay;
      }
      return Plain(plain[SEQ_LEN..]);
    }
  }

  // ----- Runs of one receiver -----

  function Outcomes(k: Key, g: Filter, msgs: seq<seq<byte>>): (r: seq<Outcome>)
    ensures |r| == |msgs|
    decreases |msgs|
  {
    if msgs == [] then []
    else [OutcomeOf(g, Unseal(k, msgs[0]))] + Outcomes(k, FilterAfter(g, Unseal(k, msgs[0])), msgs[1..])
  }

  /** The numbers accepted after one more message. */
  function HistoryAfter(g: Filter, h: seq<nat>, v: Envelope): seq<nat> {
    if v.Sealed? && Admits(g, v.n) then h + [v.n] else h
  }

  lemma MessageAgrees(g: Filter, h: seq<nat>, v: Envelope)
    requires Abstracts(g, h)
    ensures Abstracts(FilterAfter(g, v), HistoryAfter(g, h, v))
    ensures OutcomeOf(g, v).Plain? ==> v.Sealed? && v.n in HistoryAfter(g, h, v)
    ensures v.Sealed? && v.n in h ==> OutcomeOf(g, v) == Replay
    ensures forall x | x in h :: x in HistoryAfter(g, h, v)
  {
    if v.Sealed? { ObserveAgrees(g, h, v.n); }
    hide Abstracts, Observed;
  }

  /** In any run of a receiver, whatever else arrives, the same bytes are opened at most once. */
  lemma {:induction false} OpenedOnce(k: Key, g: Filter, h: seq<nat>, msgs: seq<seq<byte>>, i: nat, j: nat)
    requires Abstracts(g, h) && i < j < |msgs| && msgs[i] == msgs[j]
    requires Outcomes(k, g, msgs)[i].Plain?
    ensures Outcomes(k, g, msgs)[j] == Replay
    decreases |msgs|
  {
    var v := Unseal(k, msgs[0]);
    MessageAgrees(g, h, v);
    hide Unseal, Abstracts, FilterAfter, HistoryAfter, OutcomeOf;
    if i == 0 {
      StaysClosed(k, FilterAfter(g, v), HistoryAfter(g, h, v), msgs[1..], j - 1);
    } else {
      OpenedOnce(k, FilterAfter(g, v), HistoryAfter(g, h, v), msgs[1..], i - 1, j - 1);
    }
  }

  lemma {:induction false} StaysClosed(k: Key, g: Filter, h: seq<nat>, msgs: seq<seq<byte>>, j: nat)
    requires Abstracts(g, h) && j < |msgs| && Unseal(k, msgs[j]).Sealed? && Unseal(k, msgs[j]).n in h
    ensures Outcomes(k, g, msgs)[j] == Replay
    decreases |msgs|
  {
    var v := Unseal(k, msgs[0]);
    MessageAgrees(g, h, v);
    hide Unseal, Abstracts, FilterAfter, HistoryAfter, OutcomeOf;
    if j > 0 {
      StaysClosed(k, FilterAfter(g, v), HistoryAfter(g, h, v), msgs[1..], j - 1);
    }
  }

  // ----- The pipeline over a connection -----

  /** What the connection loop makes of one binary message. */
  datatype Arrival = Got(frame: Frame) | Dropped | Closed

  function ArrivalOf(o: Outcome): Arrival {
    match o
    case Plain(payload) =>
      (match DecodeFrame(payload)
       case Ok(v) => Got(v.0)
       case Err(_) => Closed)
    case Replay => Dropped
    case Invalid => Closed
  }

  /**
   * The connection is closed exactly by a message that is not authentic and by one delivered whose payload is no frame;
   * an authentic message with a number that is not fresh is dropped; every other one is its frame.
   */
  lemma ClosesIff(k: Key, g: Filter, h: seq<nat>, buf: seq<byte>)
    requires Abstracts(g, h)
    ensures var v, a := Unseal(k, buf), ArrivalOf(OutcomeOf(g, Unseal(k, buf)));
      && (v.Garbage? <==> !Authentic(k, buf))
      && (a == Dropped <==> Authentic(k, buf) && !Fresh(h, g.window, v.n))
      && (a == Closed <==>
            !Authentic(k, buf) || (Fresh(h, g.window, v.n) && DecodeFrame(v.payload).Err?))
      && (a.Got? ==> DecodeFrame(v.payload).Ok? && a.frame == DecodeFrame(v.payload).value.0)
  {
    hide Abstracts, Fresh, Admits, Unseal, Authentic, Masked, DecodeFrame;
    OpensIff(k, buf);
    OutcomeIff(k, g, h, buf);
  }

  predicate AllEncodable(fs: seq<Frame>) {
    forall i | 0 <= i < |fs| :: Encodable(fs[i])
  }

  predicate AllSalts(salts: seq<seq<byte>>) {
    forall i | 0 <= i < |salts| :: |salts[i]| == SALT_LEN
  }

  /** The single writer seals the frames in order, numbering them from n. */
  function SendAll(k: Key, n: nat, fs: seq<Frame>, salts: seq<seq<byte>>): seq<seq<byte>>
    requires |salts| == |fs| && AllEncodable(fs)
    decreases |fs|
  {
    if fs == [] then []
    else [Seal(k, n, salts[0], FrameBytes(fs[0]))] + SendAll(k, n + 1, fs[1..], salts[1..])
  }

  function ReceiveAll(k: Key, g: Filter, msgs: seq<seq<byte>>): seq<Arrival>
    decreases |msgs|
  {
    if msgs == [] then []
    else [ArrivalOf(OutcomeOf(g, Unseal(k, msgs[0])))] + ReceiveAll(k, FilterAfter(g, Unseal(k, msgs[0])), msgs[1..])
  }

  function AllGot(fs: seq<Frame>): seq<Arrival> {
    if fs == [] then [] else [Got(fs[0])] + AllGot(fs[1..])
  }

  lemma PlainArrives(f: Frame)
    requires Encodable(f)
    ensures ArrivalOf(Plain(FrameBytes(f))) == Got(f)
  {
    FrameRoundTrip(f, []);
    assert FrameBytes(f) + [] == FrameBytes(f);
    hide FrameBytes, DecodeFrame;
  }

  /** Only numbers below n have been accepted. */
  predicate AllBelow(h: seq<nat>, n: nat) {
    (forall x | x in h :: x < n) && Max(h) < n + 1
  }

  lemma FreshNext(h: seq<nat>, window: nat, n: nat)
    requires AllBelow(h, n)
    ensures Fresh(h, window, n)
    ensures AllBelow(h + [n], n + 1)
  {
    MaxAppend(h, n);
  }

  /** One frame: sealed with number n, it arrives as itself at a filter that has only accepted smaller numbers. */
  lemma OneArrives(k: Key, g: Filter, h: seq<nat>, n: nat, f: Frame, salt: seq<byte>)
    requires n < TWO_64 && |salt| == SALT_LEN && Encodable(f)
    requires Abstracts(g, h) && Fresh(h, g.window, n)
    ensures var v := Unseal(k, Seal(k, n, salt, FrameBytes(f)));
      && ArrivalOf(OutcomeOf(g, v)) == Got(f)
      && Abstracts(FilterAfter(g, v), h + [n]) && FilterAfter(g, v).window == g.window
  {
    hide Seal, Unseal, FrameBytes, DecodeFrame, Abstracts;
    SealInverts(k, n, salt, FrameBytes(f));
    assert n % TWO_64 == n;
    PlainArrives(f);
    ObserveAgrees(g, h, n);
    hide ArrivalOf, Fresh;
  }

  lemma ReceiveStep(k: Key, g: Filter, m: seq<byte>, rest: seq<seq<byte>>)
    ensures ReceiveAll(k, g, [m] + rest)
      == [ArrivalOf(OutcomeOf(g, Unseal(k, m)))] + ReceiveAll(k, FilterAfter(g, Unseal(k, m)), rest)
  {
    hide Unseal, OutcomeOf, FilterAfter, ArrivalOf;
    assert ([m] + rest)[1..] == rest;
  }

  /** The filter after frame f, sealed with number n, has been handled. */
  function FilterPast(k: Key, g: Filter, n: nat, f: Frame, salt: seq<byte>): Filter
    requires Encodable(f)
  {
    FilterAfter(g, Unseal(k, Seal(k, n, salt, FrameBytes(f))))
  }

  lemma FirstArrives(k: Key, g: Filter, h: seq<nat>, n: nat, fs: seq<Frame>, salts: seq<seq<byte>>)
    requires fs != [] && |salts| == |fs| && n < TWO_64 && AllEncodable(fs) && AllSalts(salts)
    requires Abstracts(g, h) && AllBelow(h, n)
    ensures AllEncodable(fs[1..]) && AllSalts(salts[1..])
    ensures var g' := FilterPast(k, g, n, fs[0], salts[0]);
      && Abstracts(g', h + [n])
      && ReceiveAll(k, g, SendAll(k, n, fs, salts))
           == [Got(fs[0])] + ReceiveAll(k, g', SendAll(k, n + 1, fs[1..], salts[1..]))
  {
    FreshNext(h, g.window, n);
    OneArrives(k, g, h, n, fs[0], salts[0]);
    ReceiveStep(k, g, Seal(k, n, salts[0], FrameBytes(fs[0])), SendAll(k, n + 1, fs[1..], salts[1..]));
    hide Seal, Unseal, FrameBytes, Abstracts, Fresh, AllBelow, FilterAfter, OutcomeOf, ArrivalOf, ReceiveAll;
  }

  /** The same, from any point of a connection: n frames sent so far, h the numbers the receiver has accepted. */
  lemma {:induction false} PipelineFrom(k: Key, g: Filter, h: seq<nat>, n: nat, fs: seq<Frame>, salts: seq<seq<byte>>)
    requires |salts| == |fs| && n + |fs| <= TWO_64 && AllEncodable(fs) && AllSalts(salts)
    requires Abstracts(g, h) && AllBelow(h, n)
    ensures ReceiveAll(k, g, SendAll(k, n, fs, salts)) == AllGot(fs)
    decreases |fs|
  {
    hide ReceiveAll, SendAll, FilterPast, Abstracts, AllBelow, AllSalts, Fresh;
    if fs == [] {
      NothingArrives(k, g, n, fs, salts);
    } else {
      FirstArrives(k, g, h, n, fs, salts);
      FreshNext(h, g.window, n);
      PipelineFrom(k, FilterPast(k, g, n, fs[0], salts[0]), h + [n], n + 1, fs[1..], salts[1..]);
    }
  }

  lemma NothingArrives(k: Key, g: Filter, n: nat, fs: seq<Frame>, salts: seq<seq<byte>>)
    requires fs == [] && |salts| == |fs|
    ensures ReceiveAll(k, g, SendAll(k, n, fs, salts)) == AllGot(fs)
  {
  }

  /**
   * Sent in order over the obfuscated connection, a list of frames arrives as exactly that list: no replay, no
   * closing.
   */
  lemma PipelineIsIdentity(k: Key, fs: seq<Frame>, salts: seq<seq<byte>>)
    requires |salts| == |fs| <= TWO_64 && AllEncodable(fs) && AllSalts(salts)
    ensures ReceiveAll(k, NewFilter(WINDOW), SendAll(k, 0, fs, salts)) == AllGot(fs)
  {
    NewAbstracts(WINDOW);
    PipelineFrom(k, NewFilter(WINDOW), [], 0, fs, salts);
  }
}
