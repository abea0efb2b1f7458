/** Variable-length integers in the layout of section 16 of RFC 9000. */
module Varint {
  import opened Bytes

  /** First value a varint cannot carry. */
  const TWO_62: nat := 0x4000_0000_0000_0000
  const TWO_64: nat := 0x1_0000_0000_0000_0000

  /** What the encoder appends for a 64-bit value: the two top bits of the first byte are the length tag. */
  function VarintBytes(v: nat): (bs: seq<byte>)
    requires v < TWO_64
  {
    if v < 0x40 then [v]
    else if v < 0x4000 then [v / 0x100 + 0x40, v % 0x100]
    else if v < 0x4000_0000 then [v / 0x100_0000 + 0x80] + BigEndian(v, 3)
    else [(v / 0x100_0000_0000_0000) % 0x40 + 0xc0] + BigEndian(v, 7)
  }

  function VarintLen(v: nat): nat {
    if v < 0x40 then 1 else if v < 0x4000 then 2 else if v < 0x4000_0000 then 4 else 8
  }

  /** The examples of section A.1 of RFC 9000 for the three shorter forms. */
  lemma RfcExamples()
    ensures VarintBytes(37) == [0x25]
    ensures VarintBytes(15293) == [0x7b, 0xbd]
    ensures VarintBytes(494878333) == [0x9d, 0x7f, 0x3e, 0x7d]
  {
    assert BigEndian(494878333, 3) == [0x7f, 0x3e, 0x7d];
  }

  lemma RfcLongExample()
    ensures VarintBytes(151288809941952652) == [0xc2, 0x19, 0x7c, 0x5e, 0xff, 0x14, 0xe8, 0x8c]
  {
    assert BigEndian(9017515775, 4) == [0x19, 0x7c, 0x5e, 0xff];
    assert BigEndian(151288809941952652, 7) == BigEndian(9017515775, 4) + [0x14, 0xe8, 0x8c];
  }

  /** Length announced by the top two bits of the first byte. */
  function TagLen(first: byte): nat {
    if first < 0x40 then 1 else if first < 0x80 then 2 else if first < 0xc0 then 4 else 8
  }

  function DecodeVarint(buf: seq<byte>): Result<(nat, nat)> {
    if buf == [] then Err(UnexpectedEof)
    else
      var len := TagLen(buf[0]);
      if |buf| < len then Err(UnexpectedEof)
      else Ok((Fold(buf[0] % 0x40, buf[1..len]), len))
  }

  method EncodeVarint(buf: Buffer, v: nat)
    requires v < TWO_64
    modifies buf
    ensures buf.data == old(buf.data) + VarintBytes(v)
  {
    if v < 0x40 {
      buf.Push(v);
    } else if v < 0x4000 {
      buf.Push(v / 0x100 + 0x40);
      buf.Push(v % 0x100);
    } else if v < 0x4000_0000 {
      LowBytes(v, 3);
      PushTagged(buf, v / 0x100_0000 + 0x80, BigEndian(v, 4));
    } else {
      LowBytes(v, 7);
      PushTagged(buf, (v / 0x100_0000_0000_0000) % 0x40 + 0xc0, BigEndian(v, 8));
    }
  }

  /** Appends a tagged first byte, then the remaining bytes of the big-endian form. */
  method PushTagged(buf: Buffer, first: byte, whole: seq<byte>)
    requires |whole| > 0
    modifies buf
    ensures buf.data == old(buf.data) + ([first] + whole[1..])
  {
    buf.Push(first);
    buf.Extend(whole[1..]);
  }

  method ReadVarint(buf: seq<byte>) returns (r: Result<(nat, nat)>)
    ensures r == DecodeVarint(buf)
    ensures r.Ok? ==> 1 <= r.value.1 <= |buf| && r.value.0 < TWO_62
  {
    if |buf| == 0 {
      return Err(UnexpectedEof);
    }
    var first := buf[0];
    var len := TagLen(first);
    if |buf| < len {
      return Err(UnexpectedEof);
    }
    var v: nat := first % 0x40;
    for i := 1 to len
      invariant v == Fold(first % 0x40, buf[1..i])
    {
      assert buf[1..i + 1][..i - 1] == buf[1..i];
      v := v * 0x100 + buf[i];
    }
    DecodedRange(buf);
    return Ok((v, len));
  }

  /** Dropping the top byte of an (n + 1)-byte integer leaves its n low-order bytes. */
  lemma {:induction false} LowBytes(v: nat, n: nat)
    ensures BigEndian(v, n + 1)[1..] == BigEndian(v, n)
  {
    if n > 0 {
      LowBytes(v / 256, n - 1);
    }
  }

  lemma Powers()
    ensures Pow256(1) == 0x100 && Pow256(3) == 0x100_0000 && Pow256(7) == 0x100_0000_0000_0000
  {
    assert Pow256(3) == 0x100 * Pow256(2);
    assert Pow256(5) == 0x1_0000 * Pow256(3);
    assert Pow256(7) == 0x1_0000 * Pow256(5);
  }

  lemma EncodedLength(v: nat)
    requires v < TWO_64
    ensures |VarintBytes(v)| == VarintLen(v)
  {
  }

  lemma DecodeTagged(first: byte, rest: seq<byte>, tail: seq<byte>)
    requires TagLen(first) == 1 + |rest|
    ensures DecodeVarint([first] + rest + tail) == Ok((Fold(first % 0x40, rest), 1 + |rest|))
  {
    var buf := [first] + rest + tail;
    assert buf[1..1 + |rest|] == rest;
  }

  /** Decoding an encoded value, whatever follows it, gives the value modulo 2 to the 62. */
  lemma DecodeEncoded(v: nat, tail: seq<byte>)
    requires v < TWO_64
    ensures DecodeVarint(VarintBytes(v) + tail) == Ok((v % TWO_62, VarintLen(v)))
  {
    if v < 0x40 {
      DecodeTagged(v, [], tail);
      assert [v] + [] + tail == VarintBytes(v) + tail;
    } else if v < 0x4000 {
      DecodeTwo(v, tail);
    } else if v < 0x4000_0000 {
      DecodeFour(v, tail);
    } else {
      DecodeEight(v, tail);
    }
  }

  /** hi carries the six value bits of the first byte, v the n bytes after it. */
  lemma DecodeLong(tag: byte, hi: nat, v: nat, n: nat, tail: seq<byte>)
    requires tag % 0x40 == 0 && hi < 0x40 && tag + hi < 256 && TagLen(tag + hi) == n + 1
    ensures DecodeVarint([tag + hi] + BigEndian(v, n) + tail) == Ok((hi * Pow256(n) + v % Pow256(n), n + 1))
  {
    hide DecodeVarint, Fold, BigEndian, Pow256;
    DecodeTagged(tag + hi, BigEndian(v, n), tail);
    FoldBigEndian(hi, v, n);
    assert (tag + hi) % 0x40 == hi;
  }

  lemma DecodeFour(v: nat, tail: seq<byte>)
    requires 0x4000 <= v < 0x4000_0000
    ensures DecodeVarint(VarintBytes(v) + tail) == Ok((v, 4))
  {
    Powers();
    var hi := v / 0x100_0000;
    DecodeLong(0x80, hi, v, 3, tail);
    assert VarintBytes(v) == [0x80 + hi] + BigEndian(v, 3);
  }

  lemma DecodeEight(v: nat, tail: seq<byte>)
    requires 0x4000_0000 <= v < TWO_64
    ensures DecodeVarint(VarintBytes(v) + tail) == Ok((v % TWO_62, 8))
  {
    Powers();
    var hi := (v / 0x100_0000_0000_0000) % 0x40;
    DecodeLong(0xc0, hi, v, 7, tail);
    assert VarintBytes(v) == [0xc0 + hi] + BigEndian(v, 7);
    TopBits(v);
  }

  lemma DecodeTwo(v: nat, tail: seq<byte>)
    requires 0x40 <= v < 0x4000
    ensures DecodeVarint(VarintBytes(v) + tail) == Ok((v, 2))
  {
    var low: seq<byte> := [v % 0x100];
    DecodeTagged(v / 0x100 + 0x40, low, tail);
    assert [v / 0x100 + 0x40] + low == VarintBytes(v);
    assert Fold(v / 0x100, low) == Fold(v / 0x100, low[..0]) * 256 + v % 0x100;
  }

  lemma TopBits(v: nat)
    ensures ((v / 0x100_0000_0000_0000) % 0x40) * 0x100_0000_0000_0000 + v % 0x100_0000_0000_0000 == v % TWO_62
  {
    var d := 0x100_0000_0000_0000;
    var hi := v / d;
    assert v == TWO_62 * (hi / 0x40) + ((hi % 0x40) * d + v % d);
    ModUnique(v, TWO_62, hi / 0x40, (hi % 0x40) * d + v % d);
  }

  /** A decoded value fits 62 bits and consumes at least its minimal length, even when the input was not minimal. */
  lemma DecodedRange(buf: seq<byte>)
    ensures var r := DecodeVarint(buf);
      r.Ok? ==> r.value.0 < TWO_62 && 1 <= VarintLen(r.value.0) <= r.value.1 <= |buf|
  {
    if DecodeVarint(buf).Ok? {
      var len := TagLen(buf[0]);
      FoldBound(buf[0] % 0x40, buf[1..len]);
      Powers();
    }
  }

  /** Prefixing the bits of the first byte is folding from them. */
  lemma {:induction false} FoldFirst(first: byte, rest: seq<byte>)
    ensures Fold(0, [first] + rest) == Fold(first, rest)
  {
    if rest == [] {
      assert [first] + rest == [first] && [first][..0] == [];
    } else {
      FoldFirst(first, rest[..|rest| - 1]);
      assert ([first] + rest)[..|rest|] == [first] + rest[..|rest| - 1];
    }
  }

  /**
   * Every input decodes that has the 1, 2, 4 or 8 bytes its first two bits announce, minimal or not, to the value whose
   * big-endian form they are once those two bits are cleared.
   */
  lemma DecodesIff(buf: seq<byte>)
    ensures DecodeVarint(buf).Err? ==> DecodeVarint(buf) == Err(UnexpectedEof)
    ensures buf == [] ==> DecodeVarint(buf).Err?
    ensures buf != [] ==>
      var n := [1, 2, 4, 8][buf[0] / 64];
      && (DecodeVarint(buf).Ok? <==> |buf| >= n)
      && (|buf| >= n ==>
            DecodeVarint(buf).value.1 == n && BigEndian(DecodeVarint(buf).value.0, n) == [buf[0] % 64] + buf[1..n])
  {
    if buf != [] && |buf| >= TagLen(buf[0]) {
      var bytes := [buf[0] % 64] + buf[1..TagLen(buf[0])];
      FoldFirst(buf[0] % 64, buf[1..TagLen(buf[0])]);
      BigEndianFold(bytes);
    }
    hide Fold, BigEndian;
  }

  /** Decoding looks only at the bytes it consumes, and every shorter cut of them is an end-of-input error. */
  lemma VarintCut(buf: seq<byte>, k: nat)
    requires k <= |buf| && DecodeVarint(buf).Ok?
    ensures k < DecodeVarint(buf).value.1 ==> DecodeVarint(buf[..k]) == Err(UnexpectedEof)
    ensures k >= DecodeVarint(buf).value.1 ==> DecodeVarint(buf[..k]) == DecodeVarint(buf)
  {
    var n := DecodeVarint(buf).value.1;
    if k >= n {
      assert buf[..k][1..n] == buf[1..n];
    }
  }
}
