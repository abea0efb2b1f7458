/** The cursor used by message decoding, as functions of (buffer, position) and as the object that advances. */
module Reader {
  import opened Bytes
  import opened Varint

  function U8At(buf: seq<byte>, pos: nat): Result<(byte, nat)> {
    if pos < |buf| then Ok((buf[pos], pos + 1)) else Err(UnexpectedEof)
  }

  function VarintAt(buf: seq<byte>, pos: nat): Result<(nat, nat)>
    requires pos <= |buf|
  {
    var (v, used) :- DecodeVarint(buf[pos..]);
    Ok((v, pos + used))
  }

  function BytesAt(buf: seq<byte>, pos: nat): Result<(seq<byte>, nat)>
    requires pos <= |buf|
  {
    var (len, p) :- VarintAt(buf, pos);
    if |buf| < p + len then Err(UnexpectedEof) else Ok((buf[p..p + len], p + len))
  }

  /** A length-prefixed byte string. */
  function Prefixed(bs: seq<byte>): seq<byte>
    requires |bs| < TWO_64
  {
    VarintBytes(|bs|) + bs
  }

  class Cursor {
    const buf: seq<byte>
    var pos: nat

    ghost predicate Valid()
      reads this
    {
      pos <= |buf|
    }

    constructor (buf: seq<byte>)
      ensures Valid() && this.buf == buf && pos == 0
    {
      this.buf := buf;
      pos := 0;
    }

    method U8() returns (r: Result<byte>)
      requires Valid()
      modifies this
      ensures Valid()
      ensures match U8At(buf, old(pos))
        case Ok(v) => r == Ok(v.0) && pos == v.1
        case Err(e) => r == Err(e) && pos == old(pos)
    {
      if pos >= |buf| {
        return Err(UnexpectedEof);
      }
      r := Ok(buf[pos]);
      pos := pos + 1;
    }

    method Varint() returns (r: Result<nat>)
      requires Valid()
      modifies this
      ensures Valid()
      ensures match VarintAt(buf, old(pos))
        case Ok(v) => r == Ok(v.0) && pos == v.1
        case Err(e) => r == Err(e) && pos == old(pos)
    {
      var d := ReadVarint(buf[pos..]);
      if d.Err? {
        return Err(d.error);
      }
      pos := pos + d.value.1;
      r := Ok(d.value.0);
    }

    /** On a short buffer the length has already been consumed. */
    method Bytes() returns (r: Result<seq<byte>>)
      requires Valid()
      modifies this
      ensures Valid()
      ensures match BytesAt(buf, old(pos))
        case Ok(v) => r == Ok(v.0) && pos == v.1
        case Err(e) =>
          var len := VarintAt(buf, old(pos));
          r == Err(e) && pos == if len.Ok? then len.value.1 else old(pos)
    {
      var len :- Varint();
      if |buf| < pos + len {
        return Err(UnexpectedEof);
      }
      r := Ok(buf[pos..pos + len]);
      pos := pos + len;
    }
  }

  // ----- Encoded fields found inside a buffer -----

  ghost predicate Carries(buf: seq<byte>, pos: nat, field: seq<byte>) {
    pos + |field| <= |buf| && buf[pos..pos + |field|] == field
  }

  lemma SplitCarries(buf: seq<byte>, pos: nat, a: seq<byte>, b: seq<byte>)
    requires Carries(buf, pos, a + b)
    ensures Carries(buf, pos, a) && Carries(buf, pos + |a|, b)
  {
    var whole := buf[pos..pos + |a + b|];
    assert whole[..|a|] == a && whole[|a|..] == b;
    assert whole[..|a|] == buf[pos..pos + |a|];
    assert whole[|a|..] == buf[pos + |a|..pos + |a| + |b|];
  }

  lemma CarriesStart(field: seq<byte>, tail: seq<byte>)
    ensures Carries(field + tail, 0, field)
  {
  }

  lemma U8Found(buf: seq<byte>, pos: nat, b: byte)
    requires Carries(buf, pos, [b])
    ensures pos < |buf| && buf[pos] == b
  {
    assert buf[pos..pos + 1][0] == b;
  }

  lemma RestFound(field: seq<byte>, tail: seq<byte>, pos: nat, last: seq<byte>)
    requires |field| == pos + |last| && Carries(field + tail, pos, last)
    ensures (field + tail)[pos..] == last + tail
  {
    assert (field + tail)[pos..] == (field + tail)[pos..pos + |last|] + tail;
  }

  lemma VarintFound(buf: seq<byte>, pos: nat, v: nat)
    requires v < TWO_64 && Carries(buf, pos, VarintBytes(v))
    ensures VarintAt(buf, pos) == Ok((v % TWO_62, pos + |VarintBytes(v)|))
  {
    var bs := VarintBytes(v);
    assert buf[pos..] == bs + buf[pos + |bs|..];
    DecodeEncoded(v, buf[pos + |bs|..]);
    EncodedLength(v);
  }

  lemma BytesFound(buf: seq<byte>, pos: nat, bs: seq<byte>)
    requires |bs| < TWO_62 && Carries(buf, pos, Prefixed(bs))
    ensures BytesAt(buf, pos) == Ok((bs, pos + |Prefixed(bs)|))
  {
    hide VarintBytes, DecodeVarint;
    SplitCarries(buf, pos, VarintBytes(|bs|), bs);
    VarintFound(buf, pos, |bs|);
  }

  // ----- Cutting the buffer: nothing past the consumed bytes matters, and nothing less suffices -----

  lemma VarintAtCut(buf: seq<byte>, pos: nat, k: nat)
    requires pos <= k <= |buf| && VarintAt(buf, pos).Ok?
    ensures k < VarintAt(buf, pos).value.1 ==> VarintAt(buf[..k], pos) == Err(UnexpectedEof)
    ensures k >= VarintAt(buf, pos).value.1 ==> VarintAt(buf[..k], pos) == VarintAt(buf, pos)
  {
    assert buf[..k][pos..] == buf[pos..][..k - pos];
    VarintCut(buf[pos..], k - pos);
  }

  lemma BytesAtCut(buf: seq<byte>, pos: nat, k: nat)
    requires pos <= k <= |buf| && BytesAt(buf, pos).Ok?
    ensures k < BytesAt(buf, pos).value.1 ==> BytesAt(buf[..k], pos) == Err(UnexpectedEof)
    ensures k >= BytesAt(buf, pos).value.1 ==> BytesAt(buf[..k], pos) == BytesAt(buf, pos)
  {
    VarintAtCut(buf, pos, k);
    var (len, p) := VarintAt(buf, pos).value;
    if k >= p + len {
      assert buf[..k][p..p + len] == buf[p..p + len];
    }
  }

  lemma VarintAtRange(buf: seq<byte>, pos: nat)
    requires pos <= |buf| && VarintAt(buf, pos).Ok?
    ensures var (v, q) := VarintAt(buf, pos).value;
      v < TWO_62 && pos + VarintLen(v) <= q <= |buf| && pos < q
  {
    DecodedRange(buf[pos..]);
  }

  /** A decoded byte string needs no more room, prefix included, than the input it came from. */
  lemma BytesAtRange(buf: seq<byte>, pos: nat)
    requires pos <= |buf| && BytesAt(buf, pos).Ok?
    ensures var (bs, q) := BytesAt(buf, pos).value;
      |bs| < TWO_62 && pos + |Prefixed(bs)| <= q <= |buf|
  {
    VarintAtRange(buf, pos);
    EncodedLength(|BytesAt(buf, pos).value.0|);
  }
}
