/** Target addresses: a type byte, the host, a big-endian port. */
module Addresses {
  import opened Bytes
  import opened Varint
  import opened Reader

  /** Domains are byte strings already valid in UTF-8, on which the lossy decoder is the identity. */
  datatype RawAddress =
    | V4(octets: seq<byte>, port: nat)
    | V6(octets: seq<byte>, port: nat)
    | Domain(name: seq<byte>, port: nat)

  predicate WellFormed(a: RawAddress) {
    && a.port < 0x1_0000
    && (a.V4? ==> |a.octets| == 4) && (a.V6? ==> |a.octets| == 16) && (a.Domain? ==> |a.name| < TWO_62)
  }

  type Address = a: RawAddress | WellFormed(a) witness Domain([], 0)

  function AddressBytes(a: Address): seq<byte> {
    match a
    case V4(octets, port) => [0x01] + (octets + BigEndian(port, 2))
    case V6(octets, port) => [0x02] + (octets + BigEndian(port, 2))
    case Domain(name, port) => [0x03] + (Prefixed(name) + BigEndian(port, 2))
  }

  /** The host bytes and port that end at pos + n + 2, when the buffer is that long. */
  function HostAt(buf: seq<byte>, pos: nat, n: nat): Result<((seq<byte>, nat), nat)> {
    if |buf| < pos + n + 2 then Err(UnexpectedEof)
    else Ok(((buf[pos..pos + n], Fold(0, buf[pos + n..pos + n + 2])), pos + n + 2))
  }

  /** Address::decode on the slice that starts at pos. */
  function AddressAt(buf: seq<byte>, pos: nat): (r: Result<(Address, nat)>)
    requires pos <= |buf|
    ensures r.Ok? ==> pos < r.value.1 <= |buf|
  {
    var (ty, p) :- U8At(buf, pos);
    if ty == 0x01 then
      var ((host, port), q) :- HostAt(buf, p, 4);
      PortRange(buf[q - 2..q]);
      Ok((V4(host, port), q))
    else if ty == 0x02 then
      var ((host, port), q) :- HostAt(buf, p, 16);
      PortRange(buf[q - 2..q]);
      Ok((V6(host, port), q))
    else if ty == 0x03 then
      var (len, start) :- VarintAt(buf, p);
      VarintAtRange(buf, p);
      var ((host, port), q) :- HostAt(buf, start, len);
      PortRange(buf[q - 2..q]);
      Ok((Domain(host, port), q))
    else Err(InvalidData)
  }

  lemma PortRange(bs: seq<byte>)
    requires |bs| == 2
    ensures Fold(0, bs) < 0x1_0000
  {
    FoldBound(0, bs);
    assert Pow256(2) == 0x1_0000;
  }

  lemma PortBytes(port: nat)
    requires port < 0x1_0000
    ensures BigEndian(port, 2) == [port / 256, port % 256]
  {
    BigEndianDigit(port, 2, 0);
    BigEndianDigit(port, 2, 1);
    assert Pow256(1) == 256 && Pow256(0) == 1;
  }

  lemma Surrounded(first: byte, host: seq<byte>, last: seq<byte>)
    requires |last| == 2
    ensures var bs := [first] + (host + last);
      |bs| >= 3 && bs[0] == first && bs[1..|bs| - 2] == host && bs[|bs| - 2..] == last
  {
  }

  /** Where each part of an encoded address lies: the type byte, the host, the port with its high byte first. */
  lemma AddressLayout(a: Address)
    ensures var bs := AddressBytes(a);
      && |bs| >= 3
      && bs[0] == (match a case V4(_, _) => 1 case V6(_, _) => 2 case Domain(_, _) => 3)
      && bs[1..|bs| - 2] == (if a.Domain? then Prefixed(a.name) else a.octets)
      && bs[|bs| - 2..] == [a.port / 256, a.port % 256]
  {
    hide Prefixed, BigEndian;
    PortBytes(a.port);
    match a {
      case V4(octets, port) => Surrounded(0x01, octets, BigEndian(port, 2));
      case V6(octets, port) => Surrounded(0x02, octets, BigEndian(port, 2));
      case Domain(name, port) => Surrounded(0x03, Prefixed(name), BigEndian(port, 2));
    }
  }

  /** What is refused as invalid is exactly an unknown type byte; any other refusal is for want of bytes. */
  lemma RefusedIff(buf: seq<byte>, pos: nat)
    requires pos <= |buf|
    ensures AddressAt(buf, pos) == Err(InvalidData) <==> pos < |buf| && buf[pos] !in {1, 2, 3}
  {
    hide Fold;
  }

  method EncodeAddress(a: Address, buf: Buffer)
    modifies buf
    ensures buf.data == old(buf.data) + AddressBytes(a)
  {
    hide VarintBytes, BigEndian;
    ghost var start := buf.data;
    match a {
      case V4(octets, port) =>
        buf.Push(0x01);
        PushHost(buf, octets, port);
        Associate(start, [0x01], octets + BigEndian(port, 2));
      case V6(octets, port) =>
        buf.Push(0x02);
        PushHost(buf, octets, port);
        Associate(start, [0x02], octets + BigEndian(port, 2));
      case Domain(name, port) =>
        buf.Push(0x03);
        EncodeVarint(buf, |name|);
        PushHost(buf, name, port);
        Associate(start + [0x03], VarintBytes(|name|), name + BigEndian(port, 2));
        Associate(VarintBytes(|name|), name, BigEndian(port, 2));
        Associate(start, [0x03], Prefixed(name) + BigEndian(port, 2));
    }
  }

  method PushHost(buf: Buffer, host: seq<byte>, port: nat)
    modifies buf
    ensures buf.data == old(buf.data) + (host + BigEndian(port, 2))
  {
    buf.Extend(host);
    buf.Extend(BigEndian(port, 2));
  }

  lemma HostFound(buf: seq<byte>, pos: nat, host: seq<byte>, port: nat)
    requires port < 0x1_0000 && Carries(buf, pos, host + BigEndian(port, 2))
    ensures HostAt(buf, pos, |host|) == Ok(((host, port), pos + |host| + 2))
  {
    SplitCarries(buf, pos, host, BigEndian(port, 2));
    FoldBigEndian(0, port, 2);
    assert Pow256(2) == 0x1_0000;
  }

  lemma AddressFound(buf: seq<byte>, pos: nat, a: Address)
    requires Carries(buf, pos, AddressBytes(a))
    ensures AddressAt(buf, pos) == Ok((a, pos + |AddressBytes(a)|))
  {
    hide VarintBytes, VarintAt, BigEndian, HostAt, Carries, Prefixed;
    if a.Domain? {
      DomainFound(buf, pos, a.name, a.port);
    } else {
      var tag: byte := if a.V4? then 0x01 else 0x02;
      SplitCarries(buf, pos, [tag], a.octets + BigEndian(a.port, 2));
      U8Found(buf, pos, tag);
      HostFound(buf, pos + 1, a.octets, a.port);
    }
  }

  lemma DomainFound(buf: seq<byte>, pos: nat, name: seq<byte>, port: nat)
    requires |name| < TWO_62 && port < 0x1_0000 && Carries(buf, pos, AddressBytes(Domain(name, port)))
    ensures AddressAt(buf, pos) == Ok((Domain(name, port), pos + |AddressBytes(Domain(name, port))|))
  {
    hide VarintBytes, VarintAt, BigEndian, HostAt, Carries;
    var len := VarintBytes(|name|);
    SplitCarries(buf, pos, [0x03], Prefixed(name) + BigEndian(port, 2));
    assert Prefixed(name) + BigEndian(port, 2) == len + (name + BigEndian(port, 2));
    SplitCarries(buf, pos + 1, len, name + BigEndian(port, 2));
    U8Found(buf, pos, 0x03);
    VarintFound(buf, pos + 1, |name|);
    HostFound(buf, pos + 1 + |len|, name, port);
  }

  lemma HostAtCut(buf: seq<byte>, pos: nat, n: nat, k: nat)
    requires k <= |buf| && HostAt(buf, pos, n).Ok?
    ensures k < HostAt(buf, pos, n).value.1 ==> HostAt(buf[..k], pos, n) == Err(UnexpectedEof)
    ensures k >= HostAt(buf, pos, n).value.1 ==> HostAt(buf[..k], pos, n) == HostAt(buf, pos, n)
  {
    if k >= pos + n + 2 {
      assert buf[..k][pos..pos + n] == buf[pos..pos + n];
      assert buf[..k][pos + n..pos + n + 2] == buf[pos + n..pos + n + 2];
    }
  }

  lemma AddressAtCut(buf: seq<byte>, pos: nat, k: nat)
    requires pos <= k <= |buf| && AddressAt(buf, pos).Ok?
    ensures k < AddressAt(buf, pos).value.1 ==> AddressAt(buf[..k], pos) == Err(UnexpectedEof)
    ensures k >= AddressAt(buf, pos).value.1 ==> AddressAt(buf[..k], pos) == AddressAt(buf, pos)
  {
    if k > pos {
      var p := pos + 1;
      if buf[pos] == 0x03 {
        VarintAtCut(buf, p, k);
        var (len, start) := VarintAt(buf, p).value;
        HostAtCut(buf, start, len, k);
      } else {
        HostAtCut(buf, p, if buf[pos] == 0x01 then 4 else 16, k);
      }
    }
  }
}
