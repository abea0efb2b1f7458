/** Length-prefixed messages on a reliable byte stream (the QUIC control and proxy streams). */
module LengthPrefix {
  import opened Bytes
  import opened Varint
  import opened Reader
  import opened Messages

  /** The unread bytes of a stream whose peer has finished writing. */
  class RecvStream {
    var unread: seq<byte>

    constructor (bytes: seq<byte>)
      ensures unread == bytes
    {
      unread := bytes;
    }

    method ReadExact(n: nat) returns (r: Result<seq<byte>>)
      modifies this
      ensures if n <= |old(unread)| then r == Ok(old(unread)[..n]) && unread == old(unread)[n..]
              else r == Err(UnexpectedEof) && unread == []
    {
      if n > |unread| {
        unread := [];
        return Err(UnexpectedEof);
      }
      r := Ok(unread[..n]);
      unread := unread[n..];
    }

    /** Reads the first byte, then as many more as its tag announces. */
    method ReadVarintExact() returns (r: Result<nat>)
      modifies this
      ensures match DecodeVarint(old(unread))
        case Ok(v) => r == Ok(v.0) && unread == old(unread)[v.1..]
        case Err(e) => r == Err(e)
    {
      ghost var input := unread;
      var first :- ReadExact(1);
      var len := TagLen(first[0]);
      var buf := first;
      if len > 1 {
        var more :- ReadExact(len - 1);
        buf := buf + more;
      }
      assert buf == input[..len] && input[1..][len - 1..] == input[len..];
      DecodeAtTag(input, len);
      var d := ReadVarint(buf);
      return Ok(d.value.0);
    }

    method ReadMessage(t: Tag) returns (r: Result<Message>)
      modifies this
      ensures match TakeMessage(t, old(unread))
        case Ok(v) => r == Ok(v.0) && unread == v.1
        case Err(e) => r == Err(e)
    {
      var len :- ReadVarintExact();
      var buf :- ReadExact(len);
      var m :- DecodeMessage(t, buf);
      return Ok(m.0);
    }
  }

  lemma DecodeAtTag(input: seq<byte>, len: nat)
    requires input != [] && len == TagLen(input[0]) && len <= |input|
    ensures DecodeVarint(input[..len]) == DecodeVarint(input)
  {
    assert input[..len][1..len] == input[1..len];
  }

  /**
   * Reads one message off the front: its length, its bytes, its decoding; bytes the decoder leaves over are discarded.
   */
  function TakeMessage(t: Tag, input: seq<byte>): Result<(Message, seq<byte>)> {
    var (len, used) :- DecodeVarint(input);
    DecodedRange(input);
    if |input| < used + len then Err(UnexpectedEof)
    else
      var (m, _) :- DecodeMessage(t, input[used..][..len]);
      Ok((m, input[used..][len..]))
  }

  predicate AllSendable(ms: seq<Message>) {
    forall i | 0 <= i < |ms| :: Sendable(ms[i])
  }

  /** What the writer sends for a list of messages. */
  function WriteAll(ms: seq<Message>): seq<byte>
    requires AllSendable(ms)
  {
    if ms == [] then [] else Prefixed(MessageBytes(ms[0])) + WriteAll(ms[1..])
  }

  predicate Sendable(m: Message) {
    Sized(m) && Exact(m) && |MessageBytes(m)| < TWO_62
  }

  function ReadAll(ts: seq<Tag>, input: seq<byte>): Result<(seq<Message>, seq<byte>)> {
    if ts == [] then Ok(([], input))
    else
      var (m, rest) :- TakeMessage(ts[0], input);
      var (ms, end) :- ReadAll(ts[1..], rest);
      Ok(([m] + ms, end))
  }

  function Tags(ms: seq<Message>): seq<Tag> {
    seq(|ms|, i requires 0 <= i < |ms| => TagOf(ms[i]))
  }

  /** A prefixed message is taken whole, whatever its sender put after it inside the prefix and after the prefix. */
  lemma TakeWritten(m: Message, padding: seq<byte>, rest: seq<byte>)
    requires Sized(m) && Exact(m) && |MessageBytes(m) + padding| < TWO_62
    ensures TakeMessage(TagOf(m), Prefixed(MessageBytes(m) + padding) + rest) == Ok((m, rest))
  {
    hide VarintBytes, DecodeVarint, DecodeMessage, MessageBytes;
    var enc := MessageBytes(m) + padding;
    var input := Prefixed(enc) + rest;
    assert input == VarintBytes(|enc|) + (enc + rest);
    DecodeEncoded(|enc|, enc + rest);
    SmallMod(|enc|, TWO_62);
    EncodedLength(|enc|);
    assert input[|VarintBytes(|enc|)|..] == enc + rest;
    assert (enc + rest)[..|enc|] == enc && (enc + rest)[|enc|..] == rest;
    MessageRoundTrip(m, padding);
  }

  /** Every strict cut of what one message takes is an end-of-input error; what comes after it is left alone. */
  lemma TakeCut(t: Tag, input: seq<byte>, k: nat)
    requires k <= |input| && TakeMessage(t, input).Ok?
    ensures var (m, rest) := TakeMessage(t, input).value;
      && |rest| <= |input| && rest == input[|input| - |rest|..]
      && TakeMessage(t, input[..k]) ==
           if k < |input| - |rest| then Err(UnexpectedEof) else Ok((m, input[|input| - |rest|..k]))
  {
    hide DecodeVarint, DecodeMessage;
    VarintCut(input, k);
    DecodedRange(input);
    var (len, used) := DecodeVarint(input).value;
    if k >= used {
      assert input[..k][used..] == input[used..k];
      if k >= used + len {
        assert input[..k][used..][..len] == input[used..][..len];
        assert input[..k][used..][len..] == input[used + len..k];
      }
    }
    assert input[used..][len..] == input[used + len..];
  }

  /**
   * A concatenation of length-prefixed messages parses back to exactly the same list, leaving exactly what follows it.
   */
  lemma {:induction false} StreamRoundTrip(ms: seq<Message>, rest: seq<byte>)
    requires AllSendable(ms)
    ensures ReadAll(Tags(ms), WriteAll(ms) + rest) == Ok((ms, rest))
  {
    hide TakeMessage, Prefixed, MessageBytes, Exact, Sized, TagOf;
    if ms == [] {
      assert WriteAll(ms) + rest == rest;
    } else {
      assert Sendable(ms[0]) && AllSendable(ms[1..]);
      var first, tail := Prefixed(MessageBytes(ms[0])), WriteAll(ms[1..]) + rest;
      Associate(first, WriteAll(ms[1..]), rest);
      assert MessageBytes(ms[0]) + [] == MessageBytes(ms[0]);
      TakeWritten(ms[0], [], tail);
      StreamRoundTrip(ms[1..], rest);
      assert Tags(ms)[1..] == Tags(ms[1..]);
      assert [ms[0]] + ms[1..] == ms;
    }
  }

  /** Two message lists of the same types with the same bytes on the wire are the same list. */
  lemma UniqueParsing(a: seq<Message>, b: seq<Message>)
    requires AllSendable(a) && AllSendable(b)
    requires Tags(a) == Tags(b) && WriteAll(a) == WriteAll(b)
    ensures a == b
  {
    StreamRoundTrip(a, []);
    StreamRoundTrip(b, []);
  }
}
