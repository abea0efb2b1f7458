/** What one frame from the peer does to an end, from the bytes of the frame. */
module Handling {
  import opened Bytes
  import opened Varint
  import opened Frames
  import opened Reader
  import opened Addresses
  import M = Messages
  import opened Connection

  /** The end tracks sessions and this nonzero one is not among them. */
  predicate Unauthenticated(e: Endpoint, id: nat) {
    id != 0 && match e.sessions case Some(known) => id !in known case None => false
  }

  /** The bytes are the characters of the text. */
  predicate Spells(bs: seq<byte>, text: string) {
    |bs| == |text| && forall i | 0 <= i < |bs| :: bs[i] == text[i] as int
  }

  lemma AsciiSpells(text: string)
    requires forall i | 0 <= i < |text| :: text[i] as int < 128
    ensures Spells(Ascii(text), text)
  {
  }

  lemma AddressRead(addr: Address, tail: seq<byte>)
    ensures AddressAt(AddressBytes(addr) + tail, 0) == Ok((addr, |AddressBytes(addr)|))
  {
    hide AddressAt, AddressBytes;
    CarriesStart(AddressBytes(addr), tail);
    AddressFound(AddressBytes(addr) + tail, 0, addr);
  }

  /** An opening the gate lets through offers the application exactly the stream and the address that were sent. */
  lemma OpeningIsOffered(e: Endpoint, id: nat, addr: Address, tail: seq<byte>, verdict: M.Message)
    requires IsResponse(verdict) && !Unauthenticated(e, id)
    ensures Dispatch(e, Frame(id, OPEN_STREAM, AddressBytes(addr) + tail), verdict)
         == e.(log := e.log + [Opened(id, addr)], incoming := e.incoming + {id})
  {
    AddressRead(addr, tail);
    hide AddressAt, AddressBytes;
  }

  /** An opening whose address cannot be read offers nothing and is not answered. */
  lemma UnreadableOpening(e: Endpoint, id: nat, body: seq<byte>, verdict: M.Message)
    requires IsResponse(verdict) && !Unauthenticated(e, id) && AddressAt(body, 0).Err?
    ensures Dispatch(e, Frame(id, OPEN_STREAM, body), verdict) == e
  {
    hide AddressAt;
  }

  /** An opening in a session that is not authenticated gets one protocol error and changes nothing else. */
  lemma OpeningIsRefused(e: Endpoint, id: nat, body: seq<byte>, verdict: M.Message) returns (ack: M.Message)
    requires IsResponse(verdict) && Unauthenticated(e, id)
    ensures ack.OpenStreamAck? && Spells(ack.ackText, "session not authenticated")
    ensures ack == M.OpenStreamAck(1, M.ERR_PROTOCOL, ack.ackText)
    ensures var e' := Dispatch(e, Frame(id, OPEN_STREAM, body), verdict);
      && e' == e.(out := e'.out) && |e'.out| == |e.out| + 1 && e.out <= e'.out
      && var g := e'.out[|e.out|];
         && g.streamId == id && g.frameType == OPEN_STREAM_ACK
         && M.DecodeMessage(M.TOpenStreamAck, g.body) == Ok((ack, |g.body|))
  {
    hide M.MessageBytes, M.DecodeMessage, Ascii;
    ack := Rejection();
    AsciiSpells("session not authenticated");
    M.MessageRoundTrip(ack, []);
    assert M.MessageBytes(ack) + [] == M.MessageBytes(ack);
  }

  /**
   * A datagram is handed to the application as it was sent, exactly when the gate lets it through; nothing else
   * changes.
   */
  lemma DatagramIsDelivered(e: Endpoint, id: nat, header: M.Message, payload: seq<byte>, verdict: M.Message)
    requires IsResponse(verdict) && header.DatagramHeader? && M.Exact(header)
    ensures M.Sized(header)
    ensures Dispatch(e, Frame(id, DATAGRAM, M.MessageBytes(header) + payload), verdict)
         == if Unauthenticated(e, id) then e
            else e.(log := e.log + [DatagramArrived(id, M.Datagram(header, payload))])
  {
    hide M.MessageBytes, M.DecodeDatagram, M.Exact;
    M.DatagramRoundTrip(M.Datagram(header, payload), []);
    assert M.MessageBytes(header) + payload + [] == M.MessageBytes(header) + payload;
    assert payload + [] == payload;
  }

  /** A datagram that cannot be read changes nothing. */
  lemma UnreadableDatagram(e: Endpoint, id: nat, body: seq<byte>, verdict: M.Message)
    requires IsResponse(verdict) && M.DecodeDatagram(body).Err?
    ensures Dispatch(e, Frame(id, DATAGRAM, body), verdict) == e
  {
    hide M.DecodeDatagram;
  }

  /**
   * An acknowledgement tells the waiting caller what the peer answered, and its stream runs from then on exactly when
   * the answer is OK; one that nobody waits for changes nothing.
   */
  lemma AnswerIsTold(e: Endpoint, id: nat, ack: M.Message, verdict: M.Message)
    requires IsResponse(verdict) && IsAck(ack)
    ensures var e' := Dispatch(e, Frame(id, OPEN_STREAM_ACK, M.MessageBytes(ack)), verdict);
      if id !in e.pending then e' == e
      else
        && e'.pending == e.pending - {id}
        && e'.log == e.log + [Told(id, if ack.ackStatus == 0 then Granted else Denied(ack.ackText))]
        && e'.streams == (if ack.ackStatus == 0 then e.streams + {id} else e.streams)
        && e'.out == e.out && e'.sessions == e.sessions && e'.incoming == e.incoming
  {
    hide M.MessageBytes, M.DecodeMessage;
    M.MessageRoundTrip(ack, []);
    assert M.MessageBytes(ack) + [] == M.MessageBytes(ack);
  }

  /** The application's answer is sent as it was given, and its stream runs from then on exactly when it is OK. */
  lemma ReplyIsSent(e: Endpoint, id: nat, ack: M.Message)
    requires CommandEnabled(e) && e.cmd[0] == ReplyOpen(id, ack)
    ensures var e' := CommandApply(e);
      && |e'.out| == |e.out| + 1 && e.out <= e'.out
      && e'.streams == (if ack.ackStatus == 0 then e.streams + {id} else e.streams)
      && var g := e'.out[|e.out|];
         && g.streamId == id && g.frameType == OPEN_STREAM_ACK
         && M.DecodeMessage(M.TOpenStreamAck, g.body) == Ok((ack, |g.body|))
  {
    hide M.MessageBytes, M.DecodeMessage;
    M.MessageRoundTrip(ack, []);
    assert M.MessageBytes(ack) + [] == M.MessageBytes(ack);
  }

  /** An acknowledgement that cannot be read ends the wait with its error and starts nothing. */
  lemma UnreadableAnswer(e: Endpoint, id: nat, body: seq<byte>, verdict: M.Message)
    requires IsResponse(verdict) && id in e.pending && M.DecodeMessage(M.TOpenStreamAck, body).Err?
    ensures var error := M.DecodeMessage(M.TOpenStreamAck, body).error;
      Dispatch(e, Frame(id, OPEN_STREAM_ACK, body), verdict)
        == e.(pending := e.pending - {id}, log := e.log + [Told(id, Unreadable(error))])
  {
    hide M.DecodeMessage;
  }

  /** The end has answered: one response frame on the request's own id, and the answer's status in the log. */
  ghost predicate Responds(e: Endpoint, e': Endpoint, id: nat, resp: M.Message)
    requires resp.AuthResponse?
  {
    && e' == e.(out := e'.out, log := e.log + [Answered(id, resp.status)], sessions := e'.sessions)
    && |e'.out| == |e.out| + 1 && e.out <= e'.out
    && var g := e'.out[|e.out|];
       && g.streamId == id && g.frameType == AUTH_RESPONSE
       && M.DecodeMessage(M.TAuthResponse, g.body) == Ok((resp, |g.body|))
  }

  /** What the peer reads of a response is the response, its rate reduced if it does not fit a varint. */
  lemma ResponseRead(resp: M.Message)
    requires IsResponse(resp)
    ensures M.DecodeMessage(M.TAuthResponse, M.MessageBytes(resp)) == Ok((M.Wired(resp), |M.MessageBytes(resp)|))
    ensures M.Wired(resp) == resp.(serverCcRx := resp.serverCcRx % TWO_62)
  {
    hide M.MessageBytes, M.DecodeMessage;
    M.MessageDecodes(resp, []);
    assert M.MessageBytes(resp) + [] == M.MessageBytes(resp);
  }

  /**
   * A readable request is answered on its own id with the validator's verdict, as the wire carries it, and a nonzero id
   * joins the session set if and only if that verdict is OK.
   */
  lemma RequestIsAnswered(e: Endpoint, id: nat, req: M.Message, verdict: M.Message)
    requires e.authenticates && IsResponse(verdict)
    requires req.AuthRequest? && M.Sized(req) && forall f <- M.ToFields(req) :: M.Prefixable(f)
    ensures var e' := Dispatch(e, Frame(id, AUTH_REQUEST, M.MessageBytes(req)), verdict);
      && Responds(e, e', id, verdict.(serverCcRx := verdict.serverCcRx % TWO_62))
      && (e'.sessions.Some? <==> e.sessions.Some?)
      && (e.sessions.Some? ==> forall x ::
            x in e'.sessions.value <==> x in e.sessions.value || (x == id && id != 0 && verdict.status == 0))
  {
    hide M.MessageBytes, M.DecodeMessage, M.Wired;
    M.MessageDecodes(req, []);
    assert M.MessageBytes(req) + [] == M.MessageBytes(req);
    ResponseRead(verdict);
  }

  lemma BadRequestRead()
    ensures BadRequest() == M.AuthResponse(1, M.ERR_BAD_CREDENTIALS, Ascii("bad request"), 0, 0, [])
  {
    hide Ascii;
  }

  /** A request that cannot be read is answered with a credentials error and registers nothing. */
  lemma UnreadableRequest(e: Endpoint, id: nat, body: seq<byte>, verdict: M.Message) returns (resp: M.Message)
    requires e.authenticates && IsResponse(verdict) && M.DecodeMessage(M.TAuthRequest, body).Err?
    ensures resp.AuthResponse? && Spells(resp.text, "bad request")
    ensures resp == M.AuthResponse(1, M.ERR_BAD_CREDENTIALS, resp.text, 0, 0, [])
    ensures var e' := Dispatch(e, Frame(id, AUTH_REQUEST, body), verdict);
      Responds(e, e', id, resp) && e'.sessions == e.sessions
  {
    hide M.MessageBytes, M.DecodeMessage, M.Wired, BadRequest, Ascii;
    M.SmallMod(0, TWO_62);
    resp := BadRequest();
    BadRequestRead();
    AsciiSpells("bad request");
    ResponseRead(resp);
  }

  /** An end that does not authenticate its peer ignores requests. */
  lemma RequestIsIgnored(e: Endpoint, f: Frame, verdict: M.Message)
    requires !e.authenticates && f.frameType == AUTH_REQUEST && IsResponse(verdict)
    ensures Dispatch(e, f, verdict) == e
  {
  }

  /** Frames for streams this end does not know change nothing, and neither does credit that cannot be read. */
  lemma UnknownStreamIsIgnored(e: Endpoint, f: Frame, verdict: M.Message)
    requires IsResponse(verdict)
    ensures f.frameType == STREAM_DATA && f.streamId !in e.streams ==> Dispatch(e, f, verdict) == e
    ensures f.frameType == STREAM_CREDIT
        && (f.streamId == 0 || f.streamId !in e.sources || DecodeVarint(f.body).Err?)
      ==> Dispatch(e, f, verdict) == e
    ensures f.frameType == STREAM_CLOSE && f.streamId !in e.streams + e.credits ==> Dispatch(e, f, verdict) == e
  {
    hide DecodeVarint;
  }

  /** A ping is answered with its own bytes; what has no meaning here changes nothing. */
  lemma PingIsAnswered(e: Endpoint, f: Frame, verdict: M.Message)
    requires IsResponse(verdict)
    ensures f.frameType == PING ==> Dispatch(e, f, verdict) == e.(out := e.out + [Frame(0, PONG, f.body)])
    ensures f.frameType == PONG || f.frameType == AUTH_RESPONSE || f.frameType == 0 || f.frameType > STREAM_CREDIT
      ==> Dispatch(e, f, verdict) == e
  {
    hide OnAuthRequest, OnOpenStream, OnOpenStreamAck, OnData, OnCredit, OnDatagram;
  }

  /** The periodic ping comes back to the loop that sent it as an empty pong of no stream. */
  lemma TickIsEchoed(e: Endpoint, peer: Endpoint, verdict: M.Message)
    requires e.alive && IsResponse(verdict)
    ensures var e' := ActionApply(e, Tick);
      && e' == e.(out := e'.out) && |e'.out| == |e.out| + 1 && e.out <= e'.out
      && Dispatch(peer, e'.out[|e.out|], verdict) == peer.(out := peer.out + [Frame(0, PONG, [])])
  {
    PingIsAnswered(peer, Frame(0, PING, []), verdict);
    hide Dispatch;
  }
}
