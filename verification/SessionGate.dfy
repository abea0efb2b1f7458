/** Per-session authentication at one end, over any run of incoming frames and of the end's own steps. */
module SessionGate {
  import opened Bytes
  import opened Frames
  import M = Messages
  import Addresses
  import SP = StreamPipe
  import opened Connection
  import H = Handling

  /** The nonzero ids answered with status OK, according to the log. */
  function AnsweredOk(log: seq<Event>): set<nat> {
    if log == [] then {} else
      var last, before := log[|log| - 1], AnsweredOk(log[..|log| - 1]);
      if last.Answered? && last.status == M.STATUS_OK && last.id != 0 then before + {last.id} else before
  }

  /** Stream openings and datagrams of a nonzero id come only after that id was answered OK. */
  predicate Gatekept(log: seq<Event>) {
    forall i | 0 <= i < |log| ::
      (log[i].Opened? || log[i].DatagramArrived?) && log[i].id != 0 ==> log[i].id in AnsweredOk(log[..i])
  }

  predicate GateInv(e: Endpoint) {
    e.sessions == Some(AnsweredOk(e.log)) && Gatekept(e.log)
  }

  datatype Input = Frame(frame: Frames.Frame, verdict: M.Message) | Local(action: Action)

  predicate Accepts(e: Endpoint, x: Input) {
    match x
    case Frame(_, verdict) => IsResponse(verdict)
    case Local(a) => ActionEnabled(e, a)
  }

  function After(e: Endpoint, x: Input): Endpoint
    requires Accepts(e, x)
  {
    match x
    case Frame(f, verdict) => Dispatch(e, f, verdict)
    case Local(a) => ActionApply(e, a)
  }

  ghost predicate Runs(e: Endpoint, xs: seq<Input>)
    decreases |xs|
  {
    xs == [] || (Accepts(e, xs[0]) && Runs(After(e, xs[0]), xs[1..]))
  }

  ghost function End(e: Endpoint, xs: seq<Input>): Endpoint
    requires Runs(e, xs)
    decreases |xs|
  {
    if xs == [] then e else End(After(e, xs[0]), xs[1..])
  }

  lemma LogGrows(log: seq<Event>, ev: Event)
    ensures AnsweredOk(log + [ev]) ==
      if ev.Answered? && ev.status == M.STATUS_OK && ev.id != 0 then AnsweredOk(log) + {ev.id} else AnsweredOk(log)
    ensures Gatekept(log) && ((ev.Opened? || ev.DatagramArrived?) && ev.id != 0 ==> ev.id in AnsweredOk(log))
      ==> Gatekept(log + [ev])
  {
    var more := log + [ev];
    assert more[..|log|] == log;
    if Gatekept(log) {
      forall i | 0 <= i < |log|
        ensures (more[i].Opened? || more[i].DatagramArrived?) && more[i].id != 0 ==> more[i].id in AnsweredOk(more[..i])
      {
        assert more[..i] == log[..i] && more[i] == log[i];
      }
    }
  }

  function Registered(e: Endpoint, ev: Event): Option<set<nat>>
    requires ev.Answered?
  {
    if ev.status == M.STATUS_OK && ev.id != 0 && e.sessions.Some? then Some(e.sessions.value + {ev.id}) else e.sessions
  }

  /** The log entry one frame adds, if any: an answer registers its session, anything else was let through the gate. */
  ghost predicate Logged(e: Endpoint, e': Endpoint, ev: Event) {
    && e'.log == e.log + [ev]
    && (ev.Answered? ==> e'.sessions == Registered(e, ev))
    && (!ev.Answered? ==> e'.sessions == e.sessions)
    && (ev.Opened? || ev.DatagramArrived? ==> !Gated(e, ev.id))
  }

  /** The log and the sessions are as before, or one event was logged. */
  ghost predicate LogsOne(e: Endpoint, e': Endpoint) {
    (e'.log == e.log && e'.sessions == e.sessions) || exists ev :: Logged(e, e', ev)
  }

  lemma AuthLogged(e: Endpoint, f: Frames.Frame, verdict: M.Message)
    requires IsResponse(verdict)
    ensures LogsOne(e, OnAuthRequest(e, f, verdict))
  {
    var e' := OnAuthRequest(e, f, verdict);
    if e.authenticates {
      var ok := M.DecodeMessage(M.TAuthRequest, f.body).Ok?;
      var ev := Answered(f.streamId, if ok then verdict.status else M.STATUS_ERR);
      assert Logged(e, e', ev);
    }
  }

  lemma OpeningLogged(e: Endpoint, f: Frames.Frame)
    ensures LogsOne(e, OnOpenStream(e, f))
  {
    hide Addresses.AddressAt, AckFrame, Rejection;
    var e' := OnOpenStream(e, f);
    if e'.log != e.log {
      assert Logged(e, e', e'.log[|e.log|]);
    }
  }

  lemma DatagramLogged(e: Endpoint, f: Frames.Frame)
    ensures LogsOne(e, OnDatagram(e, f))
  {
    hide M.DecodeDatagram;
    var e' := OnDatagram(e, f);
    if e'.log != e.log {
      assert Logged(e, e', e'.log[|e.log|]);
    }
  }

  lemma AnswerLogged(e: Endpoint, f: Frames.Frame)
    ensures LogsOne(e, OnOpenStreamAck(e, f))
  {
    hide AnswerIn, AcceptsOpen;
    var e' := OnOpenStreamAck(e, f);
    if e'.log != e.log {
      assert Logged(e, e', e'.log[|e.log|]);
    }
  }

  lemma EventLogged(e: Endpoint, f: Frames.Frame, verdict: M.Message)
    requires IsResponse(verdict)
    ensures LogsOne(e, Dispatch(e, f, verdict))
  {
    hide OnAuthRequest, OnOpenStream, OnOpenStreamAck, OnDatagram, CreditAmount, SP.ReceiveCredit;
    OpeningLogged(e, f);
    DatagramLogged(e, f);
    AnswerLogged(e, f);
    AuthLogged(e, f, verdict);
  }

  lemma FrameKeepsGate(e: Endpoint, f: Frames.Frame, verdict: M.Message)
    requires GateInv(e) && IsResponse(verdict)
    ensures GateInv(Dispatch(e, f, verdict))
  {
    hide Dispatch, AnsweredOk, Gatekept;
    EventLogged(e, f, verdict);
    var e' := Dispatch(e, f, verdict);
    if e'.log != e.log {
      var ev :| Logged(e, e', ev);
      LogGrows(e.log, ev);
    }
  }

  lemma LocalKeepsLog(e: Endpoint, a: Action)
    requires ActionEnabled(e, a)
    ensures ActionApply(e, a).log == e.log && ActionApply(e, a).sessions == e.sessions
  {
  }

  lemma {:induction false} RunKeepsGate(e: Endpoint, xs: seq<Input>)
    requires GateInv(e) && Runs(e, xs)
    ensures GateInv(End(e, xs))
    decreases |xs|
  {
    hide Dispatch, ActionApply, ActionEnabled, AnsweredOk, Gatekept;
    if xs != [] {
      if xs[0].Frame? {
        FrameKeepsGate(e, xs[0].frame, xs[0].verdict);
      } else {
        LocalKeepsLog(e, xs[0].action);
      }
      RunKeepsGate(After(e, xs[0]), xs[1..]);
    }
  }

  /**
   * With session tracking on: the session set is exactly the nonzero ids answered OK, and it gates every opening and
   * datagram.
   */
  lemma SessionsGateStreams(xs: seq<Input>)
    requires Runs(NewEndpoint(true, Some({})), xs)
    ensures var e := End(NewEndpoint(true, Some({})), xs);
      e.sessions == Some(AnsweredOk(e.log)) && Gatekept(e.log)
  {
    RunKeepsGate(NewEndpoint(true, Some({})), xs);
  }

  /** An open for a session that was never authenticated is answered with a protocol error; nothing else changes. */
  lemma GatedOpenIsRefused(e: Endpoint, f: Frames.Frame, verdict: M.Message)
    requires GateInv(e) && IsResponse(verdict) && f.frameType == OPEN_STREAM
    requires f.streamId != 0 && f.streamId !in AnsweredOk(e.log)
    ensures var e' := Dispatch(e, f, verdict);
      && e' == e.(out := e'.out) && |e'.out| == |e.out| + 1 && e.out <= e'.out
      && var g := e'.out[|e.out|];
         && g.streamId == f.streamId && g.frameType == OPEN_STREAM_ACK
         && M.DecodeMessage(M.TOpenStreamAck, g.body).Ok?
         && var ack := M.DecodeMessage(M.TOpenStreamAck, g.body).value.0;
            && ack.ackStatus == M.STATUS_ERR && ack.ackCode == M.ERR_PROTOCOL
            && H.Spells(ack.ackText, "session not authenticated")
  {
    var ack := H.OpeningIsRefused(e, f.streamId, f.body, verdict);
    hide Dispatch, M.DecodeMessage, Gatekept, AnsweredOk, H.Spells;
  }

  /** What is logged as answered is what the peer will decode from the response frame. */
  lemma AnswerIsSent(e: Endpoint, f: Frames.Frame, verdict: M.Message)
    requires e.authenticates && f.frameType == AUTH_REQUEST && IsResponse(verdict)
    ensures var e' := Dispatch(e, f, verdict);
      && |e'.out| == |e.out| + 1 && |e'.log| == |e.log| + 1
      && var g, ev := e'.out[|e.out|], e'.log[|e.log|];
         && ev.Answered? && g.streamId == ev.id == f.streamId && g.frameType == AUTH_RESPONSE
         && M.DecodeMessage(M.TAuthResponse, g.body).Ok?
         && M.DecodeMessage(M.TAuthResponse, g.body).value.0.status == ev.status
  {
    hide M.MessageBytes, M.DecodeMessage;
    ResponseReadBack(verdict);
    ResponseReadBack(BadRequest());
  }

  lemma ResponseReadBack(resp: M.Message)
    requires IsResponse(resp)
    ensures M.DecodeMessage(M.TAuthResponse, M.MessageBytes(resp)).Ok?
    ensures M.DecodeMessage(M.TAuthResponse, M.MessageBytes(resp)).value.0.status == resp.status
  {
    hide M.MessageBytes, M.DecodeMessage;
    M.MessageDecodes(resp, []);
    assert M.MessageBytes(resp) + [] == M.MessageBytes(resp);
  }
}
