/**
 * One end of a WebSocket tunnel: the connection loop with its tables, the writer's queue, and the per-stream tasks
 * (pump, forwarder, stream writer) that the loop spawns.
 */
module Connection {
  import opened Bytes
  import opened Varint
  import opened Frames
  import opened Addresses
  import M = Messages
  import opened StreamPipe

  datatype Cmd =
    | SendFrame(frame: Frame)
    | OpenCmd(id: nat, addr: Address)
    | ReplyOpen(id: nat, ack: M.Message)
    | CloseCmd

  /** The sending tasks of a stream: the pump, its queue, and the frame its forwarder holds. */
  datatype Source = Source(tx: Tx, q: seq<Frame>, fwd: Option<Frame>)

  /** What the caller of open_stream is told when its stream is acknowledged. */
  datatype OpenAnswer = Granted | Denied(text: seq<byte>) | Unreadable(error: Error)

  /** What handle_frame hands to the application or answers about authentication, in order. */
  datatype Event =
    | Answered(id: nat, status: byte)
    | Opened(id: nat, addr: Address)
    | Told(id: nat, answer: OpenAnswer)
    | DatagramArrived(id: nat, datagram: M.Datagram)

  datatype Endpoint = Endpoint(
    cmd: seq<Cmd>, out: seq<Frame>, wire: seq<Frame>,
    pending: set<nat>, streams: set<nat>, credits: set<nat>,
    sources: map<nat, Source>, sinks: map<nat, Rx>,
    incoming: set<nat>, sessions: Option<set<nat>>, authenticates: bool,
    log: seq<Event>, alive: bool)

  /** An end that authenticates its peer, with or without per-session enforcement, or one that does not. */
  function NewEndpoint(authenticates: bool, sessions: Option<set<nat>>): Endpoint {
    Endpoint([], [], [], {}, {}, {}, map[], map[], {}, sessions, authenticates, [], true)
  }

  /** The tables agree: a stream is routed exactly when it is credited, and only streams with tasks are. */
  predicate TablesAgree(e: Endpoint) {
    e.streams == e.credits && e.streams <= e.sources.Keys && e.sources.Keys == e.sinks.Keys
  }

  // ----- Frames -----

  function Ascii(s: string): seq<byte> {
    seq(|s|, i requires 0 <= i < |s| => s[i] as int % 256)
  }

  /** An acknowledgement that fits one frame. */
  predicate IsAck(m: M.Message) {
    m.OpenStreamAck? && |m.ackText| <= MAX_BODY_LEN - 6
  }

  /** An authentication response that fits one frame. */
  predicate IsResponse(m: M.Message) {
    m.AuthResponse? && m.serverCcRx < TWO_64 && |m.text| + |m.responsePadding| <= MAX_BODY_LEN - 19
  }

  function DataFrame(id: nat, chunk: seq<byte>): Frame {
    Frame(id, STREAM_DATA, chunk)
  }

  function CloseFrame(id: nat): Frame {
    Frame(id, STREAM_CLOSE, [])
  }

  function CreditFrame(id: nat, amt: nat): Frame
    requires amt < TWO_64
  {
    Frame(id, STREAM_CREDIT, VarintBytes(amt))
  }

  function OpenFrame(id: nat, addr: Address): Frame {
    Frame(id, OPEN_STREAM, AddressBytes(addr))
  }

  function AckFrame(id: nat, ack: M.Message): Frame
    requires IsAck(ack)
  {
    Frame(id, OPEN_STREAM_ACK, M.MessageBytes(ack))
  }

  function ResponseFrame(id: nat, resp: M.Message): Frame
    requires IsResponse(resp)
  {
    Frame(id, AUTH_RESPONSE, M.MessageBytes(resp))
  }

  function Rejection(): (m: M.Message)
    ensures IsAck(m)
  {
    M.OpenStreamAck(M.STATUS_ERR, M.ERR_PROTOCOL, Ascii("session not authenticated"))
  }

  function BadRequest(): (m: M.Message)
    ensures IsResponse(m)
  {
    M.AuthResponse(M.STATUS_ERR, M.ERR_BAD_CREDENTIALS, Ascii("bad request"), 0, 0, [])
  }

  // ----- The connection loop -----

  /** Registers a stream and starts its pump and writer. */
  function Spawn(e: Endpoint, id: nat): Endpoint {
    e.(credits := e.credits + {id}, sources := e.sources[id := Source(FRESH_TX, [], None)],
       sinks := e.sinks[id := FRESH_RX], streams := e.streams + {id})
  }

  predicate Gated(e: Endpoint, id: nat) {
    id != 0 && e.sessions.Some? && id !in e.sessions.value
  }

  function OnAuthRequest(e: Endpoint, f: Frame, verdict: M.Message): Endpoint
    requires IsResponse(verdict)
  {
    if !e.authenticates then e
    else
      var ok := M.DecodeMessage(M.TAuthRequest, f.body).Ok?;
      var resp := if ok then verdict else BadRequest();
      var registered :=
        if ok && f.streamId != 0 && e.sessions.Some? && verdict.status == M.STATUS_OK
        then Some(e.sessions.value + {f.streamId}) else e.sessions;
      e.(sessions := registered, out := e.out + [ResponseFrame(f.streamId, resp)],
         log := e.log + [Answered(f.streamId, resp.status)])
  }

  function OnOpenStream(e: Endpoint, f: Frame): Endpoint {
    if Gated(e, f.streamId) then e.(out := e.out + [AckFrame(f.streamId, Rejection())])
    else match AddressAt(f.body, 0)
      case Ok(v) => e.(log := e.log + [Opened(f.streamId, v.0)], incoming := e.incoming + {f.streamId})
      case Err(_) => e
  }

  function OnOpenStreamAck(e: Endpoint, f: Frame): Endpoint {
    if f.streamId !in e.pending then e
    else
      var e1 := e.(pending := e.pending - {f.streamId}, log := e.log + [Told(f.streamId, AnswerIn(f.body))]);
      if AcceptsOpen(f) then Spawn(e1, f.streamId) else e1
  }

  function AnswerIn(body: seq<byte>): OpenAnswer {
    match M.DecodeMessage(M.TOpenStreamAck, body)
    case Ok(v) => if v.0.ackStatus == M.STATUS_OK then Granted else Denied(v.0.ackText)
    case Err(e) => Unreadable(e)
  }

  predicate AcceptsOpen(f: Frame) {
    var r := M.DecodeMessage(M.TOpenStreamAck, f.body);
    r.Ok? && r.value.0.ackStatus == M.STATUS_OK
  }

  function OnData(e: Endpoint, f: Frame): Endpoint {
    if f.streamId in e.streams && f.streamId in e.sinks then
      var r := e.sinks[f.streamId];
      e.(sinks := e.sinks[f.streamId := r.(queue := r.queue + [f.body])])
    else e
  }

  /** The amount a credit frame grants, if the loop takes it at all. */
  function CreditAmount(f: Frame): Option<nat> {
    if f.streamId == 0 then None
    else match DecodeVarint(f.body)
      case Ok(v) => Some(v.0)
      case Err(_) => None
  }

  function OnCredit(e: Endpoint, f: Frame): Endpoint {
    if CreditAmount(f).Some? && f.streamId in e.sources then
      var s := e.sources[f.streamId];
      var tx := ReceiveCredit(s.tx, f.streamId in e.credits, CreditAmount(f).value);
      e.(sources := e.sources[f.streamId := s.(tx := tx)])
    else e
  }

  function OnClose(e: Endpoint, f: Frame): Endpoint {
    e.(credits := e.credits - {f.streamId}, streams := e.streams - {f.streamId})
  }

  function OnDatagram(e: Endpoint, f: Frame): Endpoint {
    if Gated(e, f.streamId) then e
    else match M.DecodeDatagram(f.body)
      case Ok(v) => e.(log := e.log + [DatagramArrived(f.streamId, v.0)])
      case Err(_) => e
  }

  /** handle_frame: verdict is the validator's answer, used only for an authentication request. */
  function Dispatch(e: Endpoint, f: Frame, verdict: M.Message): Endpoint
    requires IsResponse(verdict)
  {
    if f.frameType == AUTH_REQUEST then OnAuthRequest(e, f, verdict)
    else if f.frameType == OPEN_STREAM then OnOpenStream(e, f)
    else if f.frameType == OPEN_STREAM_ACK then OnOpenStreamAck(e, f)
    else if f.frameType == STREAM_DATA then OnData(e, f)
    else if f.frameType == STREAM_CREDIT then OnCredit(e, f)
    else if f.frameType == STREAM_CLOSE then OnClose(e, f)
    else if f.frameType == DATAGRAM then OnDatagram(e, f)
    else if f.frameType == PING then e.(out := e.out + [Frame(0, PONG, f.body)])
    else e
  }

  /** The loop takes one command. */
  function HandleCommand(e: Endpoint, c: Cmd): Endpoint
    requires c.ReplyOpen? ==> IsAck(c.ack)
  {
    match c
    case SendFrame(f) => e.(out := e.out + [f])
    case OpenCmd(id, addr) => e.(out := e.out + [OpenFrame(id, addr)], pending := e.pending + {id})
    case ReplyOpen(id, ack) =>
      var e1 := e.(out := e.out + [AckFrame(id, ack)]);
      if ack.ackStatus == M.STATUS_OK then Spawn(e1, id) else e1
    case CloseCmd => Stopped(e)
  }

  /** The loop ends: its tables are dropped, so queues close and no more credit is applied. */
  function Stopped(e: Endpoint): Endpoint {
    e.(alive := false, streams := {}, credits := {})
  }

  // ----- Steps of one end that do not consume a frame from the peer -----

  datatype Action =
    | CallOpen(id: nat, addr: Address)    // application asks for a stream
    | Answer(id: nat, ack: M.Message)     // application answers an incoming open
    | Control(frame: Frame)               // application sends a frame of no stream
    | TakeCommand                         // loop takes the next command
    | Tick                                // loop's periodic ping
    | Write                               // writer moves a frame to the wire
    | Pump(id: nat, tl: TxStep)           // pump step (or write of the application feeding it)
    | Forward(id: nat)                    // forwarder takes a frame from the pump's queue
    | Submit(id: nat)                     // forwarder's frame enters the command queue
    | Sink(id: nat, rl: RxStep)           // stream writer step or application read
    | Stop                                // loop ends for any reason

  predicate NotOfStream(f: Frame) {
    || f.frameType in {DATAGRAM, PING, PONG, AUTH_REQUEST, AUTH_RESPONSE}
    || (f.frameType == STREAM_CLOSE && f.streamId == 0)
  }

  /** The closing frame waits for the forwarder to drain the pump's queue. */
  predicate PumpEnabled(e: Endpoint, id: nat, tl: TxStep) {
    id in e.sources && TxEnabled(e.sources[id].tx, tl)
    && (tl.SendFin? ==> e.sources[id].q == [] && e.sources[id].fwd.None?)
  }

  predicate ForwardEnabled(e: Endpoint, id: nat) {
    id in e.sources && e.sources[id].q != [] && e.sources[id].fwd.None?
  }

  predicate SubmitEnabled(e: Endpoint, id: nat) {
    id in e.sources && e.sources[id].fwd.Some?
  }

  /** The credit a step returns, if any, is a 64-bit integer. */
  predicate SinkEnabled(e: Endpoint, id: nat, rl: RxStep) {
    id in e.sinks && RxEnabled(e.sinks[id], id in e.streams, rl)
    && var credit := RxOutput(e.sinks[id], id in e.streams, rl);
       forall i | 0 <= i < |credit| :: credit[i] < TWO_64
  }

  predicate CommandEnabled(e: Endpoint) {
    e.alive && e.cmd != [] && (e.cmd[0].ReplyOpen? ==> IsAck(e.cmd[0].ack))
  }

  predicate ActionEnabled(e: Endpoint, a: Action) {
    match a
    case CallOpen(_, _) => true
    case Answer(id, ack) => id in e.incoming && IsAck(ack)
    case Control(f) => NotOfStream(f)
    case TakeCommand => CommandEnabled(e)
    case Tick => e.alive
    case Write => e.out != []
    case Pump(id, tl) => PumpEnabled(e, id, tl)
    case Forward(id) => ForwardEnabled(e, id)
    case Submit(id) => SubmitEnabled(e, id)
    case Sink(id, rl) => SinkEnabled(e, id, rl)
    case Stop => true
  }

  function PumpSource(s: Source, id: nat, tl: TxStep): Source
    requires TxEnabled(s.tx, tl)
  {
    s.(tx := TxApply(s.tx, tl), q := if tl.Enqueue? then s.q + [DataFrame(id, s.tx.pump.chunk)] else s.q)
  }

  function PumpApply(e: Endpoint, id: nat, tl: TxStep): Endpoint
    requires PumpEnabled(e, id, tl)
  {
    e.(sources := e.sources[id := PumpSource(e.sources[id], id, tl)],
       cmd := if tl.SendFin? then e.cmd + [SendFrame(CloseFrame(id))] else e.cmd)
  }

  function ForwardApply(e: Endpoint, id: nat): Endpoint
    requires ForwardEnabled(e, id)
  {
    var s := e.sources[id];
    e.(sources := e.sources[id := s.(q := s.q[1..], fwd := Some(s.q[0]))])
  }

  function SubmitApply(e: Endpoint, id: nat): Endpoint
    requires SubmitEnabled(e, id)
  {
    var s := e.sources[id];
    e.(sources := e.sources[id := s.(fwd := None)], cmd := e.cmd + [SendFrame(s.fwd.value)])
  }

  function SinkApply(e: Endpoint, id: nat, rl: RxStep): Endpoint
    requires SinkEnabled(e, id, rl)
  {
    var open := id in e.streams;
    var credit := RxOutput(e.sinks[id], open, rl);
    e.(sinks := e.sinks[id := RxApply(e.sinks[id], open, rl)],
       cmd := if credit == [] then e.cmd else e.cmd + [SendFrame(CreditFrame(id, credit[0]))])
  }

  function CommandApply(e: Endpoint): Endpoint
    requires CommandEnabled(e)
  {
    HandleCommand(e.(cmd := e.cmd[1..]), e.cmd[0])
  }

  function ActionApply(e: Endpoint, a: Action): Endpoint
    requires ActionEnabled(e, a)
  {
    match a
    case CallOpen(id, addr) => e.(cmd := e.cmd + [OpenCmd(id, addr)])
    case Answer(id, ack) => e.(cmd := e.cmd + [ReplyOpen(id, ack)], incoming := e.incoming - {id})
    case Control(f) => e.(cmd := e.cmd + [SendFrame(f)])
    case TakeCommand => CommandApply(e)
    case Tick => e.(out := e.out + [Frame(0, PING, [])])
    case Write => e.(out := e.out[1..], wire := e.wire + [e.out[0]])
    case Pump(id, tl) => PumpApply(e, id, tl)
    case Forward(id) => ForwardApply(e, id)
    case Submit(id) => SubmitApply(e, id)
    case Sink(id, rl) => SinkApply(e, id, rl)
    case Stop => Stopped(e)
  }
}
