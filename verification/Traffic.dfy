/**
 * What the applications at the two ends of a tunnel are handed and told, against what the other end's application
 * asked, sent and answered.
 */
module Traffic {
  import opened Bytes
  import opened Frames
  import opened Addresses
  import M = Messages
  import SP = StreamPipe
  import opened Connection
  import opened StreamView
  import opened Routing
  import opened Tunnel
  import H = Handling
  import SG = SessionGate

  // ----- Frames on their way out -----

  /** The frame a queued command will put into the writer's queue. */
  function AsFrame(c: Cmd): seq<Frame> {
    match c
    case SendFrame(f) => [f]
    case OpenCmd(id, addr) => [OpenFrame(id, addr)]
    case ReplyOpen(id, ack) => if IsAck(ack) then [AckFrame(id, ack)] else []
    case CloseCmd => []
  }

  function AsFrames(cs: seq<Cmd>): seq<Frame> {
    if cs == [] then [] else AsFrame(cs[0]) + AsFrames(cs[1..])
  }

  /** On the wire, in the writer's queue and in the command queue, oldest first. */
  function Leaving(e: Endpoint): seq<Frame> {
    e.wire + (e.out + AsFrames(e.cmd))
  }

  lemma {:induction false} AsFramesAppend(cs: seq<Cmd>, c: Cmd)
    ensures AsFrames(cs + [c]) == AsFrames(cs) + AsFrame(c)
  {
    hide AsFrame;
    if cs == [] {
      assert [c][1..] == [] && AsFrame(c) + [] == AsFrame(c);
    } else {
      assert (cs + [c])[1..] == cs[1..] + [c];
      AsFramesAppend(cs[1..], c);
      Associate(AsFrame(cs[0]), AsFrames(cs[1..]), AsFrame(c));
    }
  }

  // ----- Openings and datagrams -----

  /** What a frame brings to the application of the end that handles it ungated: a readable opening or datagram. */
  function OfferOf(f: Frame): seq<Event> {
    if f.frameType == OPEN_STREAM then
      match AddressAt(f.body, 0)
      case Ok(v) => [Opened(f.streamId, v.0)]
      case Err(_) => []
    else if f.frameType == DATAGRAM then
      match M.DecodeDatagram(f.body)
      case Ok(v) => [DatagramArrived(f.streamId, v.0)]
      case Err(_) => []
    else []
  }

  function Offers(fs: seq<Frame>): seq<Event> {
    if fs == [] then [] else OfferOf(fs[0]) + Offers(fs[1..])
  }

  lemma {:induction false} OffersAppend(a: seq<Frame>, b: seq<Frame>)
    ensures Offers(a + b) == Offers(a) + Offers(b)
  {
    hide OfferOf;
    if a == [] {
      assert a + b == b;
    } else {
      OffersAppend(a[1..], b);
      assert (a + b)[1..] == a[1..] + b;
      Associate(OfferOf(a[0]), Offers(a[1..]), Offers(b));
    }
  }

  lemma OneOffer(f: Frame)
    ensures Offers([f]) == OfferOf(f)
  {
    assert [f][1..] == [] && OfferOf(f) + [] == OfferOf(f);
    hide OfferOf;
  }

  /** What an application's own action is to bring to the other one. */
  function OfferedBy(a: Action): seq<Event> {
    match a
    case CallOpen(id, addr) => [Opened(id, addr)]
    case Control(f) => OfferOf(f)
    case _ => []
  }

  /** Everything one side's application asks and sends in a run. */
  ghost function Asked(s: State, ls: seq<Step>, side: Side): seq<Event>
    requires Runs(s, ls)
    decreases |ls|
  {
    if ls == [] then []
    else
      (if ls[0].Act? && ls[0].side == side then OfferedBy(ls[0].action) else []) + Asked(Apply(s, ls[0]), ls[1..], side)
  }

  /** The openings and datagrams an application has been handed. */
  function Handed(log: seq<Event>): seq<Event> {
    if log == [] then []
    else
      var last := log[|log| - 1];
      Handed(log[..|log| - 1]) + if last.Opened? || last.DatagramArrived? then [last] else []
  }

  lemma HandedAppend(log: seq<Event>, ev: Event)
    ensures Handed(log + [ev]) == Handed(log) + if ev.Opened? || ev.DatagramArrived? then [ev] else []
  {
    assert (log + [ev])[..|log|] == log;
  }

  // ----- One step -----

  /** A command added at the back brings its frame's offer, and the others are behind it in order. */
  lemma CommandOffers(e: Endpoint, c: Cmd)
    ensures Offers(Leaving(e.(cmd := e.cmd + [c]))) == Offers(Leaving(e)) + Offers(AsFrame(c))
  {
    AsFramesAppend(e.cmd, c);
    assert Leaving(e.(cmd := e.cmd + [c])) == Leaving(e) + AsFrame(c);
    hide Leaving, AsFrame;
    OffersAppend(Leaving(e), AsFrame(c));
  }

  /** A frame without an offer that enters in the middle is not noticed. */
  lemma InsertOffers(e: Endpoint, f: Frame)
    requires OfferOf(f) == []
    ensures Offers(Leaving(e.(out := e.out + [f]))) == Offers(Leaving(e))
  {
    hide OfferOf, AsFrames;
    var pre, q := e.wire + e.out, AsFrames(e.cmd);
    assert Leaving(e.(out := e.out + [f])) == pre + ([f] + q);
    assert Leaving(e) == pre + q;
    OneOffer(f);
    OffersAppend(pre, [f] + q);
    OffersAppend([f], q);
    OffersAppend(pre, q);
    assert [] + Offers(q) == Offers(q);
  }

  /** Taking a command moves its frame from the queue to the writer without changing the order. */
  lemma TakenOffers(e: Endpoint)
    requires CommandEnabled(e)
    ensures Leaving(CommandApply(e)) == Leaving(e)
  {
    var c := e.cmd[0];
    hide OpenFrame, AckFrame, IsAck;
    assert CommandApply(e).out == e.out + AsFrame(c);
    assert CommandApply(e).wire == e.wire && CommandApply(e).cmd == e.cmd[1..];
    hide AsFrame;
    Associate(e.out, AsFrame(c), AsFrames(e.cmd[1..]));
  }

  lemma QuietCommand(e: Endpoint, f: Frame)
    requires OfferOf(f) == []
    ensures Offers(Leaving(e.(cmd := e.cmd + [SendFrame(f)]))) == Offers(Leaving(e))
  {
    CommandOffers(e, SendFrame(f));
    OneOffer(f);
    hide Leaving, OfferOf;
    assert Offers(Leaving(e)) + [] == Offers(Leaving(e));
  }

  lemma OpenOffer(id: nat, addr: Address)
    ensures OfferOf(OpenFrame(id, addr)) == [Opened(id, addr)]
  {
    H.AddressRead(addr, []);
    assert AddressBytes(addr) + [] == AddressBytes(addr);
    hide AddressBytes, AddressAt;
  }

  /** Only the queues matter. */
  lemma SameLeaving(e: Endpoint, e': Endpoint)
    requires e'.cmd == e.cmd && e'.out == e.out && e'.wire == e.wire
    ensures Leaving(e') == Leaving(e)
  {
  }

  /** An end's own step adds what its application asks, at the back, and loses nothing. */
  lemma ActionOffers(e: Endpoint, a: Action)
    requires Consistent(e) && ActionEnabled(e, a)
    ensures Offers(Leaving(ActionApply(e, a))) == Offers(Leaving(e)) + OfferedBy(a)
  {
    var d := Offers(Leaving(e));
    hide Offers, Leaving, OfferOf, CommandApply, PumpApply, ForwardApply, SubmitApply, SinkApply;
    hide Consistent, NotOfStream;
    assert d + [] == d;
    match a {
      case CallOpen(id, addr) =>
        CommandOffers(e, OpenCmd(id, addr));
        OneOffer(OpenFrame(id, addr));
        OpenOffer(id, addr);
      case Answer(id, ack) =>
        AnswerOffers(e, id, ack);
      case Control(f) =>
        CommandOffers(e, SendFrame(f));
        OneOffer(f);
      case TakeCommand => TakenOffers(e);
      case Tick => TickOffers(e);
      case Write => WriteLeaves(e);
      case Pump(_, _) => TaskOffers(e, a);
      case Forward(_) => TaskOffers(e, a);
      case Submit(_) => TaskOffers(e, a);
      case Sink(_, _) => TaskOffers(e, a);
      case Stop => SameLeaving(e, ActionApply(e, a));
    }
  }

  lemma AnswerOffers(e: Endpoint, id: nat, ack: M.Message)
    requires ActionEnabled(e, Answer(id, ack))
    ensures Offers(Leaving(ActionApply(e, Answer(id, ack)))) == Offers(Leaving(e))
  {
    hide AckFrame, IsAck;
    CommandOffers(e, ReplyOpen(id, ack));
    SameLeaving(e.(cmd := e.cmd + [ReplyOpen(id, ack)]), ActionApply(e, Answer(id, ack)));
    AckOffersNothing(id, ack);
    hide Leaving;
    assert Offers(Leaving(e)) + [] == Offers(Leaving(e));
  }

  lemma AckOffersNothing(id: nat, ack: M.Message)
    ensures IsAck(ack) ==> OfferOf(AckFrame(id, ack)) == []
    ensures Offers(AsFrame(ReplyOpen(id, ack))) == []
  {
    if IsAck(ack) {
      OneOffer(AckFrame(id, ack));
    }
    hide M.MessageBytes;
  }

  lemma TickOffers(e: Endpoint)
    ensures Offers(Leaving(ActionApply(e, Tick))) == Offers(Leaving(e))
    requires ActionEnabled(e, Tick)
  {
    InsertOffers(e, Frame(0, PING, []));
  }

  lemma WriteLeaves(e: Endpoint)
    requires ActionEnabled(e, Write)
    ensures Leaving(ActionApply(e, Write)) == Leaving(e)
  {
  }

  /** The tasks of a stream put only its own data, credit and end mark into the queue. */
  lemma TaskOffers(e: Endpoint, a: Action)
    requires Consistent(e) && ActionEnabled(e, a) && (a.Pump? || a.Forward? || a.Submit? || a.Sink?)
    ensures Offers(Leaving(ActionApply(e, a))) == Offers(Leaving(e))
  {
    hide Offers, Leaving, SP.TxApply, SP.TxEnabled, SP.RxApply, SP.RxOutput, SP.RxEnabled;
    var e' := ActionApply(e, a);
    match a {
      case Pump(id, tl) =>
        QuietCommand(e, CloseFrame(id));
        SameLeaving(if tl.SendFin? then e.(cmd := e.cmd + [SendFrame(CloseFrame(id))]) else e, e');
      case Forward(id) => SameLeaving(e, e');
      case Submit(id) =>
        var f := e.sources[id].fwd.value;
        assert OwnFrames(id, e.sources[id]);
        QuietCommand(e, f);
        SameLeaving(e.(cmd := e.cmd + [SendFrame(f)]), e');
      case Sink(id, rl) =>
        var credit := SP.RxOutput(e.sinks[id], id in e.streams, rl);
        if credit == [] {
          SameLeaving(e, e');
        } else {
          QuietCommand(e, CreditFrame(id, credit[0]));
          SameLeaving(e.(cmd := e.cmd + [SendFrame(CreditFrame(id, credit[0]))]), e');
        }
    }
  }

  /** The end is as it was but for its tables, its log and at most one frame of its own, which offers nothing. */
  ghost predicate AddsQuietly(e: Endpoint, e': Endpoint) {
    && e'.cmd == e.cmd && e'.wire == e.wire
    && (e'.out == e.out || (|e'.out| == |e.out| + 1 && e.out <= e'.out && OfferOf(e'.out[|e.out|]) == []))
  }

  lemma RequestsAddQuietly(e: Endpoint, f: Frame, verdict: M.Message)
    requires IsResponse(verdict)
    ensures AddsQuietly(e, OnAuthRequest(e, f, verdict)) && AddsQuietly(e, OnOpenStream(e, f))
  {
    hide M.MessageBytes, M.DecodeMessage, AddressAt, M.DecodeDatagram, BadRequest, Rejection;
  }

  lemma OthersAddNothing(e: Endpoint, f: Frame)
    ensures AddsQuietly(e, OnOpenStreamAck(e, f)) && AddsQuietly(e, OnDatagram(e, f))
    ensures AddsQuietly(e, OnData(e, f)) && AddsQuietly(e, OnCredit(e, f)) && AddsQuietly(e, OnClose(e, f))
  {
    hide AcceptsOpen, AnswerIn, CreditAmount, M.DecodeDatagram, SP.ReceiveCredit;
  }

  /** Handling a frame adds at most one frame of its own, and that offers nothing. */
  lemma DispatchOffers(e: Endpoint, f: Frame, verdict: M.Message)
    requires IsResponse(verdict)
    ensures Offers(Leaving(Dispatch(e, f, verdict))) == Offers(Leaving(e))
  {
    hide Offers, Leaving, OnAuthRequest, OnOpenStream, OnOpenStreamAck, OnDatagram, OnData, OnCredit, OnClose;
    RequestsAddQuietly(e, f, verdict);
    OthersAddNothing(e, f);
    var e' := Dispatch(e, f, verdict);
    assert AddsQuietly(e, e');
    if e'.out == e.out {
      SameLeaving(e, e');
    } else {
      var g := e'.out[|e.out|];
      assert e'.out == e.out + [g];
      InsertOffers(e, g);
      SameLeaving(e.(out := e.out + [g]), e');
    }
  }

  /** The application is handed what the frame offers, or nothing; without session tracking, what it offers. */
  ghost predicate Hands(e: Endpoint, e': Endpoint, offer: seq<Event>) {
    && (e.sessions.None? ==> e'.sessions.None?)
    && (Handed(e'.log) == Handed(e.log) + offer || (e.sessions.Some? && Handed(e'.log) == Handed(e.log)))
  }

  lemma OneEvent(e: Endpoint, e': Endpoint, ev: Event)
    requires e'.log == e.log + [ev]
    ensures Handed(e'.log) == Handed(e.log) + if ev.Opened? || ev.DatagramArrived? then [ev] else []
  {
    HandedAppend(e.log, ev);
  }

  lemma NoEvent(e: Endpoint, e': Endpoint)
    requires e'.log == e.log
    ensures Handed(e'.log) == Handed(e.log) + []
  {
    hide Handed;
  }

  lemma OpeningHands(e: Endpoint, f: Frame)
    requires f.frameType == OPEN_STREAM
    ensures Hands(e, OnOpenStream(e, f), OfferOf(f))
  {
    hide Handed, AddressAt, AckFrame, Rejection;
    var e' := OnOpenStream(e, f);
    if e'.log == e.log {
      NoEvent(e, e');
    } else {
      OneEvent(e, e', e'.log[|e.log|]);
    }
  }

  lemma DatagramHands(e: Endpoint, f: Frame)
    requires f.frameType == DATAGRAM
    ensures Hands(e, OnDatagram(e, f), OfferOf(f))
  {
    hide Handed, M.DecodeDatagram;
    var e' := OnDatagram(e, f);
    if e'.log == e.log {
      NoEvent(e, e');
    } else {
      OneEvent(e, e', e'.log[|e.log|]);
    }
  }

  lemma RequestHands(e: Endpoint, f: Frame, verdict: M.Message)
    requires IsResponse(verdict)
    ensures Hands(e, OnAuthRequest(e, f, verdict), [])
  {
    hide Handed, M.DecodeMessage, ResponseFrame;
    var e' := OnAuthRequest(e, f, verdict);
    if e'.log == e.log {
      NoEvent(e, e');
    } else {
      OneEvent(e, e', e'.log[|e.log|]);
    }
  }

  lemma AnswerHands(e: Endpoint, f: Frame)
    ensures Hands(e, OnOpenStreamAck(e, f), [])
  {
    hide Handed, AcceptsOpen, AnswerIn;
    var e' := OnOpenStreamAck(e, f);
    if e'.log == e.log {
      NoEvent(e, e');
    } else {
      OneEvent(e, e', e'.log[|e.log|]);
    }
  }

  lemma OtherHands(e: Endpoint, f: Frame, verdict: M.Message)
    requires IsResponse(verdict) && f.frameType !in {AUTH_REQUEST, OPEN_STREAM, OPEN_STREAM_ACK, DATAGRAM}
    ensures Hands(e, Dispatch(e, f, verdict), [])
  {
    hide CreditAmount, SP.ReceiveCredit, Handed;
    NoEvent(e, Dispatch(e, f, verdict));
  }

  lemma DispatchHands(e: Endpoint, f: Frame, verdict: M.Message)
    requires IsResponse(verdict)
    ensures Hands(e, Dispatch(e, f, verdict), OfferOf(f))
  {
    hide Hands, OnAuthRequest, OnOpenStream, OnOpenStreamAck, OnDatagram, OnData, OnCredit, OnClose;
    if f.frameType == AUTH_REQUEST {
      RequestHands(e, f, verdict);
    } else if f.frameType == OPEN_STREAM {
      OpeningHands(e, f);
    } else if f.frameType == OPEN_STREAM_ACK {
      AnswerHands(e, f);
    } else if f.frameType == DATAGRAM {
      DatagramHands(e, f);
    } else {
      OtherHands(e, f, verdict);
    }
  }

  // ----- Runs -----

  lemma PopOffers(e: Endpoint)
    requires e.wire != []
    ensures Offers(Leaving(e)) == OfferOf(e.wire[0]) + Offers(Leaving(Popped(e)))
  {
    assert Leaving(e) == [e.wire[0]] + Leaving(Popped(e));
    hide Leaving, OfferOf;
    OffersAppend([e.wire[0]], Leaving(Popped(e)));
    OneOffer(e.wire[0]);
  }

  /** What one step adds to what a side's application asks. */
  function StepAsks(l: Step, side: Side): seq<Event> {
    if l.Act? && l.side == side then OfferedBy(l.action) else []
  }

  /** The openings and datagrams one application has been handed, and those on their way to it. */
  function HandedTo(s: State, side: Side): seq<Event> {
    Handed(At(s, side).log)
  }

  function Coming(s: State, side: Side): seq<Event> {
    Offers(Leaving(At(s, Peer(side))))
  }

  /** A step passes offers on in order; an end that tracks sessions may drop one, and none is ever invented. */
  ghost predicate Flows(s: State, s': State, asks: seq<Event>, side: Side) {
    && (At(s, side).sessions.None? ==>
          && At(s', side).sessions.None?
          && HandedTo(s', side) + Coming(s', side) == HandedTo(s, side) + Coming(s, side) + asks)
    && (forall ev | ev in HandedTo(s', side) + Coming(s', side) :: ev in HandedTo(s, side) + Coming(s, side) + asks)
  }

  lemma ActionLog(e: Endpoint, a: Action)
    requires ActionEnabled(e, a)
    ensures ActionApply(e, a).log == e.log && ActionApply(e, a).sessions == e.sessions
  {
    SG.LocalKeepsLog(e, a);
  }

  lemma ActFlows(s: State, at: Side, a: Action, side: Side)
    requires Inv(s) && Enabled(s, Act(at, a))
    ensures Flows(s, Apply(s, Act(at, a)), StepAsks(Act(at, a), Peer(side)), side)
  {
    hide Handed, Offers, Leaving, ActionApply, ActionEnabled, OfferedBy, SP.Inv;
    ActionLog(At(s, at), a);
    if at == side {
      assert Coming(s, side) + [] == Coming(s, side);
    } else {
      ActionOffers(At(s, at), a);
      Associate(HandedTo(s, side), Coming(s, side), OfferedBy(a));
    }
  }

  lemma DeliverFlows(s: State, at: Side, verdict: M.Message, side: Side)
    requires Enabled(s, Deliver(at, verdict))
    ensures Flows(s, Apply(s, Deliver(at, verdict)), [], side)
  {
    hide Handed, Offers, Leaving, Dispatch, OfferOf;
    var e, f := At(s, Peer(at)), At(s, Peer(at)).wire[0];
    var s' := Apply(s, Deliver(at, verdict));
    if at == side {
      DispatchHands(At(s, side), f, verdict);
      PopOffers(e);
      Associate(HandedTo(s, side), OfferOf(f), Coming(s', side));
    } else {
      DispatchOffers(At(s, at), f, verdict);
    }
    assert HandedTo(s, side) + Coming(s, side) + [] == HandedTo(s, side) + Coming(s, side);
  }

  lemma StepFlows(s: State, l: Step, side: Side)
    requires Inv(s) && Enabled(s, l)
    ensures Flows(s, Apply(s, l), StepAsks(l, Peer(side)), side)
  {
    hide Flows, Inv, Apply, Enabled, StepAsks;
    match l {
      case Act(at, a) => ActFlows(s, at, a, side);
      case Deliver(at, verdict) =>
        DeliverFlows(s, at, verdict, side);
        NothingAsked(l, Peer(side));
    }
  }

  lemma NothingAsked(l: Step, side: Side)
    requires l.Deliver?
    ensures StepAsks(l, side) == []
  {
  }

  lemma {:induction false} RunFlows(s: State, ls: seq<Step>, side: Side)
    requires Inv(s) && Runs(s, ls)
    ensures Flows(s, End(s, ls), Asked(s, ls, Peer(side)), side)
    decreases |ls|
  {
    hide Inv, Apply, Enabled, HandedTo, Coming, StepAsks;
    if ls == [] {
      assert HandedTo(s, side) + Coming(s, side) + [] == HandedTo(s, side) + Coming(s, side);
    } else {
      StepFlows(s, ls[0], side);
      StepKeepsInv(s, ls[0]);
      RunFlows(Apply(s, ls[0]), ls[1..], side);
      AskedFirst(s, ls, Peer(side));
      Associate(HandedTo(s, side) + Coming(s, side), StepAsks(ls[0], Peer(side)),
                Asked(Apply(s, ls[0]), ls[1..], Peer(side)));
    }
  }

  lemma AskedFirst(s: State, ls: seq<Step>, side: Side)
    requires Runs(s, ls) && ls != []
    ensures Asked(s, ls, side) == StepAsks(ls[0], side) + Asked(Apply(s, ls[0]), ls[1..], side)
  {
    hide Apply, Enabled, OfferedBy;
  }

  lemma StartsEmpty(sessions: Option<set<nat>>, side: Side)
    ensures HandedTo(Init(sessions), side) == [] && Coming(Init(sessions), side) == []
  {
    assert Leaving(At(Init(sessions), Peer(side))) == [];
  }

  /**
   * Without session tracking, in every run of a tunnel an application has been handed exactly the streams and datagrams
   * that its peer's application asked for and sent, unchanged and in order, but for those still on their way.
   */
  lemma OffersArriveInOrder(sessions: Option<set<nat>>, ls: seq<Step>, side: Side)
    requires Runs(Init(sessions), ls) && (sessions.None? || side.Client?)
    ensures var s := End(Init(sessions), ls);
      HandedTo(s, side) + Coming(s, side) == Asked(Init(sessions), ls, Peer(side))
  {
    hide Runs, End, Asked, Inv, HandedTo, Coming;
    InitInv(sessions);
    RunFlows(Init(sessions), ls, side);
    StartsEmpty(sessions, side);
    assert [] + [] + Asked(Init(sessions), ls, Peer(side)) == Asked(Init(sessions), ls, Peer(side));
  }

  /** What was asked was asked by some step of the run. */
  lemma {:induction false} AskedBy(s: State, ls: seq<Step>, side: Side, ev: Event) returns (a: Action)
    requires Runs(s, ls) && ev in Asked(s, ls, side)
    ensures Act(side, a) in ls && ev in OfferedBy(a) && (a.Control? ==> NotOfStream(a.frame))
    decreases |ls|
  {
    hide Apply, OfferedBy, ActionEnabled;
    AskedFirst(s, ls, side);
    if ev in StepAsks(ls[0], side) {
      a := ls[0].action;
      ControlEnabled(At(s, side), a);
    } else {
      a := AskedBy(Apply(s, ls[0]), ls[1..], side, ev);
    }
  }

  lemma ControlEnabled(e: Endpoint, a: Action)
    ensures ActionEnabled(e, a) && a.Control? ==> NotOfStream(a.frame)
  {
  }

  lemma HandedWasAsked(sessions: Option<set<nat>>, ls: seq<Step>, side: Side, ev: Event)
    requires Runs(Init(sessions), ls) && ev in At(End(Init(sessions), ls), side).log
    requires ev.Opened? || ev.DatagramArrived?
    ensures ev in Asked(Init(sessions), ls, Peer(side))
  {
    hide Runs, End, Asked, Inv, Handed, Coming;
    InitInv(sessions);
    RunFlows(Init(sessions), ls, side);
    StartsEmpty(sessions, side);
    var s, asked := End(Init(sessions), ls), Asked(Init(sessions), ls, Peer(side));
    InHanded(At(s, side).log, ev);
    assert ev in HandedTo(s, side) + Coming(s, side);
    assert [] + [] + asked == asked;
  }

  /** In every run, each stream the server's application is offered was asked for by the client's, with that address. */
  lemma OpeningsFollowCalls(sessions: Option<set<nat>>, ls: seq<Step>, id: nat, addr: Address)
    requires Runs(Init(sessions), ls) && Opened(id, addr) in End(Init(sessions), ls).server.log
    ensures Act(Client, CallOpen(id, addr)) in ls
  {
    hide Runs, End, Asked, NotOfStream, OfferOf;
    HandedWasAsked(sessions, ls, Server, Opened(id, addr));
    var a := AskedBy(Init(sessions), ls, Client, Opened(id, addr));
    if a.Control? {
      NoOpeningControl(a.frame, id, addr);
    }
  }

  lemma NoOpeningControl(f: Frame, id: nat, addr: Address)
    requires NotOfStream(f)
    ensures Opened(id, addr) !in OfferOf(f)
  {
    hide M.DecodeDatagram;
  }

  lemma {:induction false} InHanded(log: seq<Event>, ev: Event)
    requires ev in log && (ev.Opened? || ev.DatagramArrived?)
    ensures ev in Handed(log)
    decreases |log|
  {
    if log[|log| - 1] != ev {
      InHanded(log[..|log| - 1], ev);
    }
  }

  /** In every run, each datagram an application is handed was sent by the other one, in a frame with that content. */
  lemma DatagramsWereSent(
      sessions: Option<set<nat>>, ls: seq<Step>, side: Side, id: nat, datagram: M.Datagram) returns (f: Frame)
    requires Runs(Init(sessions), ls)
    requires DatagramArrived(id, datagram) in At(End(Init(sessions), ls), side).log
    ensures Act(Peer(side), Control(f)) in ls && f.streamId == id && f.frameType == DATAGRAM
    ensures M.DecodeDatagram(f.body).Ok? && M.DecodeDatagram(f.body).value.0 == datagram
  {
    hide Runs, End, Asked, NotOfStream, M.DecodeDatagram, AddressAt;
    HandedWasAsked(sessions, ls, side, DatagramArrived(id, datagram));
    var a := AskedBy(Init(sessions), ls, Peer(side), DatagramArrived(id, datagram));
    f := a.frame;
  }
}
