/** What handling one frame from the peer does to the views of every stream, and what taking it off the wire does. */
module Routing {
  import opened Bytes
  import opened Varint
  import opened Frames
  import opened Addresses
  import M = Messages
  import opened StreamPipe
  import opened Connection
  import opened StreamView
  import opened Lifecycle

  function Popped(e: Endpoint): Endpoint
    requires e.wire != []
  {
    e.(wire := e.wire[1..])
  }

  /** Taking the oldest frame off the wire takes the oldest item, credit or mark off its own stream only. */
  lemma WirePop(e: Endpoint, id: nat)
    requires e.wire != []
    ensures var f, e' := e.wire[0], Popped(e);
      && SndView(e, id) == SndView(e', id).(path := ItemOf(id, f) + SndView(e', id).path)
      && RcvView(e, id) == RcvView(e', id).(credits := CreditOf(id, f) + RcvView(e', id).credits)
      && LinkView(e, id) == LinkView(e', id).(trail := MarkOf(id, f) + LinkView(e', id).trail)
  {
    var f, e' := e.wire[0], Popped(e);
    assert Departed(e) == [f] + Departed(e');
    assert Departed(e)[1..] == Departed(e');
    assert Items(id, Departed(e)) == ItemOf(id, f) + Items(id, Departed(e'));
    assert Credits(id, Departed(e)) == CreditOf(id, f) + Credits(id, Departed(e'));
    assert Trail(id, Departed(e)) == MarkOf(id, f) + Trail(id, Departed(e'));
    hide Items, Credits, Trail, Departed, ItemOf, CreditOf, MarkOf, Undeparted;
    if id in e.sources {
      Associate(ItemOf(id, f), Items(id, Departed(e')), Items(id, Undeparted(e.sources[id])));
    }
  }

  /**
   * Stream frames arrive only for streams that have tasks here; an expected acknowledgement only for one that has
   * none.
   */
  predicate Routable(p: Endpoint, f: Frame) {
    && (!Neutral(f) ==> f.streamId in p.sources)
    && (f.frameType == OPEN_STREAM_ACK && f.streamId in p.pending ==> f.streamId !in p.sources && f.streamId != 0)
  }

  // ----- The views of a stream -----

  /** What frame f does to the sending side of stream id at the end that handles it. */
  function SenderAfter(s: Sender, id: nat, f: Frame): Sender {
    if CreditOf(id, f) != [] then s.(tx := ReceiveCredit(s.tx, s.entry, CreditOf(id, f)[0]))
    else if ItemOf(id, f) == [Fin] then s.(entry := false)
    else s
  }

  function ReceiverAfter(r: Receiver, id: nat, f: Frame): Receiver {
    if ItemOf(id, f) != [] then Receive(r, ItemOf(id, f)[0]) else r
  }

  lemma DataViews(p: Endpoint, f: Frame, id: nat)
    requires f.frameType == STREAM_DATA && id != 0 && (f.streamId != 0 ==> f.streamId in p.sinks)
    requires p.streams <= p.sinks.Keys
    ensures SndView(OnData(p, f), id) == SenderAfter(SndView(p, id), id, f)
    ensures RcvView(OnData(p, f), id) == ReceiverAfter(RcvView(p, id), id, f)
  {
    assert Departed(OnData(p, f)) == Departed(p);
    hide Items, Credits, Departed, Undeparted;
  }

  lemma CloseViews(p: Endpoint, f: Frame, id: nat)
    requires f.frameType == STREAM_CLOSE && id != 0 && TablesAgree(p) && (f.streamId != 0 ==> f.streamId in p.sources)
    ensures SndView(OnClose(p, f), id) == SenderAfter(SndView(p, id), id, f)
    ensures RcvView(OnClose(p, f), id) == ReceiverAfter(RcvView(p, id), id, f)
  {
    assert Departed(OnClose(p, f)) == Departed(p);
    hide Items, Credits, Departed, Undeparted;
  }

  lemma CreditViews(p: Endpoint, f: Frame, id: nat)
    requires f.frameType == STREAM_CREDIT && id != 0 && (f.streamId != 0 ==> f.streamId in p.sources)
    ensures SndView(OnCredit(p, f), id) == SenderAfter(SndView(p, id), id, f)
    ensures RcvView(OnCredit(p, f), id) == ReceiverAfter(RcvView(p, id), id, f)
  {
    assert Departed(OnCredit(p, f)) == Departed(p);
    hide Items, Credits, Departed, DecodeVarint, ReceiveCredit;
    if f.streamId in p.sources {
      assert CreditAmount(f).Some? ==>
        Undeparted(OnCredit(p, f).sources[f.streamId]) == Undeparted(p.sources[f.streamId]);
    }
    hide Undeparted;
  }

  lemma AckViews(p: Endpoint, f: Frame, id: nat)
    requires f.frameType == OPEN_STREAM_ACK && id != 0 && Consistent(p) && p.alive && Routable(p, f)
    ensures SndView(OnOpenStreamAck(p, f), id) == SndView(p, id)
    ensures RcvView(OnOpenStreamAck(p, f), id) == RcvView(p, id)
  {
    if f.streamId in p.pending {
      var p1 := p.(pending := p.pending - {f.streamId}, log := OnOpenStreamAck(p, f).log);
      assert Departed(p1) == Departed(p);
      SndViewIgnores(p, p1, id);
      assert Consistent(p1);
      SpawnInvisible(p1, f.streamId, id);
      hide SndView, RcvView;
    }
  }

  /** Frames that concern no stream's traffic at this end: requests, answers, datagrams and pings. */
  lemma ControlViews(p: Endpoint, f: Frame, verdict: M.Message, id: nat)
    requires f.frameType in {AUTH_REQUEST, OPEN_STREAM, DATAGRAM, PING} && id != 0 && IsResponse(verdict)
    ensures SndView(Dispatch(p, f, verdict), id) == SndView(p, id)
    ensures RcvView(Dispatch(p, f, verdict), id) == RcvView(p, id)
  {
    var p' := Dispatch(p, f, verdict);
    if p'.out != p.out {
      var g := p'.out[|p.out|];
      assert p'.out == p.out + [g];
      assert Neutral(g);
      NeutralPush(p, g, id);
      SndViewIgnores(p.(out := p'.out), p', id);
    } else {
      SndViewIgnores(p, p', id);
    }
    hide SndView, RcvView;
  }

  lemma DispatchViews(p: Endpoint, f: Frame, verdict: M.Message, id: nat)
    requires Consistent(p) && p.alive && id != 0 && IsResponse(verdict) && Routable(p, f)
    ensures SndView(Dispatch(p, f, verdict), id) == SenderAfter(SndView(p, id), id, f)
    ensures RcvView(Dispatch(p, f, verdict), id) == ReceiverAfter(RcvView(p, id), id, f)
  {
    hide SndView, RcvView;
    if f.frameType == STREAM_DATA {
      DataViews(p, f, id);
    } else if f.frameType == STREAM_CLOSE {
      CloseViews(p, f, id);
    } else if f.frameType == STREAM_CREDIT {
      CreditViews(p, f, id);
    } else if f.frameType == OPEN_STREAM_ACK {
      AckViews(p, f, id);
    } else if f.frameType in {AUTH_REQUEST, OPEN_STREAM, DATAGRAM, PING} {
      ControlViews(p, f, verdict, id);
    }
  }

  lemma SpawnConsistent(p: Endpoint, n: nat)
    requires Consistent(p) && p.alive && n != 0
    ensures Consistent(Spawn(p, n))
  {
  }

  lemma DispatchConsistent(p: Endpoint, f: Frame, verdict: M.Message)
    requires Consistent(p) && p.alive && IsResponse(verdict) && Routable(p, f)
    ensures Consistent(Dispatch(p, f, verdict)) && Dispatch(p, f, verdict).alive
  {
    hide Consistent, OnOpenStreamAck, OnCredit, OnData, OnClose, AckFrame, ResponseFrame;
    if f.frameType == OPEN_STREAM_ACK {
      AckConsistent(p, f);
    } else if f.frameType in {STREAM_CREDIT, STREAM_CLOSE, STREAM_DATA} {
      StreamConsistent(p, f);
    } else {
      SameTasks(p, Dispatch(p, f, verdict));
    }
  }

  lemma AckConsistent(p: Endpoint, f: Frame)
    requires Consistent(p) && p.alive && Routable(p, f) && f.frameType == OPEN_STREAM_ACK
    ensures Consistent(OnOpenStreamAck(p, f)) && OnOpenStreamAck(p, f).alive
  {
    hide Consistent, AcceptsOpen;
    var p1 := p.(pending := p.pending - {f.streamId}, log := OnOpenStreamAck(p, f).log);
    SameTasks(p, p1);
    if f.streamId in p.pending {
      SpawnConsistent(p1, f.streamId);
    }
  }

  lemma StreamConsistent(p: Endpoint, f: Frame)
    requires Consistent(p) && p.alive
    ensures Consistent(OnCredit(p, f)) && OnCredit(p, f).alive
    ensures Consistent(OnClose(p, f)) && OnClose(p, f).alive
    ensures Consistent(OnData(p, f)) && OnData(p, f).alive
  {
    hide ReceiveCredit, CreditAmount;
  }

  lemma SameTasks(p: Endpoint, p': Endpoint)
    requires Consistent(p)
    requires p'.sources == p.sources && p'.sinks == p.sinks
    requires p'.streams == p.streams && p'.credits == p.credits && p'.alive == p.alive
    ensures Consistent(p')
  {
  }

  lemma CommandConsistent(e: Endpoint)
    requires Consistent(e) && CommandEnabled(e) && FreshReply(e)
    ensures Consistent(CommandApply(e))
  {
    var c := e.cmd[0];
    if c.ReplyOpen? {
      var e1 := e.(cmd := e.cmd[1..], out := e.out + [AckFrame(c.id, c.ack)]);
      SameTasks(e, e1);
      SpawnConsistent(e1, c.id);
      hide Consistent, Spawn, AckFrame;
    } else {
      hide OpenFrame;
    }
  }

  /** An end's own steps keep its tables and tasks consistent. */
  lemma ActionConsistent(e: Endpoint, a: Action)
    requires Consistent(e) && ActionEnabled(e, a) && (a.TakeCommand? ==> FreshReply(e))
    ensures Consistent(ActionApply(e, a))
  {
    hide CommandApply, PumpApply, SinkApply, OpenFrame;
    match a {
      case TakeCommand => CommandConsistent(e);
      case Pump(n, tl) => PumpConsistent(e, n, tl);
      case Sink(n, rl) => SinkConsistent(e, n, rl);
      case Forward(_) =>
      case Submit(_) =>
      case _ =>
    }
  }

  lemma PumpConsistent(e: Endpoint, n: nat, tl: TxStep)
    requires Consistent(e) && PumpEnabled(e, n, tl)
    ensures Consistent(PumpApply(e, n, tl))
  {
    assert OwnFrames(n, PumpSource(e.sources[n], n, tl)) by { hide TxApply, TxEnabled; }
    hide TxApply, TxEnabled, OwnFrames, PumpSource;
  }

  lemma SinkConsistent(e: Endpoint, n: nat, rl: RxStep)
    requires Consistent(e) && SinkEnabled(e, n, rl)
    ensures Consistent(SinkApply(e, n, rl))
  {
    hide RxApply, RxOutput, RxEnabled, OwnFrames, CreditFrame;
  }

  // ----- The opening of a stream -----

  /** What handling frame f does to this end's view of id. */
  ghost predicate LinkAfter(v: Link, w: Link, id: nat, f: Frame) {
    if f.streamId == id && f.frameType == OPEN_STREAM then
      || w == v
      || w == v.(incoming := true)
      || (w == v.(trail := w.trail) && (v.trail == [] ==> w.trail == [AckMark(false)]))
    else if f.streamId == id && f.frameType == OPEN_STREAM_ACK && v.pending then
      w == v.(pending := false, started := v.started || AcceptsOpen(f))
    else w == v
  }

  lemma RejectionMark(n: nat, id: nat)
    ensures MarkOf(id, AckFrame(n, Rejection())) == if n == id then [AckMark(false)] else []
  {
    if n == id {
      AckMeaning(n, Rejection());
    }
  }

  lemma DispatchLink(p: Endpoint, f: Frame, verdict: M.Message, id: nat)
    requires IsResponse(verdict)
    ensures LinkAfter(LinkView(p, id), LinkView(Dispatch(p, f, verdict), id), id, f)
  {
    if f.frameType == OPEN_STREAM {
      OpenLink(p, f, id);
    } else if f.frameType == OPEN_STREAM_ACK {
      AckLink(p, f, id);
    } else {
      OtherLink(p, f, verdict, id);
    }
    hide LinkView, AcceptsOpen;
  }

  lemma OpenLink(p: Endpoint, f: Frame, id: nat)
    requires f.frameType == OPEN_STREAM
    ensures LinkAfter(LinkView(p, id), LinkView(OnOpenStream(p, f), id), id, f)
  {
    var p' := OnOpenStream(p, f);
    if Gated(p, f.streamId) {
      PushTrail(p, AckFrame(f.streamId, Rejection()), id);
      RejectionMark(f.streamId, id);
      hide Trail, Departed, MarkOf, AckFrame;
    } else {
      assert Departed(p') == Departed(p);
      hide Trail, Departed, AddressAt;
    }
  }

  lemma AckLink(p: Endpoint, f: Frame, id: nat)
    requires f.frameType == OPEN_STREAM_ACK
    ensures LinkAfter(LinkView(p, id), LinkView(OnOpenStreamAck(p, f), id), id, f)
  {
    hide Trail, Departed, AcceptsOpen, CmdMarks;
    DepartedUnmoved(p, OnOpenStreamAck(p, f));
  }

  lemma StreamLink(p: Endpoint, f: Frame, id: nat)
    ensures LinkView(OnData(p, f), id) == LinkView(p, id)
    ensures LinkView(OnCredit(p, f), id) == LinkView(p, id)
    ensures LinkView(OnClose(p, f), id) == LinkView(p, id)
  {
    assert Departed(OnData(p, f)) == Departed(p);
    assert Departed(OnCredit(p, f)) == Departed(p);
    assert Departed(OnClose(p, f)) == Departed(p);
    hide Trail, Departed, CmdMarks, DecodeVarint, ReceiveCredit;
  }

  lemma ResponseLink(p: Endpoint, f: Frame, verdict: M.Message, id: nat)
    requires IsResponse(verdict)
    ensures LinkView(OnAuthRequest(p, f, verdict), id) == LinkView(p, id)
  {
    var p' := OnAuthRequest(p, f, verdict);
    if p.authenticates {
      var g := p'.out[|p.out|];
      assert p'.out == p.out + [g] && MarkOf(id, g) == [];
      PushTrail(p, g, id);
      assert Departed(p') == Departed(p.(out := p'.out));
    }
    hide Trail, Departed, MarkOf, CmdMarks, ResponseFrame;
  }

  lemma PongLink(p: Endpoint, body: seq<byte>, id: nat)
    ensures LinkView(p.(out := p.out + [Frame(0, PONG, body)]), id) == LinkView(p, id)
  {
    PushTrail(p, Frame(0, PONG, body), id);
    hide Trail, Departed, CmdMarks;
  }

  /** A frame that opens and acknowledges nothing leaves every id where it was. */
  lemma OtherLink(p: Endpoint, f: Frame, verdict: M.Message, id: nat)
    requires f.frameType != OPEN_STREAM && f.frameType != OPEN_STREAM_ACK && IsResponse(verdict)
    ensures LinkView(Dispatch(p, f, verdict), id) == LinkView(p, id)
  {
    hide LinkView, OnData, OnCredit, OnAuthRequest, OnClose;
    ResponseLink(p, f, verdict, id);
    StreamLink(p, f, id);
    PongLink(p, f.body, id);
    DatagramLink(p, f, id);
  }

  lemma DatagramLink(p: Endpoint, f: Frame, id: nat)
    ensures LinkView(OnDatagram(p, f), id) == LinkView(p, id)
  {
    hide Departed, Trail, CmdMarks;
    DepartedUnmoved(p, OnDatagram(p, f));
  }
}
