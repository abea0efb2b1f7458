/** What a caller of open_stream is told, against what the application at the other end answered. */
module Answers {
  import opened Bytes
  import opened Frames
  import Addresses
  import M = Messages
  import SP = StreamPipe
  import opened Connection
  import opened StreamView
  import opened Routing
  import opened Tunnel
  import opened Traffic
  import H = Handling

  /** The answers given by the server's application in a run, each with the id it answers. */
  function Given(ls: seq<Step>): set<(nat, M.Message)> {
    if ls == [] then {} else GivenBy(ls[0]) + Given(ls[1..])
  }

  function GivenBy(l: Step): set<(nat, M.Message)> {
    if l.Act? && l.side.Server? && l.action.Answer? then {(l.action.id, l.action.ack)} else {}
  }

  /** What the caller is told when the application answers ack. */
  function Meaning(ack: M.Message): OpenAnswer
    requires ack.OpenStreamAck?
  {
    if ack.ackStatus == 0 then Granted else Denied(ack.ackText)
  }

  ghost predicate IsRejection(a: OpenAnswer) {
    a.Denied? && H.Spells(a.text, "session not authenticated")
  }

  /** The acknowledgement carries an answer given, or a rejection by an end that tracks sessions. */
  ghost predicate AckKnown(f: Frame, given: set<(nat, M.Message)>, gated: bool) {
    f.frameType == OPEN_STREAM_ACK ==>
      || (gated && f == AckFrame(f.streamId, Rejection()))
      || (exists ack :: (f.streamId, ack) in given && IsAck(ack) && f == AckFrame(f.streamId, ack))
  }

  ghost predicate ToldKnown(ev: Event, given: set<(nat, M.Message)>, gated: bool) {
    ev.Told? ==>
      || (gated && IsRejection(ev.answer))
      || (exists ack :: (ev.id, ack) in given && ack.OpenStreamAck? && ev.answer == Meaning(ack))
  }

  ghost predicate AllKnown(s: State, given: set<(nat, M.Message)>) {
    && (forall f | f in Leaving(s.server) :: AckKnown(f, given, s.server.sessions.Some?))
    && (forall ev | ev in s.client.log :: ToldKnown(ev, given, s.server.sessions.Some?))
  }

  lemma KnownMore(s: State, given: set<(nat, M.Message)>, more: set<(nat, M.Message)>)
    requires AllKnown(s, given)
    ensures AllKnown(s, given + more)
  {
    hide Leaving, AckFrame, Meaning, IsRejection, IsAck;
    forall f | f in Leaving(s.server)
      ensures AckKnown(f, given + more, s.server.sessions.Some?)
    {
      assert AckKnown(f, given, s.server.sessions.Some?);
    }
    forall ev | ev in s.client.log
      ensures ToldKnown(ev, given + more, s.server.sessions.Some?)
    {
      assert ToldKnown(ev, given, s.server.sessions.Some?);
    }
  }

  // ----- Acknowledgements among the frames leaving -----

  /** The acknowledgements leaving an end were leaving it before, or are the given one. */
  ghost predicate AcksFrom(e: Endpoint, e': Endpoint, g: seq<Frame>) {
    forall f | f in Leaving(e') && f.frameType == OPEN_STREAM_ACK :: f in Leaving(e) || f in g
  }

  lemma AddedAcks(e: Endpoint, c: Cmd)
    ensures AcksFrom(e, e.(cmd := e.cmd + [c]), AsFrame(c))
  {
    AsFramesAppend(e.cmd, c);
    assert Leaving(e.(cmd := e.cmd + [c])) == Leaving(e) + AsFrame(c);
    hide Leaving, AsFrame;
  }

  lemma InsertedAcks(e: Endpoint, f: Frame)
    ensures AcksFrom(e, e.(out := e.out + [f]), [f])
  {
    hide AsFrames;
  }

  lemma SameAcks(e: Endpoint, e': Endpoint, d: Endpoint, g: seq<Frame>)
    requires AcksFrom(e, d, g) && e'.cmd == d.cmd && e'.out == d.out && e'.wire == d.wire
    ensures AcksFrom(e, e', g)
  {
    SameLeaving(d, e');
    hide Leaving;
  }

  lemma NoneAdded(e: Endpoint, e': Endpoint, g: seq<Frame>)
    requires Leaving(e') == Leaving(e)
    ensures AcksFrom(e, e', g)
  {
    hide Leaving;
  }

  lemma QuietAcks(e: Endpoint, e': Endpoint, f: Frame)
    requires f.frameType != OPEN_STREAM_ACK
    requires AcksFrom(e, e', [f])
    ensures AcksFrom(e, e', [])
  {
    hide Leaving;
  }

  /** The tasks of a stream send no acknowledgements. */
  lemma TaskAcks(e: Endpoint, a: Action)
    requires Consistent(e) && ActionEnabled(e, a) && (a.Pump? || a.Forward? || a.Submit? || a.Sink?)
    ensures AcksFrom(e, ActionApply(e, a), [])
  {
    hide Leaving, AcksFrom, AsFrame, SP.TxApply, SP.TxEnabled, SP.RxApply, SP.RxOutput, SP.RxEnabled;
    var e' := ActionApply(e, a);
    if e'.cmd == e.cmd {
      SameLeaving(e, e');
      NoneAdded(e, e', []);
    } else {
      var c := e'.cmd[|e.cmd|];
      assert e'.cmd == e.cmd + [c] && c.SendFrame?;
      var d := e.(cmd := e.cmd + [c]);
      AddedAcks(e, c);
      Framed(c);
      SameAcks(e, e', d, [c.frame]);
      assert a.Submit? ==> OwnFrames(a.id, e.sources[a.id]);
      QuietAcks(e, e', c.frame);
    }
  }

  lemma Framed(c: Cmd)
    requires c.SendFrame?
    ensures AsFrame(c) == [c.frame]
  {
  }

  /** Among the frames an end's step sends, only its application's answer is an acknowledgement. */
  lemma ActionAcks(e: Endpoint, a: Action)
    requires Consistent(e) && ActionEnabled(e, a)
    ensures AcksFrom(e, ActionApply(e, a), if a.Answer? then [AckFrame(a.id, a.ack)] else [])
  {
    hide Leaving, AcksFrom, CommandApply, PumpApply, ForwardApply, SubmitApply, SinkApply;
    hide OpenFrame, AckFrame, Consistent;
    var e' := ActionApply(e, a);
    match a {
      case CallOpen(id, addr) =>
        AddedAcks(e, OpenCmd(id, addr));
        OpenIsNoAck(id, addr);
        QuietAcks(e, e', OpenFrame(id, addr));
      case Answer(id, ack) =>
        AddedAcks(e, ReplyOpen(id, ack));
        SameAcks(e, e', e.(cmd := e.cmd + [ReplyOpen(id, ack)]), [AckFrame(id, ack)]);
      case Control(f) =>
        AddedAcks(e, SendFrame(f));
        QuietAcks(e, e', f);
      case TakeCommand =>
        TakenOffers(e);
        NoneAdded(e, e', []);
      case Tick =>
        InsertedAcks(e, Frame(0, PING, []));
        QuietAcks(e, e', Frame(0, PING, []));
      case Write =>
        WriteLeaves(e);
        NoneAdded(e, e', []);
      case Stop =>
        SameLeaving(e, e');
        NoneAdded(e, e', []);
      case _ => TaskAcks(e, a);
    }
  }

  lemma OpenIsNoAck(id: nat, addr: Addresses.Address)
    ensures OpenFrame(id, addr).frameType != OPEN_STREAM_ACK
  {
  }

  /** Handling a frame acknowledges nothing, unless it rejects an opening for want of a session. */
  lemma DispatchAcks(e: Endpoint, f: Frame, verdict: M.Message)
    requires IsResponse(verdict)
    ensures var e' := Dispatch(e, f, verdict);
      && (e'.sessions.Some? <==> e.sessions.Some?)
      && AcksFrom(e, e', if e.sessions.Some? then [AckFrame(f.streamId, Rejection())] else [])
  {
    hide Leaving, AcksFrom, OnOpenStreamAck, OnDatagram, OnData, OnCredit, OnClose, OnAuthRequest, OnOpenStream;
    hide AckFrame, Rejection;
    var e' := Dispatch(e, f, verdict);
    RequestsAddQuietly(e, f, verdict);
    OthersAddNothing(e, f);
    AddsWhat(e, f, verdict);
    assert AddsQuietly(e, e');
    if e'.out == e.out {
      SameLeaving(e, e');
      NoneAdded(e, e', if e.sessions.Some? then [AckFrame(f.streamId, Rejection())] else []);
    } else {
      var g := e'.out[|e.out|];
      assert e'.out == e.out + [g];
      InsertedAcks(e, g);
      SameAcks(e, e', e.(out := e.out + [g]), [g]);
      Widen(e, e', g, if e.sessions.Some? then [AckFrame(f.streamId, Rejection())] else []);
    }
  }

  lemma Widen(e: Endpoint, e': Endpoint, g: Frame, more: seq<Frame>)
    requires AcksFrom(e, e', [g]) && (g.frameType == OPEN_STREAM_ACK ==> g in more)
    ensures AcksFrom(e, e', more)
  {
    hide Leaving;
  }

  lemma AddsWhat(e: Endpoint, f: Frame, verdict: M.Message)
    requires IsResponse(verdict)
    ensures var e' := Dispatch(e, f, verdict);
      && (e'.sessions.Some? <==> e.sessions.Some?)
      && (|e'.out| > |e.out| && e'.out[|e.out|].frameType == OPEN_STREAM_ACK ==>
            e.sessions.Some? && e'.out[|e.out|] == AckFrame(f.streamId, Rejection()))
  {
    hide M.MessageBytes, M.DecodeMessage, M.DecodeDatagram, AcceptsOpen, AnswerIn, CreditAmount, BadRequest, Rejection;
    hide Addresses.AddressAt, SP.ReceiveCredit;
  }

  // ----- What is told -----

  lemma AnswerRead(id: nat, ack: M.Message)
    requires IsAck(ack)
    ensures AnswerIn(AckFrame(id, ack).body) == Meaning(ack)
  {
    hide M.MessageBytes, M.DecodeMessage;
    M.MessageRoundTrip(ack, []);
    assert M.MessageBytes(ack) + [] == M.MessageBytes(ack);
  }

  lemma RejectionRead()
    ensures IsRejection(Meaning(Rejection()))
  {
    H.AsciiSpells("session not authenticated");
    hide Ascii;
  }

  /** The one thing an end's log can gain about a call is what the acknowledgement it handles says. */
  lemma DispatchTells(e: Endpoint, f: Frame, verdict: M.Message)
    requires IsResponse(verdict)
    ensures forall ev | ev in Dispatch(e, f, verdict).log && ev.Told? ::
      ev in e.log || (f.frameType == OPEN_STREAM_ACK && ev == Told(f.streamId, AnswerIn(f.body)))
  {
    hide M.MessageBytes, M.DecodeMessage, M.DecodeDatagram, AcceptsOpen, AnswerIn, CreditAmount, BadRequest, Rejection;
    hide Addresses.AddressAt, SP.ReceiveCredit;
  }

  lemma ToldByFrame(f: Frame, given: set<(nat, M.Message)>, gated: bool)
    requires AckKnown(f, given, gated) && f.frameType == OPEN_STREAM_ACK
    ensures ToldKnown(Told(f.streamId, AnswerIn(f.body)), given, gated)
  {
    hide AckFrame, AnswerIn, Meaning, IsRejection, Rejection;
    if gated && f == AckFrame(f.streamId, Rejection()) {
      AnswerRead(f.streamId, Rejection());
      RejectionRead();
    } else {
      var ack :| (f.streamId, ack) in given && IsAck(ack) && f == AckFrame(f.streamId, ack);
      AnswerRead(f.streamId, ack);
    }
  }

  lemma StepKeepsKnown(s: State, l: Step, given: set<(nat, M.Message)>)
    requires Inv(s) && Enabled(s, l) && AllKnown(s, given)
    ensures AllKnown(Apply(s, l), given + GivenBy(l))
  {
    hide Inv;
    KnownMore(s, given, GivenBy(l));
    match l {
      case Act(side, a) => ActKeepsKnown(s, side, a, given + GivenBy(l));
      case Deliver(side, verdict) => DeliverKeepsKnown(s, side, verdict, given + GivenBy(l));
    }
    hide AllKnown;
  }

  lemma ActKeepsKnown(s: State, side: Side, a: Action, given: set<(nat, M.Message)>)
    requires Inv(s) && Enabled(s, Act(side, a)) && AllKnown(s, given) && GivenBy(Act(side, a)) <= given
    ensures AllKnown(Apply(s, Act(side, a)), given)
  {
    hide Leaving, ActionApply, ActionEnabled, AckFrame, IsAck, SP.Inv, Meaning, IsRejection;
    ActionLog(At(s, side), a);
    var s' := Apply(s, Act(side, a));
    if side.Server? {
      ActionAcks(s.server, a);
      AnswerIsAck(s.server, a);
      forall f | f in Leaving(s'.server)
        ensures AckKnown(f, given, s'.server.sessions.Some?)
      {
        if f in Leaving(s.server) {
          assert AckKnown(f, given, s.server.sessions.Some?);
        } else if f.frameType == OPEN_STREAM_ACK {
          assert f == AckFrame(a.id, a.ack) && (a.id, a.ack) in given;
          AckIsOf(a.id, a.ack);
        }
      }
    }
  }

  lemma AckIsOf(id: nat, ack: M.Message)
    requires IsAck(ack)
    ensures AckFrame(id, ack).streamId == id
  {
  }

  lemma AnswerIsAck(e: Endpoint, a: Action)
    requires ActionEnabled(e, a)
    ensures a.Answer? ==> IsAck(a.ack)
  {
  }

  lemma DeliverKeepsKnown(s: State, side: Side, verdict: M.Message, given: set<(nat, M.Message)>)
    requires Enabled(s, Deliver(side, verdict)) && AllKnown(s, given)
    ensures AllKnown(Apply(s, Deliver(side, verdict)), given)
  {
    hide Dispatch, AckFrame, IsAck, Meaning, IsRejection, AnswerIn, AckKnown, ToldKnown, AcksFrom, AsFrames;
    if side.Server? {
      RejectsKnown(s, verdict, given);
    } else {
      var f := s.server.wire[0];
      assert f in Leaving(s.server);
      assert forall g | g in Leaving(Popped(s.server)) :: g in Leaving(s.server);
      TellsKnown(s, f, verdict, given);
    }
  }

  lemma RejectsKnown(s: State, verdict: M.Message, given: set<(nat, M.Message)>)
    requires Enabled(s, Deliver(Server, verdict)) && AllKnown(s, given)
    ensures AllKnown(Apply(s, Deliver(Server, verdict)), given)
  {
    hide Dispatch, Leaving, AckFrame, IsAck, ToldKnown, Rejection;
    var s' := Apply(s, Deliver(Server, verdict));
    var f := s.client.wire[0];
    DispatchAcks(s.server, f, verdict);
    forall g | g in Leaving(s'.server)
      ensures AckKnown(g, given, s'.server.sessions.Some?)
    {
      if g in Leaving(s.server) {
        assert AckKnown(g, given, s.server.sessions.Some?);
      } else if g.frameType == OPEN_STREAM_ACK {
        RejectionIsOf(f.streamId);
      }
    }
  }

  lemma RejectionIsOf(id: nat)
    ensures AckFrame(id, Rejection()).streamId == id
  {
    hide M.MessageBytes;
  }

  lemma TellsKnown(s: State, f: Frame, verdict: M.Message, given: set<(nat, M.Message)>)
    requires IsResponse(verdict) && AllKnown(s, given) && f in Leaving(s.server)
    ensures forall ev | ev in Dispatch(s.client, f, verdict).log :: ToldKnown(ev, given, s.server.sessions.Some?)
  {
    hide Dispatch, Leaving, AckKnown, AnswerIn, Meaning, IsRejection;
    DispatchTells(s.client, f, verdict);
    if f.frameType == OPEN_STREAM_ACK {
      ToldByFrame(f, given, s.server.sessions.Some?);
    }
  }

  lemma {:induction false} RunKeepsKnown(s: State, ls: seq<Step>, given: set<(nat, M.Message)>)
    requires Inv(s) && Runs(s, ls) && AllKnown(s, given)
    ensures AllKnown(End(s, ls), given + Given(ls))
    decreases |ls|
  {
    hide Inv, Apply, Enabled, AllKnown, GivenBy;
    if ls == [] {
      assert given + Given(ls) == given;
    } else {
      StepKeepsKnown(s, ls[0], given);
      StepKeepsInv(s, ls[0]);
      RunKeepsKnown(Apply(s, ls[0]), ls[1..], given + GivenBy(ls[0]));
      assert given + GivenBy(ls[0]) + Given(ls[1..]) == given + Given(ls);
    }
  }

  lemma {:induction false} GivenInRun(ls: seq<Step>, id: nat, ack: M.Message)
    requires (id, ack) in Given(ls)
    ensures Act(Server, Answer(id, ack)) in ls
    decreases |ls|
  {
    if (id, ack) !in GivenBy(ls[0]) {
      GivenInRun(ls[1..], id, ack);
    }
  }

  /**
   * In every run, whatever a caller of open_stream is told about its stream is what the server's application answered
   * for that very id, refusal text included, or, if the server tracks sessions, that the session is not authenticated.
   */
  lemma ToldIsAnswered(sessions: Option<set<nat>>, ls: seq<Step>, id: nat, answer: OpenAnswer)
    requires Runs(Init(sessions), ls) && Told(id, answer) in End(Init(sessions), ls).client.log
    ensures
      || (sessions.Some? && IsRejection(answer))
      || (exists ack :: Act(Server, Answer(id, ack)) in ls && ack.OpenStreamAck? && answer == Meaning(ack))
  {
    hide Runs, End, Inv, Given, Meaning, IsRejection;
    InitInv(sessions);
    StartsKnown(sessions);
    RunKeepsKnown(Init(sessions), ls, {});
    var s := End(Init(sessions), ls);
    TracksStill(sessions, ls);
    assert ToldKnown(Told(id, answer), {} + Given(ls), s.server.sessions.Some?);
    if !(sessions.Some? && IsRejection(answer)) {
      var ack :| (id, ack) in {} + Given(ls) && ack.OpenStreamAck? && answer == Meaning(ack);
      GivenInRun(ls, id, ack);
    }
  }

  lemma StartsKnown(sessions: Option<set<nat>>)
    ensures AllKnown(Init(sessions), {})
  {
    assert Leaving(Init(sessions).server) == [];
  }

  lemma StepTracks(s: State, l: Step)
    requires Enabled(s, l)
    ensures Apply(s, l).server.sessions.Some? <==> s.server.sessions.Some?
  {
    hide Dispatch, ActionApply, ActionEnabled;
    match l {
      case Act(side, a) => ActionLog(At(s, side), a);
      case Deliver(side, verdict) => AddsWhat(At(s, side), At(s, Peer(side)).wire[0], verdict);
    }
  }

  lemma {:induction false} RunTracks(s: State, ls: seq<Step>)
    requires Runs(s, ls)
    ensures End(s, ls).server.sessions.Some? <==> s.server.sessions.Some?
    decreases |ls|
  {
    hide Apply, Enabled;
    if ls != [] {
      StepTracks(s, ls[0]);
      RunTracks(Apply(s, ls[0]), ls[1..]);
    }
  }

  lemma TracksStill(sessions: Option<set<nat>>, ls: seq<Step>)
    requires Runs(Init(sessions), ls)
    ensures End(Init(sessions), ls).server.sessions.Some? <==> sessions.Some?
  {
    RunTracks(Init(sessions), ls);
  }
}
