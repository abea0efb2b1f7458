/** The acknowledgement of a stream precedes all its frames in everything the server ever transmits. */
module AckOrder {
  import opened Frames
  import M = Messages
  import SP = StreamPipe
  import opened Connection
  import opened StreamView
  import opened Lifecycle
  import opened Routing
  import opened Tunnel
  import opened Transmission

  predicate AckOf(f: Frame, id: nat) {
    f.streamId == id && f.frameType == OPEN_STREAM_ACK
  }

  predicate StreamFrameOf(f: Frame, id: nat) {
    f.streamId == id && id != 0 && f.frameType in {STREAM_DATA, STREAM_CREDIT, STREAM_CLOSE}
  }

  /** The end runs the stream's tasks, and no acknowledgement of it is left to be written or asked for. */
  predicate NoAckLeft(e: Endpoint, id: nat) {
    && id in e.sources
    && (forall f | f in e.out :: !AckOf(f, id))
    && (forall c | c in e.cmd :: (c.SendFrame? ==> !AckOf(c.frame, id)) && (c.ReplyOpen? ==> c.id != id))
  }

  lemma ActionKeepsNoAck(e: Endpoint, a: Action, id: nat)
    requires NoAckLeft(e, id) && Consistent(e) && ActionEnabled(e, a) && (a.Answer? ==> a.id != id)
    ensures NoAckLeft(ActionApply(e, a), id)
  {
    hide CommandApply, SinkApply, PumpApply, SubmitApply, NotOfStream;
    match a {
      case TakeCommand => CommandKeepsNoAck(e, id);
      case Sink(n, rl) => TaskKeepsNoAck(e, a, id);
      case Pump(n, tl) => TaskKeepsNoAck(e, a, id);
      case Submit(n) => TaskKeepsNoAck(e, a, id);
      case Control(f) => NoControlAck(f, id);
      case _ =>
    }
  }

  lemma NoControlAck(f: Frame, id: nat)
    requires NotOfStream(f)
    ensures !AckOf(f, id)
  {
  }

  lemma CommandKeepsNoAck(e: Endpoint, id: nat)
    requires NoAckLeft(e, id) && CommandEnabled(e)
    ensures NoAckLeft(CommandApply(e), id)
  {
    hide M.MessageBytes;
    assert e.cmd[0] in e.cmd;
  }

  lemma TaskKeepsNoAck(e: Endpoint, a: Action, id: nat)
    requires NoAckLeft(e, id) && Consistent(e) && ActionEnabled(e, a) && (a.Sink? || a.Pump? || a.Submit?)
    ensures NoAckLeft(ActionApply(e, a), id)
  {
    hide M.MessageBytes, SP.TxApply, SP.RxApply, SP.RxOutput;
  }

  lemma DispatchKeepsNoAck(e: Endpoint, f: Frame, verdict: M.Message, id: nat)
    requires NoAckLeft(e, id) && IsResponse(verdict) && (f.frameType == OPEN_STREAM ==> f.streamId != id)
    ensures NoAckLeft(Dispatch(e, f, verdict), id)
  {
    hide M.MessageBytes, AcceptsOpen, CreditAmount;
  }

  /** Once the server runs a stream's tasks, it neither answers nor receives an opening of it any more. */
  lemma StartedIsOpened(s: State, id: nat)
    requires Inv(s) && id in s.server.sources
    ensures id !in s.server.incoming
    ensures s.client.wire != [] && s.client.wire[0].frameType == OPEN_STREAM ==> s.client.wire[0].streamId != id
  {
    hide LinkView, Consistent, PipeOf, AcceptsOpen;
    assert HasPhase(s, id);
    var p :| Phased(p, s, id);
    LinkFields(s.server, id);
    var trail := LinkView(s.client, id).trail;
    assert trail == [] || trail[0] == StreamMark;
    if s.client.wire != [] && s.client.wire[0].streamId == id {
      HeadMark(s, Server);
    }
  }

  lemma StepKeepsNoAck(s: State, l: Step, id: nat)
    requires Inv(s) && Enabled(s, l) && NoAckLeft(s.server, id)
    ensures NoAckLeft(Apply(s, l).server, id)
  {
    hide ActionApply, ActionEnabled, Dispatch, NoAckLeft;
    TasksRun(s.server, id);
    StartedIsOpened(s, id);
    match l {
      case Act(side, a) =>
        if side.Server? {
          AnswerIncoming(s.server, a);
          ActionKeepsNoAck(s.server, a, id);
        }
      case Deliver(side, verdict) =>
        if side.Server? {
          DispatchKeepsNoAck(s.server, s.client.wire[0], verdict, id);
        } else {
          KeepsPopped(s.server, id);
        }
    }
  }

  lemma TasksRun(e: Endpoint, id: nat)
    requires NoAckLeft(e, id)
    ensures id in e.sources
  {
  }

  lemma AnswerIncoming(e: Endpoint, a: Action)
    requires ActionEnabled(e, a)
    ensures a.Answer? ==> a.id in e.incoming
  {
  }

  lemma KeepsPopped(e: Endpoint, id: nat)
    requires NoAckLeft(e, id) && e.wire != []
    ensures NoAckLeft(Popped(e), id)
  {
  }

  /** When the server writes a frame of the stream, its acknowledgement has been written before. */
  lemma WriteLeavesNoAck(s: State, id: nat)
    requires Inv(s) && s.server.out != [] && StreamFrameOf(s.server.out[0], id)
    ensures NoAckLeft(ActionApply(s.server, Write), id)
  {
    hide LinkView, Consistent, PipeOf, AcceptsOpen, InPhase, Trail, CmdMarks;
    assert HasPhase(s, id);
    var p :| Phased(p, s, id);
    var e, fs := s.server, Departed(s.server);
    ServerLink(e, id);
    var i := |e.wire|;
    assert fs[i] == e.out[0];
    WrittenStarted(p, LinkView(s.client, id), LinkView(e, id), id in s.used, id, fs, i);
    forall j | i < j < |fs|
      ensures !AckOf(fs[j], id)
    {
      if AckOf(fs[j], id) {
        var k := LaterMark(id, fs, i, j);
        AckIsFirst(p, LinkView(s.client, id), LinkView(e, id), id in s.used, k);
      }
    }
    RestIsClear(e, id);
  }

  lemma ServerLink(e: Endpoint, id: nat)
    ensures LinkView(e, id).trail == Trail(id, Departed(e)) && LinkView(e, id).commands == CmdMarks(id, e.cmd)
    ensures LinkView(e, id).started == (id in e.sources)
  {
  }

  /** A stream frame among the departed ones means the tasks run and no reply is queued. */
  lemma WrittenStarted(p: Phase, c: Link, v: Link, used: bool, id: nat, fs: seq<Frame>, i: nat)
    requires InPhase(p, c, v, used) && v.trail == Trail(id, fs) && i < |fs| && StreamFrameOf(fs[i], id)
    ensures v.started && v.commands == []
  {
    hide Trail;
    var pre := Trail(id, fs[..i]);
    assert fs == fs[..i] + fs[i..] && fs[i..] == [fs[i]] + fs[i + 1..];
    TrailAppend(id, fs[..i], fs[i..]);
    TrailAppend(id, [fs[i]], fs[i + 1..]);
    OneMark(id, fs[i]);
    assert v.trail[|pre|] == StreamMark;
  }

  /** No acknowledgement past the front of the writer's queue, and no queued reply: none is left at all. */
  lemma RestIsClear(e: Endpoint, id: nat)
    requires e.out != [] && id in e.sources && !AckOf(e.out[0], id) && CmdMarks(id, e.cmd) == []
    requires forall j | |e.wire| < j < |Departed(e)| :: !AckOf(Departed(e)[j], id)
    ensures NoAckLeft(ActionApply(e, Write), id)
  {
    hide AckOf, CmdMarks, Queued;
    OutIsClear(e, id);
    forall c | c in e.cmd
      ensures (c.SendFrame? ==> !AckOf(c.frame, id)) && (c.ReplyOpen? ==> c.id != id)
    {
      NotQueued(e.cmd, c, id);
      if c.SendFrame? {
        var k :| 0 <= k < |Queued(e.cmd)| && Queued(e.cmd)[k] == c.frame;
        assert Departed(e)[|e.wire| + |e.out| + k] == c.frame;
      }
    }
  }

  lemma OutIsClear(e: Endpoint, id: nat)
    requires e.out != [] && forall j | |e.wire| < j < |Departed(e)| :: !AckOf(Departed(e)[j], id)
    ensures forall f | f in e.out[1..] :: !AckOf(f, id)
  {
    hide AckOf, Queued;
    forall f | f in e.out[1..]
      ensures !AckOf(f, id)
    {
      var k :| 0 <= k < |e.out[1..]| && e.out[1..][k] == f;
      assert Departed(e)[|e.wire| + 1 + k] == f;
    }
  }

  lemma {:induction false} NotQueued(cs: seq<Cmd>, c: Cmd, id: nat)
    requires c in cs && CmdMarks(id, cs) == []
    ensures c.ReplyOpen? ==> c.id != id
    ensures c.SendFrame? ==> c.frame in Queued(cs)
    decreases |cs|
  {
    if c != cs[0] {
      NotQueued(cs[1..], c, id);
    }
  }

  // ----- Runs -----

  /** After its last acknowledgement the server transmits no other in any continuation. */
  lemma {:induction false} NoAckTransmitted(s: State, ls: seq<Step>, id: nat, j: nat)
    requires Inv(s) && Runs(s, ls) && NoAckLeft(s.server, id) && j < |Transmitted(s, ls, Server)|
    ensures !AckOf(Transmitted(s, ls, Server)[j], id)
    decreases |ls|
  {
    hide Inv, Apply, Enabled;
    var l := ls[0];
    StepKeepsNoAck(s, l, id);
    StepKeepsInv(s, l);
    if l == Act(Server, Write) {
      OutEnabled(s);
      if j > 0 {
        NoAckTransmitted(Apply(s, l), ls[1..], id, j - 1);
      }
    } else {
      NoAckTransmitted(Apply(s, l), ls[1..], id, j);
    }
  }

  lemma OutEnabled(s: State)
    requires Enabled(s, Act(Server, Write))
    ensures s.server.out != [] && Apply(s, Act(Server, Write)).server == ActionApply(s.server, Write)
  {
  }

  /** In every run, of all the frames the server transmits, none of a stream comes before its acknowledgement. */
  lemma {:induction false} AckComesFirst(s: State, ls: seq<Step>, id: nat, i: nat, j: nat)
    requires Inv(s) && Runs(s, ls) && i < |Transmitted(s, ls, Server)| && j < |Transmitted(s, ls, Server)|
    requires StreamFrameOf(Transmitted(s, ls, Server)[i], id) && AckOf(Transmitted(s, ls, Server)[j], id)
    ensures j < i
    decreases |ls|
  {
    hide Inv, Apply, Enabled, NoAckLeft;
    var l := ls[0];
    StepKeepsInv(s, l);
    if l == Act(Server, Write) {
      OutEnabled(s);
      if i == 0 {
        WriteLeavesNoAck(s, id);
        if j > 0 {
          NoAckTransmitted(Apply(s, l), ls[1..], id, j - 1);
        }
      } else if j > 0 {
        AckComesFirst(Apply(s, l), ls[1..], id, i - 1, j - 1);
      }
    } else {
      AckComesFirst(Apply(s, l), ls[1..], id, i, j);
    }
  }
}
