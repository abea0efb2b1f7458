/** A blocked stream of a running tunnel reopens: the queues in front of its data and credit can always be drained. */
module TunnelReopening {
  import opened Bytes
  import opened Frames
  import M = Messages
  import FC = FlowControl
  import SP = StreamPipe
  import SG = StreamGuarantees
  import opened Connection
  import opened StreamView
  import opened Routing
  import opened Tunnel
  import TP = TunnelProgress

  /** The loop runs, nothing queued will end it, and queued replies are those applications give. */
  predicate Running(e: Endpoint) {
    e.alive && forall c | c in e.cmd :: !c.CloseCmd? && (c.ReplyOpen? ==> IsAck(c.ack))
  }

  /** The stream is blocked, can reopen on its own, and its peer has not closed the other half. */
  ghost predicate Going(s: State, id: nat, from: Side) {
    && Reachable(s) && id != 0 && Running(s.client) && Running(s.server)
    && SG.Blocked(PipeOf(s, id, from)) && SG.CanReopen(PipeOf(s, id, from))
    && !PipeOf(s, id, Peer(from)).snd.tx.pump.Done?
  }

  /** Steps that take a frame out of an end's queues, counted from where the frame stands. */
  function Hops(e: Endpoint, id: nat): nat {
    3 * |e.cmd| + 2 * |e.out| + |e.wire|
    + if id in e.sources then 5 * |e.sources[id].q| + (if e.sources[id].fwd.Some? then 4 else 0) else 0
  }

  /** A step that moves an end's own frames towards the peer. */
  predicate Pushes(l: Step, side: Side, id: nat) {
    || (l.Deliver? && l.side == Peer(side))
    || (l.Act? && l.side == side
        && (l.action.Write? || l.action.TakeCommand? || l.action == Submit(id) || l.action == Forward(id)))
  }

  /** An end with a frame in its queues can push. */
  lemma PushEnabled(s: State, side: Side, id: nat) returns (l: Step)
    requires Running(s.client) && Running(s.server)
    requires Departed(At(s, side)) != [] || (id in At(s, side).sources && Undeparted(At(s, side).sources[id]) != [])
    ensures Enabled(s, l) && Pushes(l, side, id)
  {
    var e := At(s, side);
    if e.wire != [] {
      l := Deliver(Peer(side), BadRequest());
    } else if e.out != [] {
      l := Act(side, Write);
    } else if e.cmd != [] {
      assert e.cmd[0] in e.cmd;
      l := Act(side, TakeCommand);
    } else if e.sources[id].fwd.Some? {
      l := Act(side, Submit(id));
    } else {
      l := Act(side, Forward(id));
    }
  }

  lemma CommandShortens(e: Endpoint, id: nat)
    requires CommandEnabled(e) && FreshReply(e) && !e.cmd[0].CloseCmd?
    ensures Hops(CommandApply(e), id) < Hops(e, id)
  {
    hide AckFrame, OpenFrame;
  }

  lemma LocalShortens(e: Endpoint, a: Action, id: nat)
    requires ActionEnabled(e, a) && FreshReply(e) && Running(e)
    requires a.Write? || a.TakeCommand? || a == Submit(id) || a == Forward(id)
    ensures Hops(ActionApply(e, a), id) < Hops(e, id) && Running(ActionApply(e, a))
  {
    hide CommandApply;
    if a.TakeCommand? {
      assert e.cmd[0] in e.cmd;
      CommandShortens(e, id);
      CommandRuns(e);
    }
  }

  lemma CommandRuns(e: Endpoint)
    requires CommandEnabled(e) && Running(e)
    ensures Running(CommandApply(e)) && CommandApply(e).cmd == e.cmd[1..]
  {
    assert e.cmd[0] in e.cmd;
    hide AckFrame, OpenFrame;
  }

  lemma DispatchRuns(e: Endpoint, f: Frame, verdict: M.Message)
    requires Running(e) && IsResponse(verdict)
    ensures Running(Dispatch(e, f, verdict)) && Dispatch(e, f, verdict).cmd == e.cmd
  {
    hide AckFrame, ResponseFrame, AcceptsOpen, CreditAmount;
  }

  lemma PoppedShortens(e: Endpoint, id: nat)
    requires Running(e) && e.wire != []
    ensures Hops(Popped(e), id) < Hops(e, id) && Running(Popped(e))
  {
  }

  /** Every push brings the frames of its own end nearer to the peer, and leaves both loops running. */
  lemma PushShortens(s: State, l: Step, side: Side, id: nat)
    requires Inv(s) && Enabled(s, l) && Pushes(l, side, id) && Running(s.client) && Running(s.server)
    ensures var s' := Apply(s, l);
      Hops(At(s', side), id) < Hops(At(s, side), id) && Running(s'.client) && Running(s'.server)
  {
    hide ActionApply, ActionEnabled, Dispatch, Running, Hops;
    match l {
      case Act(_, a) =>
        AlwaysFreshReply(s, side);
        LocalShortens(At(s, side), a, id);
      case Deliver(at, verdict) =>
        PoppedShortens(At(s, side), id);
        DispatchRuns(At(s, at), At(s, side).wire[0], verdict);
    }
  }

  // ----- What a step does to the stream -----

  /** The stream is untouched, or takes one of its own progress steps. */
  ghost predicate Advanced(a: SP.Pipe, b: SP.Pipe) {
    a == b || exists pl :: SG.Progress(pl) && SP.Enabled(a, pl) && b == SP.Apply(a, pl)
  }

  /** An end's own queue steps leave the views of every stream as they were. */
  lemma LocalViews(e: Endpoint, a: Action, id: nat)
    requires Consistent(e) && ActionEnabled(e, a) && FreshReply(e) && Running(e) && id != 0
    requires a.Write? || a.TakeCommand? || a.Submit? || a.Forward?
    ensures SndView(ActionApply(e, a), id) == SndView(e, id) && RcvView(ActionApply(e, a), id) == RcvView(e, id)
  {
    hide SndView, RcvView, CommandApply, ForwardApply, SubmitApply, OwnFrames;
    match a {
      case Write => WriteViews(e, id);
      case TakeCommand =>
        assert e.cmd[0] in e.cmd;
        CommandViews(e, id);
      case Forward(n) => ForwardViews(e, n, id);
      case Submit(n) => SubmitViews(e, n, id);
    }
  }

  lemma PushIsLocal(s: State, l: Step, side: Side, id: nat)
    requires Inv(s) && Enabled(s, l) && l.Act? && Pushes(l, side, id) && id != 0 && Running(At(s, side))
    ensures l.side == side
    ensures SndView(ActionApply(At(s, side), l.action), id) == SndView(At(s, side), id)
    ensures RcvView(ActionApply(At(s, side), l.action), id) == RcvView(At(s, side), id)
  {
    hide SndView, RcvView, ActionApply, ActionEnabled, Running, Consistent;
    AlwaysFreshReply(s, side);
    LocalViews(At(s, side), l.action, id);
  }

  lemma SameViews(s: State, side: Side, a: Action, id: nat, from: Side)
    requires Enabled(s, Act(side, a))
    requires SndView(ActionApply(At(s, side), a), id) == SndView(At(s, side), id)
    requires RcvView(ActionApply(At(s, side), a), id) == RcvView(At(s, side), id)
    ensures PipeOf(Apply(s, Act(side, a)), id, from) == PipeOf(s, id, from)
  {
  }

  /** Handling a frame of either end advances the stream, unless it is the peer's end mark. */
  lemma FrameAdvances(a: SP.Pipe, b: SP.Pipe, id: nat, f: Frame, forward: bool)
    requires !a.rcv.torn || !forward
    requires !forward ==> ItemOf(id, f) != [SP.Fin]
    requires forward ==>
      a.snd == b.snd.(path := ItemOf(id, f) + b.snd.path) && b.rcv == ReceiverAfter(a.rcv, id, f)
    requires !forward ==>
      a.rcv == b.rcv.(credits := CreditOf(id, f) + b.rcv.credits) && b.snd == SenderAfter(a.snd, id, f)
    ensures Advanced(a, b)
  {
    hide CreditAmount;
    if forward && ItemOf(id, f) != [] {
      assert SG.Progress(SP.Deliver) && SP.Enabled(a, SP.Deliver) && b == SP.Apply(a, SP.Deliver);
    } else if !forward && CreditOf(id, f) != [] {
      assert SG.Progress(SP.Grant) && SP.Enabled(a, SP.Grant) && b == SP.Apply(a, SP.Grant);
    }
  }

  lemma DeliverAdvances(s: State, l: Step, id: nat, from: Side)
    requires Inv(s) && Enabled(s, l) && l.Deliver? && id != 0
    requires !PipeOf(s, id, Peer(from)).snd.tx.pump.Done?
    ensures Advanced(PipeOf(s, id, from), PipeOf(Apply(s, l), id, from))
    ensures !PipeOf(Apply(s, l), id, Peer(from)).snd.tx.pump.Done?
  {
    hide SndView, RcvView, ItemOf, CreditOf, Dispatch, SenderAfter, ReceiverAfter, Consistent, Advanced;
    CreditMovesNoPump(SndView(At(s, l.side), id), id, At(s, Peer(l.side)).wire[0]);
    var side := l.side;
    var e, f := At(s, Peer(side)), At(s, Peer(side)).wire[0];
    AlwaysRoutable(s, side);
    WirePop(e, id);
    DispatchViews(At(s, side), f, l.verdict, id);
    RcvTorn(At(s, side), id);
    if side == from {
      NoFinAhead(PipeOf(s, id, Peer(from)), ItemOf(id, f), SndView(Popped(e), id).path);
    }
    FrameAdvances(PipeOf(s, id, from), PipeOf(Apply(s, l), id, from), id, f, side != from);
  }

  lemma CreditMovesNoPump(v: SP.Sender, id: nat, f: Frame)
    ensures SenderAfter(v, id, f).tx.pump == v.tx.pump
  {
  }

  lemma NoFinAhead(pipe: SP.Pipe, first: seq<SP.Item>, rest: seq<SP.Item>)
    requires SP.Inv(pipe) && pipe.snd.path == first + rest && !pipe.snd.tx.pump.Done?
    ensures first != [SP.Fin]
  {
    hide SP.InOrder, SP.Conserved, SP.Drift, SP.WindowRespected;
    assert first != [] ==> pipe.snd.path[0] == first[0];
  }

  // ----- The next step -----

  /** The end whose queues have to move: the peer's while credit is on its way, else the sender's. */
  function Pusher(pipe: SP.Pipe, from: Side): Side {
    if pipe.rcv.credits != [] then Peer(from) else from
  }

  lemma FramesWait(s: State, id: nat, from: Side)
    requires SG.Blocked(PipeOf(s, id, from))
    requires PipeOf(s, id, from).rcv.credits != [] || PipeOf(s, id, from).snd.path != []
    ensures var e := At(s, Pusher(PipeOf(s, id, from), from));
      Departed(e) != [] || (id in e.sources && Undeparted(e.sources[id]) != [])
  {
    hide Departed, Undeparted;
  }

  /**
   * A step that goes on: a push of the end whose turn it is, or a progress step of the stream's own receiving tasks.
   */
  predicate GoesOn(s: State, l: Step, id: nat, from: Side) {
    || Pushes(l, Pusher(PipeOf(s, id, from), from), id)
    || (l.Act? && l.side == Peer(from) && l.action.Sink? && l.action.id == id && SG.Progress(SP.Recv(l.action.rl)))
  }

  lemma SinkReady(s: State, id: nat, from: Side, rl: SP.RxStep)
    requires Inv(s) && id != 0 && SP.Enabled(PipeOf(s, id, from), SP.Recv(rl)) && SG.Progress(SP.Recv(rl))
    ensures Enabled(s, Act(Peer(from), Sink(id, rl)))
  {
    hide Inv, SndView, RcvView, SP.RxEnabled, SP.RxOutput, SG.Progress;
    TasksThere(At(s, Peer(from)), id, rl);
    AlwaysExactCredit(s, Peer(from), id, rl);
  }

  /** Only a stream with tasks has anything to read, copy or take. */
  lemma TasksThere(e: Endpoint, id: nat, rl: SP.RxStep)
    requires SP.RxEnabled(RcvView(e, id).rx, RcvView(e, id).open, rl) && SG.Progress(SP.Recv(rl))
    ensures id in e.sinks && RcvView(e, id).rx == e.sinks[id] && RcvView(e, id).open == (id in e.streams)
  {
  }

  lemma NextStep(s: State, id: nat, from: Side) returns (l: Step)
    requires Going(s, id, from)
    ensures Enabled(s, l) && GoesOn(s, l, id, from)
  {
    hide Enabled, PipeOf, Running, Pushes, SG.Blocked, SG.CanReopen, Reachable, Inv;
    var a := PipeOf(s, id, from);
    ReachableInv(s);
    StreamInv(s, id, from);
    var pl := SG.BlockedCanProgress(a);
    if pl.Recv? {
      SinkReady(s, id, from, pl.rl);
      l := Act(Peer(from), Sink(id, pl.rl));
    } else {
      FramesWait(s, id, from);
      l := PushEnabled(s, Pusher(a, from), id);
    }
  }

  /** Such a step advances the stream or brings its next frame nearer, and leaves all else as it has to be. */
  lemma StepAdvances(s: State, l: Step, id: nat, from: Side)
    requires Going(s, id, from) && Enabled(s, l) && GoesOn(s, l, id, from)
    ensures var a, b := PipeOf(s, id, from), PipeOf(Apply(s, l), id, from);
      && Advanced(a, b)
      && (a == b ==> Hops(At(Apply(s, l), Pusher(a, from)), id) < Hops(At(s, Pusher(a, from)), id))
    ensures Running(Apply(s, l).client) && Running(Apply(s, l).server)
    ensures !PipeOf(Apply(s, l), id, Peer(from)).snd.tx.pump.Done?
  {
    hide Apply, Enabled, Running, Hops, SG.Blocked, SG.CanReopen, PipeOf, Inv, Reachable;
    ReachableInv(s);
    var side := Pusher(PipeOf(s, id, from), from);
    if Pushes(l, side, id) {
      PushShortens(s, l, side, id);
      if l.Deliver? {
        DeliverAdvances(s, l, id, from);
      } else {
        PushIsLocal(s, l, side, id);
        SameViews(s, side, l.action, id, from);
        SameViews(s, side, l.action, id, Peer(from));
      }
    } else {
      SinkAdvances(s, l, id, from);
    }
  }

  lemma SinkAdvances(s: State, l: Step, id: nat, from: Side)
    requires Going(s, id, from) && Enabled(s, l) && l.Act? && l.side == Peer(from)
    requires l.action.Sink? && l.action.id == id && SG.Progress(SP.Recv(l.action.rl))
    ensures var a, b := PipeOf(s, id, from), PipeOf(Apply(s, l), id, from);
      Advanced(a, b) && a != b
    ensures Running(Apply(s, l).client) && Running(Apply(s, l).server)
    ensures PipeOf(Apply(s, l), id, Peer(from)).snd.tx.pump == PipeOf(s, id, Peer(from)).snd.tx.pump
  {
    hide SP.Apply, SP.Enabled, SP.Inv, HasPhase, OwnFrames, SinkApply, SinkEnabled, SndView, RcvView, SG.Weight;
    hide Reachable;
    ReachableInv(s);
    var rl := l.action.rl;
    TP.SinkTaken(s, Peer(from), id, rl);
    SG.MoveDecreases(PipeOf(s, id, from), SP.Recv(rl));
    SinkKeeps(At(s, Peer(from)), id, rl);
    AlwaysExactCredit(s, Peer(from), id, rl);
    SinkViews(At(s, Peer(from)), id, rl, id);
  }

  lemma SinkKeeps(e: Endpoint, id: nat, rl: SP.RxStep)
    requires SinkEnabled(e, id, rl)
    ensures Running(e) ==> Running(SinkApply(e, id, rl))
  {
  }

  lemma Reopens(s: State, id: nat, from: Side) returns (ls: seq<Step>)
    requires Going(s, id, from)
    ensures Runs(s, ls) && PipeOf(End(s, ls), id, from).snd.tx.outstanding < FC.RECV_WINDOW
    decreases SG.Weight(PipeOf(s, id, from)), Hops(At(s, Pusher(PipeOf(s, id, from), from)), id)
  {
    hide Inv, Apply, Enabled, PipeOf, SG.Weight, SG.Blocked, SG.CanReopen, Running, Hops, GoesOn, SP.Apply, SP.Enabled;
    hide SG.Progress, SP.Inv, Reachable;
    var l := NextStep(s, id, from);
    var s' := Then(s, l);
    var a, b := PipeOf(s, id, from), PipeOf(s', id, from);
    StepAdvances(s, l, id, from);
    ReachableInv(s);
    StreamInv(s, id, from);
    if a != b {
      var pl :| SG.Progress(pl) && SP.Enabled(a, pl) && b == SP.Apply(a, pl);
      SG.ProgressDecreases(a, pl);
    }
    if b.snd.tx.outstanding < FC.RECV_WINDOW {
      ls := [l];
      assert Runs(s', ls[1..]);
    } else {
      var rest := Reopens(s', id, from);
      ls := [l] + rest;
      assert ls[1..] == rest;
    }
  }

  lemma StreamInv(s: State, id: nat, from: Side)
    requires Inv(s) && id != 0
    ensures SP.Inv(PipeOf(s, id, from))
  {
  }

  // ----- Reachable states -----

  /** Queued replies are those an application could give: they fit a frame. */
  predicate RepliesFit(e: Endpoint) {
    forall c | c in e.cmd :: c.ReplyOpen? ==> IsAck(c.ack)
  }

  lemma ActionKeepsReplies(e: Endpoint, a: Action)
    requires RepliesFit(e) && ActionEnabled(e, a)
    ensures RepliesFit(ActionApply(e, a))
  {
    hide IsAck, AckFrame, OpenFrame, CreditFrame, SP.TxApply, SP.RxApply, SP.RxOutput;
  }

  lemma DispatchKeepsReplies(e: Endpoint, f: Frame, verdict: M.Message)
    requires RepliesFit(e) && IsResponse(verdict)
    ensures RepliesFit(Dispatch(e, f, verdict))
  {
    hide IsAck, AckFrame, ResponseFrame, AcceptsOpen, CreditAmount;
  }

  lemma {:induction false} RunKeepsReplies(s: State, ls: seq<Step>)
    requires RepliesFit(s.client) && RepliesFit(s.server) && Runs(s, ls)
    ensures RepliesFit(End(s, ls).client) && RepliesFit(End(s, ls).server)
    decreases |ls|
  {
    hide RepliesFit, ActionApply, ActionEnabled, Dispatch;
    if ls != [] {
      match ls[0] {
        case Act(side, a) => ActionKeepsReplies(At(s, side), a);
        case Deliver(side, verdict) =>
          DispatchKeepsReplies(At(s, side), At(s, Peer(side)).wire[0], verdict);
          PoppedKeepsReplies(At(s, Peer(side)));
      }
      RunKeepsReplies(Apply(s, ls[0]), ls[1..]);
    }
  }

  lemma PoppedKeepsReplies(e: Endpoint)
    requires RepliesFit(e) && e.wire != []
    ensures RepliesFit(Popped(e))
  {
  }

  lemma ReachableReplies(s: State)
    requires Reachable(s)
    ensures RepliesFit(s.client) && RepliesFit(s.server)
  {
    var sessions, ls :| Runs(Init(sessions), ls) && End(Init(sessions), ls) == s;
    RunKeepsReplies(Init(sessions), ls);
  }

  /**
   * In every reachable state of a tunnel, with both loops alive and none told to close: a blocked stream that can
   * reopen and whose peer has not closed its own half is reopened by some run of the tunnel, whatever its queues hold.
   */
  lemma WindowReopens(s: State, id: nat, from: Side) returns (ls: seq<Step>)
    requires Reachable(s) && id != 0
    requires s.client.alive && s.server.alive && CloseCmd !in s.client.cmd && CloseCmd !in s.server.cmd
    requires SG.Blocked(PipeOf(s, id, from)) && SG.CanReopen(PipeOf(s, id, from))
    requires !PipeOf(s, id, Peer(from)).snd.tx.pump.Done?
    ensures Runs(s, ls) && PipeOf(End(s, ls), id, from).snd.tx.outstanding < FC.RECV_WINDOW
  {
    hide Reachable, Runs, End, PipeOf, SG.Blocked, SG.CanReopen, IsAck;
    ReachableReplies(s);
    ls := Reopens(s, id, from);
  }
}
