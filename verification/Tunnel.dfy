/**
 * Two connected ends of a WebSocket tunnel carrying any number of streams over one ordered wire each way. Every
 * stream, in each direction, is shown to behave as the single-stream system of StreamPipe on its own.
 */
module Tunnel {
  import opened Bytes
  import opened Varint
  import opened Frames
  import M = Messages
  import FC = FlowControl
  import SP = StreamPipe
  import SG = StreamGuarantees
  import opened Connection
  import opened StreamView
  import opened Lifecycle
  import opened Routing

  datatype Side = Client | Server

  /** used is the set of ids the client has allocated so far: its counter never repeats one. */
  datatype State = State(client: Endpoint, server: Endpoint, used: set<nat>)

  function Peer(side: Side): Side {
    if side.Client? then Server else Client
  }

  function At(s: State, side: Side): Endpoint {
    if side.Client? then s.client else s.server
  }

  function With(s: State, side: Side, e: Endpoint): State {
    if side.Client? then s.(client := e) else s.(server := e)
  }

  /** Only the server authenticates; it may or may not enforce per-session authentication. */
  function Init(sessions: Option<set<nat>>): State {
    State(NewEndpoint(false, None), NewEndpoint(true, sessions), {})
  }

  datatype Step = Act(side: Side, action: Action) | Deliver(side: Side, verdict: M.Message)

  /** Streams are opened by the client, under ids never used before. */
  predicate Enabled(s: State, l: Step) {
    match l
    case Act(side, a) =>
      ActionEnabled(At(s, side), a) && (a.CallOpen? ==> side.Client? && a.id !in s.used && a.id != 0)
    case Deliver(side, verdict) =>
      At(s, side).alive && At(s, Peer(side)).wire != [] && IsResponse(verdict)
  }

  function Apply(s: State, l: Step): State
    requires Enabled(s, l)
  {
    match l
    case Act(side, a) =>
      With(s, side, ActionApply(At(s, side), a)).(used := if a.CallOpen? then s.used + {a.id} else s.used)
    case Deliver(side, verdict) =>
      var f := At(s, Peer(side)).wire[0];
      With(With(s, Peer(side), Popped(At(s, Peer(side)))), side, Dispatch(At(s, side), f, verdict))
  }

  // ----- The invariant -----

  /** The direction of stream id whose data is sent by side `from`. */
  function PipeOf(s: State, id: nat, from: Side): SP.Pipe {
    SP.Pipe(SndView(At(s, from), id), RcvView(At(s, Peer(from)), id))
  }

  predicate Phased(p: Phase, s: State, id: nat) {
    InPhase(p, LinkView(s.client, id), LinkView(s.server, id), id in s.used)
  }

  ghost predicate HasPhase(s: State, id: nat) {
    exists p :: Phased(p, s, id)
  }

  ghost predicate Inv(s: State) {
    && Consistent(s.client) && Consistent(s.server) && 0 !in s.used
    && (forall id: nat :: HasPhase(s, id))
    && (forall id: nat, from: Side | id != 0 :: SP.Inv(PipeOf(s, id, from)))
  }

  lemma InitInv(sessions: Option<set<nat>>)
    ensures Inv(Init(sessions))
  {
    var s := Init(sessions);
    forall id: nat
      ensures HasPhase(s, id)
    {
      assert Phased(Unused, s, id);
    }
    forall id: nat, from: Side | id != 0
      ensures SP.Inv(PipeOf(s, id, from))
    {
      assert PipeOf(s, id, from) == SP.INIT;
      SP.InitInv();
    }
  }

  // ----- What the invariant says about the next step -----

  lemma HeadMark(s: State, side: Side)
    requires At(s, Peer(side)).wire != []
    ensures var f := At(s, Peer(side)).wire[0];
      LinkView(At(s, Peer(side)), f.streamId).trail
        == MarkOf(f.streamId, f) + LinkView(Popped(At(s, Peer(side))), f.streamId).trail
  {
    WirePop(At(s, Peer(side)), At(s, Peer(side)).wire[0].streamId);
  }

  /** No stream frame arrives before the tasks of its stream exist, and no acknowledgement after. */
  lemma AlwaysRoutable(s: State, side: Side)
    requires Inv(s) && At(s, side).alive && At(s, Peer(side)).wire != []
    ensures Routable(At(s, side), At(s, Peer(side)).wire[0])
  {
    hide LinkView, AcceptsOpen, Consistent, PipeOf;
    var f := At(s, Peer(side)).wire[0];
    var id := f.streamId;
    HeadMark(s, side);
    assert HasPhase(s, id);
    var p :| Phased(p, s, id);
    LinkFields(At(s, side), id);
    if !Neutral(f) || (f.frameType == OPEN_STREAM_ACK && id in At(s, side).pending) {
      var t := LinkView(At(s, Peer(side)), id).trail;
      assert t != [] && t[0] == MarkOf(id, f)[0];
    }
  }

  lemma LinkFields(e: Endpoint, id: nat)
    ensures var v := LinkView(e, id);
      v.pending == (id in e.pending) && v.started == (id in e.sources) && v.incoming == (id in e.incoming)
      && (e.cmd != [] ==> v.commands == CmdMarkOf(id, e.cmd[0]) + CmdMarks(id, e.cmd[1..]))
  {
  }

  lemma AlwaysFreshReply(s: State, side: Side)
    requires Inv(s)
    ensures FreshReply(At(s, side))
  {
    var e := At(s, side);
    if e.cmd != [] && e.cmd[0].ReplyOpen? {
      var id := e.cmd[0].id;
      assert HasPhase(s, id);
      var p :| Phased(p, s, id);
      LinkFields(e, id);
      hide LinkView, CmdMarks;
      assert LinkView(e, id).commands[0].ReplyMark?;
    }
  }

  /** Every credit sent fits a varint, because the window bounds it. */
  lemma AlwaysExactCredit(s: State, side: Side, n: nat, rl: SP.RxStep)
    requires Inv(s)
    ensures ExactCredit(At(s, side), n, rl)
  {
    var e := At(s, side);
    if n in e.sinks && SP.RxEnabled(e.sinks[n], n in e.streams, rl) {
      assert n != 0;
      var pipe := PipeOf(s, n, Peer(side));
      assert pipe.rcv == RcvView(e, n);
      assert SP.Inv(pipe);
      CreditsExact(pipe, rl);
    }
  }

  lemma CreditsExact(pipe: SP.Pipe, rl: SP.RxStep)
    requires SP.Inv(pipe) && SP.RxEnabled(pipe.rcv.rx, pipe.rcv.open, rl)
    ensures var out := SP.RxOutput(pipe.rcv.rx, pipe.rcv.open, rl);
      forall i | 0 <= i < |out| :: out[i] < TWO_62
  {
    SP.NextKeeps(pipe, SP.Recv(rl));
    var pipe' := SP.Apply(pipe, SP.Recv(rl));
    var out := SP.RxOutput(pipe.rcv.rx, pipe.rcv.open, rl);
    SG.WindowSafety(pipe');
    hide SP.Inv;
    forall i | 0 <= i < |out|
      ensures out[i] < TWO_62
    {
      assert pipe'.rcv.credits[|pipe.rcv.credits| + i] == out[i];
    }
  }

  // ----- Refinement: each stream sees one step of its own, or none -----

  /** A step of one stream direction, or no change to it. */
  ghost predicate StepOrStutter(a: SP.Pipe, b: SP.Pipe) {
    a == b || SP.Next(a, b)
  }

  lemma SenderMoves(a: SP.Pipe, b: SP.Pipe)
    requires SenderStep(a.snd, b.snd) && a.rcv == b.rcv
    ensures StepOrStutter(a, b)
  {
    hide SP.TxApply, SP.TxEnabled, SP.TxOutput;
    if a.snd == b.snd {
    } else if b.snd == a.snd.(entry := false) {
      assert SP.Enabled(a, SP.DropEntry) && b == SP.Apply(a, SP.DropEntry);
    } else {
      var tl :| SP.TxEnabled(a.snd.tx, tl)
        && b.snd == SP.Sender(SP.TxApply(a.snd.tx, tl), a.snd.entry, a.snd.path + SP.TxOutput(a.snd.tx, tl));
      assert SP.Enabled(a, SP.Send(tl)) && b == SP.Apply(a, SP.Send(tl));
    }
  }

  lemma ReceiverMoves(a: SP.Pipe, b: SP.Pipe)
    requires ReceiverStep(a.rcv, b.rcv) && a.snd == b.snd
    ensures StepOrStutter(a, b)
  {
    hide SP.RxApply, SP.RxEnabled, SP.RxOutput;
    if a.rcv == b.rcv {
    } else if b.rcv == a.rcv.(open := false, torn := true) {
      assert SP.Enabled(a, SP.Teardown) && b == SP.Apply(a, SP.Teardown);
    } else {
      var rl :| ReceiverTakes(a.rcv, b.rcv, rl);
      assert SP.Enabled(a, SP.Recv(rl)) && b == SP.Apply(a, SP.Recv(rl));
    }
  }

  /** Handling frame f moves data from the peer one hop, or applies one credit, or drops the credit entry. */
  lemma FrameMoves(a: SP.Pipe, b: SP.Pipe, id: nat, f: Frame, forward: bool)
    requires !a.rcv.torn || !forward
    requires forward ==> a.snd == b.snd.(path := ItemOf(id, f) + b.snd.path) && b.rcv == ReceiverAfter(a.rcv, id, f)
    requires !forward ==>
      a.rcv == b.rcv.(credits := CreditOf(id, f) + b.rcv.credits) && b.snd == SenderAfter(a.snd, id, f)
    ensures StepOrStutter(a, b)
  {
    hide DecodeVarint;
    if forward {
      if ItemOf(id, f) != [] {
        assert SP.Enabled(a, SP.Deliver) && b == SP.Apply(a, SP.Deliver);
      }
    } else if CreditOf(id, f) != [] {
      assert SP.Enabled(a, SP.Grant) && b == SP.Apply(a, SP.Grant);
    } else if ItemOf(id, f) == [SP.Fin] {
      assert SP.Enabled(a, SP.DropEntry) && b == SP.Apply(a, SP.DropEntry);
    }
  }

  lemma ActRefines(s: State, side: Side, action: Action, id: nat, from: Side)
    requires Inv(s) && Enabled(s, Act(side, action)) && id != 0
    ensures StepOrStutter(PipeOf(s, id, from), PipeOf(Apply(s, Act(side, action)), id, from))
  {
    hide SndView, RcvView, HasPhase, StepOrStutter, SP.Inv, SP.Apply, ActionApply, ActionEnabled;
    AlwaysFreshReply(s, side);
    if action.Sink? {
      AlwaysExactCredit(s, side, action.id, action.rl);
    }
    ActionViews(At(s, side), action, id);
    var a, b := PipeOf(s, id, from), PipeOf(Apply(s, Act(side, action)), id, from);
    if side == from {
      SenderMoves(a, b);
    } else {
      ReceiverMoves(a, b);
    }
  }

  lemma DeliverRefines(s: State, side: Side, verdict: M.Message, id: nat, from: Side)
    requires Inv(s) && Enabled(s, Deliver(side, verdict)) && id != 0
    ensures StepOrStutter(PipeOf(s, id, from), PipeOf(Apply(s, Deliver(side, verdict)), id, from))
  {
    hide SndView, RcvView, SenderAfter, ReceiverAfter, ItemOf, CreditOf, Dispatch, HasPhase, StepOrStutter, SP.Inv;
    var e, f := At(s, Peer(side)), At(s, Peer(side)).wire[0];
    AlwaysRoutable(s, side);
    WirePop(e, id);
    DispatchViews(At(s, side), f, verdict, id);
    RcvTorn(At(s, side), id);
    FrameMoves(PipeOf(s, id, from), PipeOf(Apply(s, Deliver(side, verdict)), id, from), id, f, side != from);
  }

  /**
   * Multiplexing is invisible: whatever the tunnel does, each direction of each stream takes one of its own steps or
   * none.
   */
  lemma TunnelRefinesStreams(s: State, l: Step, id: nat, from: Side)
    requires Inv(s) && Enabled(s, l) && id != 0
    ensures StepOrStutter(PipeOf(s, id, from), PipeOf(Apply(s, l), id, from))
  {
    hide Inv, Apply, Enabled, PipeOf, StepOrStutter;
    match l {
      case Act(side, action) => ActRefines(s, side, action, id, from);
      case Deliver(side, verdict) => DeliverRefines(s, side, verdict, id, from);
    }
  }

  lemma RcvTorn(e: Endpoint, id: nat)
    ensures RcvView(e, id).torn == !e.alive
  {
  }

  // ----- The invariant is kept -----

  lemma ActKeepsPhase(s: State, side: Side, a: Action, id: nat, p: Phase) returns (q: Phase)
    requires Inv(s) && Enabled(s, Act(side, a)) && Phased(p, s, id)
    ensures Phased(q, Apply(s, Act(side, a)), id) && Rank(p) <= Rank(q)
  {
    var s' := Apply(s, Act(side, a));
    var ch := ActionChange(At(s, side), a, id);
    hide LinkView, InPhase, Changes;
    if side.Client? {
      q := ClientPhase(p, LinkView(s.client, id), LinkView(s.server, id), id in s.used, LinkView(s'.client, id), ch);
    } else {
      q := ServerPhase(p, LinkView(s.client, id), LinkView(s.server, id), id in s.used, LinkView(s'.server, id), ch);
    }
  }

  /**
   * The phase after frame f, sent by the end viewed as v0 and v1 (before and after), is handled by the one viewed as
   * w0 and w1.
   */
  lemma FramePhase(
      p: Phase, fromClient: bool, v0: Link, v1: Link, w0: Link, w1: Link, used: bool, id: nat, f: Frame)
    returns (q: Phase)
    requires if fromClient then InPhase(p, v0, w0, used) else InPhase(p, w0, v0, used)
    requires v0 == v1.(trail := MarkOf(id, f) + v1.trail)
    requires LinkAfter(w0, w1, id, f)
    ensures if fromClient then InPhase(q, v1, w1, used) else InPhase(q, w1, v1, used)
    ensures Rank(p) <= Rank(q)
  {
    hide AcceptsOpen;
    var marks := MarkOf(id, f);
    q := p;
    if marks == [] {
      assert v0 == v1;
    } else {
      assert v0.trail[0] == marks[0] && v0.trail[1..] == v1.trail;
      if marks[0] == OpenMark {
        q := if w1 == w0 then Abandoned else if w1.incoming then Offered else Refused;
      } else if marks[0].AckMark? {
        q := if marks[0].ok then Open else Abandoned;
      }
    }
  }

  lemma DeliverKeepsPhase(s: State, side: Side, verdict: M.Message, id: nat, p: Phase) returns (q: Phase)
    requires Enabled(s, Deliver(side, verdict)) && Phased(p, s, id)
    ensures Phased(q, Apply(s, Deliver(side, verdict)), id) && Rank(p) <= Rank(q)
  {
    var e, h := At(s, Peer(side)), At(s, side);
    var f := e.wire[0];
    WirePop(e, id);
    DispatchLink(h, f, verdict, id);
    hide LinkView, InPhase, MarkOf, LinkAfter, Dispatch;
    q := FramePhase(p, side.Server?, LinkView(e, id), LinkView(Popped(e), id),
                    LinkView(h, id), LinkView(Dispatch(h, f, verdict), id), id in s.used, id, f);
  }

  /** Ids only move forward through their phases. */
  lemma StepKeepsPhase(s: State, l: Step, id: nat, p: Phase) returns (q: Phase)
    requires Inv(s) && Enabled(s, l) && Phased(p, s, id)
    ensures Phased(q, Apply(s, l), id) && Rank(p) <= Rank(q)
  {
    hide Inv, LinkView, InPhase;
    match l {
      case Act(side, a) => q := ActKeepsPhase(s, side, a, id, p);
      case Deliver(side, verdict) => q := DeliverKeepsPhase(s, side, verdict, id, p);
    }
  }

  lemma StepKeepsEnds(s: State, l: Step)
    requires Inv(s) && Enabled(s, l)
    ensures Consistent(Apply(s, l).client) && Consistent(Apply(s, l).server) && 0 !in Apply(s, l).used
  {
    match l {
      case Act(side, a) =>
        AlwaysFreshReply(s, side);
        ActionConsistent(At(s, side), a);
        hide Consistent, ActionApply, ActionEnabled;
      case Deliver(side, verdict) =>
        var e := At(s, Peer(side));
        AlwaysRoutable(s, side);
        DispatchConsistent(At(s, side), e.wire[0], verdict);
        SameTasks(e, Popped(e));
        hide Consistent, Dispatch;
    }
  }

  /** Every step of the tunnel keeps the invariant, for every stream at once. */
  lemma StepKeepsInv(s: State, l: Step)
    requires Inv(s) && Enabled(s, l)
    ensures Inv(Apply(s, l))
  {
    var s' := Apply(s, l);
    StepKeepsEnds(s, l);
    forall id: nat
      ensures HasPhase(s', id)
    {
      assert HasPhase(s, id);
      var p :| Phased(p, s, id);
      var q := StepKeepsPhase(s, l, id, p);
    }
    forall id: nat, from: Side | id != 0
      ensures SP.Inv(PipeOf(s', id, from))
    {
      StreamKept(s, l, id, from);
    }
    hide Phased, Consistent, PipeOf, Enabled, Apply;
  }

  lemma StreamKept(s: State, l: Step, id: nat, from: Side)
    requires Inv(s) && Enabled(s, l) && id != 0
    ensures SP.Inv(PipeOf(Apply(s, l), id, from))
  {
    TunnelRefinesStreams(s, l, id, from);
    var a, b := PipeOf(s, id, from), PipeOf(Apply(s, l), id, from);
    assert SP.Inv(a);
    hide Inv, SP.Inv, PipeOf, Apply, SP.Apply, SP.Enabled;
    if a != b {
      var pl :| SP.Enabled(a, pl) && b == SP.Apply(a, pl);
      SP.NextKeeps(a, pl);
    }
  }

  // ----- Runs -----

  ghost predicate Runs(s: State, ls: seq<Step>)
    decreases |ls|
  {
    ls == [] || (Enabled(s, ls[0]) && Runs(Apply(s, ls[0]), ls[1..]))
  }

  ghost function End(s: State, ls: seq<Step>): State
    requires Runs(s, ls)
    decreases |ls|
  {
    if ls == [] then s else End(Apply(s, ls[0]), ls[1..])
  }

  lemma {:induction false} RunKeepsInv(s: State, ls: seq<Step>)
    requires Inv(s) && Runs(s, ls)
    ensures Inv(End(s, ls))
    decreases |ls|
  {
    if ls != [] {
      StepKeepsInv(s, ls[0]);
      hide Inv;
      RunKeepsInv(Apply(s, ls[0]), ls[1..]);
    }
  }

  ghost predicate Reachable(s: State) {
    exists sessions, ls :: Runs(Init(sessions), ls) && End(Init(sessions), ls) == s
  }

  lemma {:induction false} RunSnoc(s: State, ls: seq<Step>, l: Step)
    requires Runs(s, ls) && Enabled(End(s, ls), l)
    ensures Runs(s, ls + [l]) && End(s, ls + [l]) == Apply(End(s, ls), l)
    decreases |ls|
  {
    hide Enabled, Apply;
    if ls == [] {
      assert ls + [l] == [l] && [l][1..] == [];
    } else {
      assert (ls + [l])[1..] == ls[1..] + [l];
      RunSnoc(Apply(s, ls[0]), ls[1..], l);
    }
  }

  /** A reachable state's successors are reachable. */
  lemma Then(s: State, l: Step) returns (s': State)
    requires Reachable(s) && Enabled(s, l)
    ensures s' == Apply(s, l) && Reachable(s')
  {
    hide Enabled, Apply;
    var sessions, ls :| Runs(Init(sessions), ls) && End(Init(sessions), ls) == s;
    RunSnoc(Init(sessions), ls, l);
    s' := Apply(s, l);
  }

  lemma ReachableInv(s: State)
    requires Reachable(s)
    ensures Inv(s)
  {
    var sessions, ls :| Runs(Init(sessions), ls) && End(Init(sessions), ls) == s;
    hide Inv;
    InitInv(sessions);
    RunKeepsInv(Init(sessions), ls);
  }

  // ----- The guarantees -----

  /** Everything the application at one end has written to a stream. */
  function Written(e: Endpoint, id: nat): seq<byte> {
    if id in e.sources then e.sources[id].tx.written else []
  }

  /** Everything the application at one end has read from a stream. */
  function ReadSoFar(e: Endpoint, id: nat): seq<byte> {
    if id in e.sinks then e.sinks[id].read else []
  }

  /** On every stream of every tunnel run, both ways, what is read is a prefix of what the peer wrote. */
  lemma StreamsStayInOrder(s: State, id: nat, side: Side)
    requires Reachable(s) && id != 0
    ensures ReadSoFar(At(s, side), id) <= Written(At(s, Peer(side)), id)
  {
    ReachableInv(s);
    var pipe := PipeOf(s, id, Peer(side));
    assert SP.Inv(pipe);
    assert pipe.rcv.rx.read == ReadSoFar(At(s, side), id) && pipe.snd.tx.written == Written(At(s, Peer(side)), id);
    hide Inv, PipeOf;
  }

  /** A reader that meets end of stream on a live loop has read everything, unless the peer's own read failed. */
  lemma EndOfStreamIsComplete(s: State, id: nat, side: Side)
    requires Reachable(s) && id in At(s, side).sinks && At(s, side).alive
    requires At(s, side).sinks[id].shut && At(s, side).sinks[id].outbuf == []
    ensures id in At(s, Peer(side)).sources
    ensures var tx := At(s, Peer(side)).sources[id].tx;
      !tx.failed ==> At(s, side).sinks[id].read == tx.written && tx.appClosed
  {
    ReachableInv(s);
    assert id != 0;
    var pipe := PipeOf(s, id, Peer(side));
    assert SP.Inv(pipe);
    assert pipe.snd.tx.pump.Done?;
    hide Inv, SP.Inv;
  }

  /** A data frame is never dropped: when it is handled, its stream is registered. */
  lemma NoDataDropped(s: State, side: Side)
    requires Reachable(s) && At(s, side).alive && At(s, Peer(side)).wire != []
    requires At(s, Peer(side)).wire[0].frameType == STREAM_DATA && At(s, Peer(side)).wire[0].streamId != 0
    ensures At(s, Peer(side)).wire[0].streamId in At(s, side).streams
  {
    hide Reachable, SP.Inv, SP.Apply, HasPhase, OwnFrames, SndView, RcvView;
    ReachableInv(s);
    var e, f := At(s, Peer(side)), At(s, Peer(side)).wire[0];
    var id := f.streamId;
    AlwaysRoutable(s, side);
    WirePop(e, id);
    var pipe := PipeOf(s, id, Peer(side));
    assert SP.Inv(pipe);
    assert ItemOf(id, f) == [SP.Chunk(f.body)];
    RcvTorn(At(s, side), id);
    SP.DeliverKeeps(pipe);
    OpenIsRouted(At(s, side), id);
  }

  lemma OpenIsRouted(e: Endpoint, id: nat)
    requires id in e.sources && e.sources.Keys == e.sinks.Keys
    ensures RcvView(e, id).open == (id in e.streams)
  {
  }

  /** In a reachable state the routing and credit tables have the same keys, at both ends. */
  lemma TablesAlwaysAgree(s: State, side: Side)
    requires Reachable(s)
    ensures At(s, side).streams == At(s, side).credits && At(s, side).streams <= At(s, side).sources.Keys
  {
    ReachableInv(s);
  }

  /** The bytes one end buffers for a stream, and any credit it owes, are bounded by one window and one chunk. */
  lemma BuffersAreBounded(s: State, id: nat, side: Side)
    requires Reachable(s) && id in At(s, side).sinks
    ensures var r := At(s, side).sinks[id];
      |SP.Flat(r.queue)| + |r.cur| + |r.outbuf| + r.pending <= FC.RECV_WINDOW - 1 + FC.CHUNK
  {
    ReachableInv(s);
    assert id != 0;
    var pipe := PipeOf(s, id, Peer(side));
    assert SP.Inv(pipe);
    SG.WindowSafety(pipe);
    hide Inv, SP.Inv;
  }

  /**
   * On every stream of every run, the counter stands between zero and one chunk above the bytes accounted and not
   * granted.
   */
  lemma DriftIsBounded(s: State, id: nat, side: Side)
    requires Reachable(s) && id in At(s, side).sources
    ensures var tx := At(s, side).sources[id].tx;
      tx.accounted - tx.granted <= tx.outstanding <= tx.accounted - tx.granted + FC.CHUNK
  {
    ReachableInv(s);
    assert id != 0;
    var pipe := PipeOf(s, id, side);
    assert SP.Inv(pipe);
    hide Inv;
  }

  /**
   * A blocked sender has at least 229377 bytes of data or credit of its own stream in transit, unless its peer's writer
   * failed or holds back a refused credit.
   */
  lemma BlockedSenderHasTraffic(s: State, id: nat, side: Side)
    requires Reachable(s) && id in At(s, side).credits && id in At(s, side).sources && At(s, Peer(side)).alive
    requires var tx := At(s, side).sources[id].tx; tx.pump.Waiting? && tx.outstanding >= FC.RECV_WINDOW
    requires id in At(s, Peer(side)).sinks ==>
      At(s, Peer(side)).sinks[id].pending < FC.CREDIT_BATCH && !At(s, Peer(side)).sinks[id].dead
    ensures var pipe := PipeOf(s, id, side); SP.InFlight(pipe) + SP.Sum(pipe.rcv.credits) >= 229377
  {
    ReachableInv(s);
    assert id != 0;
    var pipe := PipeOf(s, id, side);
    assert SP.Inv(pipe) && SG.Blocked(pipe) && SG.Healthy(pipe);
    hide Inv, SP.Inv;
    SG.BlockedMeansInTransit(pipe);
  }

  /** A frame with a mark that follows another has its mark past the first place of the trail. */
  lemma LaterMark(id: nat, fs: seq<Frame>, i: nat, j: nat) returns (k: nat)
    requires i < j < |fs| && |MarkOf(id, fs[i])| == |MarkOf(id, fs[j])| == 1
    ensures 0 < k < |Trail(id, fs)| && Trail(id, fs)[k] == MarkOf(id, fs[j])[0]
  {
    hide MarkOf;
    k := |Trail(id, fs[..j])|;
    assert fs == fs[..j] + fs[j..] && fs[..j] == fs[..i] + fs[i..j];
    TrailAppend(id, fs[..j], fs[j..]);
    TrailAppend(id, fs[..i], fs[i..j]);
  }

  lemma AckIsFirst(p: Phase, c: Link, v: Link, used: bool, k: nat)
    requires InPhase(p, c, v, used) && 0 < k < |v.trail|
    ensures !v.trail[k].AckMark?
  {
    if p.Accepted? {
      assert v.trail[1..][k - 1] == v.trail[k];
    }
  }
}
