/**
 * The opening of a stream, seen from one id: the request in the client's command queue, the open frame, the server's
 * pending answer, the acknowledgement, and from then on only stream frames. An id is in one phase at a time.
 */
module Lifecycle {
  import opened Bytes
  import opened Frames
  import opened Addresses
  import M = Messages
  import opened StreamPipe
  import opened Connection
  import opened StreamView

  datatype Mark = OpenMark | AckMark(ok: bool) | StreamMark
  datatype CmdMark = AskMark | ReplyMark(ok: bool)

  /** What one end knows and has sent about an id. */
  datatype Link = Link(commands: seq<CmdMark>, trail: seq<Mark>, incoming: bool, pending: bool, started: bool)

  function MarkOf(id: nat, f: Frame): seq<Mark> {
    if f.streamId != id then []
    else if f.frameType == OPEN_STREAM then [OpenMark]
    else if f.frameType == OPEN_STREAM_ACK then [AckMark(AcceptsOpen(f))]
    else if !Neutral(f) then [StreamMark]
    else []
  }

  function Trail(id: nat, fs: seq<Frame>): seq<Mark> {
    if fs == [] then [] else MarkOf(id, fs[0]) + Trail(id, fs[1..])
  }

  function CmdMarkOf(id: nat, c: Cmd): seq<CmdMark> {
    match c
    case OpenCmd(n, _) => if n == id then [AskMark] else []
    case ReplyOpen(n, ack) => if n == id then [ReplyMark(ack.OpenStreamAck? && ack.ackStatus == M.STATUS_OK)] else []
    case _ => []
  }

  function CmdMarks(id: nat, cs: seq<Cmd>): seq<CmdMark> {
    if cs == [] then [] else CmdMarkOf(id, cs[0]) + CmdMarks(id, cs[1..])
  }

  function LinkView(e: Endpoint, id: nat): Link {
    Link(CmdMarks(id, e.cmd), Trail(id, Departed(e)), id in e.incoming, id in e.pending, id in e.sources)
  }

  lemma {:induction false} TrailAppend(id: nat, a: seq<Frame>, b: seq<Frame>)
    ensures Trail(id, a + b) == Trail(id, a) + Trail(id, b)
  {
    hide MarkOf;
    if a == [] {
      assert a + b == b;
    } else {
      TrailAppend(id, a[1..], b);
      assert (a + b)[1..] == a[1..] + b;
      Associate(MarkOf(id, a[0]), Trail(id, a[1..]), Trail(id, b));
    }
  }

  lemma {:induction false} CmdMarksAppend(id: nat, a: seq<Cmd>, c: Cmd)
    ensures CmdMarks(id, a + [c]) == CmdMarks(id, a) + CmdMarkOf(id, c)
  {
    hide CmdMarkOf;
    if a == [] {
      assert [c][1..] == [];
    } else {
      CmdMarksAppend(id, a[1..], c);
      assert (a + [c])[1..] == a[1..] + [c];
    }
  }

  lemma OneMark(id: nat, f: Frame)
    ensures Trail(id, [f]) == MarkOf(id, f)
  {
    assert [f][1..] == [];
  }

  // ----- Phases -----

  datatype Phase = Unused | Asked | Requested | Offered | Replying(ok: bool) | Refused | Accepted | Open | Abandoned

  predicate AllStream(t: seq<Mark>) {
    forall i | 0 <= i < |t| :: t[i] == StreamMark
  }

  /** c and s are the two ends' views of an id; used tells whether the client has ever allocated it. */
  predicate InPhase(p: Phase, c: Link, s: Link, used: bool) {
    && (used <==> !p.Unused?)
    && c.commands == (if p.Asked? then [AskMark] else [])
    && s.commands == (if p.Replying? then [ReplyMark(p.ok)] else [])
    && !c.incoming && (s.incoming <==> p.Offered?)
    && !s.pending
    && (p.Requested? || p.Offered? || p.Replying? || p.Refused? || p.Accepted? ==> c.pending)
    && (p.Unused? || p.Asked? || p.Open? ==> !c.pending)
    && (c.started <==> p.Open?) && (s.started <==> p.Open? || p.Accepted?)
    && (if p.Requested? then c.trail == [OpenMark] else if p.Open? then AllStream(c.trail) else c.trail == [])
    && (if p.Refused? then s.trail == [AckMark(false)]
        else if p.Accepted? then s.trail != [] && s.trail[0] == AckMark(true) && AllStream(s.trail[1..])
        else if p.Open? then AllStream(s.trail)
        else s.trail == [])
  }

  /** The order in which an id moves through its phases. */
  function Rank(p: Phase): nat {
    match p
    case Unused => 0
    case Asked => 1
    case Requested => 2
    case Offered => 3
    case Replying(_) => 4
    case Refused => 5
    case Accepted => 6
    case Open => 7
    case Abandoned => 8
  }

  /** An id is in one phase at a time. */
  lemma OnePhase(p: Phase, q: Phase, c: Link, s: Link, used: bool)
    requires InPhase(p, c, s, used) && InPhase(q, c, s, used)
    ensures p == q
  {
  }

  // ----- Steps of one end -----

  /** What a step of an end can do to its view of an id. */
  datatype Change = Nothing | AddAsk | AddReply(ok: bool) | SendOpen | SendAck(ok: bool) | SendStream

  predicate Changes(v: Link, w: Link, ch: Change) {
    match ch
    case Nothing => w == v
    case AddAsk => w == v.(commands := v.commands + [AskMark])
    case AddReply(ok) => v.incoming && w == v.(commands := v.commands + [ReplyMark(ok)], incoming := false)
    case SendOpen =>
      v.commands != [] && v.commands[0] == AskMark && w.commands == v.commands[1..] && w.pending
      && (v.trail == [] ==> w.trail == [OpenMark]) && w.incoming == v.incoming && w.started == v.started
    case SendAck(ok) =>
      v.commands != [] && v.commands[0] == ReplyMark(ok) && w.commands == v.commands[1..] && w.pending == v.pending
      && (v.trail == [] ==> w.trail == [AckMark(ok)]) && w.incoming == v.incoming && w.started == (v.started || ok)
    case SendStream => v.started && w == v.(trail := v.trail + [StreamMark])
  }

  /** The phase after the client's change. */
  lemma ClientPhase(p: Phase, c: Link, s: Link, used: bool, c': Link, ch: Change) returns (q: Phase)
    requires InPhase(p, c, s, used) && Changes(c, c', ch) && (ch.AddAsk? ==> !used)
    ensures InPhase(q, c', s, used || ch.AddAsk?) && Rank(p) <= Rank(q)
  {
    q := if ch.AddAsk? then Asked else if ch.SendOpen? then Requested else p;
  }

  lemma ServerPhase(p: Phase, c: Link, s: Link, used: bool, s': Link, ch: Change) returns (q: Phase)
    requires InPhase(p, c, s, used) && Changes(s, s', ch) && !ch.AddAsk?
    ensures InPhase(q, c, s', used) && Rank(p) <= Rank(q)
  {
    q := if ch.AddReply? then Replying(ch.ok)
         else if ch.SendAck? then (if ch.ok then Accepted else Refused)
         else p;
  }

  // ----- Which change each action makes -----

  lemma PushTrail(e: Endpoint, f: Frame, id: nat)
    ensures var t, t' := Trail(id, Departed(e)), Trail(id, Departed(e.(out := e.out + [f])));
      && (MarkOf(id, f) == [] ==> t' == t)
      && (t == [] ==> t' == MarkOf(id, f))
  {
    var pre, q := e.wire + e.out, Queued(e.cmd);
    assert Departed(e.(out := e.out + [f])) == pre + ([f] + q);
    assert Departed(e) == pre + q;
    OneMark(id, f);
    TrailAppend(id, pre, [f] + q);
    TrailAppend(id, [f], q);
    TrailAppend(id, pre, q);
    hide Trail, MarkOf, Departed, Queued;
    if MarkOf(id, f) == [] {
      assert [] + Trail(id, q) == Trail(id, q);
    }
  }

  lemma SubmitTrail(e: Endpoint, c: Cmd, id: nat)
    ensures var e' := e.(cmd := e.cmd + [c]);
      && Trail(id, Departed(e')) == Trail(id, Departed(e)) + (if c.SendFrame? then MarkOf(id, c.frame) else [])
      && CmdMarks(id, e'.cmd) == CmdMarks(id, e.cmd) + CmdMarkOf(id, c)
  {
    CommandAdded(e, c);
    CmdMarksAppend(id, e.cmd, c);
    if c.SendFrame? {
      TrailAppend(id, Departed(e), [c.frame]);
      OneMark(id, c.frame);
    } else {
      assert Departed(e) + [] == Departed(e);
    }
  }

  /** An encoded acknowledgement is read as accepting exactly when its status is OK. */
  lemma AckMeaning(id: nat, ack: M.Message)
    requires IsAck(ack)
    ensures MarkOf(id, AckFrame(id, ack)) == [AckMark(ack.ackStatus == M.STATUS_OK)]
  {
    M.MessageRoundTrip(ack, []);
    assert M.MessageBytes(ack) + [] == M.MessageBytes(ack);
  }

  lemma OpenSent(e: Endpoint, id: nat) returns (ch: Change)
    requires CommandEnabled(e) && e.cmd[0].OpenCmd?
    ensures Changes(LinkView(e, id), LinkView(CommandApply(e), id), ch) && !ch.AddAsk?
  {
    var c, e1 := e.cmd[0], e.(cmd := e.cmd[1..]);
    var f := OpenFrame(c.id, c.addr);
    assert Departed(e1) == Departed(e);
    PushTrail(e1, f, id);
    assert Departed(CommandApply(e)) == Departed(e1.(out := e1.out + [f]));
    ch := if c.id == id then SendOpen else Nothing;
    hide Trail, Departed, AddressBytes;
  }

  /** The acknowledgement frame's effect on the trail, and the command's on the queue. */
  lemma AckTraffic(e: Endpoint, id: nat)
    requires CommandEnabled(e) && e.cmd[0].ReplyOpen?
    ensures var c, v, e' := e.cmd[0], LinkView(e, id), CommandApply(e);
      && (c.id != id ==> Trail(id, Departed(e')) == v.trail && CmdMarks(id, e'.cmd) == v.commands)
      && (c.id == id ==> v.commands == [ReplyMark(c.ack.ackStatus == M.STATUS_OK)] + CmdMarks(id, e'.cmd))
      && (c.id == id && v.trail == [] ==> Trail(id, Departed(e')) == [AckMark(c.ack.ackStatus == M.STATUS_OK)])
  {
    var c, e1 := e.cmd[0], e.(cmd := e.cmd[1..]);
    var f := AckFrame(c.id, c.ack);
    assert Departed(e1) == Departed(e);
    assert Departed(CommandApply(e)) == Departed(e1.(out := e1.out + [f]));
    AckMeaning(c.id, c.ack);
    assert c.id != id ==> MarkOf(id, f) == [];
    hide AckFrame, MarkOf, Departed, Trail;
    PushTrail(e1, f, id);
  }

  lemma AckSent(e: Endpoint, id: nat) returns (ch: Change)
    requires CommandEnabled(e) && e.cmd[0].ReplyOpen?
    ensures Changes(LinkView(e, id), LinkView(CommandApply(e), id), ch) && !ch.AddAsk?
  {
    AckTraffic(e, id);
    var c := e.cmd[0];
    ch := if c.id == id then SendAck(c.ack.ackStatus == M.STATUS_OK) else Nothing;
    hide AckFrame, Departed, Trail, CmdMarks;
  }

  lemma CommandChange(e: Endpoint, id: nat) returns (ch: Change)
    requires CommandEnabled(e)
    ensures Changes(LinkView(e, id), LinkView(CommandApply(e), id), ch) && !ch.AddAsk?
  {
    if e.cmd[0].OpenCmd? {
      ch := OpenSent(e, id);
    } else if e.cmd[0].ReplyOpen? {
      ch := AckSent(e, id);
    } else {
      assert e.cmd[0].SendFrame? ==>
          e.wire + ((e.out + [e.cmd[0].frame]) + Queued(e.cmd[1..])) == e.wire + (e.out + Queued(e.cmd));
      assert Departed(CommandApply(e)) == Departed(e);
      assert CmdMarks(id, e.cmd[1..]) == CmdMarks(id, e.cmd);
      ch := Nothing;
      hide Trail, CmdMarks, Departed;
    }
  }

  lemma NoMark(f: Frame, id: nat)
    requires NotOfStream(f)
    ensures MarkOf(id, f) == []
  {
  }

  /** The application's requests and answers enter the command queue; other frames belong to no stream. */
  lemma RequestChange(e: Endpoint, a: Action, id: nat) returns (ch: Change)
    requires (a.CallOpen? || a.Answer? || a.Control?) && ActionEnabled(e, a)
    ensures Changes(LinkView(e, id), LinkView(ActionApply(e, a), id), ch)
    ensures ch.AddAsk? <==> a.CallOpen? && a.id == id
  {
    hide Trail, CmdMarks, Departed, MarkOf, CommandApply, PumpApply, ForwardApply, SubmitApply, SinkApply;
    hide CommandEnabled, PumpEnabled, ForwardEnabled, SubmitEnabled, SinkEnabled;
    var c := if a.CallOpen? then OpenCmd(a.id, a.addr)
             else if a.Answer? then ReplyOpen(a.id, a.ack)
             else SendFrame(a.frame);
    SubmitTrail(e, c, id);
    DepartedUnmoved(e.(cmd := e.cmd + [c]), ActionApply(e, a));
    ch := if a.CallOpen? && a.id == id then AddAsk
          else if a.Answer? && a.id == id then AddReply(a.ack.ackStatus == M.STATUS_OK)
          else Nothing;
    if a.Control? {
      NoMark(a.frame, id);
    }
  }

  /** Each action of an end changes its view of each id in one of the listed ways. */
  lemma ActionChange(e: Endpoint, a: Action, id: nat) returns (ch: Change)
    requires Consistent(e) && ActionEnabled(e, a)
    ensures Changes(LinkView(e, id), LinkView(ActionApply(e, a), id), ch)
    ensures ch.AddAsk? <==> a.CallOpen? && a.id == id
  {
    hide Trail, CmdMarks, Changes;
    match a {
      case CallOpen(n, addr) => ch := RequestChange(e, a, id);
      case Answer(n, ack) => ch := RequestChange(e, a, id);
      case Control(f) => ch := RequestChange(e, a, id);
      case TakeCommand => ch := CommandChange(e, id);
      case Pump(n, tl) => ch := PumpChange(e, n, tl, id);
      case Submit(n) => ch := SubmitChange(e, n, id);
      case Sink(n, rl) => ch := SinkChange(e, n, rl, id);
      case _ => ch := QuietChange(e, a, id);
    }
  }

  lemma QuietChange(e: Endpoint, a: Action, id: nat) returns (ch: Change)
    requires (a.Tick? || a.Write? || a.Forward? || a.Stop?) && ActionEnabled(e, a)
    ensures Changes(LinkView(e, id), LinkView(ActionApply(e, a), id), ch) && !ch.AddAsk?
  {
    hide Trail, CmdMarks, Departed;
    ch := Nothing;
    if a.Tick? {
      PushTrail(e, Frame(0, PING, []), id);
    } else {
      QuietDeparted(e, a);
    }
  }

  lemma QuietDeparted(e: Endpoint, a: Action)
    requires (a.Write? || a.Forward? || a.Stop?) && ActionEnabled(e, a)
    ensures Departed(ActionApply(e, a)) == Departed(e)
  {
    hide Queued;
  }

  lemma PumpChange(e: Endpoint, n: nat, tl: TxStep, id: nat) returns (ch: Change)
    requires n != 0 && PumpEnabled(e, n, tl)
    ensures Changes(LinkView(e, id), LinkView(PumpApply(e, n, tl), id), ch) && !ch.AddAsk?
  {
    var e' := PumpApply(e, n, tl);
    if tl.SendFin? {
      SubmitTrail(e, SendFrame(CloseFrame(n)), id);
      assert Departed(e') == Departed(e.(cmd := e.cmd + [SendFrame(CloseFrame(n))]));
      ch := if n == id then SendStream else Nothing;
    } else {
      assert Departed(e') == Departed(e);
      ch := Nothing;
    }
    hide Trail, CmdMarks, Departed, TxApply, TxEnabled, PumpSource;
  }

  lemma SubmitChange(e: Endpoint, n: nat, id: nat) returns (ch: Change)
    requires n != 0 && SubmitEnabled(e, n) && OwnFrames(n, e.sources[n])
    ensures Changes(LinkView(e, id), LinkView(SubmitApply(e, n), id), ch) && !ch.AddAsk?
  {
    hide Trail, CmdMarks, Departed;
    var f := e.sources[n].fwd.value;
    SubmitTrail(e, SendFrame(f), id);
    DepartedUnmoved(e.(cmd := e.cmd + [SendFrame(f)]), SubmitApply(e, n));
    ch := if n == id then SendStream else Nothing;
  }

  lemma SinkChange(e: Endpoint, n: nat, rl: RxStep, id: nat) returns (ch: Change)
    requires n != 0 && n in e.sources && SinkEnabled(e, n, rl)
    ensures Changes(LinkView(e, id), LinkView(SinkApply(e, n, rl), id), ch) && !ch.AddAsk?
  {
    hide Trail, CmdMarks, Departed, RxApply, RxEnabled, RxOutput;
    var e', credit := SinkApply(e, n, rl), RxOutput(e.sinks[n], n in e.streams, rl);
    if credit == [] {
      DepartedUnmoved(e, e');
      ch := Nothing;
    } else {
      var c := SendFrame(CreditFrame(n, credit[0]));
      SubmitTrail(e, c, id);
      DepartedUnmoved(e.(cmd := e.cmd + [c]), e');
      ch := if n == id then SendStream else Nothing;
    }
  }
}
