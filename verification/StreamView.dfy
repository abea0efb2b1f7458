/**
 * What one end of a tunnel contributes to one direction of one stream: its sending side (tasks, table entry, and the
 * stream's items among all frames on their way out) and its receiving side (queue, writer, and returning credit).
 * Every step of the end moves each view by one step of the single-stream system, or not at all.
 */
module StreamView {
  import opened Bytes
  import opened Varint
  import opened Frames
  import M = Messages
  import opened StreamPipe
  import opened Connection

  // ----- Frames of one stream among many -----

  function ItemOf(id: nat, f: Frame): seq<Item> {
    if f.streamId != id then []
    else if f.frameType == STREAM_DATA then [Chunk(f.body)]
    else if f.frameType == STREAM_CLOSE then [Fin]
    else []
  }

  function CreditOf(id: nat, f: Frame): seq<nat> {
    if f.streamId == id && f.frameType == STREAM_CREDIT && CreditAmount(f).Some? then [CreditAmount(f).value] else []
  }

  function Items(id: nat, fs: seq<Frame>): seq<Item> {
    if fs == [] then [] else ItemOf(id, fs[0]) + Items(id, fs[1..])
  }

  function Credits(id: nat, fs: seq<Frame>): seq<nat> {
    if fs == [] then [] else CreditOf(id, fs[0]) + Credits(id, fs[1..])
  }

  /** The frames waiting in the command queue. */
  function Queued(cs: seq<Cmd>): seq<Frame> {
    if cs == [] then [] else (if cs[0].SendFrame? then [cs[0].frame] else []) + Queued(cs[1..])
  }

  function Undeparted(s: Source): seq<Frame> {
    (if s.fwd.Some? then [s.fwd.value] else []) + s.q
  }

  /** Frames that left the tasks: on the wire, in the writer's queue, in the command queue, oldest first. */
  function Departed(e: Endpoint): seq<Frame> {
    e.wire + (e.out + Queued(e.cmd))
  }

  lemma DepartedUnmoved(e: Endpoint, e': Endpoint)
    requires e'.cmd == e.cmd && e'.out == e.out && e'.wire == e.wire
    ensures Departed(e') == Departed(e)
  {
  }

  lemma {:induction false} ItemsAppend(id: nat, a: seq<Frame>, b: seq<Frame>)
    ensures Items(id, a + b) == Items(id, a) + Items(id, b)
  {
    if a == [] {
      assert a + b == b;
    } else {
      hide ItemOf;
      ItemsAppend(id, a[1..], b);
      assert (a + b)[1..] == a[1..] + b;
      Associate(ItemOf(id, a[0]), Items(id, a[1..]), Items(id, b));
    }
  }

  lemma {:induction false} CreditsAppend(id: nat, a: seq<Frame>, b: seq<Frame>)
    ensures Credits(id, a + b) == Credits(id, a) + Credits(id, b)
  {
    if a == [] {
      assert a + b == b;
    } else {
      hide CreditOf;
      CreditsAppend(id, a[1..], b);
      assert (a + b)[1..] == a[1..] + b;
      Associate(CreditOf(id, a[0]), Credits(id, a[1..]), Credits(id, b));
    }
  }

  lemma {:induction false} QueuedAppend(a: seq<Cmd>, c: Cmd)
    ensures Queued(a + [c]) == Queued(a) + (if c.SendFrame? then [c.frame] else [])
  {
    if a == [] {
      assert [c][1..] == [];
    } else {
      QueuedAppend(a[1..], c);
      assert (a + [c])[1..] == a[1..] + [c];
    }
  }

  lemma OneFrame(id: nat, f: Frame)
    ensures Items(id, [f]) == ItemOf(id, f) && Credits(id, [f]) == CreditOf(id, f)
  {
    assert [f][1..] == [];
  }

  // ----- Views -----

  function SndView(e: Endpoint, id: nat): Sender {
    if id in e.sources
    then Sender(e.sources[id].tx, id in e.credits, Items(id, Departed(e)) + Items(id, Undeparted(e.sources[id])))
    else Sender(FRESH_TX, e.alive, Items(id, Departed(e)))
  }

  function RcvView(e: Endpoint, id: nat): Receiver {
    if id in e.sinks
    then Receiver(e.sinks[id], id in e.streams, !e.alive, Credits(id, Departed(e)))
    else Receiver(FRESH_RX, e.alive, !e.alive, Credits(id, Departed(e)))
  }

  /** A stream's tasks exist only at an end whose departing frames may mention it; a stopped end routes nothing. */
  ghost predicate Consistent(e: Endpoint) {
    && TablesAgree(e)
    && (!e.alive ==> e.streams == {})
    && (forall id | id in e.sources :: id != 0
          && OwnFrames(id, e.sources[id]))
  }

  /** The pump's queue and its forwarder hold data frames of the pump's own stream. */
  ghost predicate OwnFrames(id: nat, s: Source) {
    && (forall i | 0 <= i < |s.q| :: s.q[i].streamId == id && s.q[i].frameType == STREAM_DATA)
    && (s.fwd.Some? ==> s.fwd.value.streamId == id && s.fwd.value.frameType == STREAM_DATA)
  }

  // ----- One step of an end, seen by one stream -----

  ghost predicate SenderStep(a: Sender, b: Sender) {
    || a == b
    || b == a.(entry := false)
    || (exists tl :: TxEnabled(a.tx, tl) && b == Sender(TxApply(a.tx, tl), a.entry, a.path + TxOutput(a.tx, tl)))
  }

  ghost predicate ReceiverStep(a: Receiver, b: Receiver) {
    || a == b
    || b == a.(open := false, torn := true)
    || exists rl :: ReceiverTakes(a, b, rl)
  }

  /** The receiving side takes one step of its own. */
  ghost predicate ReceiverTakes(a: Receiver, b: Receiver, rl: RxStep) {
    && RxEnabled(a.rx, a.open, rl)
    && b == a.(rx := RxApply(a.rx, a.open, rl), credits := a.credits + RxOutput(a.rx, a.open, rl))
  }

  /** The next command does not start tasks for a stream that already has them. */
  ghost predicate FreshReply(e: Endpoint) {
    e.cmd != [] && e.cmd[0].ReplyOpen? ==> e.cmd[0].id !in e.sources && e.cmd[0].id != 0
  }

  /** The credit a step returns, if any, fits a varint. */
  ghost predicate ExactCredit(e: Endpoint, n: nat, rl: RxStep) {
    n in e.sinks && RxEnabled(e.sinks[n], n in e.streams, rl) ==>
      var credit := RxOutput(e.sinks[n], n in e.streams, rl);
      forall i | 0 <= i < |credit| :: credit[i] < TWO_62
  }

  predicate Neutral(f: Frame) {
    f.streamId == 0 || f.frameType !in {STREAM_DATA, STREAM_CLOSE, STREAM_CREDIT}
  }

  lemma NeutralFrame(id: nat, f: Frame)
    requires Neutral(f) && id != 0
    ensures ItemOf(id, f) == [] && CreditOf(id, f) == []
  {
  }

  lemma CommandAdded(e: Endpoint, c: Cmd)
    ensures Departed(e.(cmd := e.cmd + [c])) == Departed(e) + (if c.SendFrame? then [c.frame] else [])
  {
    QueuedAppend(e.cmd, c);
  }

  /** A frame pushed into the writer's queue enters in the middle; only its own stream could notice. */
  lemma FrameInserted(e: Endpoint, f: Frame, id: nat)
    ensures var d := Departed(e.(out := e.out + [f]));
      && Items(id, d) == Items(id, e.wire + e.out) + (ItemOf(id, f) + Items(id, Queued(e.cmd)))
      && Items(id, Departed(e)) == Items(id, e.wire + e.out) + Items(id, Queued(e.cmd))
      && Credits(id, d) == Credits(id, e.wire + e.out) + (CreditOf(id, f) + Credits(id, Queued(e.cmd)))
      && Credits(id, Departed(e)) == Credits(id, e.wire + e.out) + Credits(id, Queued(e.cmd))
  {
    var pre, q := e.wire + e.out, Queued(e.cmd);
    assert Departed(e.(out := e.out + [f])) == pre + ([f] + q);
    assert Departed(e) == pre + q;
    OneFrame(id, f);
    ItemsAppend(id, pre, [f] + q);
    ItemsAppend(id, [f], q);
    ItemsAppend(id, pre, q);
    CreditsAppend(id, pre, [f] + q);
    CreditsAppend(id, [f], q);
    CreditsAppend(id, pre, q);
  }

  /** Pushing a frame of no stream leaves every stream's view alone. */
  lemma NeutralPush(e: Endpoint, f: Frame, id: nat)
    requires Neutral(f) && id != 0
    ensures SndView(e.(out := e.out + [f]), id) == SndView(e, id)
    ensures RcvView(e.(out := e.out + [f]), id) == RcvView(e, id)
  {
    NeutralFrame(id, f);
    FrameInserted(e, f, id);
    assert ItemOf(id, f) + Items(id, Queued(e.cmd)) == Items(id, Queued(e.cmd));
    assert CreditOf(id, f) + Credits(id, Queued(e.cmd)) == Credits(id, Queued(e.cmd));
    SameTraffic(e, e.(out := e.out + [f]), id);
  }

  /** If only the queues differ and a stream's items and credits in them do not, its views are the same. */
  lemma SameTraffic(e: Endpoint, e': Endpoint, id: nat)
    requires e' == e.(cmd := e'.cmd, out := e'.out, wire := e'.wire)
    requires Items(id, Departed(e')) == Items(id, Departed(e)) && Credits(id, Departed(e')) == Credits(id, Departed(e))
    ensures SndView(e', id) == SndView(e, id) && RcvView(e', id) == RcvView(e, id)
  {
    hide Items, Credits, Departed, Undeparted;
  }

  lemma SameDeparted(e: Endpoint, e': Endpoint, id: nat)
    requires Departed(e') == Departed(e) && e' == e.(cmd := e'.cmd, out := e'.out, wire := e'.wire)
    ensures SndView(e', id) == SndView(e, id) && RcvView(e', id) == RcvView(e, id)
  {
  }

  lemma NeutralCommand(e: Endpoint, c: Cmd, id: nat)
    requires id != 0 && (c.SendFrame? ==> Neutral(c.frame))
    ensures SndView(e.(cmd := e.cmd + [c]), id) == SndView(e, id)
    ensures RcvView(e.(cmd := e.cmd + [c]), id) == RcvView(e, id)
  {
    CommandAdded(e, c);
    if c.SendFrame? {
      ItemsAppend(id, Departed(e), [c.frame]);
      CreditsAppend(id, Departed(e), [c.frame]);
      OneFrame(id, c.frame);
      NeutralFrame(id, c.frame);
    } else {
      assert Departed(e) + [] == Departed(e);
    }
    SameTraffic(e, e.(cmd := e.cmd + [c]), id);
  }

  /** Starting a stream's tasks is invisible to the stream: the fresh tasks are what the view already assumed. */
  lemma SpawnInvisible(e: Endpoint, n: nat, id: nat)
    requires Consistent(e) && e.alive && n !in e.sources && n != 0
    ensures SndView(Spawn(e, n), id) == SndView(e, id) && RcvView(Spawn(e, n), id) == RcvView(e, id)
    ensures Consistent(Spawn(e, n))
  {
    assert Departed(Spawn(e, n)) == Departed(e);
    assert Items(id, Departed(e)) + [] == Items(id, Departed(e));
  }

  lemma CommandViews(e: Endpoint, id: nat)
    requires Consistent(e) && id != 0 && CommandEnabled(e) && FreshReply(e)
    ensures SenderStep(SndView(e, id), SndView(CommandApply(e), id))
    ensures ReceiverStep(RcvView(e, id), RcvView(CommandApply(e), id))
    ensures !e.cmd[0].CloseCmd? ==>
      SndView(CommandApply(e), id) == SndView(e, id) && RcvView(CommandApply(e), id) == RcvView(e, id)
  {
    var c, e1 := e.cmd[0], e.(cmd := e.cmd[1..]);
    match c {
      case SendFrame(f) =>
        assert e.wire + ((e.out + [f]) + Queued(e.cmd[1..])) == e.wire + (e.out + Queued(e.cmd));
        SameDeparted(e, HandleCommand(e1, c), id);
      case OpenCmd(n, addr) =>
        SameDeparted(e, e1, id);
        NeutralPush(e1, OpenFrame(n, addr), id);
        SndViewIgnores(e1.(out := e1.out + [OpenFrame(n, addr)]), HandleCommand(e1, c), id);
      case ReplyOpen(n, ack) =>
        SameDeparted(e, e1, id);
        NeutralPush(e1, AckFrame(n, ack), id);
        if ack.ackStatus == M.STATUS_OK {
          SpawnInvisible(e1.(out := e1.out + [AckFrame(n, ack)]), n, id);
        }
      case CloseCmd =>
        SameDeparted(e, e1, id);
        StopViews(e1, id);
    }
  }

  /** Neither view depends on the pending and incoming tables, the session table or the log. */
  lemma SndViewIgnores(e: Endpoint, e': Endpoint, id: nat)
    requires e' == e.(pending := e'.pending, incoming := e'.incoming, sessions := e'.sessions, log := e'.log)
    ensures SndView(e', id) == SndView(e, id) && RcvView(e', id) == RcvView(e, id)
  {
  }

  lemma StopViews(e: Endpoint, id: nat)
    requires Consistent(e)
    ensures SndView(Stopped(e), id) == SndView(e, id).(entry := false)
    ensures RcvView(Stopped(e), id) == RcvView(e, id).(open := false, torn := true)
  {
  }

  lemma PumpTraffic(e: Endpoint, n: nat, tl: TxStep, id: nat)
    requires id != 0 && PumpEnabled(e, n, tl)
    ensures var e', s := PumpApply(e, n, tl), e.sources[n];
      && Items(id, Departed(e')) == Items(id, Departed(e)) + (if tl.SendFin? && id == n then [Fin] else [])
      && Items(id, Undeparted(e'.sources[n]))
           == Items(id, Undeparted(s)) + (if tl.Enqueue? && id == n then [Chunk(s.tx.pump.chunk)] else [])
      && Credits(id, Departed(e')) == Credits(id, Departed(e))
  {
    var e', s := PumpApply(e, n, tl), e.sources[n];
    var fin, data := CloseFrame(n), if tl.Enqueue? then DataFrame(n, s.tx.pump.chunk) else CloseFrame(n);
    CommandAdded(e, SendFrame(fin));
    assert Departed(e') == Departed(e) + (if tl.SendFin? then [fin] else []);
    assert Undeparted(e'.sources[n]) == Undeparted(s) + (if tl.Enqueue? then [data] else []);
    hide Departed, Undeparted;
    ItemsAppend(id, Departed(e), [fin]);
    CreditsAppend(id, Departed(e), [fin]);
    ItemsAppend(id, Undeparted(s), [data]);
    OneFrame(id, fin);
    OneFrame(id, data);
  }

  lemma PumpViews(e: Endpoint, n: nat, tl: TxStep, id: nat)
    requires n != 0 && id != 0 && PumpEnabled(e, n, tl)
    ensures SenderStep(SndView(e, id), SndView(PumpApply(e, n, tl), id))
    ensures RcvView(PumpApply(e, n, tl), id) == RcvView(e, id)
  {
    PumpOtherViews(e, n, tl, id);
    if id == n {
      PumpOwnView(e, n, tl);
    }
    hide SndView, RcvView, TxApply, TxEnabled, TxOutput, PumpApply, ActionEnabled;
  }

  lemma PumpOtherViews(e: Endpoint, n: nat, tl: TxStep, id: nat)
    requires id != 0 && PumpEnabled(e, n, tl)
    ensures id != n ==> SndView(PumpApply(e, n, tl), id) == SndView(e, id)
    ensures RcvView(PumpApply(e, n, tl), id) == RcvView(e, id)
  {
    PumpTraffic(e, n, tl, id);
    assert Items(id, Departed(e)) + [] == Items(id, Departed(e));
    hide Items, Credits, Departed, Undeparted, TxApply, TxEnabled, TxOutput;
  }

  lemma PumpOwnView(e: Endpoint, n: nat, tl: TxStep)
    requires n != 0 && PumpEnabled(e, n, tl)
    ensures var v := SndView(e, n);
      && TxEnabled(v.tx, tl)
      && SndView(PumpApply(e, n, tl), n) == Sender(TxApply(v.tx, tl), v.entry, v.path + TxOutput(v.tx, tl))
  {
    PumpTraffic(e, n, tl, n);
    var s := e.sources[n];
    Associate(Items(n, Departed(e)), Items(n, Undeparted(s)), TxOutput(s.tx, tl));
    assert tl.SendFin? ==> Items(n, Undeparted(s)) == [];
    hide Items, Departed, Undeparted, TxApply, TxEnabled;
  }

  lemma SubmitTraffic(e: Endpoint, n: nat, id: nat)
    requires SubmitEnabled(e, n)
    ensures var e', s := SubmitApply(e, n), e.sources[n];
      && Items(id, Departed(e')) == Items(id, Departed(e)) + ItemOf(id, s.fwd.value)
      && Credits(id, Departed(e')) == Credits(id, Departed(e)) + CreditOf(id, s.fwd.value)
      && Items(id, Undeparted(s)) == ItemOf(id, s.fwd.value) + Items(id, Undeparted(e'.sources[n]))
  {
    var e', s, f := SubmitApply(e, n), e.sources[n], e.sources[n].fwd.value;
    CommandAdded(e, SendFrame(f));
    assert Departed(e') == Departed(e) + [f];
    assert Undeparted(s) == [f] + Undeparted(e'.sources[n]);
    hide Departed, Undeparted;
    ItemsAppend(id, Departed(e), [f]);
    CreditsAppend(id, Departed(e), [f]);
    ItemsAppend(id, [f], Undeparted(e'.sources[n]));
    OneFrame(id, f);
  }

  lemma ForwardViews(e: Endpoint, n: nat, id: nat)
    requires ForwardEnabled(e, n)
    ensures SndView(ForwardApply(e, n), id) == SndView(e, id)
    ensures RcvView(ForwardApply(e, n), id) == RcvView(e, id)
  {
    var e', s := ForwardApply(e, n), e.sources[n];
    assert Departed(e') == Departed(e) && Undeparted(e'.sources[n]) == Undeparted(s);
    hide Items, Credits, Departed, Undeparted;
  }

  lemma OwnFrame(n: nat, f: Frame, id: nat)
    requires f.streamId == n && f.frameType == STREAM_DATA
    ensures CreditOf(id, f) == [] && (n != id ==> ItemOf(id, f) == [])
  {
  }

  lemma SubmitViews(e: Endpoint, n: nat, id: nat)
    requires SubmitEnabled(e, n) && OwnFrames(n, e.sources[n])
    ensures SndView(SubmitApply(e, n), id) == SndView(e, id)
    ensures RcvView(SubmitApply(e, n), id) == RcvView(e, id)
  {
    hide Items, Credits, Departed, Undeparted, ItemOf, CreditOf;
    var e', s := SubmitApply(e, n), e.sources[n];
    SubmitTraffic(e, n, id);
    Associate(Items(id, Departed(e)), ItemOf(id, s.fwd.value), Items(id, Undeparted(e'.sources[n])));
    OwnFrame(n, s.fwd.value, id);
  }

  lemma CreditCarried(id: nat, amt: nat)
    requires id != 0 && amt < TWO_62
    ensures CreditOf(id, CreditFrame(id, amt)) == [amt]
  {
    DecodeEncoded(amt, []);
    assert VarintBytes(amt) + [] == VarintBytes(amt);
    M.SmallMod(amt, TWO_62);
  }

  lemma SinkTraffic(e: Endpoint, n: nat, rl: RxStep, id: nat)
    requires n != 0 && SinkEnabled(e, n, rl) && ExactCredit(e, n, rl)
    ensures var e' := SinkApply(e, n, rl);
      && Items(id, Departed(e')) == Items(id, Departed(e))
      && Credits(id, Departed(e')) == Credits(id, Departed(e))
           + (if id == n then RxOutput(e.sinks[n], n in e.streams, rl) else [])
  {
    var e', credit := SinkApply(e, n, rl), RxOutput(e.sinks[n], n in e.streams, rl);
    if credit == [] {
      assert Departed(e') == Departed(e);
    } else {
      var f := CreditFrame(n, credit[0]);
      CommandAdded(e, SendFrame(f));
      assert Departed(e') == Departed(e) + [f];
      hide Departed;
      ItemsAppend(id, Departed(e), [f]);
      CreditsAppend(id, Departed(e), [f]);
      OneFrame(id, f);
      CreditCarried(n, credit[0]);
    }
  }

  lemma SinkViews(e: Endpoint, n: nat, rl: RxStep, id: nat)
    requires Consistent(e) && id != 0 && SinkEnabled(e, n, rl) && ExactCredit(e, n, rl)
    ensures SndView(SinkApply(e, n, rl), id) == SndView(e, id)
    ensures ReceiverStep(RcvView(e, id), RcvView(SinkApply(e, n, rl), id))
    ensures id == n ==> ReceiverTakes(RcvView(e, id), RcvView(SinkApply(e, n, rl), id), rl)
  {
    SinkTraffic(e, n, rl, id);
    hide Items, Credits, Departed, Undeparted, RxOutput, RxApply, RxEnabled;
    var v, v' := RcvView(e, id), RcvView(SinkApply(e, n, rl), id);
    if id == n {
      assert ReceiverTakes(v, v', rl);
    } else {
      assert v' == v;
    }
  }

  lemma WriteViews(e: Endpoint, id: nat)
    requires ActionEnabled(e, Write)
    ensures SndView(ActionApply(e, Write), id) == SndView(e, id) && RcvView(ActionApply(e, Write), id) == RcvView(e, id)
  {
    assert Departed(ActionApply(e, Write)) == Departed(e);
    SameDeparted(e, ActionApply(e, Write), id);
  }

  /** Whatever one end does on its own, each of its streams sees at most one step of its own. */
  lemma ActionViews(e: Endpoint, a: Action, id: nat)
    requires Consistent(e) && id != 0 && ActionEnabled(e, a)
    requires a.TakeCommand? ==> FreshReply(e)
    requires a.Sink? ==> ExactCredit(e, a.id, a.rl)
    ensures SenderStep(SndView(e, id), SndView(ActionApply(e, a), id))
    ensures ReceiverStep(RcvView(e, id), RcvView(ActionApply(e, a), id))
  {
    match a {
      case CallOpen(n, addr) => NeutralCommand(e, OpenCmd(n, addr), id);
      case Answer(n, ack) =>
        NeutralCommand(e, ReplyOpen(n, ack), id);
        SndViewIgnores(e.(cmd := e.cmd + [ReplyOpen(n, ack)]), ActionApply(e, a), id);
      case Control(f) => NeutralCommand(e, SendFrame(f), id);
      case TakeCommand => CommandViews(e, id);
      case Tick => NeutralPush(e, Frame(0, PING, []), id);
      case Write => WriteViews(e, id);
      case Pump(n, tl) => PumpViews(e, n, tl, id);
      case Forward(n) => ForwardViews(e, n, id);
      case Submit(n) => SubmitViews(e, n, id);
      case Sink(n, rl) => SinkViews(e, n, rl, id);
      case Stop => StopViews(e, id);
    }
    hide SndView, RcvView;
  }
}
