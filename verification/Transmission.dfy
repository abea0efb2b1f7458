/**
 * What a tunnel run puts on the wire, and its passage through the codec and the obfuscator: the ordered wire of
 * decoded frames that Tunnel assumes is what the bytes really deliver.
 */
module Transmission {
  import opened Bytes
  import opened Varint
  import opened Frames
  import M = Messages
  import FC = FlowControl
  import SP = StreamPipe
  import opened Connection
  import T = Tunnel
  import O = Obfuscation
  import RF = ReplayFilter

  // ----- Every frame an end can send fits the wire format -----

  predicate CmdFits(c: Cmd) {
    match c
    case SendFrame(f) => Encodable(f)
    case OpenCmd(id, addr) => Encodable(OpenFrame(id, addr))
    case ReplyOpen(id, _) => id < TWO_62
    case CloseCmd => true
  }

  predicate AllFit(fs: seq<Frame>) {
    forall f | f in fs :: Encodable(f)
  }

  predicate SourceFits(s: Source) {
    AllFit(s.q) && (s.fwd.Some? ==> Encodable(s.fwd.value)) && (s.tx.pump.Holding? ==> |s.tx.pump.chunk| <= FC.CHUNK)
  }

  predicate Fits(e: Endpoint) {
    && AllFit(e.out) && AllFit(e.wire) && (forall c | c in e.cmd :: CmdFits(c))
    && (forall id | id in e.sources :: id < TWO_62 && SourceFits(e.sources[id]))
    && (forall id | id in e.sinks :: id < TWO_62)
    && (forall id | id in e.incoming :: id < TWO_62)
  }

  lemma ShortVarint(n: nat)
    requires n < TWO_64
    ensures |VarintBytes(n)| == VarintLen(n)
  {
  }

  lemma FieldSize(fs: seq<M.Field>, i: nat)
    requires i < |fs| && forall f <- fs :: M.FieldSized(f)
    ensures |M.EncodeFields(fs[i..])| == |M.FieldBytes(fs[i])| + |M.EncodeFields(fs[i + 1..])|
  {
    assert fs[i..][1..] == fs[i + 1..];
  }

  lemma AckFits(id: nat, ack: M.Message)
    requires id < TWO_62 && IsAck(ack)
    ensures Encodable(AckFrame(id, ack))
  {
    hide VarintBytes, M.EncodeFields;
    var fs := M.ToFields(ack);
    FieldSize(fs, 0);
    FieldSize(fs, 1);
    FieldSize(fs, 2);
    NoFields(fs);
    ShortVarint(|ack.ackText|);
  }

  lemma NoFields(fs: seq<M.Field>)
    ensures fs[0..] == fs && M.EncodeFields(fs[|fs|..]) == []
  {
  }

  lemma ResponseFits(id: nat, resp: M.Message)
    requires id < TWO_62 && IsResponse(resp)
    ensures Encodable(ResponseFrame(id, resp))
  {
    hide VarintBytes, M.EncodeFields;
    var fs := M.ToFields(resp);
    FieldSize(fs, 0);
    FieldSize(fs, 1);
    FieldSize(fs, 2);
    FieldSize(fs, 3);
    FieldSize(fs, 4);
    FieldSize(fs, 5);
    NoFields(fs);
    ShortVarint(|resp.text|);
    ShortVarint(|resp.responsePadding|);
    ShortVarint(resp.serverCcRx);
  }

  lemma CreditFits(id: nat, amt: nat)
    requires id < TWO_62 && amt < TWO_64
    ensures Encodable(CreditFrame(id, amt))
  {
    hide VarintBytes;
    ShortVarint(amt);
  }

  lemma CommandFits(e: Endpoint)
    requires Fits(e) && CommandEnabled(e)
    ensures Fits(CommandApply(e))
  {
    hide AckFrame, OpenFrame, IsAck;
    var c := e.cmd[0];
    assert CmdFits(c);
    if c.ReplyOpen? {
      AckFits(c.id, c.ack);
    }
  }

  lemma StreamActionFits(e: Endpoint, a: Action)
    requires Fits(e) && ActionEnabled(e, a) && (a.Pump? || a.Forward? || a.Submit?)
    ensures Fits(ActionApply(e, a))
  {
    assert SourceFits(e.sources[a.id]);
  }

  lemma SinkFits(e: Endpoint, id: nat, rl: SP.RxStep)
    requires Fits(e) && SinkEnabled(e, id, rl)
    ensures Fits(SinkApply(e, id, rl))
  {
    var credit := SP.RxOutput(e.sinks[id], id in e.streams, rl);
    if credit != [] {
      CreditFits(id, credit[0]);
    }
    hide CreditFrame, SourceFits;
  }

  /** The application's own part: addresses and control frames must be encodable to begin with. */
  predicate CallFits(a: Action) {
    match a
    case CallOpen(id, addr) => Encodable(OpenFrame(id, addr))
    case Control(f) => Encodable(f)
    case _ => true
  }

  lemma ActionFits(e: Endpoint, a: Action)
    requires Fits(e) && ActionEnabled(e, a) && CallFits(a)
    ensures Fits(ActionApply(e, a))
  {
    hide CommandApply, PumpApply, ForwardApply, SubmitApply, SinkApply, SourceFits, OpenFrame;
    match a {
      case TakeCommand => CommandFits(e);
      case Pump(_, _) => StreamActionFits(e, a);
      case Forward(_) => StreamActionFits(e, a);
      case Submit(_) => StreamActionFits(e, a);
      case Sink(id, rl) => SinkFits(e, id, rl);
      case _ =>
    }
  }

  lemma AuthFits(e: Endpoint, f: Frame, verdict: M.Message)
    requires Fits(e) && Encodable(f) && IsResponse(verdict)
    ensures Fits(OnAuthRequest(e, f, verdict))
  {
    ResponseFits(f.streamId, verdict);
    ResponseFits(f.streamId, BadRequest());
    hide ResponseFrame, BadRequest, SourceFits, CmdFits;
  }

  lemma OpenFits(e: Endpoint, f: Frame)
    requires Fits(e) && Encodable(f)
    ensures Fits(OnOpenStream(e, f))
  {
    AckFits(f.streamId, Rejection());
    hide AckFrame, Rejection, SourceFits, CmdFits;
  }

  lemma CreditedFits(e: Endpoint, f: Frame)
    requires Fits(e)
    ensures Fits(OnCredit(e, f))
  {
    hide CmdFits, CreditAmount;
  }

  lemma AckedFits(e: Endpoint, f: Frame)
    requires Fits(e) && Encodable(f)
    ensures Fits(OnOpenStreamAck(e, f))
  {
    hide CmdFits, AcceptsOpen;
  }

  lemma DispatchFits(e: Endpoint, f: Frame, verdict: M.Message)
    requires Fits(e) && Encodable(f) && IsResponse(verdict)
    ensures Fits(Dispatch(e, f, verdict))
  {
    hide OnAuthRequest, OnOpenStream, OnCredit, OnOpenStreamAck, CmdFits;
    AuthFits(e, f, verdict);
    OpenFits(e, f);
    CreditedFits(e, f);
    AckedFits(e, f);
  }

  // ----- Runs -----

  predicate StepFits(l: T.Step) {
    l.Act? ==> CallFits(l.action)
  }

  lemma StepKeepsFits(s: T.State, l: T.Step)
    requires Fits(s.client) && Fits(s.server) && T.Enabled(s, l) && StepFits(l)
    ensures Fits(T.Apply(s, l).client) && Fits(T.Apply(s, l).server)
  {
    hide ActionApply, ActionEnabled, Dispatch, CallFits;
    match l {
      case Act(side, a) => ActionFits(T.At(s, side), a);
      case Deliver(side, verdict) =>
        var e := T.At(s, T.Peer(side));
        DispatchFits(T.At(s, side), e.wire[0], verdict);
    }
  }

  /** The frames one side's writer moves to the wire in a run, in order. */
  ghost function Transmitted(s: T.State, ls: seq<T.Step>, side: T.Side): seq<Frame>
    requires T.Runs(s, ls)
    decreases |ls|
  {
    if ls == [] then []
    else
      (if ls[0] == T.Act(side, Write) then [T.At(s, side).out[0]] else [])
      + Transmitted(T.Apply(s, ls[0]), ls[1..], side)
  }

  /** The frames one side's connection loop handles in a run, in order. */
  ghost function Handled(s: T.State, ls: seq<T.Step>, side: T.Side): seq<Frame>
    requires T.Runs(s, ls)
    decreases |ls|
  {
    if ls == [] then []
    else
      (if ls[0].Deliver? && ls[0].side == side then [T.At(s, T.Peer(side)).wire[0]] else [])
      + Handled(T.Apply(s, ls[0]), ls[1..], side)
  }

  lemma WrittenFits(s: T.State, l: T.Step, side: T.Side)
    requires Fits(s.client) && Fits(s.server) && T.Enabled(s, l)
    ensures l == T.Act(side, Write) ==> Encodable(T.At(s, side).out[0])
  {
  }

  lemma {:induction false} TransmittedFits(s: T.State, ls: seq<T.Step>, side: T.Side)
    requires Fits(s.client) && Fits(s.server) && T.Runs(s, ls) && forall l | l in ls :: StepFits(l)
    ensures AllFit(Transmitted(s, ls, side))
    decreases |ls|
  {
    hide StepFits, T.Apply, T.Enabled, Fits;
    if ls != [] {
      StepKeepsFits(s, ls[0]);
      WrittenFits(s, ls[0], side);
      TransmittedFits(T.Apply(s, ls[0]), ls[1..], side);
    }
  }

  lemma ActionWire(e: Endpoint, a: Action)
    requires ActionEnabled(e, a)
    ensures a.Write? ==> e.out != []
    ensures ActionApply(e, a).wire == if a.Write? then e.wire + [e.out[0]] else e.wire
  {
  }

  lemma DispatchWire(e: Endpoint, f: Frame, verdict: M.Message)
    requires IsResponse(verdict)
    ensures Dispatch(e, f, verdict).wire == e.wire
  {
    hide AckFrame, ResponseFrame, AcceptsOpen, CreditAmount;
  }

  lemma WireMoves(s: T.State, l: T.Step, side: T.Side)
    requires T.Enabled(s, l)
    ensures var w, w' := T.At(s, side).wire, T.At(T.Apply(s, l), side).wire;
      if l == T.Act(side, Write) then T.At(s, side).out != [] && w' == w + [T.At(s, side).out[0]]
      else if l.Deliver? && l.side == T.Peer(side) then w != [] && w' == w[1..]
      else w' == w
  {
    hide Dispatch, ActionApply, ActionEnabled;
    match l {
      case Act(at, a) => ActionWire(T.At(s, at), a);
      case Deliver(at, verdict) => DispatchWire(T.At(s, at), T.At(s, T.Peer(at)).wire[0], verdict);
    }
  }

  /**
   * The wire neither loses, repeats nor reorders: what it held and was given is what was handled and what it still
   * holds.
   */
  lemma {:induction false} WireConserved(s: T.State, ls: seq<T.Step>, side: T.Side)
    requires T.Runs(s, ls)
    ensures T.At(s, side).wire + Transmitted(s, ls, side)
         == Handled(s, ls, T.Peer(side)) + T.At(T.End(s, ls), side).wire
    decreases |ls|
  {
    hide T.Apply, T.Enabled;
    if ls != [] {
      WireMoves(s, ls[0], side);
      WireConserved(T.Apply(s, ls[0]), ls[1..], side);
      var w, rest := T.At(s, side).wire, Transmitted(T.Apply(s, ls[0]), ls[1..], side);
      var later := Handled(T.Apply(s, ls[0]), ls[1..], T.Peer(side));
      assert [] + rest == rest && [] + later == later;
      if ls[0] == T.Act(side, Write) {
        Associate(w, [T.At(s, side).out[0]], rest);
      } else if ls[0].Deliver? && ls[0].side == T.Peer(side) {
        assert w == [w[0]] + w[1..];
        Associate([w[0]], w[1..], rest);
        Associate([w[0]], later, T.At(T.End(s, ls), side).wire);
      }
    }
  }

  /**
   * For every run of a fresh tunnel, each side's traffic crosses encode, encrypt, decrypt and decode unchanged, with no
   * replay and no rejection, and the peer handles exactly a prefix of it.
   */
  lemma TrafficArrivesIntact(sessions: Option<set<nat>>, ls: seq<T.Step>, side: T.Side, k: O.Key, salts: seq<seq<byte>>)
    requires T.Runs(T.Init(sessions), ls) && forall l | l in ls :: StepFits(l)
    requires |salts| == |Transmitted(T.Init(sessions), ls, side)| <= TWO_64 && O.AllSalts(salts)
    ensures var sent := Transmitted(T.Init(sessions), ls, side);
      && O.AllEncodable(sent)
      && O.ReceiveAll(k, RF.NewFilter(O.WINDOW), O.SendAll(k, 0, sent, salts)) == O.AllGot(sent)
      && Handled(T.Init(sessions), ls, T.Peer(side)) <= sent
  {
    hide T.Runs, T.End, Transmitted, Handled;
    var sent := Transmitted(T.Init(sessions), ls, side);
    TransmittedFits(T.Init(sessions), ls, side);
    WireConserved(T.Init(sessions), ls, side);
    assert [] + sent == sent;
    O.PipelineIsIdentity(k, sent, salts);
  }
}
