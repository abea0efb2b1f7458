/** Bounded blocking and closing of streams over whole tunnel runs. */
module TunnelProgress {
  import opened Frames
  import M = Messages
  import SP = StreamPipe
  import SG = StreamGuarantees
  import opened Connection
  import opened Lifecycle
  import opened StreamView
  import opened Routing
  import opened Tunnel

  // ----- A blocked stream -----

  /** The tunnel step carries bytes or credit of one stream direction onwards. */
  predicate Moves(s: State, l: Step, id: nat, from: Side)
    requires Enabled(s, l)
  {
    match l
    case Act(side, Sink(n, rl)) =>
      side == Peer(from) && n == id && (rl.TakeChunk? || rl.CopyChunk? || rl.AppRead?)
    case Deliver(side, _) =>
      var f := At(s, Peer(side)).wire[0];
      if side == Peer(from) then ItemOf(id, f) != [] else CreditOf(id, f) != []
    case _ => false
  }

  lemma SinkTaken(s: State, side: Side, id: nat, rl: SP.RxStep)
    requires Inv(s) && Enabled(s, Act(side, Sink(id, rl))) && id != 0
    ensures var a := PipeOf(s, id, Peer(side));
      && SP.Enabled(a, SP.Recv(rl))
      && PipeOf(Apply(s, Act(side, Sink(id, rl))), id, Peer(side)) == SP.Apply(a, SP.Recv(rl))
  {
    hide SndView, RcvView, SinkApply, SinkEnabled, SP.RxApply, SP.RxEnabled, SP.RxOutput, ExactCredit, Consistent;
    var s' := Apply(s, Act(side, Sink(id, rl)));
    assert At(s', side) == SinkApply(At(s, side), id, rl);
    AlwaysExactCredit(s, side, id, rl);
    SinkViews(At(s, side), id, rl, id);
  }

  lemma FrameTaken(a: SP.Pipe, b: SP.Pipe, id: nat, f: Frame, forward: bool) returns (pl: SP.Step)
    requires !a.rcv.torn || !forward
    requires if forward then ItemOf(id, f) != [] else CreditOf(id, f) != []
    requires forward ==> a.snd == b.snd.(path := ItemOf(id, f) + b.snd.path) && b.rcv == ReceiverAfter(a.rcv, id, f)
    requires !forward ==>
      a.rcv == b.rcv.(credits := CreditOf(id, f) + b.rcv.credits) && b.snd == SenderAfter(a.snd, id, f)
    ensures SG.Moves(pl) && SP.Enabled(a, pl) && b == SP.Apply(a, pl)
  {
    hide CreditAmount;
    pl := if forward then SP.Deliver else SP.Grant;
  }

  /** A step that moves is one of the stream's own moves. */
  lemma MoveIsTaken(s: State, l: Step, id: nat, from: Side) returns (pl: SP.Step)
    requires Inv(s) && Enabled(s, l) && id != 0 && Moves(s, l, id, from)
    ensures SG.Moves(pl) && SP.Enabled(PipeOf(s, id, from), pl)
    ensures PipeOf(Apply(s, l), id, from) == SP.Apply(PipeOf(s, id, from), pl)
  {
    hide SndView, RcvView, ItemOf, CreditOf, Dispatch, ActionApply, ActionEnabled, SP.Apply, SP.Enabled;
    hide SenderAfter, ReceiverAfter, Consistent;
    match l {
      case Act(side, action) =>
        SinkTaken(s, side, id, action.rl);
        pl := SP.Recv(action.rl);
      case Deliver(side, verdict) =>
        var e, f := At(s, Peer(side)), At(s, Peer(side)).wire[0];
        AlwaysRoutable(s, side);
        WirePop(e, id);
        DispatchViews(At(s, side), f, verdict, id);
        RcvTorn(At(s, side), id);
        pl := FrameTaken(PipeOf(s, id, from), PipeOf(Apply(s, l), id, from), id, f, side != from);
    }
  }

  ghost predicate BlockedThroughout(s: State, ls: seq<Step>, id: nat, from: Side)
    requires Runs(s, ls)
    decreases |ls|
  {
    SG.Blocked(PipeOf(s, id, from)) && (ls != [] ==> BlockedThroughout(Apply(s, ls[0]), ls[1..], id, from))
  }

  ghost function MoveCount(s: State, ls: seq<Step>, id: nat, from: Side): nat
    requires Runs(s, ls)
    decreases |ls|
  {
    if ls == [] then 0
    else (if Moves(s, ls[0], id, from) then 1 else 0) + MoveCount(Apply(s, ls[0]), ls[1..], id, from)
  }

  lemma StepLowersWeight(s: State, l: Step, id: nat, from: Side)
    requires Inv(s) && Enabled(s, l) && id != 0
    ensures var w, w' := SG.Weight(PipeOf(s, id, from)), SG.Weight(PipeOf(Apply(s, l), id, from));
      SG.Blocked(PipeOf(s, id, from)) ==> w' <= w && (Moves(s, l, id, from) ==> w' < w)
  {
    hide Apply, Enabled, PipeOf, Moves, Consistent, HasPhase;
    hide SG.Weight, SG.Blocked, SG.Moves, SP.Inv, SP.Apply, SP.Enabled;
    var a := PipeOf(s, id, from);
    assert SP.Inv(a);
    if !SG.Blocked(a) {
    } else if Moves(s, l, id, from) {
      var pl := MoveIsTaken(s, l, id, from);
      SG.MoveDecreases(a, pl);
    } else {
      TunnelRefinesStreams(s, l, id, from);
      var b := PipeOf(Apply(s, l), id, from);
      if a != b {
        var pl :| SP.Enabled(a, pl) && b == SP.Apply(a, pl);
        if SG.Moves(pl) {
          SG.MoveDecreases(a, pl);
        } else {
          SG.OthersKeepWeight(a, pl);
        }
      }
    }
  }

  /**
   * In every tunnel run, whatever else the two ends and the other streams do, a stream's sender stays blocked through
   * no more moves of its own data and credit than the weight of what it has in transit.
   */
  lemma {:induction false} BlockedRunIsBounded(s: State, ls: seq<Step>, id: nat, from: Side)
    requires Inv(s) && Runs(s, ls) && id != 0
    ensures BlockedThroughout(s, ls, id, from) ==> MoveCount(s, ls, id, from) <= SG.Weight(PipeOf(s, id, from))
    decreases |ls|
  {
    hide Inv, Apply, Enabled, PipeOf, SG.Weight, SG.Blocked, Moves;
    if ls != [] && BlockedThroughout(s, ls, id, from) {
      StepLowersWeight(s, ls[0], id, from);
      StepKeepsInv(s, ls[0]);
      BlockedRunIsBounded(Apply(s, ls[0]), ls[1..], id, from);
    }
  }

  // ----- A closed stream -----

  /** The end has run the stream's tasks and no longer routes it. */
  predicate Closed(e: Endpoint, id: nat) {
    id in e.sources && id !in e.streams && id !in e.credits
  }

  lemma ActionKeepsClosed(e: Endpoint, a: Action, id: nat)
    requires Closed(e, id) && ActionEnabled(e, a) && FreshReply(e)
    ensures Closed(ActionApply(e, a), id)
  {
  }

  lemma DispatchKeepsClosed(e: Endpoint, f: Frame, verdict: M.Message, id: nat)
    requires Closed(e, id) && IsResponse(verdict) && Routable(e, f)
    ensures Closed(Dispatch(e, f, verdict), id)
  {
    hide ResponseFrame, AckFrame, AcceptsOpen;
  }

  lemma StepKeepsClosed(s: State, l: Step, id: nat, side: Side)
    requires Inv(s) && Enabled(s, l) && Closed(At(s, side), id)
    ensures Closed(At(Apply(s, l), side), id)
  {
    hide ActionApply, ActionEnabled, Dispatch;
    match l {
      case Act(at, a) =>
        AlwaysFreshReply(s, at);
        if at == side { ActionKeepsClosed(At(s, at), a, id); }
      case Deliver(at, verdict) =>
        AlwaysRoutable(s, at);
        if at == side { DispatchKeepsClosed(At(s, at), At(s, Peer(at)).wire[0], verdict, id); }
    }
  }

  /** A stream an end has closed is never routed or credited there again. */
  lemma {:induction false} ClosedStaysClosed(s: State, ls: seq<Step>, id: nat, side: Side)
    requires Inv(s) && Runs(s, ls) && Closed(At(s, side), id)
    ensures Closed(At(End(s, ls), side), id)
    decreases |ls|
  {
    hide Inv, Apply, Enabled, Closed;
    if ls != [] {
      StepKeepsClosed(s, ls[0], id, side);
      StepKeepsInv(s, ls[0]);
      ClosedStaysClosed(Apply(s, ls[0]), ls[1..], id, side);
    }
  }

  // ----- An opening stream -----

  /** Over every run an id is in one phase at each end of it, and never in an earlier one than before. */
  lemma {:induction false} PhasesOnlyAdvance(s: State, ls: seq<Step>, id: nat, p: Phase) returns (q: Phase)
    requires Inv(s) && Runs(s, ls) && Phased(p, s, id)
    ensures Phased(q, End(s, ls), id) && Rank(p) <= Rank(q)
    ensures forall r | Phased(r, End(s, ls), id) :: r == q
    decreases |ls|
  {
    hide Inv, Apply, Enabled, InPhase, LinkView;
    if ls == [] {
      q := p;
    } else {
      var p1 := StepKeepsPhase(s, ls[0], id, p);
      StepKeepsInv(s, ls[0]);
      q := PhasesOnlyAdvance(Apply(s, ls[0]), ls[1..], id, p1);
    }
    forall r | Phased(r, End(s, ls), id)
      ensures r == q
    {
      OnePhase(r, q, LinkView(End(s, ls).client, id), LinkView(End(s, ls).server, id), id in End(s, ls).used);
    }
  }
}
