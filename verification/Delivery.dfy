/** Exactly when everything an application has written to a stream can still reach the reader. */
module Delivery {
  import opened FlowControl
  import opened StreamPipe
  import opened StreamGuarantees

  /** The credit entry is there and nothing has failed. */
  predicate Flowing(s: Pipe) {
    s.snd.entry && !s.rcv.rx.dead && !s.rcv.torn && !s.snd.tx.failed
  }

  predicate NothingInFlight(s: Pipe) {
    s.snd.path == [] && s.rcv.rx.queue == [] && s.rcv.rx.cur == [] && s.rcv.rx.outbuf == [] && s.rcv.credits == []
  }

  /** Everything sent has been read, no credit is coming, and the window is closed or is about to be. */
  predicate Stuck(s: Pipe) {
    var t := s.snd.tx;
    NothingInFlight(s) && (t.pump.Waiting? || t.pump.Unaccounted?) && t.outstanding + Unsent(t.pump) >= RECV_WINDOW
  }

  /** How far the pump is from enqueueing its next chunk. */
  function Stage(p: Pump): nat {
    match p
    case Unaccounted(_) => 3
    case Waiting => 2
    case Ready => 1
    case _ => 0
  }

  predicate Delivered(s: Pipe) {
    s.rcv.rx.read == s.snd.tx.written
  }

  /** Undelivered bytes are in flight or not yet enqueued. */
  lemma WhereTheyAre(s: Pipe)
    requires Inv(s) && !Delivered(s)
    ensures InFlight(s) > 0 || Unenqueued(s.snd.tx) != []
    ensures Flowing(s) && s.snd.path != [] && s.rcv.rx.queue == [] && s.rcv.rx.cur == [] && s.rcv.rx.outbuf == []
      ==> s.snd.path[0].Chunk?
  {
    hide Conserved, Drift, WindowRespected;
    var a, p, u := Arrived(s.rcv.rx), Payload(s.snd.path), Unenqueued(s.snd.tx);
    assert InFlight(s) == 0 ==> p == [] && a == s.rcv.rx.read;
    if s.snd.path != [] && s.snd.path[0].Fin? {
      assert |s.snd.path| == 1 && s.snd.path[1..] == [];
      assert p == Payload(s.snd.path[1..]) == [];
      assert Flowing(s) ==> u == [];
    }
  }

  predicate Carries(l: Step) {
    l == Deliver || l == Grant || l == Recv(TakeChunk) || l == Recv(CopyChunk(1)) || l == Recv(AppRead(1, true))
  }

  predicate PumpsOn(tl: TxStep) {
    tl.PassWindow? || tl.ReadChunk? || tl.Enqueue? || tl.Account?
  }

  /** The next step that brings an undelivered byte nearer to the reader. */
  lemma NextStep(s: Pipe) returns (l: Step)
    requires Inv(s) && Flowing(s) && !Stuck(s) && !Delivered(s)
    ensures Enabled(s, l) && (l.Recv? ==> s.rcv.credits == [])
    ensures if Carries(l) then l.Deliver? ==> s.snd.path[0].Chunk?
            else NothingInFlight(s) && l.Send? && PumpsOn(l.tl)
  {
    WhereTheyAre(s);
    var t, r := s.snd.tx, s.rcv.rx;
    if s.rcv.credits != [] {
      l := Grant;
    } else if r.outbuf != [] {
      l := Recv(AppRead(1, true));
    } else if r.cur != [] {
      l := Recv(CopyChunk(1));
    } else if r.queue != [] {
      l := Recv(TakeChunk);
    } else if s.snd.path != [] {
      l := Deliver;
    } else {
      l := Send(match t.pump
                case Unaccounted(_) => Account
                case Waiting => PassWindow
                case Ready => ReadChunk(if |t.inbuf| < CHUNK then |t.inbuf| else CHUNK)
                case _ => Enqueue);
    }
  }

  /** With nothing in flight, a stuck stream's reader owes a batch or more. */
  lemma PendingBound(s: Pipe)
    requires Inv(s)
    ensures Stuck(s) && s.snd.entry ==> s.rcv.rx.pending >= CREDIT_BATCH
  {
    hide InOrder, WellShaped;
    assert NothingInFlight(s) ==> InFlight(s) == 0 && Sum(s.rcv.credits) == 0;
  }

  lemma GrantStaysUnstuck(s: Pipe)
    requires Inv(s) && Flowing(s) && Enabled(s, Grant)
    ensures !Stuck(Apply(s, Grant))
  {
    assert Unsent(s.snd.tx.pump) <= CHUNK && s.rcv.credits[0] >= CREDIT_BATCH;
    hide InOrder, Conserved, WellShaped, Drift, Batches;
  }

  lemma ReadStaysUnstuck(s: Pipe)
    requires Inv(s) && Flowing(s) && Enabled(s, Recv(AppRead(1, true)))
    ensures !Stuck(Apply(s, Recv(AppRead(1, true))))
  {
    var s' := Apply(s, Recv(AppRead(1, true)));
    NextKeeps(s, Recv(AppRead(1, true)));
    PendingBound(s');
    assert s'.rcv.rx.pending < CREDIT_BATCH && s'.snd.entry;
    hide Inv, Stuck, Apply, Enabled;
  }

  lemma MoveStaysUnstuck(s: Pipe, l: Step)
    requires Inv(s) && Flowing(s) && Enabled(s, l)
    requires l == Deliver || l == Recv(TakeChunk) || l == Recv(CopyChunk(1))
    ensures !Stuck(Apply(s, l))
  {
    hide InOrder, Conserved, Drift, WindowRespected;
  }

  /** Carrying bytes or credit onwards never gets a stream stuck: a batch of credit outweighs any drift. */
  lemma CarryStaysUnstuck(s: Pipe, l: Step)
    requires Inv(s) && Flowing(s) && !Stuck(s) && Carries(l) && Enabled(s, l)
    requires l.Recv? ==> s.rcv.credits == []
    ensures !Stuck(Apply(s, l))
  {
    hide Inv, Stuck, Apply, Enabled, Flowing;
    if l.Grant? {
      GrantStaysUnstuck(s);
    } else if l == Recv(AppRead(1, true)) {
      ReadStaysUnstuck(s);
    } else {
      MoveStaysUnstuck(s, l);
    }
  }

  lemma PumpStaysUnstuck(s: Pipe, tl: TxStep)
    requires Inv(s) && Flowing(s) && !Stuck(s) && NothingInFlight(s) && Enabled(s, Send(tl))
    requires PumpsOn(tl)
    ensures var s' := Apply(s, Send(tl));
      && !Stuck(s') && Flowing(s') && s'.snd.tx.written == s.snd.tx.written
      && s'.snd.tx.appClosed == s.snd.tx.appClosed
      && |Unenqueued(s'.snd.tx)| <= |Unenqueued(s.snd.tx)|
      && (|Unenqueued(s'.snd.tx)| == |Unenqueued(s.snd.tx)| ==> Stage(s'.snd.tx.pump) < Stage(s.snd.tx.pump))
  {
  }

  lemma CarryKeeps(s: Pipe, l: Step)
    requires Inv(s) && Flowing(s) && !Stuck(s) && Carries(l) && Enabled(s, l)
    requires l.Recv? ==> s.rcv.credits == []
    ensures var s' := Apply(s, l);
      && !Stuck(s') && Flowing(s') && s'.snd.tx.written == s.snd.tx.written
      && s'.snd.tx.appClosed == s.snd.tx.appClosed
      && Unenqueued(s'.snd.tx) == Unenqueued(s.snd.tx) && Stage(s'.snd.tx.pump) == Stage(s.snd.tx.pump)
  {
    CarryStaysUnstuck(s, l);
    hide Inv, Stuck;
  }

  /** A run without writes that brings everything written so far to the reader. */
  lemma Drains(s: Pipe) returns (ls: seq<Step>)
    requires Inv(s) && Flowing(s) && (!Stuck(s) || Delivered(s))
    ensures Runs(s, ls) && End(s, ls).rcv.rx.read == s.snd.tx.written
    ensures forall l <- ls :: Carries(l) || (l.Send? && !l.tl.AppWrite?)
    ensures var s' := End(s, ls);
      && s'.snd.tx.written == s.snd.tx.written && s'.snd.tx.appClosed == s.snd.tx.appClosed
      && Flowing(s') && (!Stuck(s) ==> !Stuck(s'))
    decreases |Unenqueued(s.snd.tx)|, Stage(s.snd.tx.pump), Weight(s)
  {
    hide Inv, Flowing, Stuck, Enabled, Apply, Weight, Unenqueued, Stage, Carries, NothingInFlight;
    if Delivered(s) {
      ls := [];
    } else {
      var l := NextStep(s);
      NextKeeps(s, l);
      if Carries(l) {
        CarriesMoves(l);
        CarryKeeps(s, l);
        CarryDecreases(s, l);
      } else {
        PumpStaysUnstuck(s, l.tl);
      }
      var rest := Drains(Apply(s, l));
      ls := [l] + rest;
      assert ls[1..] == rest;
    }
  }

  lemma CarriesMoves(l: Step)
    requires Carries(l)
    ensures Moves(l)
  {
  }

  /** A stuck sender's reader never gets another byte. */
  lemma {:induction false} StuckForGood(s: Pipe, ls: seq<Step>)
    requires Stuck(s) && Runs(s, ls)
    ensures Stuck(End(s, ls)) && End(s, ls).rcv.rx.read == s.rcv.rx.read
    decreases |ls|
  {
    if ls != [] {
      StuckForGood(Apply(s, ls[0]), ls[1..]);
    }
  }

  /**
   * On a stream where nothing has failed, every byte written so far can still be delivered, unless everything sent has
   * been read, no credit is coming, the window is closed and bytes are waiting behind it.
   */
  lemma DeliverableUnlessStuck(s: Pipe)
    requires Inv(s) && Flowing(s)
    ensures (exists ls :: Runs(s, ls) && s.snd.tx.written <= End(s, ls).rcv.rx.read)
      <==> !(Stuck(s) && s.snd.tx.inbuf != [])
  {
    if Stuck(s) && s.snd.tx.inbuf != [] {
      BytesBehind(s);
      forall ls | Runs(s, ls)
        ensures !(s.snd.tx.written <= End(s, ls).rcv.rx.read)
      {
        StuckForGood(s, ls);
      }
    } else {
      if Stuck(s) {
        AllSent(s);
      }
      var ls := Drains(s);
    }
  }

  lemma BytesBehind(s: Pipe)
    requires Inv(s) && Stuck(s) && s.snd.tx.inbuf != []
    ensures |s.rcv.rx.read| < |s.snd.tx.written|
  {
  }

  lemma AllSent(s: Pipe)
    requires Inv(s) && Stuck(s) && s.snd.tx.inbuf == []
    ensures Delivered(s)
  {
  }
}
