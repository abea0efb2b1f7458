/** What the invariant of one stream direction gives the applications at its two ends. */
module StreamGuarantees {
  import opened FlowControl
  import opened StreamPipe

  // ----- Runs -----

  ghost predicate Runs(s: Pipe, ls: seq<Step>)
    decreases |ls|
  {
    ls == [] || (Enabled(s, ls[0]) && Runs(Apply(s, ls[0]), ls[1..]))
  }

  ghost function End(s: Pipe, ls: seq<Step>): Pipe
    requires Runs(s, ls)
    decreases |ls|
  {
    if ls == [] then s else End(Apply(s, ls[0]), ls[1..])
  }

  lemma {:induction false} RunKeepsInv(s: Pipe, ls: seq<Step>)
    requires Inv(s) && Runs(s, ls)
    ensures Inv(End(s, ls))
    decreases |ls|
  {
    if ls != [] {
      hide Inv;
      NextKeeps(s, ls[0]);
      RunKeepsInv(Apply(s, ls[0]), ls[1..]);
    }
  }

  // ----- Order and end of stream -----

  /** The receiving application sees end of stream. */
  predicate AtEof(s: Pipe) {
    s.rcv.rx.shut && s.rcv.rx.outbuf == []
  }

  /** In every run, what has been read is a prefix of what was written. */
  lemma InOrderDelivery(ls: seq<Step>)
    requires Runs(INIT, ls)
    ensures End(INIT, ls).rcv.rx.read <= End(INIT, ls).snd.tx.written
  {
    InitInv();
    RunKeepsInv(INIT, ls);
  }

  lemma EofInState(s: Pipe)
    requires Inv(s)
    ensures AtEof(s) && !s.rcv.torn && !s.snd.tx.failed ==> s.rcv.rx.read == s.snd.tx.written && s.snd.tx.appClosed
  {
    hide Drift, WindowRespected, Conserved;
  }

  /** End of stream is seen on a live loop without a failed local read only after everything written has been read. */
  lemma EofIsComplete(ls: seq<Step>)
    requires Runs(INIT, ls)
    ensures var s := End(INIT, ls);
      AtEof(s) && !s.rcv.torn && !s.snd.tx.failed ==> s.rcv.rx.read == s.snd.tx.written && s.snd.tx.appClosed
  {
    hide Inv, AtEof, Runs, End;
    InitInv();
    RunKeepsInv(INIT, ls);
    EofInState(End(INIT, ls));
  }

  // ----- Flow control -----

  /** Bytes enqueued and not yet credited back stay below one window plus one chunk, and so does every credit. */
  lemma WindowSafety(s: Pipe)
    requires Inv(s)
    ensures InFlight(s) + s.rcv.rx.pending + Sum(s.rcv.credits) <= RECV_WINDOW - 1 + CHUNK
    ensures forall i | 0 <= i < |s.rcv.credits| :: s.rcv.credits[i] <= RECV_WINDOW - 1 + CHUNK
  {
    forall i | 0 <= i < |s.rcv.credits|
      ensures s.rcv.credits[i] <= Sum(s.rcv.credits)
    {
      MemberAtMostSum(s.rcv.credits, i);
    }
  }

  lemma {:induction false} MemberAtMostSum(ns: seq<nat>, i: nat)
    requires i < |ns|
    ensures ns[i] <= Sum(ns)
  {
    if i > 0 {
      MemberAtMostSum(ns[1..], i - 1);
    }
  }

  /** How far the counter stands above the bytes accounted and not granted. */
  function Drifted(s: Pipe): int {
    s.snd.tx.outstanding + s.snd.tx.granted - s.snd.tx.accounted
  }

  /** In every run the total drift is between zero and one chunk. */
  lemma BoundedDrift(ls: seq<Step>)
    requires Runs(INIT, ls)
    ensures 0 <= Drifted(End(INIT, ls)) <= CHUNK
  {
    InitInv();
    RunKeepsInv(INIT, ls);
  }

  /** A grant drifts exactly by what it exceeds the counter, which needs a chunk enqueued and not yet accounted. */
  lemma GrantDrift(s: Pipe)
    requires Inv(s) && Enabled(s, Grant) && s.snd.entry
    ensures var n, o := s.rcv.credits[0], s.snd.tx.outstanding;
      && Drifted(Apply(s, Grant)) == Drifted(s) + (if n > o then n - o else 0)
      && (n > o ==> n - o <= Unsent(s.snd.tx.pump))
  {
    MemberAtMostSum(s.rcv.credits, 0);
  }

  // ----- The window never wedges -----

  /** The pump sleeps on a closed window while its credit entry is still registered. */
  predicate Blocked(s: Pipe) {
    s.snd.tx.pump.Waiting? && s.snd.tx.outstanding >= RECV_WINDOW && s.snd.entry
  }

  /** The last credit send was not refused, and the receiving side is alive. */
  predicate Healthy(s: Pipe) {
    s.rcv.rx.pending < CREDIT_BATCH && !s.rcv.rx.dead && !s.rcv.torn
  }

  /** A blocked sender always has at least 229377 bytes of data or credit on their way. */
  lemma BlockedMeansInTransit(s: Pipe)
    requires Inv(s) && Blocked(s) && Healthy(s)
    ensures InFlight(s) + Sum(s.rcv.credits) >= 229377
  {
  }

  /** Delivery, the writer, accepted reads and grants: the steps that carry bytes and credit onwards. */
  predicate Progress(l: Step) {
    l.Deliver? || l.Grant? || (l.Recv? && (l.rl.TakeChunk? || l.rl.CopyChunk? || (l.rl.AppRead? && l.rl.accepted)))
  }

  /** The steps that carry bytes or credit onwards, whether or not a read's credit is taken by the command queue. */
  predicate Moves(l: Step) {
    l.Deliver? || l.Grant? || (l.Recv? && (l.rl.TakeChunk? || l.rl.CopyChunk? || l.rl.AppRead?))
  }

  function Weight(s: Pipe): nat {
    var r := s.rcv.rx;
    5 * |Payload(s.snd.path)| + 4 * |Flat(r.queue)| + 3 * |r.cur| + 2 * |r.outbuf| + |s.rcv.credits|
  }

  /** The bytes the application can still be given: what a failed writer or a torn loop holds back is not among them. */
  function Readable(s: Pipe): nat {
    var r := s.rcv.rx;
    |r.outbuf| + if r.dead then 0 else |r.cur| + |Flat(r.queue)| + if s.rcv.torn then 0 else |Payload(s.snd.path)|
  }

  /** A credit is on its way to its entry, or a read can still return one. */
  predicate CanReopen(s: Pipe) {
    && s.snd.entry
    && (s.rcv.credits != [] || (Readable(s) > 0 && s.rcv.rx.pending + Readable(s) >= CREDIT_BATCH))
  }

  /** A blocked stream that can reopen always has a progress step it can take. */
  lemma BlockedCanProgress(s: Pipe) returns (l: Step)
    requires Inv(s) && Blocked(s) && CanReopen(s)
    ensures Progress(l) && Enabled(s, l)
  {
    var r := s.rcv.rx;
    if s.rcv.credits != [] {
      l := Grant;
    } else if r.outbuf != [] {
      l := Recv(AppRead(1, true));
    } else if r.cur != [] {
      l := Recv(CopyChunk(1));
    } else if r.queue != [] {
      l := Recv(TakeChunk);
    } else {
      assert s.snd.path != [];
      l := Deliver;
    }
  }

  /** Each move strictly reduces the weight while the sender is blocked. */
  lemma MoveDecreases(s: Pipe, l: Step)
    requires Inv(s) && Blocked(s) && Moves(l) && Enabled(s, l)
    ensures Weight(Apply(s, l)) < Weight(s)
  {
    CarryDecreases(s, l);
  }

  /** Whatever the sender does, a move of bytes or credit reduces the weight; only the end mark weighs nothing. */
  lemma CarryDecreases(s: Pipe, l: Step)
    requires Inv(s) && Moves(l) && Enabled(s, l) && (l.Deliver? ==> s.snd.path[0].Chunk?)
    ensures Weight(Apply(s, l)) < Weight(s)
  {
    hide InOrder, Conserved, Drift, WindowRespected;
    match l {
      case Deliver => DeliverLightens(s);
      case Grant =>
      case Recv(rl) =>
        assert rl.TakeChunk? ==> |s.rcv.rx.queue[0]| >= 1;
        hide Payload;
    }
  }

  lemma DeliverLightens(s: Pipe)
    requires WellShaped(s) && Enabled(s, Deliver) && s.snd.path[0].Chunk?
    ensures Weight(Apply(s, Deliver)) < Weight(s)
  {
    assert |s.snd.path[0].bytes| >= 1;
    FlatAppend(s.rcv.rx.queue, s.snd.path[0].bytes);
  }

  /** No other step increases it: writes, closings, failures, a dropped credit entry, a torn loop. */
  lemma OthersKeepWeight(s: Pipe, l: Step)
    requires Blocked(s) && !Moves(l) && Enabled(s, l)
    ensures Weight(Apply(s, l)) <= Weight(s)
  {
    PayloadAppend(s.snd.path, []);
    assert s.snd.path + [] == s.snd.path;
  }

  /** Each progress step strictly reduces the weight, and reopens the window or leaves it able to reopen. */
  lemma ProgressDecreases(s: Pipe, l: Step)
    requires Inv(s) && Blocked(s) && CanReopen(s) && Progress(l) && Enabled(s, l)
    ensures Weight(Apply(s, l)) < Weight(s)
    ensures Apply(s, l).snd.tx.outstanding < RECV_WINDOW || (Blocked(Apply(s, l)) && CanReopen(Apply(s, l)))
  {
    MoveDecreases(s, l);
    hide Weight, Inv, Readable, Apply;
    match l {
      case Deliver => DeliverStaysReopening(s);
      case Grant => GrantReopens(s);
      case Recv(rl) => ReadStaysReopening(s, rl);
    }
  }

  lemma DeliverStaysReopening(s: Pipe)
    requires Inv(s) && Blocked(s) && CanReopen(s) && Enabled(s, Deliver)
    ensures Blocked(Apply(s, Deliver)) && CanReopen(Apply(s, Deliver))
  {
    hide InOrder, Conserved, Drift, WindowRespected;
    FlatAppend(s.rcv.rx.queue, s.snd.path[0].bytes);
  }

  /** A batch is more than the window can be overrun by, so one credit reopens it. */
  lemma GrantReopens(s: Pipe)
    requires Inv(s) && Blocked(s) && Enabled(s, Grant)
    ensures Apply(s, Grant).snd.tx.outstanding < RECV_WINDOW
  {
    hide InOrder, WellShaped, Conserved, Drift;
  }

  lemma ReadStaysReopening(s: Pipe, rl: RxStep)
    requires Blocked(s) && CanReopen(s) && Progress(Recv(rl)) && Enabled(s, Recv(rl))
    ensures Blocked(Apply(s, Recv(rl))) && CanReopen(Apply(s, Recv(rl)))
  {
    hide Payload;
  }

  ghost predicate BlockedThroughout(s: Pipe, ls: seq<Step>)
    requires Runs(s, ls)
    decreases |ls|
  {
    Blocked(s) && (ls != [] ==> BlockedThroughout(Apply(s, ls[0]), ls[1..]))
  }

  function MoveCount(ls: seq<Step>): nat {
    if ls == [] then 0 else (if Moves(ls[0]) then 1 else 0) + MoveCount(ls[1..])
  }

  /**
   * Whatever steps interleave - refused credits, failing writers, a torn loop among them - a sender stays blocked
   * through no more moves than the weight it started with.
   */
  lemma {:induction false} BlockedRunIsBounded(s: Pipe, ls: seq<Step>)
    requires Inv(s) && Runs(s, ls) && BlockedThroughout(s, ls)
    ensures MoveCount(ls) <= Weight(s)
    decreases |ls|
  {
    hide Weight, Inv, Enabled, Apply, Moves, Blocked;
    if ls != [] {
      NextKeeps(s, ls[0]);
      if Moves(ls[0]) {
        MoveDecreases(s, ls[0]);
      } else {
        OthersKeepWeight(s, ls[0]);
      }
      BlockedRunIsBounded(Apply(s, ls[0]), ls[1..]);
    }
  }

  /** From any blocked state that can reopen, progress steps reopen the window. */
  lemma WindowReopens(s: Pipe) returns (ls: seq<Step>)
    requires Inv(s) && Blocked(s) && CanReopen(s)
    ensures Runs(s, ls) && (forall l <- ls :: Progress(l))
    ensures End(s, ls).snd.tx.outstanding < RECV_WINDOW
    decreases Weight(s)
  {
    hide Weight, CanReopen, Inv, Progress, Enabled, Apply, Blocked;
    var l := BlockedCanProgress(s);
    var s' := Apply(s, l);
    ProgressDecreases(s, l);
    NextKeeps(s, l);
    if s'.snd.tx.outstanding < RECV_WINDOW {
      ls := [l];
      assert Runs(s', ls[1..]);
    } else {
      var rest := WindowReopens(s');
      ls := [l] + rest;
      assert ls[1..] == rest;
    }
  }

  // ----- When a closed window stays closed -----

  /** The pump waits on a closed window. */
  predicate Waits(s: Pipe) {
    s.snd.tx.pump.Waiting? && s.snd.tx.outstanding >= RECV_WINDOW
  }

  lemma ShutStep(s: Pipe, l: Step)
    requires Inv(s) && Waits(s) && !CanReopen(s) && Enabled(s, l)
    ensures Waits(Apply(s, l)) && !CanReopen(Apply(s, l))
  {
    hide InOrder, Conserved, Drift;
    match l {
      case Deliver => ShutDeliver(s);
      case Send(tl) => PayloadAppend(s.snd.path, []); assert s.snd.path + [] == s.snd.path;
      case Recv(rl) => ShutReceive(s, rl);
      case _ =>
    }
    hide Payload, Flat, RxApply, RxEnabled, RxOutput, Receive;
  }

  lemma ShutDeliver(s: Pipe)
    requires Inv(s) && Waits(s) && !CanReopen(s) && Enabled(s, Deliver)
    ensures Waits(Apply(s, Deliver)) && !CanReopen(Apply(s, Deliver))
  {
    hide InOrder, Conserved, Drift;
    FlatAppend(s.rcv.rx.queue, s.snd.path[0].bytes);
  }

  lemma ShutReceive(s: Pipe, rl: RxStep)
    requires Waits(s) && !CanReopen(s) && Enabled(s, Recv(rl))
    ensures Waits(Apply(s, Recv(rl))) && !CanReopen(Apply(s, Recv(rl)))
  {
    hide Payload;
  }

  lemma {:induction false} ShutForGood(s: Pipe, ls: seq<Step>)
    requires Inv(s) && Waits(s) && !CanReopen(s) && Runs(s, ls)
    ensures Waits(End(s, ls)) && !CanReopen(End(s, ls))
    decreases |ls|
  {
    hide CanReopen, Inv, Enabled, Apply, Waits;
    if ls != [] {
      ShutStep(s, ls[0]);
      NextKeeps(s, ls[0]);
      ShutForGood(Apply(s, ls[0]), ls[1..]);
    }
  }

  /** Exactly when a closed window can reopen at all, whatever has failed on the way. */
  lemma ReopensIffCanReopen(s: Pipe)
    requires Inv(s) && Waits(s)
    ensures (exists ls :: Runs(s, ls) && End(s, ls).snd.tx.outstanding < RECV_WINDOW) <==> CanReopen(s)
  {
    hide CanReopen, Inv;
    if CanReopen(s) {
      EntryNeeded(s);
      var ls := WindowReopens(s);
    } else {
      forall ls | Runs(s, ls)
        ensures End(s, ls).snd.tx.outstanding >= RECV_WINDOW
      {
        ShutForGood(s, ls);
      }
    }
  }

  lemma EntryNeeded(s: Pipe)
    requires CanReopen(s)
    ensures s.snd.entry
  {
  }

  /**
   * With writer and loop alive the condition is simple: the entry is there and not everything is read and uncredited.
   */
  lemma ReopensIffNotStranded(s: Pipe)
    requires Inv(s) && Waits(s) && !s.rcv.rx.dead && !s.rcv.torn
    ensures (exists ls :: Runs(s, ls) && End(s, ls).snd.tx.outstanding < RECV_WINDOW)
      <==> s.snd.entry && !Stranded(s)
  {
    hide Runs, End;
    ReopensIffCanReopen(s);
    EmptyOrNot(s);
  }

  lemma EmptyOrNot(s: Pipe)
    requires Inv(s) && Waits(s) && !s.rcv.rx.dead && !s.rcv.torn
    ensures CanReopen(s) <==> s.snd.entry && !Stranded(s)
  {
    var r := s.rcv.rx;
    if s.snd.path != [] {
      assert Payload(s.snd.path) != [];
    }
    if r.queue != [] {
      assert Flat(r.queue) != [];
    }
  }

  /** The pump waits on a closed window whose credit entry is gone. */
  predicate Cut(s: Pipe) {
    Waits(s) && !s.snd.entry
  }

  /** The pump waits, the last credit was refused, and nothing is left to read that could send it again. */
  predicate Stranded(s: Pipe) {
    && Waits(s)
    && s.rcv.credits == [] && s.snd.path == [] && s.rcv.rx.queue == [] && s.rcv.rx.cur == [] && s.rcv.rx.outbuf == []
  }

  /** Without its credit entry a sender on a closed window waits in every continuation. */
  lemma {:induction false} CutStaysCut(s: Pipe, ls: seq<Step>)
    requires Cut(s) && Runs(s, ls)
    ensures Cut(End(s, ls))
    decreases |ls|
  {
    if ls != [] {
      CutStaysCut(Apply(s, ls[0]), ls[1..]);
    }
  }

  /** With all data read and its credit refused, a sender on a closed window waits in every continuation. */
  lemma {:induction false} StrandedStaysStranded(s: Pipe, ls: seq<Step>)
    requires Stranded(s) && Runs(s, ls)
    ensures Stranded(End(s, ls))
    decreases |ls|
  {
    if ls != [] {
      StrandedStaysStranded(Apply(s, ls[0]), ls[1..]);
    }
  }

  /** A stranded sender is one whose receiver still owes a refused credit of more than half a window. */
  lemma StrandedOwesCredit(s: Pipe)
    requires Inv(s) && Stranded(s) && s.snd.entry && !s.rcv.rx.dead && !s.rcv.torn
    ensures s.rcv.rx.pending >= CREDIT_BATCH
  {
    if s.rcv.rx.pending < CREDIT_BATCH {
      BlockedMeansInTransit(s);
    }
  }
}
