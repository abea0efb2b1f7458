/** Exactly when a reader can still be told that its peer has closed, and steps after which a side does no more. */
module EndOfStream {
  import Bytes
  import opened FlowControl
  import opened StreamPipe
  import opened StreamGuarantees
  import opened Delivery

  /** The reader has everything written and is told so while its loop is alive. */
  predicate Ended(s: Pipe) {
    AtEof(s) && !s.rcv.torn && Delivered(s)
  }

  /** The sending application has closed, nothing has failed, and the stream is not stuck. */
  predicate Closing(s: Pipe) {
    Inv(s) && Flowing(s) && s.snd.tx.appClosed && !Stuck(s)
  }

  /** How far the pump is from its end mark. */
  function ToEnd(p: Pump): nat {
    match p
    case Holding(_) => 5
    case Unaccounted(_) => 4
    case Waiting => 3
    case Ready => 2
    case Draining => 1
    case Done => 0
  }

  /** Whatever is left to do at the receiving side. */
  function ToShut(r: Receiver): nat {
    (if r.open then 1 else 0) + (if r.rx.shut then 0 else 1)
  }

  lemma EverythingRead(s: Pipe)
    requires Inv(s) && Delivered(s)
    ensures Unenqueued(s.snd.tx) == [] && InFlight(s) == 0
    ensures s.snd.path == [] || (s.snd.path == [Fin] && s.snd.tx.pump.Done?)
  {
    hide Conserved, Drift, WindowRespected;
    assert s.snd.path != [] && s.snd.path[0].Chunk? ==> |Payload(s.snd.path)| > 0;
  }

  /** A step towards the end of the stream. */
  ghost predicate Nearer(s: Pipe, s': Pipe) {
    && s'.snd.tx.written == s.snd.tx.written && s'.rcv.rx.read == s.rcv.rx.read
    && Flowing(s') && s'.snd.tx.appClosed && !Stuck(s')
    && (|| ToEnd(s'.snd.tx.pump) < ToEnd(s.snd.tx.pump)
        || (s'.snd.tx.pump == s.snd.tx.pump && |s'.rcv.credits| < |s.rcv.credits|)
        || (s'.snd.tx.pump == s.snd.tx.pump && s'.rcv.credits == s.rcv.credits && ToShut(s'.rcv) < ToShut(s.rcv)))
  }

  lemma SendNearer(s: Pipe, tl: TxStep)
    requires Flowing(s) && s.snd.tx.appClosed && !Stuck(s) && Enabled(s, Send(tl))
    requires tl.Account? || tl.PassWindow? || tl.ReadEof? || tl.SendFin?
    ensures Nearer(s, Apply(s, Send(tl)))
  {
  }

  lemma GrantNearer(s: Pipe)
    requires Closing(s) && Delivered(s) && s.snd.tx.pump.Waiting? && s.snd.tx.outstanding >= RECV_WINDOW
    ensures Enabled(s, Grant) && Nearer(s, Apply(s, Grant))
  {
    EverythingRead(s);
    hide InOrder, Conserved, WellShaped;
    if s.rcv.credits != [] {
      assert s.rcv.credits[0] >= CREDIT_BATCH;
    }
  }

  /** With everything read, the end mark is next on the path, or has been handled. */
  lemma MarkIsNext(s: Pipe)
    requires Inv(s) && Delivered(s) && s.snd.tx.pump.Done?
    ensures s.rcv.open ==> s.snd.path == [Fin]
    ensures s.rcv.rx.queue == [] && s.rcv.rx.cur == [] && s.rcv.rx.outbuf == []
  {
    EverythingRead(s);
    hide InOrder, Drift, WindowRespected, Conserved, Payload, Sum;
  }

  lemma NotShut(s: Pipe)
    requires Flowing(s) && Delivered(s) && s.rcv.rx.outbuf == [] && !Ended(s)
    ensures !s.rcv.rx.shut
  {
  }

  lemma MarkNearer(s: Pipe)
    requires Flowing(s) && s.snd.tx.appClosed && s.snd.tx.pump.Done? && s.rcv.open && s.snd.path == [Fin]
    ensures Enabled(s, Deliver) && Nearer(s, Apply(s, Deliver))
  {
  }

  lemma FinishNearer(s: Pipe)
    requires Flowing(s) && s.snd.tx.appClosed && s.snd.tx.pump.Done? && !s.rcv.open && !s.rcv.rx.shut
    requires s.rcv.rx.queue == [] && s.rcv.rx.cur == []
    ensures Enabled(s, Recv(FinishWriter)) && Nearer(s, Apply(s, Recv(FinishWriter)))
  {
  }

  /** With everything read, the next step towards the end of the stream. */
  lemma NextStep(s: Pipe) returns (l: Step)
    requires Closing(s) && Delivered(s) && !Ended(s)
    ensures Enabled(s, l) && Nearer(s, Apply(s, l))
  {
    EverythingRead(s);
    hide Inv, Nearer, Delivered, Ended, Stuck, Apply;
    var t := s.snd.tx;
    match t.pump {
      case Waiting =>
        if t.outstanding < RECV_WINDOW {
          l := Send(PassWindow);
          SendNearer(s, PassWindow);
        } else {
          l := Grant;
          GrantNearer(s);
        }
      case Done =>
        MarkIsNext(s);
        if s.rcv.open {
          l := Deliver;
          MarkNearer(s);
        } else {
          l := Recv(FinishWriter);
          NotShut(s);
          FinishNearer(s);
        }
      case _ =>
        var tl := match t.pump case Unaccounted(_) => Account case Ready => ReadEof case _ => SendFin;
        l := Send(tl);
        SendNearer(s, tl);
    }
  }

  lemma Closes(s: Pipe) returns (ls: seq<Step>)
    requires Closing(s) && Delivered(s)
    ensures Runs(s, ls) && Ended(End(s, ls))
    decreases ToEnd(s.snd.tx.pump), |s.rcv.credits|, ToShut(s.rcv)
  {
    hide Inv, Flowing, Stuck, Enabled, Apply, ToEnd, ToShut;
    if Ended(s) {
      ls := [];
    } else {
      var l := NextStep(s);
      NextKeeps(s, l);
      var rest := Closes(Apply(s, l));
      ls := [l] + rest;
      assert ls[1..] == rest;
    }
  }

  lemma {:induction false} RunJoin(s: Pipe, a: seq<Step>, b: seq<Step>)
    requires Runs(s, a) && Runs(End(s, a), b)
    ensures Runs(s, a + b) && End(s, a + b) == End(End(s, a), b)
    decreases |a|
  {
    hide Enabled, Apply;
    if a == [] {
      assert a + b == b;
    } else {
      assert (a + b)[1..] == a[1..] + b;
      RunJoin(Apply(s, a[0]), a[1..], b);
    }
  }

  lemma NeverEnds(s: Pipe, ls: seq<Step>)
    requires Inv(s) && Stuck(s) && Runs(s, ls)
    ensures !Ended(End(s, ls))
  {
    StuckForGood(s, ls);
    RunKeepsInv(s, ls);
    hide InOrder, Conserved, Drift, WindowRespected, Runs, End;
  }

  /**
   * Once the writing application has closed and while nothing has failed, the reader can still be brought to the end of
   * the stream, with everything read, unless all sent bytes are read, no credit is coming and the window is closed: the
   * pump waits for its window before it looks for the end of its input.
   */
  lemma EndReachedIff(s: Pipe)
    requires Inv(s) && Flowing(s) && s.snd.tx.appClosed
    ensures (exists ls :: Runs(s, ls) && Ended(End(s, ls))) <==> !Stuck(s)
  {
    hide Inv, Flowing, Stuck, Runs, End;
    if Stuck(s) {
      forall ls | Runs(s, ls)
        ensures !Ended(End(s, ls))
      {
        NeverEnds(s, ls);
      }
    } else {
      var ls := Drains(s);
      RunKeepsInv(s, ls);
      var rest := Closes(End(s, ls));
      RunJoin(s, ls, rest);
      assert Runs(s, ls + rest) && Ended(End(s, ls + rest));
    }
  }

  // ----- Final steps -----

  lemma {:induction false} DeadStaysDead(s: Pipe, ls: seq<Step>)
    requires Runs(s, ls) && s.rcv.rx.dead && !s.rcv.rx.shut
    ensures var r := End(s, ls).rcv.rx; r.read + r.outbuf == s.rcv.rx.read + s.rcv.rx.outbuf && !r.shut
    decreases |ls|
  {
    if ls != [] {
      var r := s.rcv.rx;
      if ls[0].Recv? && ls[0].rl.AppRead? {
        assert r.outbuf == r.outbuf[..ls[0].rl.n] + r.outbuf[ls[0].rl.n..];
        Bytes.Associate(r.read, r.outbuf[..ls[0].rl.n], r.outbuf[ls[0].rl.n..]);
      }
      DeadStaysDead(Apply(s, ls[0]), ls[1..]);
    }
  }

  /** After a failed write nothing more reaches the reader's pipe, and the reader is never told of an end. */
  lemma FailedWriteIsFinal(s: Pipe, ls: seq<Step>)
    requires Inv(s) && Enabled(s, Recv(FailWriter)) && Runs(Apply(s, Recv(FailWriter)), ls)
    ensures var r, r' := s.rcv.rx, End(Apply(s, Recv(FailWriter)), ls).rcv.rx;
      r'.read + r'.outbuf == r.read + r.outbuf && !AtEof(End(Apply(s, Recv(FailWriter)), ls))
  {
    DeadStaysDead(Apply(s, Recv(FailWriter)), ls);
  }

  lemma {:induction false} LeftStaysLeft(s: Pipe, ls: seq<Step>)
    requires Runs(s, ls) && (s.snd.tx.pump.Draining? || s.snd.tx.pump.Done?)
    ensures End(s, ls).snd.tx.enqueued == s.snd.tx.enqueued
    decreases |ls|
  {
    if ls != [] {
      LeftStaysLeft(Apply(s, ls[0]), ls[1..]);
    }
  }

  /** After a failed read, or the end of its input, the pump sends no more data. */
  lemma LeavingIsFinal(s: Pipe, tl: TxStep, ls: seq<Step>)
    requires tl.ReadFail? || tl.ReadEof?
    requires Enabled(s, Send(tl)) && Runs(Apply(s, Send(tl)), ls)
    ensures End(Apply(s, Send(tl)), ls).snd.tx.enqueued == s.snd.tx.enqueued
  {
    LeftStaysLeft(Apply(s, Send(tl)), ls);
  }

  lemma {:induction false} ClosedStaysClosed(s: Pipe, ls: seq<Step>)
    requires Runs(s, ls) && s.snd.tx.appClosed
    ensures End(s, ls).snd.tx.written == s.snd.tx.written
    decreases |ls|
  {
    if ls != [] {
      ClosedStaysClosed(Apply(s, ls[0]), ls[1..]);
    }
  }

  /** An application that has closed its half writes no more. */
  lemma ClosingIsFinal(s: Pipe, ls: seq<Step>)
    requires Enabled(s, Send(AppClose)) && Runs(Apply(s, Send(AppClose)), ls)
    ensures End(Apply(s, Send(AppClose)), ls).snd.tx.written == s.snd.tx.written
  {
    ClosedStaysClosed(Apply(s, Send(AppClose)), ls);
  }

  /** Both in-memory pipes stay within their capacity. */
  predicate PipesFit(s: Pipe) {
    |s.snd.tx.inbuf| <= 65536 && |s.rcv.rx.outbuf| <= 65536
  }

  lemma {:induction false} PipesStayBounded(s: Pipe, ls: seq<Step>)
    requires PipesFit(s) && Runs(s, ls)
    ensures PipesFit(End(s, ls))
    decreases |ls|
  {
    if ls != [] {
      PipesStayBounded(Apply(s, ls[0]), ls[1..]);
    }
  }
}
