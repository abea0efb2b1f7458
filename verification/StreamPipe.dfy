/**
 * One direction of one open stream, as a transition system: the application's writes, the pump with its credit
 * counter, a first-in first-out path, the receiving queue and its writer, the application's reads, and the credit
 * that flows back. Each await in the tasks separates two steps, so a grant can land between the pump's enqueue
 * and its accounting.
 */
module StreamPipe {
  import opened Bytes
  import opened FlowControl

  /** What travels forward: data chunks, then the end mark. */
  datatype Item = Chunk(bytes: seq<byte>) | Fin

  /** Where the pump task stands in its loop. */
  datatype Pump =
    | Waiting                    // in wait_window
    | Ready                      // the window was open; about to read
    | Holding(chunk: seq<byte>)  // read, not yet enqueued
    | Unaccounted(n: nat)        // enqueued, `sent` not yet applied
    | Draining                   // loop left; waiting for its forwarder
    | Done                       // end mark sent

  /** Sending side: the application's pipe, the pump and the stream's credit counter, with running totals. */
  datatype Tx = Tx(
    written: seq<byte>, inbuf: seq<byte>, appClosed: bool,
    pump: Pump, outstanding: nat,
    enqueued: nat, accounted: nat, granted: nat, discarded: nat, failed: bool)

  /** Receiving side: the unbounded queue, the writer's current chunk, the application's pipe, the credit reader. */
  datatype Rx = Rx(
    queue: seq<seq<byte>>, cur: seq<byte>, dead: bool, outbuf: seq<byte>, shut: bool,
    read: seq<byte>, pending: nat)

  datatype Sender = Sender(tx: Tx, entry: bool, path: seq<Item>)
  datatype Receiver = Receiver(rx: Rx, open: bool, torn: bool, credits: seq<nat>)
  datatype Pipe = Pipe(snd: Sender, rcv: Receiver)

  const FRESH_TX := Tx([], [], false, Waiting, 0, 0, 0, 0, 0, false)
  const FRESH_RX := Rx([], [], false, [], false, [], 0)
  const INIT := Pipe(Sender(FRESH_TX, true, []), Receiver(FRESH_RX, true, false, []))

  // ----- Steps of the sending side -----

  datatype TxStep = AppWrite(bs: seq<byte>) | AppClose | PassWindow | ReadChunk(n: nat) | ReadEof | ReadFail
                  | Enqueue | Account | SendFin

  predicate TxEnabled(t: Tx, l: TxStep) {
    match l
    case AppWrite(bs) => !t.appClosed && bs != [] && |t.inbuf| + |bs| <= DUPLEX
    case AppClose => !t.appClosed
    case PassWindow => t.pump.Waiting? && t.outstanding < RECV_WINDOW
    case ReadChunk(n) => t.pump.Ready? && 1 <= n <= CHUNK && n <= |t.inbuf|
    case ReadEof => t.pump.Ready? && t.inbuf == [] && t.appClosed
    case ReadFail => t.pump.Ready?
    case Enqueue => t.pump.Holding?
    case Account => t.pump.Unaccounted?
    case SendFin => t.pump.Draining?
  }

  function TxApply(t: Tx, l: TxStep): Tx
    requires TxEnabled(t, l)
  {
    match l
    case AppWrite(bs) => t.(written := t.written + bs, inbuf := t.inbuf + bs)
    case AppClose => t.(appClosed := true)
    case PassWindow => t.(pump := Ready)
    case ReadChunk(n) => t.(pump := Holding(t.inbuf[..n]), inbuf := t.inbuf[n..])
    case ReadEof => t.(pump := Draining)
    case ReadFail => t.(pump := Draining, failed := true)
    case Enqueue => t.(pump := Unaccounted(|t.pump.chunk|), enqueued := t.enqueued + |t.pump.chunk|)
    case Account => t.(pump := Waiting, outstanding := t.outstanding + t.pump.n, accounted := t.accounted + t.pump.n)
    case SendFin => t.(pump := Done)
  }

  /** What a sending step puts on the path. */
  function TxOutput(t: Tx, l: TxStep): seq<Item>
    requires TxEnabled(t, l)
  {
    match l
    case Enqueue => [Chunk(t.pump.chunk)]
    case SendFin => [Fin]
    case _ => []
  }

  function TxGrant(t: Tx, n: nat): Tx {
    t.(outstanding := SaturatingSub(t.outstanding, n), granted := t.granted + n)
  }

  /** A credit for a stream that is no longer in the table changes nothing; it is only tallied. */
  function ReceiveCredit(t: Tx, entry: bool, n: nat): Tx {
    if entry then TxGrant(t, n) else t.(discarded := t.discarded + n)
  }

  // ----- Steps of the receiving side -----

  datatype RxStep = TakeChunk | CopyChunk(k: nat) | FinishWriter | FailWriter | AppRead(n: nat, accepted: bool)

  predicate RxEnabled(r: Rx, open: bool, l: RxStep) {
    match l
    case TakeChunk => !r.dead && !r.shut && r.cur == [] && r.queue != []
    case CopyChunk(k) => !r.dead && 1 <= k <= |r.cur| && |r.outbuf| + k <= DUPLEX
    case FinishWriter => !r.dead && !r.shut && r.cur == [] && r.queue == [] && !open
    case FailWriter => !r.dead && r.cur != []
    case AppRead(n, _) => 1 <= n <= |r.outbuf|
  }

  function RxApply(r: Rx, open: bool, l: RxStep): Rx
    requires RxEnabled(r, open, l)
  {
    match l
    case TakeChunk => r.(cur := r.queue[0], queue := r.queue[1..])
    case CopyChunk(k) => r.(cur := r.cur[k..], outbuf := r.outbuf + r.cur[..k])
    case FinishWriter => r.(shut := true)
    case FailWriter => r.(dead := true)
    case AppRead(n, accepted) =>
      r.(outbuf := r.outbuf[n..], read := r.read + r.outbuf[..n],
         pending := if CreditFor(r.pending, n, accepted).Some? then 0 else r.pending + n)
  }

  /** The credit a receiving step sends back. */
  function RxOutput(r: Rx, open: bool, l: RxStep): seq<nat>
    requires RxEnabled(r, open, l)
  {
    match l
    case AppRead(n, accepted) =>
      (match CreditFor(r.pending, n, accepted)
       case Some(amt) => [amt]
       case None => [])
    case _ => []
  }

  /** The connection loop handles the next forward item: data is queued if the stream is registered, else dropped. */
  function Receive(r: Receiver, item: Item): Receiver {
    match item
    case Chunk(b) => if r.open then r.(rx := r.rx.(queue := r.rx.queue + [b])) else r
    case Fin => r.(open := false)
  }

  // ----- The transition relation -----

  datatype Step = Send(tl: TxStep) | Recv(rl: RxStep) | Deliver | Grant | DropEntry | Teardown

  predicate Enabled(s: Pipe, l: Step) {
    match l
    case Send(tl) => TxEnabled(s.snd.tx, tl)
    case Recv(rl) => RxEnabled(s.rcv.rx, s.rcv.open, rl)
    case Deliver => s.snd.path != [] && !s.rcv.torn
    case Grant => s.rcv.credits != []
    case DropEntry => true
    case Teardown => true
  }

  function Apply(s: Pipe, l: Step): Pipe
    requires Enabled(s, l)
  {
    var Pipe(snd, rcv) := s;
    match l
    case Send(tl) => Pipe(snd.(tx := TxApply(snd.tx, tl), path := snd.path + TxOutput(snd.tx, tl)), rcv)
    case Recv(rl) =>
      Pipe(snd, rcv.(rx := RxApply(rcv.rx, rcv.open, rl), credits := rcv.credits + RxOutput(rcv.rx, rcv.open, rl)))
    case Deliver => Pipe(snd.(path := snd.path[1..]), Receive(rcv, snd.path[0]))
    case Grant =>
      Pipe(snd.(tx := ReceiveCredit(snd.tx, snd.entry, rcv.credits[0])), rcv.(credits := rcv.credits[1..]))
    case DropEntry => Pipe(snd.(entry := false), rcv)
    case Teardown => Pipe(snd, rcv.(open := false, torn := true))
  }

  ghost predicate Next(s: Pipe, s': Pipe) {
    exists l :: Enabled(s, l) && s' == Apply(s, l)
  }

  // ----- Contents -----

  function Flat(q: seq<seq<byte>>): seq<byte> {
    if q == [] then [] else q[0] + Flat(q[1..])
  }

  function Payload(path: seq<Item>): seq<byte> {
    if path == [] then [] else (if path[0].Chunk? then path[0].bytes else []) + Payload(path[1..])
  }

  function Sum(ns: seq<nat>): nat {
    if ns == [] then 0 else ns[0] + Sum(ns[1..])
  }

  function Held(p: Pump): seq<byte> {
    if p.Holding? then p.chunk else []
  }

  function Unsent(p: Pump): nat {
    if p.Unaccounted? then p.n else 0
  }

  lemma {:induction false} FlatAppend(q: seq<seq<byte>>, b: seq<byte>)
    ensures Flat(q + [b]) == Flat(q) + b
  {
    if q == [] {
      assert Flat([b]) == b + Flat([]);
    } else {
      FlatAppend(q[1..], b);
      assert (q + [b])[1..] == q[1..] + [b];
    }
  }

  lemma {:induction false} PayloadAppend(p: seq<Item>, q: seq<Item>)
    ensures Payload(p + q) == Payload(p) + Payload(q)
  {
    if p == [] {
      assert p + q == q;
    } else {
      PayloadAppend(p[1..], q);
      assert (p + q)[1..] == p[1..] + q;
    }
  }

  lemma {:induction false} SumAppend(p: seq<nat>, q: seq<nat>)
    ensures Sum(p + q) == Sum(p) + Sum(q)
  {
    if p == [] {
      assert p + q == q;
    } else {
      SumAppend(p[1..], q);
      assert (p + q)[1..] == p[1..] + q;
    }
  }

  // ----- The invariant -----

  /** Bytes that have reached the receiving side, oldest first. */
  function Arrived(r: Rx): seq<byte> {
    r.read + (r.outbuf + (r.cur + Flat(r.queue)))
  }

  /** Bytes not yet enqueued on the sending side, oldest first. */
  function Unenqueued(t: Tx): seq<byte> {
    Held(t.pump) + t.inbuf
  }

  /** Every byte written is in exactly one place, in order from the reader back to the writer. */
  predicate InOrder(s: Pipe) {
    s.snd.tx.written == Arrived(s.rcv.rx) + (Payload(s.snd.path) + Unenqueued(s.snd.tx))
  }

  /** Chunks are never empty and never larger than one read; the end mark is last and follows all data. */
  predicate WellShaped(s: Pipe) {
    var t, r := s.snd.tx, s.rcv.rx;
    && (forall i | 0 <= i < |s.snd.path| ::
          if s.snd.path[i].Chunk? then 1 <= |s.snd.path[i].bytes| <= CHUNK
          else i == |s.snd.path| - 1 && t.pump.Done?)
    && (forall i | 0 <= i < |r.queue| :: 1 <= |r.queue[i]|)
    && (t.pump.Holding? ==> 1 <= |t.pump.chunk| <= CHUNK)
    && Unsent(t.pump) <= CHUNK
    && (t.pump.Draining? || t.pump.Done? ==> t.failed || (t.inbuf == [] && t.appClosed))
    && (!s.rcv.open && !s.rcv.torn ==> t.pump.Done? && s.snd.path == [])
    && (t.pump.Done? && s.rcv.open ==> s.snd.path != [] && s.snd.path[|s.snd.path| - 1] == Fin)
    && (r.shut ==> !s.rcv.open && r.cur == [] && r.queue == [])
  }

  /** Bytes enqueued and not yet read by the application. */
  function InFlight(s: Pipe): nat {
    |Payload(s.snd.path)| + |Flat(s.rcv.rx.queue)| + |s.rcv.rx.cur| + |s.rcv.rx.outbuf|
  }

  /** Bytes and credit are conserved: enqueued = unread + pending + credit in flight + credit received. */
  predicate Conserved(s: Pipe) {
    var t, r := s.snd.tx, s.rcv.rx;
    && t.enqueued == InFlight(s) + |r.read|
    && |r.read| == r.pending + Sum(s.rcv.credits) + t.granted + t.discarded
    && t.enqueued == t.accounted + Unsent(t.pump)
    && (s.snd.entry ==> t.discarded == 0)
  }

  /** The counter may exceed accounted minus granted, by at most one chunk over the whole run. */
  predicate Drift(s: Pipe) {
    var t := s.snd.tx;
    t.accounted <= t.outstanding + t.granted <= t.accounted + CHUNK
  }

  predicate WindowRespected(s: Pipe) {
    var t := s.snd.tx;
    && t.outstanding < RECV_WINDOW + CHUNK
    && (t.pump.Ready? || t.pump.Holding? || t.pump.Unaccounted? ==> t.outstanding < RECV_WINDOW)
  }

  /** Credit is returned a batch at a time. */
  predicate Batches(ns: seq<nat>) {
    ns == [] || (ns[0] >= CREDIT_BATCH && Batches(ns[1..]))
  }

  lemma {:induction false} BatchesAppend(p: seq<nat>, q: seq<nat>)
    requires Batches(p) && Batches(q)
    ensures Batches(p + q)
    decreases |p|
  {
    if p == [] {
      assert p + q == q;
    } else {
      BatchesAppend(p[1..], q);
      assert (p + q)[1..] == p[1..] + q;
    }
  }

  predicate Inv(s: Pipe) {
    InOrder(s) && WellShaped(s) && Conserved(s) && Drift(s) && WindowRespected(s) && Batches(s.rcv.credits)
  }

  lemma InitInv()
    ensures Inv(INIT)
  {
  }

  lemma OutputPayload(t: Tx, l: TxStep)
    requires TxEnabled(t, l)
    ensures Payload(TxOutput(t, l)) == if l.Enqueue? then t.pump.chunk else []
    ensures var t' := TxApply(t, l);
      t'.written == t.written + (if l.AppWrite? then l.bs else [])
      && Payload(TxOutput(t, l)) + Unenqueued(t') == Unenqueued(t) + (if l.AppWrite? then l.bs else [])
  {
    var out := TxOutput(t, l);
    if out != [] {
      assert out[1..] == [];
    }
  }

  lemma SendKeeps(s: Pipe, l: TxStep)
    requires Inv(s) && Enabled(s, Send(l))
    ensures Inv(Apply(s, Send(l)))
  {
    hide InOrder, WellShaped, Conserved, Drift, WindowRespected;
    SendInOrder(s, l);
    SendShape(s, l);
    SendConserved(s, l);
    SendWindow(s, l);
  }

  lemma SendWindow(s: Pipe, l: TxStep)
    requires WellShaped(s) && Drift(s) && WindowRespected(s) && Enabled(s, Send(l))
    ensures Drift(Apply(s, Send(l))) && WindowRespected(Apply(s, Send(l)))
  {
    hide Payload, Flat;
  }

  lemma SendShape(s: Pipe, l: TxStep)
    requires WellShaped(s) && Enabled(s, Send(l))
    ensures WellShaped(Apply(s, Send(l)))
  {
  }

  lemma SendConserved(s: Pipe, l: TxStep)
    requires Conserved(s) && Enabled(s, Send(l))
    ensures Conserved(Apply(s, Send(l)))
  {
    OutputPayload(s.snd.tx, l);
    PayloadAppend(s.snd.path, TxOutput(s.snd.tx, l));
    hide Payload, Flat, Sum;
  }

  lemma SendInOrder(s: Pipe, l: TxStep)
    requires InOrder(s) && Enabled(s, Send(l))
    ensures InOrder(Apply(s, Send(l)))
  {
    var t, out := s.snd.tx, TxOutput(s.snd.tx, l);
    OutputPayload(t, l);
    PayloadAppend(s.snd.path, out);
    var more := if l.AppWrite? then l.bs else [];
    var a, p, o := Arrived(s.rcv.rx), Payload(s.snd.path), Payload(out);
    var u, u' := Unenqueued(t), Unenqueued(TxApply(t, l));
    hide Arrived, Payload, Unenqueued;
    calc {
      a + ((p + o) + u');
      { Associate(p, o, u'); }
      a + (p + (u + more));
      { Associate(p, u, more); }
      a + ((p + u) + more);
      { Associate(a, p + u, more); }
      t.written + more;
    }
  }

  lemma RecvKeeps(s: Pipe, l: RxStep)
    requires Inv(s) && Enabled(s, Recv(l))
    ensures Inv(Apply(s, Recv(l)))
  {
    hide InOrder, WellShaped, Conserved;
    RecvInOrder(s, l);
    RecvConserved(s, l);
    RecvShape(s, l);
    BatchesAppend(s.rcv.credits, RxOutput(s.rcv.rx, s.rcv.open, l));
  }

  lemma RecvInOrder(s: Pipe, l: RxStep)
    requires InOrder(s) && Enabled(s, Recv(l))
    ensures InOrder(Apply(s, Recv(l)))
  {
    hide Arrived, RxApply, RxEnabled, RxOutput;
    RecvArrived(s.rcv.rx, s.rcv.open, l);
  }

  lemma RecvShape(s: Pipe, l: RxStep)
    requires WellShaped(s) && Enabled(s, Recv(l))
    ensures WellShaped(Apply(s, Recv(l)))
  {
  }

  lemma RecvConserved(s: Pipe, l: RxStep)
    requires Conserved(s) && Enabled(s, Recv(l))
    ensures Conserved(Apply(s, Recv(l)))
  {
    RecvArrived(s.rcv.rx, s.rcv.open, l);
    CreditOutput(s.rcv.rx, s.rcv.open, l);
    SumAppend(s.rcv.credits, RxOutput(s.rcv.rx, s.rcv.open, l));
    hide Payload, Flat, Sum, Arrived, RxOutput;
  }

  /** What a read adds to the pending count and to the credits sent is what it read. */
  lemma CreditOutput(r: Rx, open: bool, l: RxStep)
    requires RxEnabled(r, open, l)
    ensures var r' := RxApply(r, open, l);
      r'.pending + Sum(RxOutput(r, open, l)) + |r.read| == r.pending + |r'.read|
  {
    var out := RxOutput(r, open, l);
    assert out != [] ==> out[1..] == [];
  }

  /** Receiving steps move bytes towards the reader without losing, adding or reordering any. */
  lemma RecvArrived(r: Rx, open: bool, l: RxStep)
    requires RxEnabled(r, open, l)
    ensures var r' := RxApply(r, open, l);
      Arrived(r') == Arrived(r)
      && |r'.read| + |r'.outbuf| + |r'.cur| + |Flat(r'.queue)| == |r.read| + |r.outbuf| + |r.cur| + |Flat(r.queue)|
  {
    var r' := RxApply(r, open, l);
    match l {
      case TakeChunk => assert r.cur + Flat(r.queue) == r'.cur + Flat(r'.queue);
      case CopyChunk(k) =>
        assert r.cur == r.cur[..k] + r.cur[k..];
        assert r.outbuf + (r.cur + Flat(r.queue)) == r'.outbuf + (r'.cur + Flat(r'.queue));
      case FinishWriter =>
      case FailWriter =>
      case AppRead(n, _) =>
        assert r.outbuf == r.outbuf[..n] + r.outbuf[n..];
        Associate(r.read, r.outbuf[..n], r.outbuf[n..] + (r.cur + Flat(r.queue)));
        Associate(r.outbuf[..n], r.outbuf[n..], r.cur + Flat(r.queue));
    }
  }

  lemma DeliverKeeps(s: Pipe)
    requires Inv(s) && Enabled(s, Deliver)
    ensures Inv(Apply(s, Deliver))
    ensures s.rcv.open
  {
    hide InOrder, Conserved;
    DeliverShape(s);
    DeliverMoves(s);
    hide WellShaped;
  }

  lemma DeliverShape(s: Pipe)
    requires WellShaped(s) && Enabled(s, Deliver)
    ensures WellShaped(Apply(s, Deliver)) && s.rcv.open
  {
    hide Payload, Flat;
  }

  lemma DeliverMoves(s: Pipe)
    requires InOrder(s) && Conserved(s) && Enabled(s, Deliver) && s.rcv.open
    ensures InOrder(Apply(s, Deliver)) && Conserved(Apply(s, Deliver))
  {
    var r, path := s.rcv.rx, s.snd.path;
    if path[0].Chunk? {
      var b, rest, u := path[0].bytes, Payload(path[1..]), Unenqueued(s.snd.tx);
      FlatAppend(r.queue, b);
      assert r.read + (r.outbuf + (r.cur + (Flat(r.queue) + b))) == Arrived(r) + b;
      Associate(b, rest, u);
      Associate(Arrived(r), b, rest + u);
    }
  }

  /** The grant may be larger than the counter when `sent` is late; the loss is absorbed by the drift allowance. */
  lemma GrantKeeps(s: Pipe)
    requires Inv(s) && Enabled(s, Grant)
    ensures Inv(Apply(s, Grant))
  {
    var n := s.rcv.credits[0];
    assert Sum(s.rcv.credits) == n + Sum(s.rcv.credits[1..]);
  }

  /** Every step keeps the invariant. */
  lemma NextKeeps(s: Pipe, l: Step)
    requires Inv(s) && Enabled(s, l)
    ensures Inv(Apply(s, l))
  {
    match l {
      case Send(tl) => SendKeeps(s, tl);
      case Recv(rl) => RecvKeeps(s, rl);
      case Deliver => DeliverKeeps(s);
      case Grant => GrantKeeps(s);
      case DropEntry =>
      case Teardown =>
    }
  }
}
