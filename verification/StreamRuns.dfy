/** Concrete runs of one stream direction, built a step at a time. */
module StreamRuns {
  import opened Bytes
  import opened FlowControl
  import opened StreamPipe
  import opened StreamGuarantees

  lemma {:induction false} RunSnoc(s: Pipe, ls: seq<Step>, l: Step)
    requires Runs(s, ls) && Enabled(End(s, ls), l)
    ensures Runs(s, ls + [l]) && End(s, ls + [l]) == Apply(End(s, ls), l)
    decreases |ls|
  {
    hide Enabled, Apply;
    if ls == [] {
      assert ls + [l] == [l] && [l][1..] == [];
    } else {
      assert (ls + [l])[1..] == ls[1..] + [l];
      RunSnoc(Apply(s, ls[0]), ls[1..], l);
    }
  }

  ghost predicate Possible(s: Pipe) {
    exists ls :: Runs(INIT, ls) && End(INIT, ls) == s
  }

  lemma Then(s: Pipe, l: Step) returns (s': Pipe)
    requires Possible(s) && Enabled(s, l)
    ensures s' == Apply(s, l) && Possible(s')
  {
    var ls :| Runs(INIT, ls) && End(INIT, ls) == s;
    hide Enabled, Apply;
    RunSnoc(INIT, ls, l);
    s' := Apply(s, l);
  }

  /** i chunks have been written, sent, accounted, delivered and read, with no credit sent. */
  predicate AfterChunks(s: Pipe, i: nat) {
    var t, r := s.snd.tx, s.rcv.rx;
    && s.snd.path == [] && t.inbuf == [] && !t.appClosed && t.pump == Waiting
    && t.outstanding == t.accounted == i * CHUNK && t.granted == 0
    && s.rcv == Receiver(r, true, false, [])
    && r == Rx([], [], false, [], false, r.read, i * CHUNK)
    && s.snd.entry
  }

  /** As AfterChunks, with one more chunk on its way and the pump between enqueueing and accounting it. */
  predicate Racing(s: Pipe, i: nat, bs: seq<byte>) {
    var t := s.snd.tx;
    && |bs| == CHUNK && s.snd.path == [Chunk(bs)] && t.pump == Unaccounted(CHUNK)
    && AfterChunks(s.(snd := s.snd.(path := [], tx := t.(pump := Waiting))), i)
  }

  lemma SendOne(s: Pipe, i: nat) returns (s': Pipe, bs: seq<byte>)
    requires Possible(s) && AfterChunks(s, i) && i < 16
    ensures Possible(s') && Racing(s', i, bs)
  {
    bs := seq(CHUNK, _ => 0);
    s' := Then(s, Send(AppWrite(bs)));
    s' := Then(s', Send(PassWindow));
    s' := Then(s', Send(ReadChunk(CHUNK)));
    assert s'.snd.tx.pump.chunk == bs;
    s' := Then(s', Send(Enqueue));
  }

  /** The chunk crosses to the application, whose read may return credit if the command queue takes it. */
  lemma ReadOne(s: Pipe, i: nat, bs: seq<byte>, accepted: bool) returns (s': Pipe)
    requires Possible(s) && Racing(s, i, bs)
    ensures Possible(s') && s'.snd == s.snd.(path := [])
    ensures var r, due := s'.rcv.rx, accepted && (i + 1) * CHUNK >= CREDIT_BATCH;
      && s'.rcv == Receiver(r, true, false, if due then [(i + 1) * CHUNK] else [])
      && r == Rx([], [], false, [], false, r.read, if due then 0 else (i + 1) * CHUNK)
  {
    s' := Crosses(s, i, bs);
    s' := Then(s', Recv(AppRead(CHUNK, accepted)));
    hide Possible;
  }

  lemma Crosses(s: Pipe, i: nat, bs: seq<byte>) returns (s': Pipe)
    requires Possible(s) && Racing(s, i, bs)
    ensures Possible(s') && s'.snd == s.snd.(path := [])
    ensures s'.rcv == Receiver(s.rcv.rx.(outbuf := bs), true, false, [])
  {
    hide Possible;
    s' := Then(s, Deliver);
    s' := Then(s', Recv(TakeChunk));
    s' := Then(s', Recv(CopyChunk(CHUNK)));
  }

  /** Up to a whole window of chunks can be read with every credit refused. */
  lemma {:induction false} ChunksPossible(i: nat) returns (s: Pipe)
    requires i <= 16
    ensures Possible(s) && AfterChunks(s, i)
  {
    if i == 0 {
      s := INIT;
      assert Runs(INIT, []) && End(INIT, []) == INIT;
    } else {
      var bs;
      s := ChunksPossible(i - 1);
      s, bs := SendOne(s, i - 1);
      s := ReadOne(s, i - 1, bs, false);
      s := Then(s, Send(Account));
    }
  }
}
