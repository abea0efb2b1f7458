/** Runs after which a window stays closed for good, with nothing failed. */
module Stalls {
  import opened StreamPipe
  import opened StreamGuarantees
  import opened StreamRuns

  /**
   * A whole window is sent, delivered and read while the command queue refuses every credit. Nothing is left to read,
   * so the credit is never offered again: entry, writer and loop are alive and the window stays closed.
   */
  lemma StrandedIsReached() returns (ls: seq<Step>)
    ensures Runs(INIT, ls)
    ensures var s := End(INIT, ls);
      Stranded(s) && s.snd.entry && !s.rcv.rx.dead && !s.rcv.torn && s.rcv.rx.read == s.snd.tx.written
  {
    var s := ChunksPossible(16);
    ls :| Runs(INIT, ls) && End(INIT, ls) == s;
    InitInv();
    RunKeepsInv(INIT, ls);
    assert s.rcv.rx.read == s.snd.tx.written by { AllRead(s); }
  }

  lemma AllRead(s: Pipe)
    requires Inv(s) && AfterChunks(s, 16)
    ensures s.rcv.rx.read == s.snd.tx.written
  {
  }
}
