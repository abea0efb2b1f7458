/** The drift bound is met: a run in which a grant overtakes the pump's accounting costs exactly one chunk. */
module Drift {
  import opened FlowControl
  import opened StreamPipe
  import opened StreamGuarantees
  import opened StreamRuns

  /** Some run drifts by a whole chunk: the eighth chunk is read and credited before the pump accounts for it. */
  lemma DriftIsAttained() returns (ls: seq<Step>)
    ensures Runs(INIT, ls) && Drifted(End(INIT, ls)) == CHUNK
  {
    var bs;
    var s := ChunksPossible(7);
    s, bs := SendOne(s, 7);
    s := ReadOne(s, 7, bs, true);
    s := Then(s, Grant);
    ls :| Runs(INIT, ls) && End(INIT, ls) == s;
  }
}
