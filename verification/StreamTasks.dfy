/**
 * The sender's credit counter and the receiver's credit-returning reader as the objects the tasks update, each method
 * tied to the step of StreamPipe it performs.
 */
module StreamTasks {
  import opened Bytes
  import opened FlowControl
  import opened StreamPipe

  class StreamCredit {
    var outstanding: nat

    constructor ()
      ensures outstanding == FRESH_TX.outstanding
    {
      outstanding := 0;
    }

    /** The pump of t has enqueued n bytes: counting them completes its Account step. */
    method Sent(n: nat, ghost t: Tx)
      requires t.outstanding == outstanding && t.pump == Unaccounted(n)
      modifies this
      ensures TxApply(t, Account) == t.(pump := Waiting, outstanding := outstanding, accounted := t.accounted + n)
    {
      outstanding := outstanding + n;
    }

    /** A credit of n bytes arrives for the sending side t, wherever its pump stands. */
    method Grant(n: nat, ghost t: Tx)
      requires t.outstanding == outstanding
      modifies this
      ensures TxGrant(t, n) == t.(outstanding := outstanding, granted := t.granted + n)
    {
      outstanding := if outstanding < n then 0 else outstanding - n;
    }
  }

  class CreditReader {
    var pending: nat

    constructor ()
      ensures pending == FRESH_RX.pending
    {
      pending := 0;
    }

    /**
     * The application has just read n bytes of r; accepted tells whether the command queue would take another frame.
     */
    method AfterRead(n: nat, accepted: bool, ghost r: Rx, ghost open: bool) returns (credit: Option<nat>)
      requires r.pending == pending && n <= |r.outbuf|
      modifies this
      ensures n == 0 ==> credit.None? && pending == old(pending)
      ensures n > 0 ==>
        && RxApply(r, open, AppRead(n, accepted))
             == r.(outbuf := r.outbuf[n..], read := r.read + r.outbuf[..n], pending := pending)
        && RxOutput(r, open, AppRead(n, accepted)) == if credit.Some? then [credit.value] else []
    {
      credit := None;
      if n > 0 {
        pending := pending + n;
        if pending >= CREDIT_BATCH {
          var amt := pending;
          if accepted {
            credit := Some(amt);
            pending := 0;
          }
        }
      }
    }
  }
}
