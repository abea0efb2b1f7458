/** The window arithmetic of one WebSocket stream. */
module FlowControl {
  import opened Bytes

  /** Bytes a sender may have in flight without credit from the receiver. */
  const RECV_WINDOW: nat := 524288
  /** The receiver returns credit once this much has been read. */
  const CREDIT_BATCH: nat := 262144
  /** The pump reads at most this much at a time. */
  const CHUNK: nat := 32768
  /** Capacity of the in-memory pipe between the application and a task. */
  const DUPLEX: nat := 65536

  function SaturatingSub(a: nat, b: nat): nat {
    if a < b then 0 else a - b
  }

  /**
   * The credit a read of n bytes sends, if any: all that is pending, once it reaches the batch and the queue has room.
   */
  function CreditFor(pending: nat, n: nat, accepted: bool): Option<nat> {
    if n > 0 && pending + n >= CREDIT_BATCH && accepted then Some(pending + n) else None
  }
}
