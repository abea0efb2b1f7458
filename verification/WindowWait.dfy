/**
 * The pump waiting for its window against grants from the connection loop, one lock or one notification per step.
 * StreamPipe treats the wait as a single step; here it is shown to be one, and never to miss a wakeup.
 */
module WindowWait {
  import opened FlowControl
  import SP = StreamPipe

  /** Where wait_window stands. */
  datatype Pc =
    | Entry      // before the fast-path check
    | Subscribe  // top of the loop, about to create the notification future
    | FirstLook  // future created, about to check the counter
    | Enabling   // counter was too high, about to register the future
    | SecondLook // registered, about to check again
    | Asleep     // awaiting the future
    | Returned   // wait_window has returned; the chunk is read, sent and accounted before the next call

  /** A notification reaches registered futures; whether it reaches a created one is left open. */
  datatype Future = Absent | Created | Registered | Notified

  /** notifying counts grants that have released the lock and not yet notified. */
  datatype State = State(pc: Pc, fut: Future, outstanding: nat, notifying: nat)

  const INIT := State(Entry, Absent, 0, 0)

  datatype Step = Advance | Decrement(n: nat) | Notify(early: bool) | Sent(n: nat)

  predicate IsOpen(s: State) {
    s.outstanding < RECV_WINDOW
  }

  predicate Enabled(s: State, l: Step) {
    match l
    case Advance => s.pc != Returned && (s.pc == Asleep ==> s.fut == Notified)
    case Decrement(_) => true
    case Notify(_) => s.notifying > 0
    case Sent(_) => s.pc == Returned
  }

  function Waiter(s: State): State
    requires Enabled(s, Advance)
  {
    match s.pc
    case Entry => s.(pc := if IsOpen(s) then Returned else Subscribe)
    case Subscribe => s.(pc := FirstLook, fut := Created)
    case FirstLook => s.(pc := if IsOpen(s) then Returned else Enabling)
    case Enabling => s.(pc := SecondLook, fut := if s.fut == Notified then Notified else Registered)
    case SecondLook => s.(pc := if IsOpen(s) then Returned else Asleep)
    case Asleep => s.(pc := Subscribe)
  }

  function Apply(s: State, l: Step): State
    requires Enabled(s, l)
  {
    match l
    case Advance => Waiter(s)
    case Decrement(n) => s.(outstanding := SaturatingSub(s.outstanding, n), notifying := s.notifying + 1)
    case Notify(early) =>
      s.(notifying := s.notifying - 1,
         fut := if s.fut == Registered || (early && s.fut == Created) then Notified else s.fut)
    case Sent(n) => s.(pc := Entry, outstanding := s.outstanding + n)
  }

  /** The sleeper is never left behind: if the window is open, it has been notified or a grant is about to notify. */
  predicate NoLostWakeup(s: State) {
    s.pc == Asleep && IsOpen(s) ==> s.fut == Notified || s.notifying > 0
  }

  predicate Inv(s: State) {
    && NoLostWakeup(s)
    && (s.pc == Asleep || s.pc == SecondLook ==> s.fut == Registered || s.fut == Notified)
    && (s.pc == Returned ==> IsOpen(s))
  }

  ghost predicate Runs(s: State, ls: seq<Step>)
    decreases |ls|
  {
    ls == [] || (Enabled(s, ls[0]) && Runs(Apply(s, ls[0]), ls[1..]))
  }

  ghost function End(s: State, ls: seq<Step>): State
    requires Runs(s, ls)
    decreases |ls|
  {
    if ls == [] then s else End(Apply(s, ls[0]), ls[1..])
  }

  lemma {:induction false} RunKeepsInv(s: State, ls: seq<Step>)
    requires Inv(s) && Runs(s, ls)
    ensures Inv(End(s, ls))
    decreases |ls|
  {
    if ls != [] {
      RunKeepsInv(Apply(s, ls[0]), ls[1..]);
    }
  }

  /** No interleaving of waits, grants and notifications loses a wakeup, and a wait returns only on an open window. */
  lemma NeverLosesWakeup(ls: seq<Step>)
    requires Runs(INIT, ls)
    ensures NoLostWakeup(End(INIT, ls))
    ensures End(INIT, ls).pc == Returned ==> IsOpen(End(INIT, ls))
  {
    RunKeepsInv(INIT, ls);
  }

  // ----- An open window is always taken -----

  function Distance(s: State): nat {
    match s.pc
    case Returned => 0
    case Entry => 1
    case FirstLook => 1
    case SecondLook => 1
    case Subscribe => 2
    case Enabling => 2
    case Asleep => 3
  }

  /** Steps left before the wait returns, once the window is open. */
  function Remaining(s: State): nat {
    Distance(s) + s.notifying
  }

  /** A step of the waiter, or the notification of a grant already made. */
  predicate Helps(l: Step) {
    l.Advance? || l.Notify?
  }

  function HelpCount(ls: seq<Step>): nat {
    if ls == [] then 0 else (if Helps(ls[0]) then 1 else 0) + HelpCount(ls[1..])
  }

  function GrantCount(ls: seq<Step>): nat {
    if ls == [] then 0 else (if ls[0].Decrement? then 1 else 0) + GrantCount(ls[1..])
  }

  /**
   * On an open window every helping step brings the return nearer, and a further grant only adds its own notification.
   */
  lemma StepChangesRemaining(s: State, l: Step)
    requires Inv(s) && IsOpen(s) && Enabled(s, l) && !l.Sent?
    ensures IsOpen(Apply(s, l)) && Inv(Apply(s, l))
    ensures Helps(l) ==> Remaining(Apply(s, l)) < Remaining(s)
    ensures l.Decrement? ==> Remaining(Apply(s, l)) <= Remaining(s) + 1
  {
  }

  /**
   * Once the window is open, every schedule of the waiter and of grants has at most Remaining steps of the waiter and
   * notifications, plus one for each further grant; and as long as the wait has not returned, one of them is enabled.
   */
  lemma {:induction false} OpenWindowIsTaken(s: State, ls: seq<Step>)
    requires Inv(s) && IsOpen(s) && Runs(s, ls)
    requires forall l <- ls :: !l.Sent?
    ensures HelpCount(ls) <= Remaining(s) + GrantCount(ls)
    ensures End(s, ls).pc != Returned ==> exists l :: Helps(l) && Enabled(End(s, ls), l)
    decreases |ls|
  {
    if ls == [] {
      if s.pc != Returned {
        var l := if Enabled(s, Advance) then Advance else Notify(true);
        assert Helps(l) && Enabled(s, l);
      }
    } else {
      assert ls[0] in ls;
      StepChangesRemaining(s, ls[0]);
      hide Remaining, Inv, Apply, Enabled, IsOpen;
      OpenWindowIsTaken(Apply(s, ls[0]), ls[1..]);
    }
  }

  // ----- The wait as one step of the pump -----

  /** The pump's counter and whether it is still waiting, as StreamPipe sees them. */
  function AsTx(s: State): SP.Tx {
    SP.FRESH_TX.(pump := if s.pc == Returned then SP.Ready else SP.Waiting, outstanding := s.outstanding)
  }

  /**
   * Every step of the wait is invisible to StreamPipe or is its PassWindow, every decrement is a grant, and the call of
   * `sent` that ends the round is its Account, the pump having read and enqueued n bytes since the window was passed.
   */
  lemma WaitIsOneStep(s: State, l: Step)
    requires Inv(s) && Enabled(s, l)
    ensures var a, b := AsTx(s), AsTx(Apply(s, l));
      || a == b
      || (l.Advance? && SP.TxEnabled(a, SP.PassWindow) && b == SP.TxApply(a, SP.PassWindow))
      || (l.Decrement? && b == SP.TxGrant(a, l.n).(granted := 0))
      || (l.Sent? && a.pump == SP.Ready
          && b == SP.TxApply(a.(pump := SP.Unaccounted(l.n)), SP.Account).(accounted := 0))
  {
  }
}
