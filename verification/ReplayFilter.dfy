/** The sliding-window replay filter, and the unbounded history it must agree with. */
module ReplayFilter {
  import opened FlowControl

  datatype Filter = Filter(last: nat, floor: nat, seen: set<nat>, window: nat)

  function NewFilter(window: nat): Filter {
    Filter(0, 0, {}, window)
  }

  /** Whether seq is accepted. */
  predicate Admits(g: Filter, seq': nat) {
    seq' >= g.floor && seq' !in g.seen
  }

  function Raised(g: Filter, seq': nat): Filter {
    if seq' > g.last then g.(last := seq', floor := SaturatingSub(seq', g.window)) else g
  }

  function Pruned(g: Filter): Filter {
    if |g.seen| > g.window * 2 then g.(seen := set x | x in g.seen && x >= g.floor) else g
  }

  /** The filter after observing seq. */
  function Observed(g: Filter, seq': nat): Filter {
    if Admits(g, seq') then Pruned(Raised(g.(seen := g.seen + {seq'}), seq')) else g
  }

  class ReplayWindow {
    var last: nat
    var floor: nat
    var seen: set<nat>
    const window: nat

    constructor (window: nat)
      ensures View() == NewFilter(window)
    {
      last, floor, seen := 0, 0, {};
      this.window := window;
    }

    ghost function View(): Filter
      reads this
    {
      Filter(last, floor, seen, window)
    }

    method Observe(seq': nat) returns (fresh': bool)
      modifies this
      ensures fresh' == Admits(old(View()), seq')
      ensures View() == Observed(old(View()), seq')
    {
      if seq' < floor {
        return false;
      }
      if seq' in seen {
        return false;
      }
      seen := seen + {seq'};
      if seq' > last {
        last := seq';
        floor := SaturatingSub(last, window);
      }
      if |seen| > window * 2 {
        var min := floor;
        seen := set x | x in seen && x >= min;
      }
      return true;
    }
  }

  // ----- The unbounded history -----

  function Max(h: seq<nat>): nat {
    if h == [] then 0
    else if h[|h| - 1] > Max(h[..|h| - 1]) then h[|h| - 1] else Max(h[..|h| - 1])
  }

  /** A number is fresh when it was never accepted and lags the largest accepted one by at most the window. */
  predicate Fresh(h: seq<nat>, window: nat, seq': nat) {
    seq' !in h && seq' + window >= Max(h)
  }

  /** The filter's state as an abstraction of the accepted numbers, in order. */
  ghost predicate Abstracts(g: Filter, h: seq<nat>) {
    && g.last == Max(h)
    && g.floor == SaturatingSub(g.last, g.window)
    && (forall x | x in g.seen :: x in h)
    && (forall x | x in h && x >= g.floor :: x in g.seen)
  }

  lemma MaxAppend(h: seq<nat>, x: nat)
    ensures Max(h + [x]) == if x > Max(h) then x else Max(h)
  {
    assert (h + [x])[..|h|] == h;
  }

  /** Pruning is unobservable: the filter admits exactly the fresh numbers and keeps abstracting the history. */
  lemma ObserveAgrees(g: Filter, h: seq<nat>, seq': nat)
    requires Abstracts(g, h)
    ensures Admits(g, seq') <==> Fresh(h, g.window, seq')
    ensures Abstracts(Observed(g, seq'), if Admits(g, seq') then h + [seq'] else h)
  {
    MaxAppend(h, seq');
  }

  function Verdicts(g: Filter, qs: seq<nat>): (r: seq<bool>)
    ensures |r| == |qs|
    decreases |qs|
  {
    if qs == [] then [] else [Admits(g, qs[0])] + Verdicts(Observed(g, qs[0]), qs[1..])
  }

  function HistoryVerdicts(h: seq<nat>, window: nat, qs: seq<nat>): (r: seq<bool>)
    ensures |r| == |qs|
    decreases |qs|
  {
    if qs == [] then []
    else
      var fresh' := Fresh(h, window, qs[0]);
      [fresh'] + HistoryVerdicts(if fresh' then h + [qs[0]] else h, window, qs[1..])
  }

  /** For every sequence of calls, the pruned filter answers as the unbounded history does. */
  lemma {:induction false} FilterRefinesHistory(g: Filter, h: seq<nat>, qs: seq<nat>)
    requires Abstracts(g, h)
    ensures Verdicts(g, qs) == HistoryVerdicts(h, g.window, qs)
    decreases |qs|
  {
    if qs != [] {
      ObserveAgrees(g, h, qs[0]);
      hide Abstracts, Admits, Fresh;
      assert Observed(g, qs[0]).window == g.window;
      FilterRefinesHistory(Observed(g, qs[0]), if Admits(g, qs[0]) then h + [qs[0]] else h, qs[1..]);
    }
  }

  /** The filter after a run of calls. */
  function Final(g: Filter, qs: seq<nat>): Filter
    decreases |qs|
  {
    if qs == [] then g else Final(Observed(g, qs[0]), qs[1..])
  }

  lemma NewAbstracts(window: nat)
    ensures Abstracts(NewFilter(window), [])
  {
  }

  lemma {:induction false} HistoryAcceptsReordering(h: seq<nat>, window: nat, qs: seq<nat>)
    requires forall i, j | 0 <= i < j < |qs| :: qs[i] != qs[j]
    requires forall i | 0 <= i < |qs| :: qs[i] !in h && qs[i] + window >= Max(h + qs[..i])
    ensures HistoryVerdicts(h, window, qs) == seq(|qs|, _ => true)
    decreases |qs|
  {
    if qs != [] {
      assert h + qs[..0] == h;
      assert Fresh(h, window, qs[0]);
      var h', rest := h + [qs[0]], qs[1..];
      forall i | 0 <= i < |rest|
        ensures rest[i] !in h' && rest[i] + window >= Max(h' + rest[..i])
      {
        assert h' + rest[..i] == h + qs[..i + 1];
        assert rest[i] == qs[i + 1];
      }
      HistoryAcceptsReordering(h', window, rest);
    }
  }

  lemma {:induction false} HistoryAcceptsOnce(h: seq<nat>, window: nat, qs: seq<nat>, i: nat, j: nat)
    requires i < j < |qs| && qs[i] == qs[j] && HistoryVerdicts(h, window, qs)[i]
    ensures !HistoryVerdicts(h, window, qs)[j]
    decreases |qs|
  {
    var h' := if Fresh(h, window, qs[0]) then h + [qs[0]] else h;
    if i == 0 {
      NeverAgain(h', window, qs[1..], j - 1);
    } else {
      HistoryAcceptsOnce(h', window, qs[1..], i - 1, j - 1);
    }
  }

  lemma {:induction false} NeverAgain(h: seq<nat>, window: nat, qs: seq<nat>, j: nat)
    requires j < |qs| && qs[j] in h
    ensures !HistoryVerdicts(h, window, qs)[j]
    decreases |qs|
  {
    if j > 0 {
      NeverAgain(if Fresh(h, window, qs[0]) then h + [qs[0]] else h, window, qs[1..], j - 1);
    }
  }

  /**
   * A new filter accepts in full any reordering in which no number lags the largest before it by more than the window.
   */
  lemma ReorderingAccepted(window: nat, qs: seq<nat>)
    requires forall i, j | 0 <= i < j < |qs| :: qs[i] != qs[j]
    requires forall i | 0 <= i < |qs| :: qs[i] + window >= Max(qs[..i])
    ensures Verdicts(NewFilter(window), qs) == seq(|qs|, _ => true)
  {
    NewAbstracts(window);
    FilterRefinesHistory(NewFilter(window), [], qs);
    forall i | 0 <= i < |qs|
      ensures [] + qs[..i] == qs[..i]
    {
    }
    HistoryAcceptsReordering([], window, qs);
  }

  /** A filter accepts no number twice in any run. */
  lemma AcceptedOnce(window: nat, qs: seq<nat>, i: nat, j: nat)
    requires i < j < |qs| && qs[i] == qs[j] && Verdicts(NewFilter(window), qs)[i]
    ensures !Verdicts(NewFilter(window), qs)[j]
  {
    NewAbstracts(window);
    FilterRefinesHistory(NewFilter(window), [], qs);
    HistoryAcceptsOnce([], window, qs, i, j);
  }

  // ----- Memory -----

  ghost predicate Bounded(g: Filter) {
    g.floor == SaturatingSub(g.last, g.window) && |g.seen| <= 2 * g.window && forall x | x in g.seen :: x <= g.last
  }

  lemma {:induction false} IntervalSize(s: set<nat>, lo: nat, n: nat)
    requires forall x | x in s :: lo <= x < lo + n
    ensures |s| <= n
  {
    if n == 0 {
      assert s == {};
    } else {
      IntervalSize(s - {lo + n - 1}, lo, n - 1);
    }
  }

  lemma ObserveKeepsBound(g: Filter, seq': nat)
    requires g.window >= 1 && Bounded(g)
    ensures Bounded(Observed(g, seq'))
  {
    if Admits(g, seq') {
      var r := Raised(g.(seen := g.seen + {seq'}), seq');
      if |r.seen| > 2 * r.window {
        IntervalSize(Pruned(r).seen, r.floor, r.last - r.floor + 1);
      }
    }
  }

  lemma {:induction false} RunKeepsBound(g: Filter, qs: seq<nat>)
    requires g.window >= 1 && Bounded(g)
    ensures Bounded(Final(g, qs)) && Final(g, qs).window == g.window
    decreases |qs|
  {
    hide Bounded, Admits;
    if qs != [] {
      ObserveKeepsBound(g, qs[0]);
      RunKeepsBound(Observed(g, qs[0]), qs[1..]);
    }
  }

  /** With a window of at least one, no run makes the filter remember more than two windows of numbers. */
  lemma MemoryBound(window: nat, qs: seq<nat>)
    requires window >= 1
    ensures |Final(NewFilter(window), qs).seen| <= 2 * window
  {
    RunKeepsBound(NewFilter(window), qs);
  }
}
