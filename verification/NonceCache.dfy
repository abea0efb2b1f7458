/** The server's bounded FIFO cache of used nonces, and the plain log of acceptances it must agree with. */
module Nonces {
  import opened Bytes

  type Nonce = seq<byte>

  /** Times are nanoseconds of one nondecreasing clock. */
  datatype Entry = Entry(nonce: Nonce, time: nat)

  const REPLAY_CACHE_MAX: nat := 8192
  const REPLAY_TTL: nat := 600_000_000_000

  datatype Cache = Cache(known: set<Nonce>, order: seq<Entry>, cap: nat)

  predicate Alive(e: Entry, now: nat) {
    now - e.time < REPLAY_TTL
  }

  function PopFront(c: Cache): Cache
    requires c.order != []
  {
    c.(known := c.known - {c.order[0].nonce}, order := c.order[1..])
  }

  /** The cache once the expired entries at the front of the queue are gone. */
  function Evicted(c: Cache, now: nat): Cache
    decreases |c.order|
  {
    if c.order == [] || Alive(c.order[0], now) then c else Evicted(PopFront(c), now)
  }

  /** The cache once it fits its capacity again. */
  function Trimmed(c: Cache): Cache
    decreases |c.order|
  {
    if |c.order| <= c.cap then c else Trimmed(PopFront(c))
  }

  function Grown(c: Cache, nonce: Nonce, now: nat): Cache {
    c.(known := c.known + {nonce}, order := c.order + [Entry(nonce, now)])
  }

  function Added(c: Cache, nonce: Nonce, now: nat): Cache {
    Trimmed(Grown(c, nonce, now))
  }

  predicate Admits(c: Cache, nonce: Nonce, now: nat) {
    nonce !in Evicted(c, now).known
  }

  /** The cache after one call of insert. */
  function Inserted(c: Cache, nonce: Nonce, now: nat): Cache {
    var e := Evicted(c, now);
    if nonce in e.known then e else Added(e, nonce, now)
  }

  class NonceCache {
    var known: set<Nonce>
    var order: seq<Entry>
    const cap: nat

    constructor (cap: nat)
      ensures View() == Cache({}, [], cap)
    {
      known, order := {}, [];
      this.cap := cap;
    }

    ghost function View(): Cache
      reads this
    {
      Cache(known, order, cap)
    }

    method EvictExpired(now: nat)
      modifies this
      ensures View() == Evicted(old(View()), now)
    {
      while order != []
        invariant Evicted(View(), now) == Evicted(old(View()), now)
        decreases |order|
      {
        if now - order[0].time < REPLAY_TTL {
          break;
        }
        known, order := known - {order[0].nonce}, order[1..];
      }
    }

    /** Marks a nonce as used; false means it already was. */
    method Insert(nonce: Nonce, now: nat) returns (fresh': bool)
      modifies this
      ensures fresh' == Admits(old(View()), nonce, now)
      ensures View() == Inserted(old(View()), nonce, now)
    {
      EvictExpired(now);
      if nonce in known {
        return false;
      }
      known := known + {nonce};
      order := order + [Entry(nonce, now)];
      while |order| > cap
        invariant Trimmed(View()) == Inserted(old(View()), nonce, now)
        decreases |order|
      {
        known, order := known - {order[0].nonce}, order[1..];
      }
      return true;
    }
  }

  // ----- The plain log of acceptances -----

  /** The nonce is among the last cap accepted entries, and that entry has not expired. */
  predicate Remembered(log: seq<Entry>, cap: nat, nonce: Nonce, now: nat) {
    exists i | 0 <= i < |log| :: i >= |log| - cap && log[i].nonce == nonce && Alive(log[i], now)
  }

  function Nonces(order: seq<Entry>): set<Nonce> {
    set e | e in order :: e.nonce
  }

  predicate Distinct(order: seq<Entry>) {
    forall i, j | 0 <= i < j < |order| :: order[i].nonce != order[j].nonce
  }

  predicate Sorted(log: seq<Entry>) {
    forall i, j | 0 <= i <= j < |log| :: log[i].time <= log[j].time
  }

  /** set holds the elements of order, order has no duplicates and is time-sorted: its redundancies never disagree. */
  predicate Consistent(c: Cache) {
    c.known == Nonces(c.order) && Distinct(c.order) && Sorted(c.order)
  }

  /** order is a suffix of the log, and what was dropped before it has expired or lies beyond the capacity. */
  ghost predicate Abstracts(c: Cache, log: seq<Entry>, clock: nat) {
    && Consistent(c)
    && Sorted(log) && (forall e | e in log :: e.time <= clock)
    && |c.order| <= |log| && c.order == log[|log| - |c.order|..]
    && (forall i | 0 <= i < |log| - |c.order| :: i < |log| - c.cap || !Alive(log[i], clock))
  }

  lemma PopKeepsConsistent(c: Cache)
    requires c.order != [] && Consistent(c)
    ensures Consistent(PopFront(c))
  {
    var rest := c.order[1..];
    assert c.order == [c.order[0]] + rest;
    forall n
      ensures n in PopFront(c).known <==> n in Nonces(rest)
    {
      if n in Nonces(rest) {
        var e :| e in rest && e.nonce == n;
        var k :| 0 <= k < |rest| && rest[k] == e;
        assert c.order[k + 1] == e;
      }
    }
  }

  lemma PopKeeps(c: Cache, log: seq<Entry>, clock: nat)
    requires Abstracts(c, log, clock) && c.order != []
    requires |c.order| > c.cap || !Alive(c.order[0], clock)
    ensures Abstracts(PopFront(c), log, clock)
  {
    PopKeepsConsistent(c);
    hide Consistent, Alive;
    var cut := |log| - |c.order|;
    assert c.order[0] == log[cut];
    assert c.order[1..] == log[cut + 1..];
  }

  lemma {:induction false} EvictKeeps(c: Cache, log: seq<Entry>, now: nat)
    requires Abstracts(c, log, now) && |c.order| <= c.cap
    ensures var e := Evicted(c, now);
      Abstracts(e, log, now) && e.cap == c.cap && |e.order| <= e.cap && forall x | x in e.order :: Alive(x, now)
    decreases |c.order|
  {
    if c.order != [] && !Alive(c.order[0], now) {
      PopKeeps(c, log, now);
      EvictKeeps(PopFront(c), log, now);
    }
  }

  lemma GrowKeepsConsistent(c: Cache, nonce: Nonce, now: nat)
    requires Consistent(c) && nonce !in c.known && forall e | e in c.order :: e.time <= now
    ensures Consistent(Grown(c, nonce, now))
  {
    var g := Grown(c, nonce, now);
    forall n
      ensures n in g.known <==> n in Nonces(g.order)
    {
      assert Entry(nonce, now) in g.order;
    }
    forall i | 0 <= i < |c.order|
      ensures c.order[i].nonce != nonce && c.order[i].time <= now
    {
      assert c.order[i] in c.order;
    }
  }

  lemma GrowKeeps(c: Cache, log: seq<Entry>, nonce: Nonce, now: nat)
    requires Abstracts(c, log, now) && |c.order| <= c.cap && nonce !in c.known
    ensures Abstracts(Grown(c, nonce, now), log + [Entry(nonce, now)], now)
  {
    GrowKeepsConsistent(c, nonce, now);
    hide Consistent, Alive;
    var g, log' := Grown(c, nonce, now), log + [Entry(nonce, now)];
    assert g.order == log'[|log'| - |g.order|..];
  }

  lemma AddKeeps(c: Cache, log: seq<Entry>, nonce: Nonce, now: nat)
    requires Abstracts(c, log, now) && |c.order| <= c.cap && nonce !in c.known
    ensures var a := Added(c, nonce, now);
      Abstracts(a, log + [Entry(nonce, now)], now) && a.cap == c.cap && |a.order| <= a.cap
  {
    hide Abstracts;
    var g := Grown(c, nonce, now);
    GrowKeeps(c, log, nonce, now);
    if |g.order| > g.cap {
      PopKeeps(g, log + [Entry(nonce, now)], now);
      assert Trimmed(g) == Trimmed(PopFront(g)) == PopFront(g);
    } else {
      assert Trimmed(g) == g;
    }
  }

  /** One call: the cache refuses exactly the remembered nonces and keeps abstracting the log. */
  lemma InsertAgrees(c: Cache, log: seq<Entry>, clock: nat, nonce: Nonce, now: nat)
    requires Abstracts(c, log, clock) && |c.order| <= c.cap && clock <= now
    ensures Admits(c, nonce, now) <==> !Remembered(log, c.cap, nonce, now)
    ensures var c' := Inserted(c, nonce, now);
      && Abstracts(c', if Admits(c, nonce, now) then log + [Entry(nonce, now)] else log, now)
      && c'.cap == c.cap && |c'.order| <= c'.cap
  {
    EvictKeeps(c, log, now);
    var e := Evicted(c, now);
    KnownIsRemembered(e, log, nonce, now);
    if nonce !in e.known {
      AddKeeps(e, log, nonce, now);
    }
  }

  lemma KnownIsRemembered(e: Cache, log: seq<Entry>, nonce: Nonce, now: nat)
    requires Abstracts(e, log, now) && |e.order| <= e.cap && forall x | x in e.order :: Alive(x, now)
    ensures nonce in e.known <==> Remembered(log, e.cap, nonce, now)
  {
    hide Remembered, Abstracts, Alive;
    if nonce in e.known {
      IfKnown(e, log, nonce, now);
    }
    if Remembered(log, e.cap, nonce, now) {
      IfRemembered(e, log, nonce, now);
    }
  }

  lemma IfKnown(e: Cache, log: seq<Entry>, nonce: Nonce, now: nat)
    requires Abstracts(e, log, now) && |e.order| <= e.cap && forall x | x in e.order :: Alive(x, now)
    requires nonce in e.known
    ensures Remembered(log, e.cap, nonce, now)
  {
    hide Sorted, Distinct, Alive;
    var k :| 0 <= k < |e.order| && e.order[k].nonce == nonce;
    assert log[|log| - |e.order| + k] == e.order[k];
  }

  lemma IfRemembered(e: Cache, log: seq<Entry>, nonce: Nonce, now: nat)
    requires Abstracts(e, log, now) && Remembered(log, e.cap, nonce, now)
    ensures nonce in e.known
  {
    hide Sorted, Distinct, Alive;
    var i :| 0 <= i < |log| && i >= |log| - e.cap && log[i].nonce == nonce && Alive(log[i], now);
    assert e.order[i - (|log| - |e.order|)] == log[i];
  }

  // ----- Whole runs -----

  datatype Call = Call(nonce: Nonce, now: nat)

  predicate Nondecreasing(clock: nat, calls: seq<Call>)
    decreases |calls|
  {
    calls == [] || (clock <= calls[0].now && Nondecreasing(calls[0].now, calls[1..]))
  }

  function Verdicts(c: Cache, calls: seq<Call>): (r: seq<bool>)
    ensures |r| == |calls|
    decreases |calls|
  {
    if calls == [] then []
    else [Admits(c, calls[0].nonce, calls[0].now)] + Verdicts(Inserted(c, calls[0].nonce, calls[0].now), calls[1..])
  }

  function Final(c: Cache, calls: seq<Call>): Cache
    decreases |calls|
  {
    if calls == [] then c else Final(Inserted(c, calls[0].nonce, calls[0].now), calls[1..])
  }

  function Logged(log: seq<Entry>, cap: nat, call: Call): seq<Entry> {
    if Remembered(log, cap, call.nonce, call.now) then log else log + [Entry(call.nonce, call.now)]
  }

  function LogVerdicts(log: seq<Entry>, cap: nat, calls: seq<Call>): (r: seq<bool>)
    ensures |r| == |calls|
    decreases |calls|
  {
    if calls == [] then []
    else
      [!Remembered(log, cap, calls[0].nonce, calls[0].now)] + LogVerdicts(Logged(log, cap, calls[0]), cap, calls[1..])
  }

  function FinalLog(log: seq<Entry>, cap: nat, calls: seq<Call>): seq<Entry>
    decreases |calls|
  {
    if calls == [] then log else FinalLog(Logged(log, cap, calls[0]), cap, calls[1..])
  }

  function LastTime(clock: nat, calls: seq<Call>): nat {
    if calls == [] then clock else calls[|calls| - 1].now
  }

  /** The cache answers every run of calls as the plain log does, and stays consistent and within its capacity. */
  lemma {:induction false} CacheRefinesLog(c: Cache, log: seq<Entry>, clock: nat, calls: seq<Call>)
    requires Abstracts(c, log, clock) && |c.order| <= c.cap && Nondecreasing(clock, calls)
    ensures Verdicts(c, calls) == LogVerdicts(log, c.cap, calls)
    ensures var c' := Final(c, calls);
      Abstracts(c', FinalLog(log, c.cap, calls), LastTime(clock, calls)) && |c'.order| <= c'.cap == c.cap
    decreases |calls|
  {
    hide Admits, Remembered, Inserted, Abstracts;
    if calls != [] {
      InsertAgrees(c, log, clock, calls[0].nonce, calls[0].now);
      var c' := Inserted(c, calls[0].nonce, calls[0].now);
      CacheRefinesLog(c', Logged(log, c.cap, calls[0]), calls[0].now, calls[1..]);
    }
  }

  lemma NewAbstracts(cap: nat)
    ensures Abstracts(Cache({}, [], cap), [], 0)
  {
  }

  /** Two acceptances of one nonce are more than cap positions or at least the time to live apart. */
  predicate Separated(log: seq<Entry>, cap: nat) {
    forall i, j | 0 <= i < j < |log| && log[i].nonce == log[j].nonce :: j - i > cap || !Alive(log[i], log[j].time)
  }

  lemma {:induction false} RunKeepsSeparated(log: seq<Entry>, cap: nat, calls: seq<Call>)
    requires Separated(log, cap)
    ensures Separated(FinalLog(log, cap, calls), cap)
    decreases |calls|
  {
    if calls != [] {
      RunKeepsSeparated(Logged(log, cap, calls[0]), cap, calls[1..]);
    }
  }

  lemma {:induction false} LogOnlyGrows(log: seq<Entry>, cap: nat, calls: seq<Call>)
    ensures log <= FinalLog(log, cap, calls)
    decreases |calls|
  {
    if calls != [] {
      LogOnlyGrows(Logged(log, cap, calls[0]), cap, calls[1..]);
    }
  }

  function CountTrue(bs: seq<bool>): nat {
    if bs == [] then 0 else (if bs[0] then 1 else 0) + CountTrue(bs[1..])
  }

  /** An accepted call is logged after as many entries as calls were accepted before it. */
  lemma {:induction false} AcceptedIsLogged(log: seq<Entry>, cap: nat, calls: seq<Call>, i: nat)
    requires i < |calls| && LogVerdicts(log, cap, calls)[i]
    ensures var p := |log| + CountTrue(LogVerdicts(log, cap, calls)[..i]);
      p < |FinalLog(log, cap, calls)| && FinalLog(log, cap, calls)[p] == Entry(calls[i].nonce, calls[i].now)
    decreases |calls|
  {
    var log', vs := Logged(log, cap, calls[0]), LogVerdicts(log, cap, calls);
    if i == 0 {
      LogOnlyGrows(log', cap, calls[1..]);
    } else {
      assert vs[..i][1..] == vs[1..][..i - 1];
      AcceptedIsLogged(log', cap, calls[1..], i - 1);
    }
  }

  lemma {:induction false} CountSplit(bs: seq<bool>, i: nat, j: nat)
    requires i <= j <= |bs|
    ensures CountTrue(bs[..j]) == CountTrue(bs[..i]) + CountTrue(bs[i..j])
    decreases i
  {
    if i == 0 {
      assert bs[..j] == bs[0..j];
    } else {
      CountSplit(bs[1..], i - 1, j - 1);
      assert bs[..j][1..] == bs[1..][..j - 1] && bs[..i][1..] == bs[1..][..i - 1] && bs[i..j] == bs[1..][i - 1..j - 1];
    }
  }

  lemma LogAcceptancesApart(cap: nat, calls: seq<Call>, i: nat, j: nat)
    requires i < j < |calls| && calls[i].nonce == calls[j].nonce
    requires LogVerdicts([], cap, calls)[i] && LogVerdicts([], cap, calls)[j]
    ensures CountTrue(LogVerdicts([], cap, calls)[i..j]) > cap || calls[j].now - calls[i].now >= REPLAY_TTL
  {
    hide LogVerdicts, FinalLog, CountTrue;
    var vs, log := LogVerdicts([], cap, calls), FinalLog([], cap, calls);
    RunKeepsSeparated([], cap, calls);
    AcceptedIsLogged([], cap, calls, i);
    AcceptedIsLogged([], cap, calls, j);
    CountSplit(vs, i, j);
    assert vs[i..j][0] == vs[i];
    OneAtLeast(vs[i..j]);
    var p, q := CountTrue(vs[..i]), CountTrue(vs[..j]);
    assert log[p].nonce == log[q].nonce;
  }

  /**
   * A new cache, in any run with a nondecreasing clock, accepts one nonce twice only if the entry expired in between or
   * more than cap calls were accepted from the first acceptance to the second.
   */
  lemma AcceptancesApart(cap: nat, calls: seq<Call>, i: nat, j: nat)
    requires Nondecreasing(0, calls) && i < j < |calls| && calls[i].nonce == calls[j].nonce
    requires Verdicts(Cache({}, [], cap), calls)[i] && Verdicts(Cache({}, [], cap), calls)[j]
    ensures CountTrue(Verdicts(Cache({}, [], cap), calls)[i..j]) > cap || calls[j].now - calls[i].now >= REPLAY_TTL
  {
    hide Verdicts, LogVerdicts, FinalLog, Final, Abstracts, CountTrue;
    NewAbstracts(cap);
    CacheRefinesLog(Cache({}, [], cap), [], 0, calls);
    LogAcceptancesApart(cap, calls, i, j);
  }

  lemma OneAtLeast(bs: seq<bool>)
    requires bs != [] && bs[0]
    ensures CountTrue(bs) >= 1
  {
  }
}
