/** The per-IP limit on authentication attempts, and the full log of allowed attempts it must agree with. */
module RateLimiter {
  import opened Bytes

  type Ip = seq<byte>

  /** Times are nanoseconds of one nondecreasing clock. */
  const AUTH_WINDOW: nat := 60_000_000_000
  const AUTH_MAX_PER_IP: nat := 30

  type Table = map<Ip, seq<nat>>

  predicate InWindow(t: nat, now: nat) {
    now - t < AUTH_WINDOW
  }

  /** The times still inside the window. */
  function Recent(v: seq<nat>, now: nat): seq<nat> {
    if v == [] then []
    else (if InWindow(v[0], now) then [v[0]] else []) + Recent(v[1..], now)
  }

  function Attempts(m: Table, ip: Ip): seq<nat> {
    if ip in m then m[ip] else []
  }

  predicate Allows(m: Table, ip: Ip, now: nat) {
    |Recent(Attempts(m, ip), now)| < AUTH_MAX_PER_IP
  }

  function AfterAttempt(m: Table, ip: Ip, now: nat): Table {
    var v := Recent(Attempts(m, ip), now);
    m[ip := if |v| >= AUTH_MAX_PER_IP then v else v + [now]]
  }

  class AttemptLimiter {
    var authAttempts: Table

    constructor ()
      ensures authAttempts == map[]
    {
      authAttempts := map[];
    }

    method RateAllow(ip: Ip, now: nat) returns (allowed: bool)
      modifies this
      ensures allowed == Allows(old(authAttempts), ip, now)
      ensures authAttempts == AfterAttempt(old(authAttempts), ip, now)
    {
      if ip !in authAttempts {
        authAttempts := authAttempts[ip := []];
      }
      authAttempts := authAttempts[ip := Recent(authAttempts[ip], now)];
      if |authAttempts[ip]| >= AUTH_MAX_PER_IP {
        return false;
      }
      authAttempts := authAttempts[ip := authAttempts[ip] + [now]];
      return true;
    }
  }

  // ----- Sorted times -----

  predicate Sorted(v: seq<nat>) {
    forall i, j | 0 <= i <= j < |v| :: v[i] <= v[j]
  }

  lemma {:induction false} RecentAppend(v: seq<nat>, w: seq<nat>, now: nat)
    ensures Recent(v + w, now) == Recent(v, now) + Recent(w, now)
  {
    if v == [] {
      assert v + w == w;
    } else {
      hide InWindow;
      RecentAppend(v[1..], w, now);
      assert (v + w)[1..] == v[1..] + w && (v + w)[0] == v[0];
      Associate(if InWindow(v[0], now) then [v[0]] else [], Recent(v[1..], now), Recent(w, now));
    }
  }

  /** Forgetting early what will be forgotten anyway changes nothing. */
  lemma {:induction false} RecentTwice(v: seq<nat>, a: nat, b: nat)
    requires a <= b
    ensures Recent(Recent(v, a), b) == Recent(v, b)
  {
    if v != [] {
      RecentTwice(v[1..], a, b);
      RecentAppend(if InWindow(v[0], a) then [v[0]] else [], Recent(v[1..], a), b);
    }
  }

  /** Of sorted times, the recent ones are the last ones. */
  lemma {:induction false} RecentIsSuffix(v: seq<nat>, now: nat) returns (k: nat)
    requires Sorted(v)
    ensures k <= |v| && Recent(v, now) == v[k..]
    ensures forall i | 0 <= i < |v| :: InWindow(v[i], now) <==> k <= i
  {
    if v == [] {
      k := 0;
    } else {
      var k' := RecentIsSuffix(v[1..], now);
      k := if InWindow(v[0], now) then 0 else k' + 1;
      if |v| > 1 {
        assert v[1..][0] == v[1];
      }
      forall i | 0 < i < |v|
        ensures InWindow(v[i], now) <==> k <= i
      {
        assert v[i] == v[1..][i - 1];
      }
      assert v == [v[0]] + v[1..];
    }
  }

  // ----- The log of allowed attempts -----

  datatype Attempt = Attempt(ip: Ip, now: nat)

  /** The times at which an address was allowed, in order. */
  function AllowedTo(log: seq<Attempt>, ip: Ip): seq<nat> {
    if log == [] then []
    else AllowedTo(log[..|log| - 1], ip) + (if log[|log| - 1].ip == ip then [log[|log| - 1].now] else [])
  }

  predicate LogAllows(log: seq<Attempt>, q: Attempt) {
    |Recent(AllowedTo(log, q.ip), q.now)| < AUTH_MAX_PER_IP
  }

  function Extended(log: seq<Attempt>, q: Attempt): seq<Attempt> {
    if LogAllows(log, q) then log + [q] else log
  }

  /** The table may have forgotten times, but none that any later attempt could still count. */
  ghost predicate Abstracts(m: Table, log: seq<Attempt>, clock: nat) {
    forall ip, now | now >= clock :: Recent(Attempts(m, ip), now) == Recent(AllowedTo(log, ip), now)
  }

  /** At most AUTH_MAX_PER_IP allowed attempts fit any window: the i-th and the (i+30)-th are a window apart. */
  predicate Spaced(v: seq<nat>) {
    forall i | 0 <= i < |v| - AUTH_MAX_PER_IP :: v[i + AUTH_MAX_PER_IP] - v[i] >= AUTH_WINDOW
  }

  ghost predicate LogInv(log: seq<Attempt>, clock: nat) {
    forall ip ::
      var v := AllowedTo(log, ip);
      Sorted(v) && Spaced(v) && forall t | t in v :: t <= clock
  }

  lemma AllowedAppend(log: seq<Attempt>, q: Attempt, ip: Ip)
    ensures AllowedTo(log + [q], ip) == AllowedTo(log, ip) + (if q.ip == ip then [q.now] else [])
  {
    assert (log + [q])[..|log|] == log;
  }

  lemma AttemptAgrees(m: Table, log: seq<Attempt>, clock: nat, q: Attempt)
    requires Abstracts(m, log, clock) && clock <= q.now
    ensures Allows(m, q.ip, q.now) <==> LogAllows(log, q)
    ensures Abstracts(AfterAttempt(m, q.ip, q.now), Extended(log, q), q.now)
  {
    var m', log' := AfterAttempt(m, q.ip, q.now), Extended(log, q);
    assert Recent(Attempts(m, q.ip), q.now) == Recent(AllowedTo(log, q.ip), q.now);
    forall ip, now | now >= q.now
      ensures Recent(Attempts(m', ip), now) == Recent(AllowedTo(log', ip), now)
    {
      AllowedAppend(log, q, ip);
      assert Recent(Attempts(m, ip), now) == Recent(AllowedTo(log, ip), now);
      if ip == q.ip {
        RecentTwice(Attempts(m, ip), q.now, now);
        RecentAppend(Recent(Attempts(m, ip), q.now), [q.now], now);
        RecentAppend(AllowedTo(log, ip), [q.now], now);
      } else {
        assert Attempts(m', ip) == Attempts(m, ip);
        assert AllowedTo(log', ip) == AllowedTo(log, ip);
      }
    }
  }

  lemma StaysSpaced(v: seq<nat>, now: nat)
    requires Sorted(v) && Spaced(v) && (forall t | t in v :: t <= now) && |Recent(v, now)| < AUTH_MAX_PER_IP
    ensures Sorted(v + [now]) && Spaced(v + [now])
  {
    var k := RecentIsSuffix(v, now);
    forall i | 0 <= i < |v|
      ensures v[i] <= now
    {
      assert v[i] in v;
    }
  }

  lemma AttemptKeepsInv(log: seq<Attempt>, clock: nat, q: Attempt)
    requires LogInv(log, clock) && clock <= q.now
    ensures LogInv(Extended(log, q), q.now)
  {
    forall ip
      ensures var v := AllowedTo(Extended(log, q), ip); Sorted(v) && Spaced(v) && forall t | t in v :: t <= q.now
    {
      AllowedAppend(log, q, ip);
      if ip == q.ip && LogAllows(log, q) {
        StaysSpaced(AllowedTo(log, ip), q.now);
      }
    }
  }

  // ----- Whole runs -----

  predicate Nondecreasing(clock: nat, qs: seq<Attempt>)
    decreases |qs|
  {
    qs == [] || (clock <= qs[0].now && Nondecreasing(qs[0].now, qs[1..]))
  }

  function Final(m: Table, qs: seq<Attempt>): Table
    decreases |qs|
  {
    if qs == [] then m else Final(AfterAttempt(m, qs[0].ip, qs[0].now), qs[1..])
  }

  function Verdicts(m: Table, qs: seq<Attempt>): (r: seq<bool>)
    ensures |r| == |qs|
    decreases |qs|
  {
    if qs == [] then [] else [Allows(m, qs[0].ip, qs[0].now)] + Verdicts(AfterAttempt(m, qs[0].ip, qs[0].now), qs[1..])
  }

  function LogVerdicts(log: seq<Attempt>, qs: seq<Attempt>): seq<bool>
    decreases |qs|
  {
    if qs == [] then [] else [LogAllows(log, qs[0])] + LogVerdicts(Extended(log, qs[0]), qs[1..])
  }

  function FinalLog(log: seq<Attempt>, qs: seq<Attempt>): seq<Attempt>
    decreases |qs|
  {
    if qs == [] then log else FinalLog(Extended(log, qs[0]), qs[1..])
  }

  /** The limiter, which forgets, answers every run as the full log does. */
  lemma {:induction false} LimiterRefinesLog(m: Table, log: seq<Attempt>, clock: nat, qs: seq<Attempt>)
    requires Abstracts(m, log, clock) && Nondecreasing(clock, qs)
    ensures Verdicts(m, qs) == LogVerdicts(log, qs)
    decreases |qs|
  {
    if qs != [] {
      AttemptAgrees(m, log, clock, qs[0]);
      hide Allows, LogAllows;
      LimiterRefinesLog(AfterAttempt(m, qs[0].ip, qs[0].now), Extended(log, qs[0]), qs[0].now, qs[1..]);
    }
  }

  lemma {:induction false} RunKeepsInv(log: seq<Attempt>, clock: nat, qs: seq<Attempt>)
    requires LogInv(log, clock) && Nondecreasing(clock, qs)
    ensures LogInv(FinalLog(log, qs), LastTime(clock, qs))
    decreases |qs|
  {
    hide LogInv, LogAllows;
    if qs != [] {
      AttemptKeepsInv(log, clock, qs[0]);
      RunKeepsInv(Extended(log, qs[0]), qs[0].now, qs[1..]);
    }
  }

  function LastTime(clock: nat, qs: seq<Attempt>): nat {
    if qs == [] then clock else qs[|qs| - 1].now
  }

  /** After a run the limiter allows what the log then allows. */
  lemma {:induction false} RunAgrees(m: Table, log: seq<Attempt>, clock: nat, qs: seq<Attempt>, q: Attempt)
    requires Abstracts(m, log, clock) && Nondecreasing(clock, qs) && LastTime(clock, qs) <= q.now
    ensures Allows(Final(m, qs), q.ip, q.now) <==> LogAllows(FinalLog(log, qs), q)
    decreases |qs|
  {
    hide Abstracts, Allows, LogAllows, AfterAttempt, Extended;
    if qs == [] {
      AttemptAgrees(m, log, clock, q);
    } else {
      AttemptAgrees(m, log, clock, qs[0]);
      RunAgrees(AfterAttempt(m, qs[0].ip, qs[0].now), Extended(log, qs[0]), qs[0].now, qs[1..], q);
    }
  }

  lemma EmptyAbstracts()
    ensures Abstracts(map[], [], 0) && LogInv([], 0)
  {
  }

  /** The times at which the limiter itself allows an address in a run. */
  function AllowedTimes(m: Table, qs: seq<Attempt>, ip: Ip): seq<nat>
    decreases |qs|
  {
    if qs == [] then []
    else
      TimeOf(m, qs[0], ip) + AllowedTimes(AfterAttempt(m, qs[0].ip, qs[0].now), qs[1..], ip)
  }

  /** The time of one attempt, if it is of this address and allowed. */
  function TimeOf(m: Table, q: Attempt, ip: Ip): seq<nat> {
    if q.ip == ip && Allows(m, ip, q.now) then [q.now] else []
  }

  lemma TimesUnfold(m: Table, qs: seq<Attempt>, ip: Ip)
    ensures AllowedTimes(m, qs, ip) ==
      if qs == [] then []
      else TimeOf(m, qs[0], ip) + AllowedTimes(AfterAttempt(m, qs[0].ip, qs[0].now), qs[1..], ip)
  {
  }

  lemma StepLogged(m: Table, log: seq<Attempt>, clock: nat, q: Attempt, ip: Ip)
    requires Abstracts(m, log, clock) && clock <= q.now
    ensures AllowedTo(Extended(log, q), ip) == AllowedTo(log, ip) + TimeOf(m, q, ip)
  {
    hide Abstracts, Allows, LogAllows, AfterAttempt, AllowedTo;
    AttemptAgrees(m, log, clock, q);
    AllowedAppend(log, q, ip);
  }

  lemma {:induction false} AllowedTimesAreLogged(m: Table, log: seq<Attempt>, clock: nat, qs: seq<Attempt>, ip: Ip)
    requires Abstracts(m, log, clock) && Nondecreasing(clock, qs)
    ensures AllowedTo(FinalLog(log, qs), ip) == AllowedTo(log, ip) + AllowedTimes(m, qs, ip)
    decreases |qs|
  {
    hide Abstracts, Allows, LogAllows, AfterAttempt, AllowedTo, AllowedTimes, Extended;
    if qs == [] {
      TimesUnfold(m, qs, ip);
      assert AllowedTo(log, ip) + [] == AllowedTo(log, ip);
    } else {
      var q := qs[0];
      var m', log' := AfterAttempt(m, q.ip, q.now), Extended(log, q);
      AttemptAgrees(m, log, clock, q);
      AllowedTimesAreLogged(m', log', q.now, qs[1..], ip);
      StepLogged(m, log, clock, q, ip);
      TimesUnfold(m, qs, ip);
      Associate(AllowedTo(log, ip), TimeOf(m, q, ip), AllowedTimes(m', qs[1..], ip));
    }
  }

  lemma AllowedFromEmpty(qs: seq<Attempt>, ip: Ip)
    requires Nondecreasing(0, qs)
    ensures AllowedTo(FinalLog([], qs), ip) == AllowedTimes(map[], qs, ip)
  {
    EmptyAbstracts();
    AllowedTimesAreLogged(map[], [], 0, qs, ip);
    assert AllowedTo([], ip) == [];
    hide Abstracts, AllowedTimes, FinalLog, LogInv;
  }

  /** In every run of a new limiter, each address's i-th and (i+30)-th allowed attempts are at least a window apart. */
  lemma WindowBound(qs: seq<Attempt>, ip: Ip)
    requires Nondecreasing(0, qs)
    ensures Spaced(AllowedTimes(map[], qs, ip))
  {
    hide Abstracts, AllowedTimes, FinalLog, AllowedTo;
    EmptyAbstracts();
    RunKeepsInv([], 0, qs);
    AllowedFromEmpty(qs, ip);
  }

  lemma LogRefusesWhenFull(log: seq<Attempt>, clock: nat, q: Attempt)
    requires LogInv(log, clock) && clock <= q.now
    ensures !LogAllows(log, q) <==> |Recent(AllowedTo(log, q.ip), q.now)| == AUTH_MAX_PER_IP
  {
    var v := AllowedTo(log, q.ip);
    forall i | 0 <= i < |v| - AUTH_MAX_PER_IP
      ensures !InWindow(v[i], q.now)
    {
      assert v[i + AUTH_MAX_PER_IP] in v;
    }
    var k := RecentIsSuffix(v, q.now);
    assert k < |v| ==> InWindow(v[k], q.now);
  }

  /** After every run, a refusal means exactly AUTH_MAX_PER_IP attempts were allowed within the window. */
  lemma RefusedOnlyWhenFull(qs: seq<Attempt>, q: Attempt)
    requires Nondecreasing(0, qs) && LastTime(0, qs) <= q.now
    ensures !Allows(Final(map[], qs), q.ip, q.now) <==>
      |Recent(AllowedTimes(map[], qs, q.ip), q.now)| == AUTH_MAX_PER_IP
  {
    hide Abstracts, LogInv, AllowedTimes, FinalLog, Final, Allows, LogAllows, Recent;
    EmptyAbstracts();
    RunKeepsInv([], 0, qs);
    RunAgrees(map[], [], 0, qs, q);
    var log := FinalLog([], qs);
    LogRefusesWhenFull(log, LastTime(0, qs), q);
    AllowedFromEmpty(qs, q.ip);
  }

  lemma LogRefusesIff(log: seq<Attempt>, clock: nat, q: Attempt)
    requires LogInv(log, clock)
    ensures var v := AllowedTo(log, q.ip);
      !LogAllows(log, q) <==> |v| >= 30 && q.now - v[|v| - 30] < 60_000_000_000
  {
    var v := AllowedTo(log, q.ip);
    assert Sorted(v);
    var k := RecentIsSuffix(v, q.now);
    hide AllowedTo, Recent, LogInv, Sorted;
  }

  /** After every run, an attempt is refused if and only if the 30th latest allowed one is less than 60 s old. */
  lemma RefusedIff(qs: seq<Attempt>, q: Attempt)
    requires Nondecreasing(0, qs) && LastTime(0, qs) <= q.now
    ensures var v := AllowedTimes(map[], qs, q.ip);
      !Allows(Final(map[], qs), q.ip, q.now) <==> |v| >= 30 && q.now - v[|v| - 30] < 60_000_000_000
  {
    hide Abstracts, LogInv, AllowedTimes, FinalLog, Final, Allows, LogAllows, Recent;
    EmptyAbstracts();
    RunKeepsInv([], 0, qs);
    RunAgrees(map[], [], 0, qs, q);
    LogRefusesIff(FinalLog([], qs), LastTime(0, qs), q);
    AllowedFromEmpty(qs, q.ip);
  }

  /** The attempts of one address. */
  function Only(qs: seq<Attempt>, ip: Ip): seq<Attempt>
    decreases |qs|
  {
    if qs == [] then [] else (if qs[0].ip == ip then [qs[0]] else []) + Only(qs[1..], ip)
  }

  /** Addresses do not interfere: what is kept for one is what its own attempts alone would leave. */
  lemma {:induction false} AddressesIndependent(m: Table, m': Table, qs: seq<Attempt>, ip: Ip)
    requires Attempts(m, ip) == Attempts(m', ip)
    ensures Attempts(Final(m, qs), ip) == Attempts(Final(m', Only(qs, ip)), ip)
    decreases |qs|
  {
    if qs != [] {
      var q, next := qs[0], AfterAttempt(m, qs[0].ip, qs[0].now);
      if q.ip == ip {
        assert Only(qs, ip)[1..] == Only(qs[1..], ip);
        AddressesIndependent(next, AfterAttempt(m', q.ip, q.now), qs[1..], ip);
      } else {
        assert Only(qs, ip) == Only(qs[1..], ip);
        AddressesIndependent(next, m', qs[1..], ip);
      }
    }
  }
}
