/** The server's UDP session table with its redundant per-IP counters, one critical section per step. */
module UdpSessions {
  import opened Bytes
  import opened FlowControl

  type Ip = seq<byte>

  /** The client chooses the session id, so the owner's address is part of the key. */
  datatype Key = Key(ip: Ip, sessionId: nat)

  datatype Session = Session(owner: Ip, lastActive: nat)

  const SESSION_TIMEOUT: nat := 120_000_000_000
  const DEFAULT_MAX_UDP_SESSIONS: nat := 4096
  const DEFAULT_MAX_UDP_SESSIONS_PER_IP: nat := 64

  datatype Limits = Limits(maxSessions: nat, maxPerIp: nat)

  /** current, created and rejected are the gauges; stopped counts the sessions whose task was told to end. */
  datatype Table = Table(
    sessions: map<Key, Session>, perIp: map<Ip, nat>,
    current: int, created: nat, rejected: nat, stopped: nat)

  /** The table of a new manager. */
  predicate IsNew(t: Table) {
    && t.sessions.Keys == {} && t.perIp.Keys == {}
    && t.current == t.created == t.rejected == t.stopped == 0
  }

  function LimitsOf(maxSessions: nat, maxPerIp: nat): Limits {
    Limits(if maxSessions == 0 then DEFAULT_MAX_UDP_SESSIONS else maxSessions,
           if maxPerIp == 0 then DEFAULT_MAX_UDP_SESSIONS_PER_IP else maxPerIp)
  }

  function Counted(perIp: map<Ip, nat>, ip: Ip): nat {
    if ip in perIp then perIp[ip] else 0
  }

  function Decremented(perIp: map<Ip, nat>, ip: Ip): map<Ip, nat> {
    if ip !in perIp then perIp
    else
      var n := SaturatingSub(perIp[ip], 1);
      if n == 0 then perIp - {ip} else perIp[ip := n]
  }

  datatype Outcome = Touched | TableFull | IpFull | BindFailed | Opened

  /** What a datagram for this key meets; binds tells whether a socket could be bound. */
  function OutcomeOf(l: Limits, t: Table, key: Key, binds: bool): Outcome {
    if key in t.sessions then Touched
    else if |t.sessions| >= l.maxSessions then TableFull
    else if Counted(t.perIp, key.ip) >= l.maxPerIp then IpFull
    else if !binds then BindFailed
    else Opened
  }

  function Forwarded(l: Limits, t: Table, key: Key, now: nat, binds: bool): Table {
    match OutcomeOf(l, t, key, binds)
    case Touched => t.(sessions := t.sessions[key := t.sessions[key].(lastActive := now)])
    case TableFull => t.(rejected := t.rejected + 1)
    case IpFull => t.(rejected := t.rejected + 1)
    case BindFailed => t
    case Opened =>
      t.(sessions := t.sessions[key := Session(key.ip, now)],
         perIp := t.perIp[key.ip := Counted(t.perIp, key.ip) + 1],
         current := t.current + 1, created := t.created + 1)
  }

  function Removed(t: Table, key: Key): Table {
    if key !in t.sessions then t
    else t.(sessions := t.sessions - {key}, perIp := Decremented(t.perIp, t.sessions[key].owner),
            current := t.current - 1, stopped := t.stopped + 1)
  }

  function RemovedAll(t: Table, keys: seq<Key>): Table
    decreases |keys|
  {
    if keys == [] then t else RemovedAll(Removed(t, keys[0]), keys[1..])
  }

  predicate Stale(s: Session, now: nat) {
    now - s.lastActive > SESSION_TIMEOUT
  }

  function StaleKeys(t: Table, now: nat): set<Key> {
    set k | k in t.sessions && Stale(t.sessions[k], now)
  }

  /** The table is iterated in no particular order. */
  ghost predicate Enumerates(keys: seq<Key>, s: set<Key>) {
    (forall k :: k in keys <==> k in s) && forall i, j | 0 <= i < j < |keys| :: keys[i] != keys[j]
  }

  class UdpManager {
    var sessions: map<Key, Session>
    var perIp: map<Ip, nat>
    var current: int
    var created: nat
    var rejected: nat
    ghost var stopped: nat
    const limits: Limits

    constructor (maxSessions: nat, maxPerIp: nat)
      ensures IsNew(View()) && limits == LimitsOf(maxSessions, maxPerIp)
    {
      sessions, perIp := map[], map[];
      current, created, rejected, stopped := 0, 0, 0, 0;
      limits := LimitsOf(maxSessions, maxPerIp);
    }

    ghost function View(): Table
      reads this
    {
      Table(sessions, perIp, current, created, rejected, stopped)
    }

    method DecrementPerIp(ip: Ip)
      modifies this`perIp
      ensures perIp == Decremented(old(perIp), ip)
    {
      if ip in perIp {
        perIp := perIp[ip := SaturatingSub(perIp[ip], 1)];
        if perIp[ip] == 0 {
          perIp := perIp - {ip};
        }
      }
    }

    /** The table part of forward. */
    method Forward(key: Key, now: nat, binds: bool) returns (r: Outcome)
      modifies this
      ensures r == OutcomeOf(limits, old(View()), key, binds)
      ensures View() == Forwarded(limits, old(View()), key, now, binds)
    {
      if key in sessions {
        sessions := sessions[key := sessions[key].(lastActive := now)];
        return Touched;
      }
      if |sessions| >= limits.maxSessions {
        rejected := rejected + 1;
        return TableFull;
      }
      if Counted(perIp, key.ip) >= limits.maxPerIp {
        rejected := rejected + 1;
        return IpFull;
      }
      if !binds {
        return BindFailed;
      }
      sessions := sessions[key := Session(key.ip, now)];
      perIp := perIp[key.ip := Counted(perIp, key.ip) + 1];
      current := current + 1;
      created := created + 1;
      return Opened;
    }

    method RemoveSession(key: Key)
      modifies this
      ensures View() == Removed(old(View()), key)
    {
      if key in sessions {
        var s := sessions[key];
        sessions := sessions - {key};
        stopped := stopped + 1;
        DecrementPerIp(s.owner);
        current := current - 1;
      }
    }

    /** One round of the sweep, removing the stale keys in an order of the map's choosing. */
    method Sweep(now: nat) returns (ghost keys: seq<Key>)
      modifies this
      ensures Enumerates(keys, StaleKeys(old(View()), now))
      ensures View() == RemovedAll(old(View()), keys)
    {
      var stale := set k | k in sessions && now - sessions[k].lastActive > SESSION_TIMEOUT;
      keys := [];
      ghost var all := stale;
      while stale != {}
        invariant stale <= all && Enumerates(keys, all - stale)
        invariant View() == RemovedAll(old(View()), keys)
        decreases |stale|
      {
        var key :| key in stale;
        RemovedSnoc(old(View()), keys, key);
        stale := stale - {key};
        keys := keys + [key];
        RemoveSession(key);
      }
    }
  }

  lemma {:induction false} RemovedSnoc(t: Table, keys: seq<Key>, key: Key)
    ensures RemovedAll(t, keys + [key]) == Removed(RemovedAll(t, keys), key)
    decreases |keys|
  {
    if keys == [] {
      assert (keys + [key])[1..] == [];
    } else {
      assert (keys + [key])[1..] == keys[1..] + [key];
      RemovedSnoc(Removed(t, keys[0]), keys[1..], key);
    }
  }

  // ----- What the counters must equal -----

  function OwnedBy(sessions: map<Key, Session>, ip: Ip): set<Key> {
    set k | k in sessions && sessions[k].owner == ip
  }

  /** The counters are exactly the numbers of sessions owned, with no entry for an address that owns none. */
  ghost predicate Exact(t: Table) {
    && (forall ip :: Counted(t.perIp, ip) == |OwnedBy(t.sessions, ip)|)
    && (forall ip | ip in t.perIp :: t.perIp[ip] > 0)
    && (forall k | k in t.sessions :: t.sessions[k].owner == k.ip)
    && t.current == |t.sessions|
    && t.created == t.current + t.stopped
  }

  ghost predicate WithinCaps(l: Limits, t: Table) {
    |t.sessions| <= l.maxSessions && forall ip :: |OwnedBy(t.sessions, ip)| <= l.maxPerIp
  }

  ghost predicate Inv(l: Limits, t: Table) {
    Exact(t) && WithinCaps(l, t)
  }

  lemma OwnedAfterOpen(sessions: map<Key, Session>, key: Key, now: nat, ip: Ip)
    requires key !in sessions
    ensures |OwnedBy(sessions[key := Session(key.ip, now)], ip)|
      == |OwnedBy(sessions, ip)| + if ip == key.ip then 1 else 0
  {
    var sessions' := sessions[key := Session(key.ip, now)];
    if ip == key.ip {
      assert OwnedBy(sessions', ip) == OwnedBy(sessions, ip) + {key};
    } else {
      assert OwnedBy(sessions', ip) == OwnedBy(sessions, ip);
    }
  }

  lemma OwnedAfterTouch(sessions: map<Key, Session>, key: Key, now: nat, ip: Ip)
    requires key in sessions
    ensures OwnedBy(sessions[key := sessions[key].(lastActive := now)], ip) == OwnedBy(sessions, ip)
  {
  }

  lemma OwnedAfterRemove(sessions: map<Key, Session>, key: Key, ip: Ip)
    requires key in sessions
    ensures |OwnedBy(sessions - {key}, ip)| == |OwnedBy(sessions, ip)| - if ip == sessions[key].owner then 1 else 0
    ensures ip == sessions[key].owner ==> |OwnedBy(sessions, ip)| >= 1
  {
    if ip == sessions[key].owner {
      assert key in OwnedBy(sessions, ip);
      assert OwnedBy(sessions - {key}, ip) == OwnedBy(sessions, ip) - {key};
    } else {
      assert OwnedBy(sessions - {key}, ip) == OwnedBy(sessions, ip);
    }
  }

  lemma ForwardKeepsInv(l: Limits, t: Table, key: Key, now: nat, binds: bool)
    requires Inv(l, t)
    ensures Inv(l, Forwarded(l, t, key, now, binds))
  {
    hide OwnedBy;
    if key in t.sessions {
      TouchKeepsInv(l, t, key, now, binds);
    } else {
      var t' := Forwarded(l, t, key, now, binds);
      forall ip
        ensures Counted(t'.perIp, ip) == |OwnedBy(t'.sessions, ip)| <= l.maxPerIp
      {
        assert Counted(t.perIp, ip) == |OwnedBy(t.sessions, ip)|;
        OwnedAfterOpen(t.sessions, key, now, ip);
      }
    }
  }

  lemma TouchKeepsInv(l: Limits, t: Table, key: Key, now: nat, binds: bool)
    requires Inv(l, t) && key in t.sessions
    ensures Inv(l, Forwarded(l, t, key, now, binds))
  {
    hide OwnedBy, Counted;
    var t' := Forwarded(l, t, key, now, binds);
    forall ip
      ensures OwnedBy(t'.sessions, ip) == OwnedBy(t.sessions, ip)
    {
      OwnedAfterTouch(t.sessions, key, now, ip);
    }
    assert t'.sessions.Keys == t.sessions.Keys;
  }

  lemma RemoveKeepsInv(l: Limits, t: Table, key: Key)
    requires Inv(l, t)
    ensures Inv(l, Removed(t, key))
  {
    hide OwnedBy;
    if key in t.sessions {
      var t' := Removed(t, key);
      forall ip
        ensures Counted(t'.perIp, ip) == |OwnedBy(t'.sessions, ip)| <= l.maxPerIp
      {
        assert Counted(t.perIp, ip) == |OwnedBy(t.sessions, ip)|;
        OwnedAfterRemove(t.sessions, key, ip);
      }
    }
  }

  /** The decrement never saturates: the owner of a session always has a positive count. */
  lemma DecrementIsExact(l: Limits, t: Table, key: Key)
    requires Inv(l, t) && key in t.sessions
    ensures key.ip in t.perIp && t.perIp[key.ip] >= 1
    ensures Counted(Removed(t, key).perIp, key.ip) == t.perIp[key.ip] - 1
  {
    OwnedAfterRemove(t.sessions, key, key.ip);
  }

  lemma {:induction false} RemoveAllKeepsInv(l: Limits, t: Table, keys: seq<Key>)
    requires Inv(l, t)
    ensures Inv(l, RemovedAll(t, keys))
    decreases |keys|
  {
    hide Inv, Removed;
    if keys != [] {
      RemoveKeepsInv(l, t, keys[0]);
      RemoveAllKeepsInv(l, Removed(t, keys[0]), keys[1..]);
    }
  }

  lemma {:induction false} RemoveAllSessions(t: Table, keys: seq<Key>)
    ensures RemovedAll(t, keys).sessions == t.sessions - (set k | k in keys)
    decreases |keys|
  {
    hide Decremented;
    if keys != [] {
      RemoveAllSessions(Removed(t, keys[0]), keys[1..]);
      assert (set k | k in keys) == {keys[0]} + set k | k in keys[1..];
    }
  }

  /** A sweep removes exactly the stale sessions, whatever the order. */
  lemma SweepRemovesStale(l: Limits, t: Table, now: nat, keys: seq<Key>)
    requires Inv(l, t) && Enumerates(keys, StaleKeys(t, now))
    ensures var t' := RemovedAll(t, keys);
      && Inv(l, t')
      && (forall k :: k in t'.sessions <==> k in t.sessions && !Stale(t.sessions[k], now))
      && (forall k | k in t'.sessions :: t'.sessions[k] == t.sessions[k])
      && t'.current == t.current - |StaleKeys(t, now)|
  {
    RemoveAllKeepsInv(l, t, keys);
    RemoveAllSessions(t, keys);
    var stale := StaleKeys(t, now);
    assert (set k | k in keys) == stale;
    SizeAfter(t.sessions, stale);
  }

  lemma SizeAfter(m: map<Key, Session>, s: set<Key>)
    requires s <= m.Keys
    ensures |m - s| == |m| - |s|
  {
    assert (m - s).Keys == m.Keys - s;
    assert |m.Keys - s| == |m.Keys| - |s|;
    assert |m| == |m.Keys| && |m - s| == |(m - s).Keys|;
  }

  // ----- Whole runs -----

  datatype Step = Forward(key: Key, now: nat, binds: bool) | Remove(key: Key) | Sweep(now: nat, keys: seq<Key>)

  function Apply(l: Limits, t: Table, s: Step): Table {
    match s
    case Forward(key, now, binds) => Forwarded(l, t, key, now, binds)
    case Remove(key) => Removed(t, key)
    case Sweep(_, keys) => RemovedAll(t, keys)
  }

  ghost predicate Runs(l: Limits, t: Table, steps: seq<Step>)
    decreases |steps|
  {
    steps == [] || ((steps[0].Sweep? ==> Enumerates(steps[0].keys, StaleKeys(t, steps[0].now)))
                    && Runs(l, Apply(l, t, steps[0]), steps[1..]))
  }

  function End(l: Limits, t: Table, steps: seq<Step>): Table
    decreases |steps|
  {
    if steps == [] then t else End(l, Apply(l, t, steps[0]), steps[1..])
  }

  lemma StepKeepsInv(l: Limits, t: Table, s: Step)
    requires Inv(l, t)
    ensures Inv(l, Apply(l, t, s))
  {
    hide Inv, Forwarded, Removed, RemovedAll;
    match s {
      case Forward(key, now, binds) => ForwardKeepsInv(l, t, key, now, binds);
      case Remove(key) => RemoveKeepsInv(l, t, key);
      case Sweep(_, keys) => RemoveAllKeepsInv(l, t, keys);
    }
  }

  lemma {:induction false} RunKeepsInv(l: Limits, t: Table, steps: seq<Step>)
    requires Inv(l, t) && Runs(l, t, steps)
    ensures Inv(l, End(l, t, steps))
    decreases |steps|
  {
    hide Inv, Apply;
    if steps != [] {
      StepKeepsInv(l, t, steps[0]);
      RunKeepsInv(l, Apply(l, t, steps[0]), steps[1..]);
    }
  }

  lemma NewIsExact(l: Limits, t: Table)
    requires IsNew(t)
    ensures Inv(l, t)
  {
    forall ip
      ensures OwnedBy(t.sessions, ip) == {}
    {
    }
    hide OwnedBy;
  }

  /** In every run of a new manager the counters stay exact, the caps hold, and the gauges balance. */
  lemma AccountingIsExact(l: Limits, t: Table, steps: seq<Step>)
    requires IsNew(t) && Runs(l, t, steps)
    ensures Inv(l, End(l, t, steps))
  {
    hide Inv, Runs, End;
    NewIsExact(l, t);
    RunKeepsInv(l, t, steps);
  }

  /** Each outcome exactly: by the size of the table and the address's own sessions, in the order of the checks. */
  lemma OutcomeIffRoom(l: Limits, t: Table, key: Key, binds: bool)
    requires Inv(l, t)
    ensures var o, own := OutcomeOf(l, t, key, binds), |OwnedBy(t.sessions, key.ip)|;
      && (o.Touched? <==> key in t.sessions)
      && (o.TableFull? <==> key !in t.sessions && |t.sessions| == l.maxSessions)
      && (o.IpFull? <==> key !in t.sessions && |t.sessions| < l.maxSessions && own == l.maxPerIp)
      && (o.BindFailed? <==> key !in t.sessions && |t.sessions| < l.maxSessions && own < l.maxPerIp && !binds)
      && (o.Opened? <==> key !in t.sessions && |t.sessions| < l.maxSessions && own < l.maxPerIp && binds)
  {
    assert Counted(t.perIp, key.ip) == |OwnedBy(t.sessions, key.ip)|;
    hide OwnedBy;
  }

  /** Whatever is configured, a new manager opens a session for the first datagram and the caps are as configured. */
  lemma ConfiguredCaps(maxSessions: nat, maxPerIp: nat, t: Table, steps: seq<Step>, key: Key)
    requires IsNew(t) && Runs(LimitsOf(maxSessions, maxPerIp), t, steps)
    ensures OutcomeOf(LimitsOf(maxSessions, maxPerIp), t, key, true) == Opened
    ensures var t' := End(LimitsOf(maxSessions, maxPerIp), t, steps);
      && |t'.sessions| <= (if maxSessions > 0 then maxSessions else 4096)
      && |OwnedBy(t'.sessions, key.ip)| <= (if maxPerIp > 0 then maxPerIp else 64)
  {
    hide Runs, End, Exact;
    AccountingIsExact(LimitsOf(maxSessions, maxPerIp), t, steps);
  }

  /** The step is a datagram or a failed send of another client. */
  predicate OfAnother(s: Step, ip: Ip) {
    !s.Sweep? && s.key.ip != ip
  }

  /** What the table holds for one client: its sessions and its counter. */
  function ShareOf(t: Table, ip: Ip): (map<Key, Session>, nat) {
    (map k | k in t.sessions && k.ip == ip :: t.sessions[k], Counted(t.perIp, ip))
  }

  lemma StepIsolated(l: Limits, t: Table, s: Step, ip: Ip)
    requires Inv(l, t) && OfAnother(s, ip)
    ensures ShareOf(Apply(l, t, s), ip) == ShareOf(t, ip)
  {
    hide OwnedBy;
    var t' := Apply(l, t, s);
    assert ShareOf(t', ip).0 == ShareOf(t, ip).0;
    if s.Remove? && s.key in t.sessions {
      assert t.sessions[s.key].owner == s.key.ip;
    }
    assert ShareOf(t', ip).1 == ShareOf(t, ip).1;
  }

  /** No run of other clients' datagrams and failures can take over, refresh, evict or count a client's sessions. */
  lemma {:induction false} ClientsAreIsolated(l: Limits, t: Table, steps: seq<Step>, ip: Ip)
    requires Inv(l, t) && Runs(l, t, steps)
    requires forall i | 0 <= i < |steps| :: OfAnother(steps[i], ip)
    ensures ShareOf(End(l, t, steps), ip) == ShareOf(t, ip)
    decreases |steps|
  {
    hide Inv, Apply, ShareOf;
    if steps != [] {
      StepIsolated(l, t, steps[0], ip);
      StepKeepsInv(l, t, steps[0]);
      ClientsAreIsolated(l, Apply(l, t, steps[0]), steps[1..], ip);
    }
  }

  // ----- Idle time and gauges -----

  /** The step neither fails a send on the key nor sweeps after the deadline, and datagrams for the key come after t. */
  predicate SparesUntil(s: Step, key: Key, t: nat) {
    match s
    case Forward(k, now, _) => k == key ==> now >= t
    case Remove(k) => k != key
    case Sweep(now, _) => now <= t + SESSION_TIMEOUT
  }

  /** A session active at time t survives every run of steps until the timeout has passed since t. */
  lemma {:induction false} ActiveSessionSurvives(l: Limits, t: Table, steps: seq<Step>, key: Key, since: nat)
    requires Inv(l, t) && Runs(l, t, steps)
    requires key in t.sessions && t.sessions[key].lastActive >= since
    requires forall i | 0 <= i < |steps| :: SparesUntil(steps[i], key, since)
    ensures var t' := End(l, t, steps);
      key in t'.sessions && t'.sessions[key].lastActive >= since
    decreases |steps|
  {
    hide Inv, Apply, SparesUntil;
    if steps != [] {
      StepSpares(l, t, steps[0], key, since);
      StepKeepsInv(l, t, steps[0]);
      ActiveSessionSurvives(l, Apply(l, t, steps[0]), steps[1..], key, since);
    }
  }

  lemma StepSpares(l: Limits, t: Table, s: Step, key: Key, since: nat)
    requires Inv(l, t) && (s.Sweep? ==> Enumerates(s.keys, StaleKeys(t, s.now)))
    requires key in t.sessions && t.sessions[key].lastActive >= since && SparesUntil(s, key, since)
    ensures var t' := Apply(l, t, s);
      key in t'.sessions && t'.sessions[key].lastActive >= since
  {
    hide Inv, RemovedAll;
    if s.Sweep? {
      SweepRemovesStale(l, t, s.now, s.keys);
    }
  }

  /** The session a datagram meets or opens is in use from then on: it survives until the timeout has passed since. */
  lemma DatagramKeepsSession(l: Limits, t: Table, key: Key, now: nat, binds: bool, steps: seq<Step>)
    requires Inv(l, t) && OutcomeOf(l, t, key, binds) in {Touched, Opened}
    requires Runs(l, t, [Forward(key, now, binds)] + steps)
    requires forall i | 0 <= i < |steps| :: SparesUntil(steps[i], key, now)
    ensures key in End(l, t, [Forward(key, now, binds)] + steps).sessions
  {
    var run := [Forward(key, now, binds)] + steps;
    assert run[1..] == steps;
    var t1 := Apply(l, t, run[0]);
    StepKeepsInv(l, t, run[0]);
    assert key in t1.sessions && t1.sessions[key].lastActive == now;
    ActiveSessionSurvives(l, t1, steps, key, now);
    hide Inv;
  }

  /** The time of the run's latest datagram for the key. */
  function LatestDatagram(steps: seq<Step>, key: Key): Option<nat>
    decreases |steps|
  {
    if steps == [] then None
    else
      var later := LatestDatagram(steps[1..], key);
      if later.Some? then later
      else if steps[0].Forward? && steps[0].key == key then Some(steps[0].now) else None
  }

  /** In every run, a session's recorded activity is the time of its key's latest datagram. */
  lemma {:induction false} ActivityIsLatest(l: Limits, t: Table, steps: seq<Step>, key: Key)
    requires key in End(l, t, steps).sessions
    ensures match LatestDatagram(steps, key)
      case Some(at) => End(l, t, steps).sessions[key].lastActive == at
      case None => key in t.sessions && End(l, t, steps).sessions[key] == t.sessions[key]
    decreases |steps|
  {
    if steps != [] {
      ActivityIsLatest(l, Apply(l, t, steps[0]), steps[1..], key);
      if steps[0].Sweep? {
        RemoveAllSessions(t, steps[0].keys);
      }
      hide RemovedAll, Decremented;
    }
  }

  /** After every run of a new manager, a sweep leaves exactly the sessions whose latest datagram is within 120 s. */
  lemma SweptIffIdle(l: Limits, t: Table, steps: seq<Step>, now: nat, keys: seq<Key>, key: Key)
    requires IsNew(t) && Runs(l, t, steps) && Enumerates(keys, StaleKeys(End(l, t, steps), now))
    ensures var t1 := End(l, t, steps);
      key in Apply(l, t1, Sweep(now, keys)).sessions <==>
        && key in t1.sessions && LatestDatagram(steps, key).Some?
        && now - LatestDatagram(steps, key).value <= 120_000_000_000
  {
    hide Inv, Runs, End, RemovedAll;
    AccountingIsExact(l, t, steps);
    SweepRemovesStale(l, End(l, t, steps), now, keys);
    if key in End(l, t, steps).sessions {
      ActivityIsLatest(l, t, steps, key);
    }
  }

  predicate Refused(o: Outcome) {
    o.TableFull? || o.IpFull?
  }

  /** How many datagrams of a run open a session, and how many are refused one. */
  function Tally(l: Limits, t: Table, steps: seq<Step>): (nat, nat)
    decreases |steps|
  {
    if steps == [] then (0, 0)
    else
      var (opens, refusals) := Tally(l, Apply(l, t, steps[0]), steps[1..]);
      if !steps[0].Forward? then (opens, refusals)
      else
        var o := OutcomeOf(l, t, steps[0].key, steps[0].binds);
        (opens + if o.Opened? then 1 else 0, refusals + if Refused(o) then 1 else 0)
  }

  lemma {:induction false} RemovalsLeaveGauges(t: Table, keys: seq<Key>)
    ensures RemovedAll(t, keys).created == t.created && RemovedAll(t, keys).rejected == t.rejected
    decreases |keys|
  {
    if keys != [] {
      RemovalsLeaveGauges(Removed(t, keys[0]), keys[1..]);
    }
  }

  /** The created and rejected gauges count exactly the sessions opened and the datagrams refused one. */
  lemma {:induction false} GaugesCountOutcomes(l: Limits, t: Table, steps: seq<Step>)
    ensures var t' := End(l, t, steps);
      t'.created == t.created + Tally(l, t, steps).0 && t'.rejected == t.rejected + Tally(l, t, steps).1
    decreases |steps|
  {
    if steps != [] {
      if steps[0].Sweep? {
        RemovalsLeaveGauges(t, steps[0].keys);
      }
      GaugesCountOutcomes(l, Apply(l, t, steps[0]), steps[1..]);
    }
  }
}
