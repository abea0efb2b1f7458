/**
 * The client's reconnects: any number of reconnect_sync callers, deduplicated under a lock, interleaved step by step
 * with the datagram loop, which reconnects without the lock.
 */
module Reconnect {
  import opened Bytes

  /** How far one call of reconnect has come; tunnels are numbered in the order they were dialled. */
  datatype Work =
    | Dialing            // before connect_tunnel
    | Dialed(t: nat)     // connected, about to replace the tunnel
    | Placed(t: nat)     // tunnel replaced, about to replace the handle
    | Published(t: nat)  // handle replaced, about to raise the generation

  /** Where a reconnect_sync caller stands; seen is the generation it loaded. */
  datatype Pc = Out | Waiting(seen: nat) | Holding(seen: nat) | Working(seen: nat, w: Work)

  /** A successful return: generation loaded, generation at return, and whether the caller reconnected itself. */
  datatype Return = Return(seen: nat, at: nat, own: bool)

  /** The datagram loop: between datagrams, receiving under the tunnel's mutex, in its backoff sleep, reconnecting. */
  datatype Loop = Idle | Receiving | Sleeping | Reconnecting(w: Work)

  datatype State = State(
    gen: nat, tunnel: nat, handle: nat, dialled: nat, lock: Option<nat>,
    callers: map<nat, Pc>, datagrams: Loop,
    results: seq<Return>, unlocked: nat)

  const START := State(0, 0, 0, 0, None, map[], Idle, [], 0)

  datatype Step =
    | Load(c: nat) | Acquire(c: nat) | Recheck(c: nat) | Advance(c: nat, dials: bool)
    | LoopReceive | LoopGot | LoopLost | LoopWake | LoopAdvance(dials: bool)

  function PcOf(s: State, c: nat): Pc {
    if c in s.callers then s.callers[c] else Out
  }

  /** Replacing the tunnel takes its mutex, which the datagram loop holds while it receives. */
  predicate Enabled(s: State, l: Step) {
    match l
    case Load(c) => PcOf(s, c).Out?
    case Acquire(c) => PcOf(s, c).Waiting? && s.lock == None
    case Recheck(c) => PcOf(s, c).Holding?
    case Advance(c, _) => PcOf(s, c).Working? && (PcOf(s, c).w.Dialed? ==> !s.datagrams.Receiving?)
    case LoopReceive => s.datagrams.Idle?
    case LoopGot => s.datagrams.Receiving?
    case LoopLost => s.datagrams.Receiving?
    case LoopWake => s.datagrams.Sleeping?
    case LoopAdvance(_) => s.datagrams.Reconnecting?
  }

  /** One step of reconnect on the shared state, with the work left: None once it has ended either way. */
  function WorkStep(s: State, w: Work, dials: bool): (State, Option<Work>) {
    match w
    case Dialing => if dials then (s.(dialled := s.dialled + 1), Some(Dialed(s.dialled + 1))) else (s, None)
    case Dialed(t) => (s.(tunnel := t), Some(Placed(t)))
    case Placed(t) => (s.(handle := t), Some(Published(t)))
    case Published(_) => (s.(gen := s.gen + 1), None)
  }

  /** Leaves the critical section. */
  function Leave(s: State, c: nat, results: seq<Return>): State {
    s.(lock := None, callers := s.callers[c := Out], results := results)
  }

  function Apply(s: State, l: Step): State
    requires Enabled(s, l)
  {
    match l
    case Load(c) => s.(callers := s.callers[c := Waiting(s.gen)])
    case Acquire(c) => s.(lock := Some(c), callers := s.callers[c := Holding(PcOf(s, c).seen)])
    case Recheck(c) =>
      var seen := PcOf(s, c).seen;
      if s.gen != seen then Leave(s, c, s.results + [Return(seen, s.gen, false)])
      else s.(callers := s.callers[c := Working(seen, Dialing)])
    case Advance(c, dials) =>
      var pc := PcOf(s, c);
      var (s1, w1) := WorkStep(s, pc.w, dials);
      if w1.Some? then s1.(callers := s1.callers[c := Working(pc.seen, w1.value)])
      else Leave(s1, c, if pc.w.Published? then s1.results + [Return(pc.seen, s1.gen, true)] else s1.results)
    case LoopReceive => s.(datagrams := Receiving)
    case LoopGot => s.(datagrams := Idle)
    case LoopLost => s.(datagrams := Sleeping)
    case LoopWake => s.(datagrams := Reconnecting(Dialing))
    case LoopAdvance(dials) =>
      var (s1, w1) := WorkStep(s, s.datagrams.w, dials);
      s1.(datagrams := if w1.Some? then Reconnecting(w1.value) else Idle,
          unlocked := if s.datagrams.w.Published? then s1.unlocked + 1 else s1.unlocked)
  }

  ghost predicate Runs(s: State, ls: seq<Step>)
    decreases |ls|
  {
    ls == [] || (Enabled(s, ls[0]) && Runs(Apply(s, ls[0]), ls[1..]))
  }

  ghost function End(s: State, ls: seq<Step>): State
    requires Runs(s, ls)
    decreases |ls|
  {
    if ls == [] then s else End(Apply(s, ls[0]), ls[1..])
  }

  // ----- Deduplication -----

  /** Of the callers that reconnected themselves, a later one had loaded a later generation. */
  ghost predicate OnePerGeneration(rs: seq<Return>) {
    forall i, j | 0 <= i < j < |rs| && rs[i].own && rs[j].own :: rs[i].seen < rs[j].seen
  }

  function OwnCount(rs: seq<Return>): nat {
    if rs == [] then 0 else OwnCount(rs[..|rs| - 1]) + if rs[|rs| - 1].own then 1 else 0
  }

  ghost predicate CallerInv(s: State, c: nat) {
    var pc := PcOf(s, c);
    && (pc.Holding? || pc.Working? <==> s.lock == Some(c))
    && (!pc.Out? ==> pc.seen <= s.gen)
    && (pc.Working? ==> forall r | r in s.results && r.own :: r.seen < pc.seen)
  }

  /** Every Ok follows a reconnect completed since its load, and the generation counts the completed reconnects. */
  ghost predicate Deduplicated(s: State) {
    && OnePerGeneration(s.results)
    && (forall r | r in s.results :: r.seen < r.at <= s.gen)
    && s.gen == OwnCount(s.results) + s.unlocked
  }

  ghost predicate Inv(s: State) {
    Deduplicated(s) && forall c :: CallerInv(s, c)
  }

  lemma OwnCountAppend(rs: seq<Return>, r: Return)
    ensures OwnCount(rs + [r]) == OwnCount(rs) + if r.own then 1 else 0
  {
    assert (rs + [r])[..|rs|] == rs;
  }

  lemma AppendKeepsOrder(rs: seq<Return>, r: Return)
    requires OnePerGeneration(rs) && (r.own ==> forall x | x in rs && x.own :: x.seen < r.seen)
    ensures OnePerGeneration(rs + [r])
  {
    forall i | 0 <= i < |rs| && rs[i].own && r.own
      ensures rs[i].seen < r.seen
    {
      assert rs[i] in rs;
    }
  }

  lemma StepKeepsResults(s: State, l: Step)
    requires Inv(s) && Enabled(s, l)
    ensures Deduplicated(Apply(s, l)) && s.gen <= Apply(s, l).gen
  {
    hide OnePerGeneration, OwnCount;
    var s' := Apply(s, l);
    if s'.results != s.results {
      var r := s'.results[|s.results|];
      assert s'.results == s.results + [r];
      assert CallerInv(s, l.c);
      OwnCountAppend(s.results, r);
      AppendKeepsOrder(s.results, r);
    }
  }

  lemma StepKeepsCaller(s: State, l: Step, c: nat)
    requires Inv(s) && Enabled(s, l)
    ensures CallerInv(Apply(s, l), c)
  {
    hide OnePerGeneration, OwnCount;
    assert CallerInv(s, c);
    if l.Recheck? || l.Advance? || l.Acquire? {
      assert CallerInv(s, l.c);
    }
  }

  lemma StepKeepsInv(s: State, l: Step)
    requires Inv(s) && Enabled(s, l)
    ensures Inv(Apply(s, l)) && Apply(s, l).gen >= s.gen
  {
    hide Deduplicated, CallerInv, Apply, Enabled;
    StepKeepsResults(s, l);
    forall c
      ensures CallerInv(Apply(s, l), c)
    {
      StepKeepsCaller(s, l, c);
    }
  }

  lemma {:induction false} RunKeepsInv(s: State, ls: seq<Step>)
    requires Inv(s) && Runs(s, ls)
    ensures Inv(End(s, ls)) && End(s, ls).gen >= s.gen
    decreases |ls|
  {
    hide Inv, Apply, Enabled;
    if ls != [] {
      StepKeepsInv(s, ls[0]);
      RunKeepsInv(Apply(s, ls[0]), ls[1..]);
    }
  }

  lemma StartCaller(c: nat)
    ensures CallerInv(START, c)
  {
    assert PcOf(START, c) == Out;
  }

  lemma StartsWell()
    ensures Inv(START)
  {
    hide CallerInv;
    forall c
      ensures CallerInv(START, c)
    {
      StartCaller(c);
    }
  }

  /**
   * In every interleaving: at most one caller per loaded generation reconnects itself, every caller that returns Ok
   * does so after a reconnect completed since its load, and the generation counts exactly the completed reconnects.
   */
  lemma ReconnectsDeduplicated(ls: seq<Step>)
    requires Runs(START, ls)
    ensures Deduplicated(End(START, ls))
  {
    hide Runs, End, CallerInv, Deduplicated;
    StartsWell();
    RunKeepsInv(START, ls);
  }

  /** The generation only grows. */
  lemma GenerationGrows(ls: seq<Step>, more: seq<Step>)
    requires Runs(START, ls) && Runs(End(START, ls), more)
    ensures End(START, ls).gen <= End(End(START, ls), more).gen
  {
    hide Runs, End, CallerInv;
    StartsWell();
    RunKeepsInv(START, ls);
    RunKeepsInv(End(START, ls), more);
  }

  // ----- What the callers are told -----

  function CallerOf(l: Step): Option<nat> {
    match l
    case Load(c) => Some(c)
    case Acquire(c) => Some(c)
    case Recheck(c) => Some(c)
    case Advance(c, _) => Some(c)
    case _ => None
  }

  /** The step ends a call of reconnect_sync, one way or the other. */
  predicate EndsCall(s: State, l: Step)
    requires Enabled(s, l)
  {
    && CallerOf(l).Some?
    && !PcOf(s, CallerOf(l).value).Out? && PcOf(Apply(s, l), CallerOf(l).value).Out?
  }

  /** A caller's own attempt to connect fails. */
  predicate FailsToDial(s: State, l: Step) {
    l.Advance? && PcOf(s, l.c).Working? && PcOf(s, l.c).w.Dialing? && !l.dials
  }

  ghost function CallsEnded(s: State, ls: seq<Step>): nat
    requires Runs(s, ls)
    decreases |ls|
  {
    if ls == [] then 0 else (if EndsCall(s, ls[0]) then 1 else 0) + CallsEnded(Apply(s, ls[0]), ls[1..])
  }

  ghost function DialsFailed(s: State, ls: seq<Step>): nat
    requires Runs(s, ls)
    decreases |ls|
  {
    if ls == [] then 0 else (if FailsToDial(s, ls[0]) then 1 else 0) + DialsFailed(Apply(s, ls[0]), ls[1..])
  }

  /** The generation when the caller last began a call, or `before` if it has not. */
  ghost function LoadedAt(s: State, ls: seq<Step>, c: nat, before: nat): nat
    requires Runs(s, ls)
    decreases |ls|
  {
    if ls == [] then before else LoadedAt(Apply(s, ls[0]), ls[1..], c, if ls[0] == Load(c) then s.gen else before)
  }

  /** One step answers Ok exactly if it ends a call other than by a failed dial. */
  lemma StepAnswers(s: State, l: Step)
    requires Enabled(s, l)
    ensures FailsToDial(s, l) ==> EndsCall(s, l)
    ensures var s' := Apply(s, l);
      if EndsCall(s, l) && !FailsToDial(s, l)
      then s'.results == s.results + [Return(PcOf(s, CallerOf(l).value).seen, s'.gen, s'.gen > s.gen)]
      else s'.results == s.results
  {
  }

  lemma {:induction false} AnswersFrom(s: State, ls: seq<Step>)
    requires Runs(s, ls)
    ensures |End(s, ls).results| + DialsFailed(s, ls) == |s.results| + CallsEnded(s, ls)
    decreases |ls|
  {
    hide Enabled, Apply, EndsCall, FailsToDial;
    if ls != [] {
      StepAnswers(s, ls[0]);
      AnswersFrom(Apply(s, ls[0]), ls[1..]);
    }
  }

  /** In every interleaving, the calls that end without Ok are exactly those whose own dial failed. */
  lemma OnlyFailedDialsFail(ls: seq<Step>)
    requires Runs(START, ls)
    ensures CallsEnded(START, ls) == |End(START, ls).results| + DialsFailed(START, ls)
  {
    AnswersFrom(START, ls);
  }

  lemma {:induction false} SeenIsLoaded(s: State, ls: seq<Step>, c: nat, before: nat)
    requires Runs(s, ls) && (PcOf(s, c).Out? || PcOf(s, c).seen == before)
    ensures PcOf(End(s, ls), c).Out? || PcOf(End(s, ls), c).seen == LoadedAt(s, ls, c, before)
    decreases |ls|
  {
    if ls != [] {
      SeenStays(s, ls[0], c, before);
      hide Enabled, Apply;
      SeenIsLoaded(Apply(s, ls[0]), ls[1..], c, if ls[0] == Load(c) then s.gen else before);
    }
  }

  lemma SeenStays(s: State, l: Step, c: nat, before: nat)
    requires Enabled(s, l) && (PcOf(s, c).Out? || PcOf(s, c).seen == before)
    ensures PcOf(Apply(s, l), c).Out? || PcOf(Apply(s, l), c).seen == if l == Load(c) then s.gen else before
  {
  }

  /** The answer given by a step: an Ok after a reconnect newer than the generation seen. */
  ghost predicate AnswersOk(s: State, s': State, seen: nat) {
    && |s'.results| == |s.results| + 1 && s.results <= s'.results
    && var r := s'.results[|s.results|];
       r.seen == seen < s'.gen == r.at && (r.own <==> s'.gen > s.gen)
  }

  lemma EndAnswers(s: State, l: Step)
    requires Inv(s) && Enabled(s, l) && EndsCall(s, l) && !FailsToDial(s, l)
    ensures AnswersOk(s, Apply(s, l), PcOf(s, CallerOf(l).value).seen)
  {
    hide CallerInv, OnePerGeneration, OwnCount, Apply, Enabled, EndsCall, FailsToDial;
    StepAnswers(s, l);
    StepKeepsInv(s, l);
    var s' := Apply(s, l);
    assert s'.results[|s.results|] in s'.results;
  }

  /**
   * After every run, a call that ends other than by its own failed dial, in particular one that finds the generation
   * raised, returns Ok: a reconnect has completed since the call began, by the caller itself if the generation rises
   * with this step and by another worker if not.
   */
  lemma CallIsAnswered(ls: seq<Step>, l: Step)
    requires Runs(START, ls) && Enabled(End(START, ls), l) && EndsCall(End(START, ls), l)
    requires !FailsToDial(End(START, ls), l)
    ensures AnswersOk(End(START, ls), Apply(End(START, ls), l), LoadedAt(START, ls, CallerOf(l).value, 0))
  {
    hide Runs, End, LoadedAt, Inv, Apply, Enabled, FailsToDial, AnswersOk;
    StartsWell();
    RunKeepsInv(START, ls);
    EndAnswers(End(START, ls), l);
    SeenIsLoaded(START, ls, CallerOf(l).value, 0);
  }

  // ----- The datagram loop's turns -----

  function Count(ls: seq<Step>, l: Step): nat {
    if ls == [] then 0 else (if ls[0] == l then 1 else 0) + Count(ls[1..], l)
  }

  lemma {:induction false} TurnsFrom(s: State, ls: seq<Step>)
    requires Runs(s, ls)
    ensures var d, e := s.datagrams, End(s, ls).datagrams;
      && Count(ls, LoopReceive) + (if d.Receiving? then 1 else 0)
           == Count(ls, LoopGot) + Count(ls, LoopLost) + (if e.Receiving? then 1 else 0)
      && Count(ls, LoopLost) + (if d.Sleeping? then 1 else 0) == Count(ls, LoopWake) + if e.Sleeping? then 1 else 0
    decreases |ls|
  {
    if ls != [] {
      TurnsFrom(Apply(s, ls[0]), ls[1..]);
    }
  }

  /**
   * In every run each receive of the datagram loop ends once, with a datagram or a loss, and each loss leads to one
   * backoff and then one reconnect, whether or not that reconnect succeeds.
   */
  lemma LoopTakesTurns(ls: seq<Step>)
    requires Runs(START, ls)
    ensures var e := End(START, ls).datagrams;
      && Count(ls, LoopReceive) == Count(ls, LoopGot) + Count(ls, LoopLost) + (if e.Receiving? then 1 else 0)
      && Count(ls, LoopLost) == Count(ls, LoopWake) + if e.Sleeping? then 1 else 0
  {
    TurnsFrom(START, ls);
  }

  // ----- The shared handle -----

  datatype Worker = Caller(c: nat) | DatagramLoop

  /** The reconnect a worker is in, if any. */
  function WorkOf(s: State, v: Worker): Option<Work> {
    match v
    case Caller(c) => if PcOf(s, c).Working? then Some(PcOf(s, c).w) else None
    case DatagramLoop => if s.datagrams.Reconnecting? then Some(s.datagrams.w) else None
  }

  /** The worker whose reconnect a step advances. */
  function Mover(l: Step): Option<Worker> {
    match l
    case Advance(c, _) => Some(Caller(c))
    case LoopAdvance(_) => Some(DatagramLoop)
    case _ => None
  }

  /** The step replaces the tunnel. */
  predicate Places(s: State, l: Step) {
    Mover(l).Some? && WorkOf(s, Mover(l).value).Some? && WorkOf(s, Mover(l).value).value.Dialed?
  }

  /** The step replaces the handle. */
  predicate Publishes(s: State, l: Step) {
    Mover(l).Some? && WorkOf(s, Mover(l).value).Some? && WorkOf(s, Mover(l).value).value.Placed?
  }

  /** The worker that replaced the tunnel last in a run, or `before` if none did. */
  ghost function LastPlacer(s: State, ls: seq<Step>, before: Option<Worker>): Option<Worker>
    requires Runs(s, ls)
    decreases |ls|
  {
    if ls == [] then before
    else LastPlacer(Apply(s, ls[0]), ls[1..], if Places(s, ls[0]) then Mover(ls[0]) else before)
  }

  /** The worker that replaced the handle last in a run, or `before` if none did. */
  ghost function LastPublisher(s: State, ls: seq<Step>, before: Option<Worker>): Option<Worker>
    requires Runs(s, ls)
    decreases |ls|
  {
    if ls == [] then before
    else LastPublisher(Apply(s, ls[0]), ls[1..], if Publishes(s, ls[0]) then Mover(ls[0]) else before)
  }

  predicate IsPlaced(w: Option<Work>) {
    w.Some? && w.value.Placed?
  }

  /** No reconnect stands between replacing the tunnel and replacing the handle. */
  ghost predicate Settled(s: State) {
    forall v :: !IsPlaced(WorkOf(s, v))
  }

  /** The tunnel a worker has dialled and not finished with; 0 if it has none. */
  function NumberOf(w: Option<Work>): nat {
    if w.None? || w.value.Dialing? then 0 else w.value.t
  }

  /** Tunnel numbers are never shared, and a number is new to the tunnel and the handle until it is placed. */
  ghost predicate Numbered(s: State) {
    && s.tunnel <= s.dialled && s.handle <= s.dialled
    && (forall v :: NumberOf(WorkOf(s, v)) <= s.dialled)
    && (forall v :: WorkOf(s, v).Some? && !WorkOf(s, v).value.Dialing? ==> NumberOf(WorkOf(s, v)) > 0)
    && (forall v, u | v != u && NumberOf(WorkOf(s, v)) > 0 :: NumberOf(WorkOf(s, v)) != NumberOf(WorkOf(s, u)))
    && (forall v :: WorkOf(s, v).Some? && WorkOf(s, v).value.Dialed?
          ==> WorkOf(s, v).value.t != s.tunnel && WorkOf(s, v).value.t != s.handle)
  }

  /** Of the reconnects between their two replacements, exactly the last placer's tunnel is the current one. */
  ghost predicate PlacedByLast(s: State, p: Option<Worker>) {
    forall v :: IsPlaced(WorkOf(s, v)) ==> (WorkOf(s, v).value.t == s.tunnel <==> p == Some(v))
  }

  ghost predicate FollowsIff(s: State, p: Option<Worker>, q: Option<Worker>) {
    s.handle == s.tunnel <==> p == q && !(p.Some? && IsPlaced(WorkOf(s, p.value)))
  }

  /** p placed the tunnel last and q published last. */
  ghost predicate Tracked(s: State, p: Option<Worker>, q: Option<Worker>) {
    && Numbered(s)
    && PlacedByLast(s, p)
    && FollowsIff(s, p, q)
  }

  /** A step advances its own worker's reconnect; other workers only start one or stay where they are. */
  ghost predicate WorkMoves(s: State, l: Step, v: Worker)
    requires Enabled(s, l)
  {
    var w, w' := WorkOf(s, v), WorkOf(Apply(s, l), v);
    if Mover(l) == Some(v) then
      match w
      case None => false
      case Some(Dialing) => w' == None || w' == Some(Dialed(Apply(s, l).dialled))
      case Some(Dialed(t)) => w' == Some(Placed(t))
      case Some(Placed(t)) => w' == Some(Published(t))
      case Some(Published(_)) => w' == None
    else w' == w || (w.None? && w' == Some(Dialing))
  }

  lemma OthersKeepWork(s: State, l: Step, v: Worker)
    requires Enabled(s, l)
    ensures WorkMoves(s, l, v)
  {
  }

  /** The shared fields after a step. */
  lemma SharedAfter(s: State, l: Step)
    requires Enabled(s, l)
    ensures var s' := Apply(s, l);
      && s'.tunnel == (if Places(s, l) then WorkOf(s, Mover(l).value).value.t else s.tunnel)
      && s'.handle == (if Publishes(s, l) then WorkOf(s, Mover(l).value).value.t else s.handle)
      && s.dialled <= s'.dialled <= s.dialled + 1
      && (s'.dialled > s.dialled ==> Mover(l).Some? && WorkOf(s', Mover(l).value) == Some(Dialed(s'.dialled)))
      && (Mover(l).Some? && WorkOf(s, Mover(l).value) == Some(Dialing) && s'.dialled == s.dialled
          ==> WorkOf(s', Mover(l).value).None?)
  {
  }

  lemma AllWorkMoves(s: State, l: Step)
    requires Enabled(s, l)
    ensures forall v {:trigger WorkOf(Apply(s, l), v)} :: WorkMoves(s, l, v)
  {
    forall v
      ensures WorkMoves(s, l, v)
    {
      OthersKeepWork(s, l, v);
    }
  }

  /** A worker's number stays, is dropped, or is the new one its own step has just dialled. */
  lemma NumberMoves(s: State, l: Step, v: Worker)
    requires Numbered(s) && Enabled(s, l)
    ensures var n, n' := NumberOf(WorkOf(s, v)), NumberOf(WorkOf(Apply(s, l), v));
      n' == n || n' == 0 || (Mover(l) == Some(v) && n' == Apply(s, l).dialled > s.dialled)
  {
    hide Enabled, Apply, WorkOf, Mover;
    SharedAfter(s, l);
    OthersKeepWork(s, l, v);
  }

  lemma StepKeepsNumbers(s: State, l: Step, v: Worker, u: Worker)
    requires Numbered(s) && Enabled(s, l)
    ensures var s' := Apply(s, l);
      && NumberOf(WorkOf(s', v)) <= s'.dialled
      && (v != u && NumberOf(WorkOf(s', v)) > 0 ==> NumberOf(WorkOf(s', v)) != NumberOf(WorkOf(s', u)))
  {
    NumberMoves(s, l, v);
    NumberMoves(s, l, u);
    SharedAfter(s, l);
    hide Enabled, Apply, WorkOf, Mover, NumberOf;
  }

  lemma StepKeepsNumbered(s: State, l: Step)
    requires Numbered(s) && Enabled(s, l)
    ensures Numbered(Apply(s, l))
  {
    hide Enabled, Apply, WorkOf, Mover;
    SharedAfter(s, l);
    AllWorkMoves(s, l);
    forall v, u {:trigger WorkOf(Apply(s, l), v), WorkOf(Apply(s, l), u)}
      ensures NumberOf(WorkOf(Apply(s, l), v)) <= Apply(s, l).dialled
      ensures v != u && NumberOf(WorkOf(Apply(s, l), v)) > 0 ==>
        NumberOf(WorkOf(Apply(s, l), v)) != NumberOf(WorkOf(Apply(s, l), u))
    {
      StepKeepsNumbers(s, l, v, u);
    }
  }

  lemma StepKeepsPlaced(s: State, l: Step, p: Option<Worker>, q: Option<Worker>)
    requires Tracked(s, p, q) && Enabled(s, l)
    ensures PlacedByLast(Apply(s, l), if Places(s, l) then Mover(l) else p)
  {
    hide Enabled, Apply, WorkOf, Mover;
    SharedAfter(s, l);
    AllWorkMoves(s, l);
  }

  lemma StepKeepsFollowing(s: State, l: Step, p: Option<Worker>, q: Option<Worker>)
    requires Tracked(s, p, q) && Enabled(s, l)
    ensures FollowsIff(Apply(s, l), if Places(s, l) then Mover(l) else p, if Publishes(s, l) then Mover(l) else q)
  {
    hide Enabled, Apply, WorkOf, Mover;
    SharedAfter(s, l);
    AllWorkMoves(s, l);
  }

  lemma StepKeepsTracked(s: State, l: Step, p: Option<Worker>, q: Option<Worker>)
    requires Tracked(s, p, q) && Enabled(s, l)
    ensures Tracked(Apply(s, l), if Places(s, l) then Mover(l) else p, if Publishes(s, l) then Mover(l) else q)
  {
    hide Enabled, Apply, WorkOf, Mover, Numbered, PlacedByLast, FollowsIff, Places, Publishes;
    StepKeepsNumbered(s, l);
    StepKeepsPlaced(s, l, p, q);
    StepKeepsFollowing(s, l, p, q);
  }

  lemma {:induction false} RunKeepsTracked(s: State, ls: seq<Step>, p: Option<Worker>, q: Option<Worker>)
    requires Tracked(s, p, q) && Runs(s, ls)
    ensures Tracked(End(s, ls), LastPlacer(s, ls, p), LastPublisher(s, ls, q))
    decreases |ls|
  {
    hide Tracked, Apply, Enabled, Places, Publishes, Mover;
    if ls != [] {
      var l := ls[0];
      StepKeepsTracked(s, l, p, q);
      var p', q' := if Places(s, l) then Mover(l) else p, if Publishes(s, l) then Mover(l) else q;
      RunKeepsTracked(Apply(s, l), ls[1..], p', q');
    }
  }

  lemma StartTracked()
    ensures Tracked(START, None, None)
  {
    forall v
      ensures WorkOf(START, v) == None
    {
    }
    hide WorkOf;
  }

  /**
   * Whenever no reconnect is half done, the handle belongs to the tunnel exactly when the worker that replaced the
   * tunnel last is also the one that replaced the handle last.
   */
  lemma HandleFollowsIffSameWorker(ls: seq<Step>)
    requires Runs(START, ls) && Settled(End(START, ls))
    ensures var s := End(START, ls);
      s.handle == s.tunnel <==> LastPlacer(START, ls, None) == LastPublisher(START, ls, None)
  {
    hide Runs, End, LastPlacer, LastPublisher, Numbered;
    StartTracked();
    RunKeepsTracked(START, ls, None, None);
  }

  /** The datagram loop's unlocked reconnect can overtake a caller's and leave the shared handle on the older tunnel. */
  lemma HandleCanBeStale() returns (ls: seq<Step>)
    ensures Runs(START, ls) && Settled(End(START, ls)) && End(START, ls).handle != End(START, ls).tunnel
  {
    ls := CallerDials();
    ls := Then(ls, LoopReceive);
    ls := Then(ls, LoopLost);
    ls := Then(ls, LoopWake);
    ls := Then(ls, Advance(1, true));
    ls := Overtaken(ls);
    ls := Then(ls, Advance(1, true));
    OnlyTwoWorkers(End(START, ls));
  }

  /**
   * The loop, awake from its backoff, dials, places and publishes while a caller stands between its two replacements.
   */
  lemma Overtaken(before: seq<Step>) returns (ls: seq<Step>)
    requires Runs(START, before)
    requires var s := End(START, before);
      s.dialled == 1 && s.datagrams == Reconnecting(Dialing) && s.callers == map[1 := Working(0, Placed(1))]
    ensures Runs(START, ls)
    ensures var s := End(START, ls);
      s.tunnel == 2 && s.datagrams == Reconnecting(Published(2)) && s.callers == map[1 := Working(0, Placed(1))]
  {
    ls := Then(before, LoopAdvance(true));
    ls := Then(ls, LoopAdvance(true));
    ls := Then(ls, LoopAdvance(true));
  }

  lemma OnlyTwoWorkers(s: State)
    requires s.callers.Keys <= {1} && !IsPlaced(WorkOf(s, Caller(1))) && !IsPlaced(WorkOf(s, DatagramLoop))
    ensures Settled(s)
  {
  }

  /** A caller has dialled the first tunnel. */
  lemma CallerDials() returns (ls: seq<Step>)
    ensures Runs(START, ls)
    ensures End(START, ls) == START.(dialled := 1, lock := Some(1), callers := map[1 := Working(0, Dialed(1))])
  {
    ls := [];
    ls := Then(ls, Load(1));
    ls := Then(ls, Acquire(1));
    ls := Then(ls, Recheck(1));
    ls := Then(ls, Advance(1, true));
  }

  lemma Then(ls: seq<Step>, l: Step) returns (r: seq<Step>)
    requires Runs(START, ls) && Enabled(End(START, ls), l)
    ensures Runs(START, r) && End(START, r) == Apply(End(START, ls), l)
  {
    r := ls + [l];
    RunSnoc(START, ls, l);
  }

  lemma {:induction false} RunSnoc(s: State, ls: seq<Step>, l: Step)
    requires Runs(s, ls) && Enabled(End(s, ls), l)
    ensures Runs(s, ls + [l]) && End(s, ls + [l]) == Apply(End(s, ls), l)
    decreases |ls|
  {
    hide Enabled, Apply;
    if ls == [] {
      assert ls + [l] == [l] && [l][1..] == [];
    } else {
      assert (ls + [l])[1..] == ls[1..] + [l];
      RunSnoc(Apply(s, ls[0]), ls[1..], l);
    }
  }

  // ----- Callers alone -----

  ghost predicate AloneInv(s: State) {
    && !s.datagrams.Reconnecting?
    && (forall c :: IsPlaced(WorkOf(s, Caller(c))) ==> s.tunnel == PcOf(s, c).w.t)
    && (Settled(s) ==> s.handle == s.tunnel)
  }

  lemma StepKeepsAlone(s: State, l: Step)
    requires Inv(s) && AloneInv(s) && Enabled(s, l) && l != LoopWake
    ensures AloneInv(Apply(s, l))
  {
    hide Deduplicated;
    var s' := Apply(s, l);
    forall c | IsPlaced(WorkOf(s', Caller(c)))
      ensures s'.tunnel == PcOf(s', c).w.t
    {
      assert CallerInv(s, c);
      if l.Advance? {
        assert CallerInv(s, l.c);
      } else {
        assert IsPlaced(WorkOf(s, Caller(c)));
      }
    }
    if l.Advance? {
      assert IsPlaced(WorkOf(s', Caller(l.c))) <==> PcOf(s, l.c).w.Dialed?;
      assert IsPlaced(WorkOf(s, Caller(l.c))) <==> PcOf(s, l.c).w.Placed?;
    }
    if Settled(s') && !Settled(s) {
      UnsettledPublishes(s, l);
    }
  }

  /** Only publishing settles an unsettled state. */
  lemma UnsettledPublishes(s: State, l: Step)
    requires AloneInv(s) && Enabled(s, l) && l != LoopWake && !Settled(s) && Settled(Apply(s, l))
    ensures Apply(s, l).handle == Apply(s, l).tunnel
  {
    var v :| IsPlaced(WorkOf(s, v));
    assert !IsPlaced(WorkOf(Apply(s, l), v));
    OthersKeepWork(s, l, v);
  }

  lemma {:induction false} RunKeepsAlone(s: State, ls: seq<Step>)
    requires Inv(s) && AloneInv(s) && Runs(s, ls) && LoopWake !in ls
    ensures AloneInv(End(s, ls))
    decreases |ls|
  {
    hide Inv, AloneInv, Apply, Enabled;
    if ls != [] {
      StepKeepsInv(s, ls[0]);
      StepKeepsAlone(s, ls[0]);
      RunKeepsAlone(Apply(s, ls[0]), ls[1..]);
    }
  }

  /** While the datagram loop does not reconnect, the lock suffices: the handle is the tunnel's between reconnects. */
  lemma CallersAloneStayTogether(ls: seq<Step>)
    requires Runs(START, ls) && LoopWake !in ls && Settled(End(START, ls))
    ensures End(START, ls).handle == End(START, ls).tunnel
  {
    hide Runs, End, Inv, Settled;
    StartsWell();
    StartAlone();
    RunKeepsAlone(START, ls);
  }

  lemma StartAlone()
    ensures AloneInv(START)
  {
    forall v
      ensures WorkOf(START, v) == None
    {
    }
    hide WorkOf;
  }
}
