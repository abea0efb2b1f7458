/** The server's answer to an authentication request, over whole runs of requests. */
module Authentication {
  import opened Bytes
  import opened Varint
  import M = Messages
  import opened Nonces
  import opened Connection
  import H = Handling

  const PROTOCOL_VERSION: nat := 1
  const FEATURE_UDP: byte := 1
  const MIN_NONCE: nat := 8

  /** proof is the keyed hash of a nonce under the configured password; nothing is assumed about it. */
  datatype Config = Config(ccRx: nat, proof: Nonce -> seq<byte>)

  datatype Request = Request(message: M.Message, now: nat)

  function Refused(code: byte, text: string): M.Message {
    M.AuthResponse(M.STATUS_ERR, code, Ascii(text), 0, 0, [])
  }

  function Accepted(cfg: Config): M.Message {
    M.AuthResponse(M.STATUS_OK, M.ERR_NONE, [], cfg.ccRx, FEATURE_UDP, [])
  }

  /** The request speaks this version and proves knowledge of the password for its own nonce. */
  predicate Credible(cfg: Config, req: M.Message)
    requires req.AuthRequest?
  {
    && req.version == PROTOCOL_VERSION
    && |req.clientNonce| >= MIN_NONCE
    && cfg.proof(req.clientNonce) == req.authProof
  }

  /** The answer of validate. */
  function Verdict(cfg: Config, c: Cache, req: M.Message, now: nat): (resp: M.Message)
    requires req.AuthRequest?
    ensures resp.AuthResponse?
  {
    if req.version != PROTOCOL_VERSION then Refused(M.ERR_UNSUPPORTED, "unsupported protocol version")
    else if |req.clientNonce| < MIN_NONCE then Refused(M.ERR_PROTOCOL, "client nonce too short")
    else if cfg.proof(req.clientNonce) != req.authProof then Refused(M.ERR_BAD_CREDENTIALS, "invalid credentials")
    else if !Admits(c, req.clientNonce, now) then Refused(M.ERR_PROTOCOL, "replay detected")
    else Accepted(cfg)
  }

  /** The nonce cache after validate. */
  function AfterVerdict(cfg: Config, c: Cache, req: M.Message, now: nat): Cache
    requires req.AuthRequest?
  {
    if Credible(cfg, req) then Inserted(c, req.clientNonce, now) else c
  }

  class Validator {
    const cfg: Config
    const replayNonces: NonceCache

    constructor (cfg: Config)
      ensures this.cfg == cfg && fresh(replayNonces)
      ensures replayNonces.View() == Cache({}, [], REPLAY_CACHE_MAX)
    {
      this.cfg := cfg;
      replayNonces := new NonceCache(REPLAY_CACHE_MAX);
    }

    method Validate(req: M.Message, now: nat) returns (resp: M.Message)
      requires req.AuthRequest?
      modifies replayNonces
      ensures resp == Verdict(cfg, old(replayNonces.View()), req, now)
      ensures replayNonces.View() == AfterVerdict(cfg, old(replayNonces.View()), req, now)
    {
      if req.version != PROTOCOL_VERSION {
        return Refused(M.ERR_UNSUPPORTED, "unsupported protocol version");
      }
      if |req.clientNonce| < MIN_NONCE {
        return Refused(M.ERR_PROTOCOL, "client nonce too short");
      }
      var expected := cfg.proof(req.clientNonce);
      if expected != req.authProof {
        return Refused(M.ERR_BAD_CREDENTIALS, "invalid credentials");
      }
      var fresh' := replayNonces.Insert(req.clientNonce, now);
      if !fresh' {
        return Refused(M.ERR_PROTOCOL, "replay detected");
      }
      return Accepted(cfg);
    }
  }

  /** The answer to each request, by version, nonce length, proof and replay, checked in this order. */
  lemma VerdictIff(cfg: Config, c: Cache, log: seq<Entry>, clock: nat, req: M.Message, now: nat)
    requires req.AuthRequest? && Abstracts(c, log, clock) && |c.order| <= c.cap && clock <= now
    ensures var resp, nonce := Verdict(cfg, c, req, now), req.clientNonce;
      var known, proven := req.version == 1 && |nonce| >= 8, cfg.proof(nonce) == req.authProof;
      && (resp.errorCode == 0x04 <==> req.version != 1)
      && (resp.errorCode == 0x01 <==> known && !proven)
      && (resp.errorCode == 0x05 <==>
            req.version == 1 && (|nonce| < 8 || (proven && Remembered(log, c.cap, nonce, now))))
      && (resp.errorCode == 0x00 <==> known && proven && !Remembered(log, c.cap, nonce, now))
      && (resp.status == 0x00 <==> resp.errorCode == 0x00) && (resp.status == 0x01 <==> resp.errorCode != 0x00)
      && (resp.status == 0x00 ==> resp == M.AuthResponse(0, 0, [], cfg.ccRx, 1, []))
      && (resp.status == 0x01 ==> resp == M.AuthResponse(1, resp.errorCode, resp.text, 0, 0, []) && resp.text != [])
  {
    InsertAgrees(c, log, clock, req.clientNonce, now);
    hide Admits, Remembered, Abstracts, Inserted;
  }

  /** The reason each refusal gives. */
  lemma VerdictText(cfg: Config, c: Cache, req: M.Message, now: nat)
    requires req.AuthRequest?
    ensures var text, nonce := Verdict(cfg, c, req, now).text, req.clientNonce;
      && (req.version != 1 ==> H.Spells(text, "unsupported protocol version"))
      && (req.version == 1 && |nonce| < 8 ==> H.Spells(text, "client nonce too short"))
      && (req.version == 1 && |nonce| >= 8 && cfg.proof(nonce) != req.authProof ==>
            H.Spells(text, "invalid credentials"))
      && (Credible(cfg, req) ==> Verdict(cfg, c, req, now).status == 0 || H.Spells(text, "replay detected"))
  {
    H.AsciiSpells("unsupported protocol version");
    H.AsciiSpells("client nonce too short");
    H.AsciiSpells("invalid credentials");
    H.AsciiSpells("replay detected");
    hide Admits, Ascii, H.Spells;
  }

  /** Every answer fits one response frame, as the connection loop requires. */
  lemma AnswerIsResponse(cfg: Config, c: Cache, req: M.Message, now: nat)
    requires req.AuthRequest? && cfg.ccRx < TWO_64
    ensures IsResponse(Verdict(cfg, c, req, now))
  {
    hide Admits;
  }

  /** Without the proof the answer does not depend on the cache: it cannot be used to ask which nonces were seen. */
  lemma OnlyProofConsultsCache(cfg: Config, c: Cache, c': Cache, req: M.Message, now: nat)
    requires req.AuthRequest?
    ensures !Credible(cfg, req) ==>
      Verdict(cfg, c, req, now) == Verdict(cfg, c', req, now) && AfterVerdict(cfg, c, req, now) == c
    ensures Credible(cfg, req) ==>
      var resp := Verdict(cfg, c, req, now);
      || resp.status == M.STATUS_OK
      || (resp.errorCode == M.ERR_PROTOCOL && AfterVerdict(cfg, c, req, now) == Evicted(c, now))
  {
    hide Evicted;
  }

  // ----- Runs -----

  predicate Requests(clock: nat, reqs: seq<Request>)
    decreases |reqs|
  {
    reqs == [] || (reqs[0].message.AuthRequest? && clock <= reqs[0].now && Requests(reqs[0].now, reqs[1..]))
  }

  /** Which requests of a run are answered OK. */
  function Oks(cfg: Config, c: Cache, clock: nat, reqs: seq<Request>): (r: seq<bool>)
    requires Requests(clock, reqs)
    ensures |r| == |reqs|
    decreases |reqs|
  {
    if reqs == [] then []
    else
      var q := reqs[0];
      [Verdict(cfg, c, q.message, q.now).status == M.STATUS_OK]
      + Oks(cfg, AfterVerdict(cfg, c, q.message, q.now), q.now, reqs[1..])
  }

  function FinalCache(cfg: Config, c: Cache, clock: nat, reqs: seq<Request>): Cache
    requires Requests(clock, reqs)
    decreases |reqs|
  {
    if reqs == [] then c
    else FinalCache(cfg, AfterVerdict(cfg, c, reqs[0].message, reqs[0].now), reqs[0].now, reqs[1..])
  }

  /** The insertions a run of requests makes: those of the credible ones. */
  function CredibleCalls(cfg: Config, clock: nat, reqs: seq<Request>): seq<Call>
    requires Requests(clock, reqs)
    decreases |reqs|
  {
    if reqs == [] then []
    else
      var rest := CredibleCalls(cfg, reqs[0].now, reqs[1..]);
      if Credible(cfg, reqs[0].message) then [Call(reqs[0].message.clientNonce, reqs[0].now)] + rest else rest
  }

  /** A flood of requests that lack the proof cannot push a used nonce out: they leave no trace in the cache. */
  lemma {:induction false} FloodIsInvisible(cfg: Config, c: Cache, clock: nat, reqs: seq<Request>)
    requires Requests(clock, reqs)
    ensures FinalCache(cfg, c, clock, reqs) == Final(c, CredibleCalls(cfg, clock, reqs))
    decreases |reqs|
  {
    hide Inserted;
    if reqs != [] {
      var q := reqs[0];
      FloodIsInvisible(cfg, AfterVerdict(cfg, c, q.message, q.now), q.now, reqs[1..]);
      if Credible(cfg, q.message) {
        var calls := CredibleCalls(cfg, clock, reqs);
        assert calls[1..] == CredibleCalls(cfg, q.now, reqs[1..]);
      }
    }
  }

  /** A request is answered OK exactly when it is credible and its nonce is not among the remembered acceptances. */
  lemma OkIffCredibleAndNew(cfg: Config, c: Cache, log: seq<Entry>, clock: nat, req: M.Message, now: nat)
    requires req.AuthRequest? && Abstracts(c, log, clock) && |c.order| <= c.cap && clock <= now
    ensures Verdict(cfg, c, req, now).status == M.STATUS_OK <==>
      Credible(cfg, req) && !Remembered(log, c.cap, req.clientNonce, now)
  {
    InsertAgrees(c, log, clock, req.clientNonce, now);
    hide Admits, Remembered;
  }

  /** A nonce accepted earlier is accepted again only beyond the capacity or after the time to live. */
  lemma {:induction false} AcceptedLater(
      cfg: Config, c: Cache, log: seq<Entry>, clock: nat, reqs: seq<Request>, p: nat, j: nat)
    requires Requests(clock, reqs) && Abstracts(c, log, clock) && |c.order| <= c.cap
    requires p < |log| && j < |reqs| && reqs[j].message.AuthRequest? && reqs[j].message.clientNonce == log[p].nonce
    requires Oks(cfg, c, clock, reqs)[j]
    ensures |log| - p + CountTrue(Oks(cfg, c, clock, reqs)[..j]) > c.cap || reqs[j].now - log[p].time >= REPLAY_TTL
    decreases |reqs|
  {
    var q, oks := reqs[0], Oks(cfg, c, clock, reqs);
    OkIffCredibleAndNew(cfg, c, log, clock, q.message, q.now);
    if j > 0 {
      NextAbstracts(cfg, c, log, clock, q);
      hide Abstracts, Verdict, AfterVerdict, Remembered, Credible;
      assert oks[..j][1..] == oks[1..][..j - 1];
      AcceptedLater(cfg, AfterVerdict(cfg, c, q.message, q.now), NextLog(cfg, c, log, q), q.now, reqs[1..], p, j - 1);
    }
  }

  lemma CountFirst(bs: seq<bool>, j: nat)
    requires 0 < j <= |bs| && bs[0]
    ensures CountTrue(bs[0..j]) == 1 + CountTrue(bs[1..][..j - 1])
  {
    assert bs[0..j][1..] == bs[1..][..j - 1];
  }

  function NextLog(cfg: Config, c: Cache, log: seq<Entry>, q: Request): seq<Entry>
    requires q.message.AuthRequest?
  {
    if Verdict(cfg, c, q.message, q.now).status == M.STATUS_OK then log + [Entry(q.message.clientNonce, q.now)] else log
  }

  lemma TimePasses(c: Cache, log: seq<Entry>, clock: nat, now: nat)
    requires Abstracts(c, log, clock) && clock <= now
    ensures Abstracts(c, log, now)
  {
    hide Consistent;
  }

  lemma NextAbstracts(cfg: Config, c: Cache, log: seq<Entry>, clock: nat, q: Request)
    requires q.message.AuthRequest? && Abstracts(c, log, clock) && |c.order| <= c.cap && clock <= q.now
    ensures var c' := AfterVerdict(cfg, c, q.message, q.now);
      Abstracts(c', NextLog(cfg, c, log, q), q.now) && c'.cap == c.cap && |c'.order| <= c'.cap
  {
    hide Admits, Abstracts, Inserted, Remembered;
    InsertAgrees(c, log, clock, q.message.clientNonce, q.now);
    TimePasses(c, log, clock, q.now);
  }

  /**
   * The replay guarantee: in any run with a nondecreasing clock, two requests with one nonce are both answered OK only
   * if at least REPLAY_TTL passed between them or more than the cache's capacity were answered OK from the first to
   * the second.
   */
  lemma {:induction false} ReplaysApart(
      cfg: Config, c: Cache, log: seq<Entry>, clock: nat, reqs: seq<Request>, i: nat, j: nat)
    requires Requests(clock, reqs) && Abstracts(c, log, clock) && |c.order| <= c.cap
    requires i < j < |reqs| && reqs[i].message.AuthRequest? && reqs[j].message.AuthRequest?
    requires reqs[i].message.clientNonce == reqs[j].message.clientNonce
    requires Oks(cfg, c, clock, reqs)[i] && Oks(cfg, c, clock, reqs)[j]
    ensures CountTrue(Oks(cfg, c, clock, reqs)[i..j]) > c.cap || reqs[j].now - reqs[i].now >= REPLAY_TTL
    decreases |reqs|
  {
    var q, oks := reqs[0], Oks(cfg, c, clock, reqs);
    var c', log' := AfterVerdict(cfg, c, q.message, q.now), NextLog(cfg, c, log, q);
    hide Abstracts, Verdict, AfterVerdict, CountTrue;
    NextAbstracts(cfg, c, log, clock, q);
    if i > 0 {
      assert oks[i..j] == oks[1..][i - 1..j - 1];
      ReplaysApart(cfg, c', log', q.now, reqs[1..], i - 1, j - 1);
    } else {
      CountFirst(oks, j);
      AcceptedLater(cfg, c', log', q.now, reqs[1..], |log|, j - 1);
    }
  }

  /** The nonce's last acceptance is the one at position p. */
  predicate LastAt(log: seq<Entry>, nonce: Nonce, p: nat) {
    p < |log| && log[p].nonce == nonce && forall k | p < k < |log| :: log[k].nonce != nonce
  }

  lemma RememberedByLast(log: seq<Entry>, cap: nat, nonce: Nonce, now: nat, p: nat)
    requires Sorted(log) && LastAt(log, nonce, p)
    ensures Remembered(log, cap, nonce, now) <==> |log| - p <= cap && now - log[p].time < REPLAY_TTL
  {
    if Remembered(log, cap, nonce, now) {
      var i :| 0 <= i < |log| && i >= |log| - cap && log[i].nonce == nonce && Alive(log[i], now);
      assert i <= p && log[i].time <= log[p].time;
    }
    assert log[p].nonce == nonce;
  }

  /** No request before j with this nonce is answered OK. */
  ghost predicate QuietUntil(cfg: Config, c: Cache, clock: nat, reqs: seq<Request>, nonce: Nonce, from: nat, j: nat)
    requires Requests(clock, reqs) && from <= j <= |reqs|
  {
    forall k | from <= k < j && reqs[k].message.AuthRequest? && reqs[k].message.clientNonce == nonce ::
      !Oks(cfg, c, clock, reqs)[k]
  }

  /** What is quiet in a run is quiet in the run after its first request. */
  lemma QuietTail(cfg: Config, c: Cache, clock: nat, reqs: seq<Request>, nonce: Nonce, from: nat, j: nat)
    requires Requests(clock, reqs) && from <= j <= |reqs| && j > 0
    requires QuietUntil(cfg, c, clock, reqs, nonce, from, j)
    ensures var c' := AfterVerdict(cfg, c, reqs[0].message, reqs[0].now);
      QuietUntil(cfg, c', reqs[0].now, reqs[1..], nonce, if from == 0 then 0 else from - 1, j - 1)
  {
    hide Verdict, AfterVerdict;
    var c' := AfterVerdict(cfg, c, reqs[0].message, reqs[0].now);
    forall k | 0 <= k < |reqs| - 1
      ensures reqs[1..][k] == reqs[k + 1]
      ensures Oks(cfg, c', reqs[0].now, reqs[1..])[k] == Oks(cfg, c, clock, reqs)[k + 1]
    {
    }
  }

  lemma {:induction false} AcceptedAgain(
      cfg: Config, c: Cache, log: seq<Entry>, clock: nat, reqs: seq<Request>, p: nat, j: nat)
    requires Requests(clock, reqs) && Abstracts(c, log, clock) && |c.order| <= c.cap
    requires j < |reqs| && reqs[j].message.AuthRequest? && LastAt(log, reqs[j].message.clientNonce, p)
    requires Credible(cfg, reqs[j].message) && QuietUntil(cfg, c, clock, reqs, reqs[j].message.clientNonce, 0, j)
    ensures Oks(cfg, c, clock, reqs)[j] <==>
      |log| - p + CountTrue(Oks(cfg, c, clock, reqs)[..j]) > c.cap || reqs[j].now - log[p].time >= REPLAY_TTL
    decreases |reqs|
  {
    hide Remembered, AfterVerdict, Verdict, Sorted;
    var q, oks := reqs[0], Oks(cfg, c, clock, reqs);
    OkIffCredibleAndNew(cfg, c, log, clock, q.message, q.now);
    if j == 0 {
      RememberedByLast(log, c.cap, q.message.clientNonce, q.now, p);
    } else {
      NextAbstracts(cfg, c, log, clock, q);
      hide Abstracts, Credible;
      assert oks[..j][1..] == oks[1..][..j - 1];
      var c', log' := AfterVerdict(cfg, c, q.message, q.now), NextLog(cfg, c, log, q);
      assert LastAt(log', reqs[j].message.clientNonce, p);
      QuietTail(cfg, c, clock, reqs, reqs[j].message.clientNonce, 0, j);
      AcceptedAgain(cfg, c', log', q.now, reqs[1..], p, j - 1);
    }
  }

  /**
   * Exactly when a captured request works again: in any run, after request i was answered OK, a credible request j with
   * the same nonce, none with it answered OK in between, is answered OK if and only if REPLAY_TTL has passed or more
   * than the capacity were answered OK from i to j.
   */
  lemma {:induction false} ReplayedIff(
      cfg: Config, c: Cache, log: seq<Entry>, clock: nat, reqs: seq<Request>, i: nat, j: nat)
    requires Requests(clock, reqs) && Abstracts(c, log, clock) && |c.order| <= c.cap
    requires i < j < |reqs| && reqs[i].message.AuthRequest? && reqs[j].message.AuthRequest?
    requires reqs[i].message.clientNonce == reqs[j].message.clientNonce
    requires Oks(cfg, c, clock, reqs)[i] && Credible(cfg, reqs[j].message)
    requires QuietUntil(cfg, c, clock, reqs, reqs[j].message.clientNonce, i + 1, j)
    ensures Oks(cfg, c, clock, reqs)[j] <==>
      CountTrue(Oks(cfg, c, clock, reqs)[i..j]) > c.cap || reqs[j].now - reqs[i].now >= REPLAY_TTL
    decreases |reqs|
  {
    hide Abstracts, Verdict, AfterVerdict, CountTrue, Credible, QuietUntil;
    var q, oks := reqs[0], Oks(cfg, c, clock, reqs);
    var c', log' := AfterVerdict(cfg, c, q.message, q.now), NextLog(cfg, c, log, q);
    NextAbstracts(cfg, c, log, clock, q);
    QuietTail(cfg, c, clock, reqs, reqs[j].message.clientNonce, i + 1, j);
    if i > 0 {
      assert oks[i..j] == oks[1..][i - 1..j - 1];
      ReplayedIff(cfg, c', log', q.now, reqs[1..], i - 1, j - 1);
    } else {
      CountFirst(oks, j);
      assert LastAt(log', reqs[j].message.clientNonce, |log|);
      AcceptedAgain(cfg, c', log', q.now, reqs[1..], |log|, j - 1);
    }
  }

  /**
   * The captured request itself, sent again to an otherwise idle server, is answered OK exactly once its entry
   * expires.
   */
  lemma CapturedRequest(cfg: Config, req: M.Message, t: nat, later: nat)
    requires req.AuthRequest? && Credible(cfg, req) && t <= later
    ensures Requests(0, [Request(req, t), Request(req, later)])
    ensures Oks(cfg, Cache({}, [], REPLAY_CACHE_MAX), 0, [Request(req, t), Request(req, later)])
         == [true, later - t >= 600_000_000_000]
  {
    hide Abstracts, Verdict, AfterVerdict, Remembered, Credible, NextLog;
    var c, q := Cache({}, [], REPLAY_CACHE_MAX), Request(req, t);
    TwoOks(cfg, c, req, t, later);
    NewAbstracts(REPLAY_CACHE_MAX);
    OkIffCredibleAndNew(cfg, c, [], 0, req, t);
    NextAbstracts(cfg, c, [], 0, q);
    OkIffCredibleAndNew(cfg, AfterVerdict(cfg, c, req, t), NextLog(cfg, c, [], q), t, req, later);
    OneEntry(cfg, c, q, later);
  }

  lemma TwoOks(cfg: Config, c: Cache, req: M.Message, t: nat, later: nat)
    requires req.AuthRequest? && t <= later
    ensures Requests(0, [Request(req, t), Request(req, later)])
    ensures Oks(cfg, c, 0, [Request(req, t), Request(req, later)])
         == [Verdict(cfg, c, req, t).status == M.STATUS_OK,
             Verdict(cfg, AfterVerdict(cfg, c, req, t), req, later).status == M.STATUS_OK]
  {
    hide Verdict, AfterVerdict;
    var reqs := [Request(req, t), Request(req, later)];
    assert reqs[1..] == [Request(req, later)] && reqs[1..][1..] == [];
    assert Requests(t, reqs[1..]);
  }

  lemma OneEntry(cfg: Config, c: Cache, q: Request, later: nat)
    requires q.message.AuthRequest? && c.cap == REPLAY_CACHE_MAX && q.now <= later
    ensures !Remembered([], c.cap, q.message.clientNonce, q.now)
    ensures Verdict(cfg, c, q.message, q.now).status == M.STATUS_OK ==>
      (Remembered(NextLog(cfg, c, [], q), c.cap, q.message.clientNonce, later) <==> later - q.now < REPLAY_TTL)
  {
    hide Verdict;
    if Verdict(cfg, c, q.message, q.now).status == M.STATUS_OK {
      var log := NextLog(cfg, c, [], q);
      assert log == [Entry(q.message.clientNonce, q.now)] && log[0].nonce == q.message.clientNonce;
    }
  }
}
