/** A session request from its bytes to the session table: the connection loop with the server's validator. */
module Admission {
  import opened Varint
  import opened Frames
  import M = Messages
  import opened Nonces
  import opened Connection
  import opened Authentication
  import opened Handling

  /**
   * A request for a nonzero id opens its session if and only if it is credible and its nonce is not among the
   * remembered acceptances; no other id's session changes, and the peer reads the verdict.
   */
  lemma SessionOpensIff(
      cfg: Config, c: Cache, log: seq<Entry>, clock: nat, e: Endpoint, id: nat, req: M.Message, now: nat)
    requires cfg.ccRx < TWO_62 && Abstracts(c, log, clock) && |c.order| <= c.cap && clock <= now
    requires e.authenticates && e.sessions.Some? && id != 0
    requires req.AuthRequest? && M.Sized(req) && M.Exact(req)
    ensures IsResponse(Verdict(cfg, c, req, now))
    ensures var e' := Dispatch(e, Frame(id, AUTH_REQUEST, M.MessageBytes(req)), Verdict(cfg, c, req, now));
      && Responds(e, e', id, Verdict(cfg, c, req, now)) && e'.sessions.Some?
      && forall x :: x in e'.sessions.value <==>
           x in e.sessions.value
           || (x == id && Credible(cfg, req) && !Remembered(log, c.cap, req.clientNonce, now))
  {
    hide Verdict, Dispatch, Remembered, Credible, Abstracts, Responds, M.Exact, M.MessageBytes, M.Sized;
    AnswerIsResponse(cfg, c, req, now);
    OkIffCredibleAndNew(cfg, c, log, clock, req, now);
    M.ExactIsPrefixable(req);
    RateFits(cfg, c, req, now);
    RequestIsAnswered(e, id, req, Verdict(cfg, c, req, now));
  }

  lemma RateFits(cfg: Config, c: Cache, req: M.Message, now: nat)
    requires req.AuthRequest? && cfg.ccRx < TWO_62
    ensures var resp := Verdict(cfg, c, req, now); resp == resp.(serverCcRx := resp.serverCcRx % TWO_62)
  {
    hide Nonces.Admits;
    M.SmallMod(cfg.ccRx, TWO_62);
    M.SmallMod(0, TWO_62);
  }
}
