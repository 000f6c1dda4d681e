/** What makes the gateway do what it records: every entry of its history is traced to the event
    that brought it about and to the state in which that event met the gateway
    (packages/network/src/server/WssGateway.ts, frameRouter.ts,
    apps/receiver/src/main/networkService.ts). */
module GatewayCauses {
  import opened Common
  import opened Gateway

  // ---------------------------------------------------------------- what the source says

  predicate Replayed(s: Session, f: Frame) { f.mid > 0 && f.mid in s.seenMids }

  /** A handler is started for this frame. */
  predicate Passes(s: Session, f: Frame, handlers: set<int>) {
    && !Replayed(s, f) && f.t != PING
    && !f.p.NotAnObject? && f.v == PROTOCOL_MAJOR_VERSION
    && (s.authenticated || f.t == HELLO || f.t == PAIR_REQUEST || f.t == PAIR_RESPONSE || f.t == AUTHENTICATE)
    && f.t in handlers
  }

  /** The answer to a frame for which no handler is started. */
  predicate Refuses(s: Session, f: Frame, handlers: set<int>, reply: Reply) {
    !Passes(s, f, handlers) &&
    if Replayed(s, f) then reply == Nack(Replay)
    else if f.t == PING then reply == Pong
    else if f.p.NotAnObject? then reply == Nack(Malformed)
    else if f.v != PROTOCOL_MAJOR_VERSION then reply == Close(CLOSE_INCOMPATIBLE_VERSION)
    else if s.authenticated || f.t in PRE_AUTH_TYPES then reply == Nack(UnknownType)
    else reply == Nack(NotAuthenticated)
  }

  /** The first attached session with the id is that of connection c. */
  ghost predicate FirstWithId(g: State, sessionId: string, c: Conn) {
    exists i :: 0 <= i < |g.attached| && FirstAt(g, sessionId, c, i)
  }

  ghost predicate FirstAt(g: State, sessionId: string, c: Conn, i: nat)
    requires i < |g.attached|
  {
    && g.attached[i] == c && c in g.sessions && g.sessions[c].sessionId == sessionId
    && (forall j :: 0 <= j < i && g.attached[j] in g.sessions ==> g.sessions[g.attached[j]].sessionId != sessionId)
  }

  /** How a handler's promise ended: a thrown FrameHandlerError stands for its result, any other
      exception for a malformed frame. */
  predicate EndsWith(call: Call, end: HandlerEnd, result: HandlerResult) {
    match call.stage
    case Running =>
      end == Returns(result) || end == ThrowsTyped(result) || (end == ThrowsOther && result == Refusal(Malformed))
    case Verifying(_, _) => false
    case Settling(fixed) => result == fixed
  }

  predicate Ends(g: State, e: Event, c: Conn, f: Frame, result: HandlerResult) {
    && e.HandlerEnds? && e.k < |g.calls|
    && g.calls[e.k].conn == c && g.calls[e.k].frame == f && EndsWith(g.calls[e.k], e.end, result)
  }

  /** What a result is answered with. */
  predicate Reports(result: HandlerResult, mid: nat, reply: Reply) {
    match result
    case Success => mid > 0 && reply == Ack
    case Refusal(reason) => reply == Nack(if reason.Unlisted? then Malformed else reason)
  }

  predicate Delivers(g: State, e: Event, c: Conn) {
    e.Receives? && e.conn == c && c in g.sessions && e.message.Decoded?
  }

  predicate Unread(message: Message, mid: nat, reply: Reply) {
    && mid == 0
    && ((message.Text? && reply == Close(CLOSE_UNSUPPORTED_VERSION))
        || (message.TooLarge? && reply == Nack(PayloadTooLarge))
        || (message.Undecodable? && reply == Nack(Malformed)))
  }

  predicate Credited(p: Payload, sessionId: string, token: string, nonce: string) {
    p == Credentials(sessionId, token, Some(nonce))
  }

  /** Event `e`, meeting the gateway in state `g`, is what entry `x` records. */
  ghost predicate Caused(g: State, e: Event, x: Entry) {
    match x
    case Opened(c, nonce) => e.Connects? && e.conn == c && e.nonce == nonce && c !in g.sessions
    case Received(c, f) => Delivers(g, e, c) && e.message.frame == f
    case Invoked(c, f) => Delivers(g, e, c) && e.message.frame == f && Passes(g.sessions[c], f, g.handlers)
    case ChallengeSent(c, nonce) =>
      && Delivers(g, e, c) && Passes(g.sessions[c], e.message.frame, g.handlers)
      && e.message.frame.t == HELLO && nonce == g.sessions[c].challenge
    case VerificationStarted(c, sessionId, token, nonce) =>
      && Delivers(g, e, c) && Passes(g.sessions[c], e.message.frame, g.handlers)
      && e.message.frame.t == AUTHENTICATE && Credited(e.message.frame.p, sessionId, token, nonce)
      && nonce == g.sessions[c].challenge != "" && |nonce| <= 128
    case TokenVerdict(c, sessionId, token, granted) =>
      && e.TokenChecked? && e.granted == granted && e.k < |g.calls|
      && g.calls[e.k].conn == c && g.calls[e.k].stage == Verifying(sessionId, token)
    case Promoted(c, caller, sessionId, permissions) =>
      && e.TokenChecked? && e.granted == Some(permissions) && e.k < |g.calls|
      && g.calls[e.k].conn == caller && g.calls[e.k].stage.Verifying? && g.calls[e.k].stage.sessionId == sessionId
      && FirstWithId(g, sessionId, c)
    case Returned(c, f, result) => Ends(g, e, c, f, result)
    case Replied(c, mid, reply) =>
      if e.Receives? then
        && e.conn == c && c in g.sessions
        && if e.message.Decoded? then
             mid == e.message.frame.mid && Refuses(g.sessions[c], e.message.frame, g.handlers, reply)
           else Unread(e.message, mid, reply)
      else
        && e.HandlerEnds? && e.k < |g.calls| && g.calls[e.k].conn == c && g.calls[e.k].frame.mid == mid
        && exists result :: EndsWith(g.calls[e.k], e.end, result) && Reports(result, mid, reply)
  }

  // ---------------------------------------------------------------- one step

  lemma HandlerCauses(g: State, e: Event, c: Conn, f: Frame, g1: State, i: nat)
    requires e == Receives(c, Decoded(f)) && c in g.sessions && Passes(g.sessions[c], f, g.handlers)
    requires c in g1.sessions && g1.sessions[c].challenge == g.sessions[c].challenge
    requires |g1.log| <= i < |RunHandler(g1, c, f).log|
    ensures Caused(g, e, RunHandler(g1, c, f).log[i])
  {
    hide Passes;
  }

  lemma RouteCauses(g: State, e: Event, c: Conn, f: Frame, g1: State, i: nat)
    requires e == Receives(c, Decoded(f)) && c in g.sessions && !Replayed(g.sessions[c], f) && f.t != PING
    requires c in g1.sessions && g1.sessions[c].challenge == g.sessions[c].challenge
    requires g1.sessions[c].authenticated == g.sessions[c].authenticated && g1.handlers == g.handlers
    requires |g1.log| <= i < |Route(g1, c, f).log|
    ensures Caused(g, e, Route(g1, c, f).log[i])
  {
    hide RunHandler;
    match Gate(f, g1.sessions[c].authenticated, g1.handlers)
    case Some(reply) => assert Refuses(g.sessions[c], f, g.handlers, reply);
    case None =>
      assert Passes(g.sessions[c], f, g.handlers);
      var invoked := Log(g1, Invoked(c, f));
      HandlerOnlyAdds(invoked, c, f);
      if i > |g1.log| { HandlerCauses(g, e, c, f, invoked, i); }
  }

  lemma HandlerOnlyAdds(g: State, c: Conn, f: Frame)
    requires c in g.sessions
    ensures g.log <= RunHandler(g, c, f).log
  {
  }

  lemma FrameCauses(g: State, c: Conn, f: Frame, i: nat)
    requires c in g.sessions && |g.log| <= i < |OnFrame(g, c, f).log|
    ensures Caused(g, Receives(c, Decoded(f)), OnFrame(g, c, f).log[i])
  {
    hide Route;
    var e := Receives(c, Decoded(f));
    var received := Log(g, Received(c, f));
    if !Replayed(g.sessions[c], f) && f.t != PING {
      var g1 := Remember(received, c, f.mid);
      RouteOnlyAdds(g1, c, f);
      if i > |g.log| { RouteCauses(g, e, c, f, g1, i); }
    }
  }

  lemma RouteOnlyAdds(g: State, c: Conn, f: Frame)
    requires c in g.sessions
    ensures g.log <= Route(g, c, f).log
  {
  }

  lemma VerdictCauses(g: State, k: nat, granted: Option<seq<string>>, i: nat)
    requires k < |g.calls| && g.calls[k].stage.Verifying? && |g.log| <= i < |OnTokenChecked(g, k, granted).log|
    ensures Caused(g, TokenChecked(k, granted), OnTokenChecked(g, k, granted).log[i])
    ensures OnTokenChecked(g, k, granted).log[i].TokenVerdict? ==> i == |g.log|
  {
    var id := g.calls[k].stage.sessionId;
    var g1 := Log(g, VerdictOn(g, k, granted));
    var at := FindSession(g1, id, 0);
    if granted.Some? && at < |g.attached| {
      assert FirstAt(g, id, g.attached[at], at);
    }
  }

  lemma EndCauses(g: State, k: nat, end: HandlerEnd, i: nat)
    requires k < |g.calls| && !g.calls[k].stage.Verifying? && |g.log| <= i < |Complete(g, k, end).log|
    ensures Caused(g, HandlerEnds(k, end), Complete(g, k, end).log[i])
  {
    assert EndsWith(g.calls[k], end, ResultOf(g.calls[k], end));
    var call, result := g.calls[k], ResultOf(g.calls[k], end);
    if i > |g.log| {
      assert Reports(result, call.frame.mid, Complete(g, k, end).log[i].reply);
    }
  }

  lemma StepCauses(g: State, e: Event, i: nat)
    requires |g.log| <= i < |Step(g, e).log|
    ensures Caused(g, e, Step(g, e).log[i])
    ensures Step(g, e).log[i].TokenVerdict? ==> i == |g.log|
  {
    hide OnFrame, OnTokenChecked, Complete;
    match e
    case Connects(_, _, _) =>
    case Receives(c, message) => if message.Decoded? { FrameCauses(g, c, message.frame, i); }
    case TokenChecked(k, granted) => VerdictCauses(g, k, granted, i);
    case HandlerEnds(k, end) => EndCauses(g, k, end, i);
    case SetsSessionId(_, _) => assert false;
    case Detaches(_) => assert false;
  }

  lemma StepOnlyAdds(g: State, e: Event)
    ensures g.log <= Step(g, e).log
  {
    hide Route;
    if e.Receives? && e.conn in g.sessions && e.message.Decoded? {
      var c, f := e.conn, e.message.frame;
      RouteOnlyAdds(Remember(Log(g, Received(c, f)), c, f.mid), c, f);
    }
  }

  // ---------------------------------------------------------------- every run

  /** Entry i of the history of a run was added by event j of it, for cause. */
  ghost predicate CausedAt(handlers: set<int>, es: seq<Event>, i: nat, j: nat) {
    && j < |es| && i < |Run(handlers, es).log|
    && |Run(handlers, es[..j]).log| <= i < |Run(handlers, es[..j + 1]).log|
    && Caused(Run(handlers, es[..j]), es[j], Run(handlers, es).log[i])
  }

  ghost predicate HasCause(handlers: set<int>, es: seq<Event>, i: nat) { exists j :: CausedAt(handlers, es, i, j) }

  /** In every run, nothing is in the history that the source would not have done on that event in
      that state: openings, receipts, handler starts, disclosures, verifications, verdicts,
      promotions, results and replies alike. */
  lemma {:induction false} EveryEntryCaused(handlers: set<int>, es: seq<Event>, i: nat) returns (j: nat)
    requires i < |Run(handlers, es).log|
    ensures CausedAt(handlers, es, i, j)
    ensures Run(handlers, es).log[i].TokenVerdict? ==> |Run(handlers, es[..j]).log| == i
  {
    hide Step, Caused;
    var n := |es| - 1;
    StepOnlyAdds(Run(handlers, es[..n]), es[n]);
    if i < |Run(handlers, es[..n]).log| {
      j := EveryEntryCaused(handlers, es[..n], i);
      assert es[..n][..j] == es[..j] && es[..n][..j + 1] == es[..j + 1];
    } else {
      j := n;
      StepCauses(Run(handlers, es[..n]), es[n], i);
      assert es[..n + 1] == es;
    }
  }
}
