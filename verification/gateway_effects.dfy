/** The converse of GatewayCauses: what every event does to the gateway, in full and for every
    mid, stated from the event and the session it meets
    (packages/network/src/server/WssGateway.ts, frameRouter.ts,
    apps/receiver/src/main/networkService.ts). */
module GatewayEffects {
  import opened Common
  import opened Gateway
  import opened GatewayCauses
  import R = GatewayResults

  // ---------------------------------------------------------------- a decoded frame

  /** The Authenticate carries the session's own nonce. */
  predicate PresentsNonce(s: Session, f: Frame) {
    && f.t == AUTHENTICATE && s.challenge != "" && |s.challenge| <= 128
    && f.p.Credentials? && f.p.challenge == Some(s.challenge)
  }

  predicate TakesNonce(s: Session, f: Frame, handlers: set<int>) {
    Passes(s, f, handlers) && (f.t == HELLO || f.t == AUTHENTICATE)
  }

  /** The session after a frame: its mid is remembered, its nonce is gone if the frame took it. */
  function Touched(s: Session, f: Frame, handlers: set<int>): Session {
    s.(seenMids := if f.mid > 0 then s.seenMids + {f.mid} else s.seenMids,
       challenge := if TakesNonce(s, f, handlers) then "" else s.challenge)
  }

  /** How far a started handler gets at once. */
  function StageOf(s: Session, f: Frame): Stage {
    if f.t == HELLO then Settling(Success)
    else if f.t != AUTHENTICATE then Running
    else if PresentsNonce(s, f) then Verifying(f.p.sessionId, f.p.sessionToken)
    else Settling(Refusal(NotAuthenticated))
  }

  /** What a started handler does at once. */
  function AtOnce(s: Session, c: Conn, f: Frame): seq<Entry> {
    if f.t == HELLO then [ChallengeSent(c, s.challenge)]
    else if PresentsNonce(s, f) then [VerificationStarted(c, f.p.sessionId, f.p.sessionToken, s.challenge)]
    else []
  }

  /** A decoded frame, whatever its mid: one that passes has its handler started, exactly one call
      being added; any other is answered, with the one reply that refuses it. */
  lemma FrameEffects(g: State, e: Event, c: Conn) returns (reply: Reply)
    requires Delivers(g, e, c)
    ensures var f, s, g' := e.message.frame, g.sessions[c], Step(g, e);
            && g'.sessions == g.sessions[c := Touched(s, f, g.handlers)]
            && g'.attached == g.attached && g'.handlers == g.handlers
            && if Passes(s, f, g.handlers) then
                 && g'.log == g.log + [Received(c, f), Invoked(c, f)] + AtOnce(s, c, f)
                 && g'.calls == g.calls + [Call(c, f, StageOf(s, f))]
               else
                 && Refuses(s, f, g.handlers, reply)
                 && g'.log == g.log + [Received(c, f), Replied(c, f.mid, reply)]
                 && g'.calls == g.calls
  {
    var f, s := e.message.frame, g.sessions[c];
    var g' := Step(g, e);
    var received := Log(g, Received(c, f));
    assert g.sessions[c := s] == g.sessions;
    if Replayed(s, f) {
      reply := Nack(Replay);
      assert s.seenMids + {f.mid} == s.seenMids;
      assert received.log + [Replied(c, f.mid, reply)] == g.log + [Received(c, f), Replied(c, f.mid, reply)];
    } else if f.t == PING {
      reply := Pong;
      assert received.log + [Replied(c, f.mid, reply)] == g.log + [Received(c, f), Replied(c, f.mid, reply)];
    } else {
      reply := RouteEffects(Remember(received, c, f.mid), c, f);
      if !Passes(s, f, g.handlers) {
        assert received.log + [Replied(c, f.mid, reply)] == g.log + [Received(c, f), Replied(c, f.mid, reply)];
      } else {
        assert g.log + [Received(c, f)] + ([Invoked(c, f)] + AtOnce(s, c, f)) ==
               g.log + [Received(c, f), Invoked(c, f)] + AtOnce(s, c, f);
      }
    }
  }

  lemma RouteEffects(g: State, c: Conn, f: Frame) returns (reply: Reply)
    requires c in g.sessions && f.t != PING
    ensures var s, g' := g.sessions[c].(seenMids := {}), Route(g, c, f);
            && g'.attached == g.attached && g'.handlers == g.handlers
            && if Passes(s, f, g.handlers) then
                 && g'.sessions == g.sessions[c := g.sessions[c].(
                      challenge := if f.t == HELLO || f.t == AUTHENTICATE then "" else s.challenge)]
                 && g'.log == g.log + ([Invoked(c, f)] + AtOnce(s, c, f))
                 && g'.calls == g.calls + [Call(c, f, StageOf(s, f))]
               else
                 && Refuses(s, f, g.handlers, reply)
                 && g' == g.(log := g.log + [Replied(c, f.mid, reply)])
  {
    var gated := Gate(f, g.sessions[c].authenticated, g.handlers);
    reply := if gated.Some? then gated.value else Pong;
    assert g.sessions[c := g.sessions[c]] == g.sessions;
    var more := AtOnce(g.sessions[c], c, f);
    assert g.log + [Invoked(c, f)] + more == g.log + ([Invoked(c, f)] + more);
  }

  // ---------------------------------------------------------------- every other event

  /** A text, oversized or undecodable message draws its one reply and changes nothing else. */
  lemma UnreadEffects(g: State, c: Conn, message: Message) returns (reply: Reply)
    requires c in g.sessions && !message.Decoded?
    ensures Unread(message, 0, reply)
    ensures Step(g, Receives(c, message)) == g.(log := g.log + [Replied(c, 0, reply)])
  {
    reply :=
      if message.Text? then Close(CLOSE_UNSUPPORTED_VERSION)
      else if message.TooLarge? then Nack(PayloadTooLarge) else Nack(Malformed);
  }

  /** A new connection gets a session of its own, unauthenticated, without rights, holding its
      nonce, at the end of the table; nobody else's changes. */
  lemma ConnectEffects(g: State, c: Conn, sessionId: string, nonce: string)
    requires c !in g.sessions && nonce != ""
    ensures Step(g, Connects(c, sessionId, nonce)) ==
            State(g.handlers, g.sessions[c := Session(sessionId, false, [], nonce, {})], g.attached + [c], g.calls,
                  g.log + [Opened(c, nonce)])
  {
  }

  lemma FirstIsUnique(g: State, sessionId: string, c: Conn, d: Conn)
    requires FirstWithId(g, sessionId, c) && FirstWithId(g, sessionId, d)
    ensures c == d
  {
    var i :| 0 <= i < |g.attached| && FirstAt(g, sessionId, c, i);
    var j :| 0 <= j < |g.attached| && FirstAt(g, sessionId, d, j);
    assert !(i < j) && !(j < i);
  }

  lemma Finds(g: State, sessionId: string, c: Conn, log: seq<Entry>)
    requires FirstWithId(g, sessionId, c)
    ensures FindSession(g.(log := log), sessionId, 0) < |g.attached|
  {
    var j :| 0 <= j < |g.attached| && FirstAt(g, sessionId, c, j);
    assert g.(log := log).attached[j] in g.sessions;
  }

  /** The token store's verdict on a waiting call. A grant promotes the first attached session with
      the id, gives it exactly the granted permissions, and lets the call succeed; a refusal, or a
      grant for an id that no attached session has, makes it fail. Nobody else's session changes. */
  lemma VerdictEffects(g: State, k: nat, granted: Option<seq<string>>, c: Conn)
    requires k < |g.calls| && g.calls[k].stage.Verifying?
    ensures var call, g' := g.calls[k], Step(g, TokenChecked(k, granted));
            var id := call.stage.sessionId;
            var verdict := TokenVerdict(call.conn, id, call.stage.token, granted);
            && (granted.Some? && FirstWithId(g, id, c) ==>
                g' == State(g.handlers,
                            g.sessions[c := g.sessions[c].(authenticated := true, permissions := granted.value)],
                            g.attached, g.calls[k := call.(stage := Settling(Success))],
                            g.log + [verdict, Promoted(c, call.conn, id, granted.value)]))
            && (granted.None? || (forall d :: !FirstWithId(g, id, d)) ==>
                g' == g.(calls := g.calls[k := call.(stage := Settling(Refusal(NotAuthenticated)))],
                         log := g.log + [verdict]))
  {
    var id, verdict := g.calls[k].stage.sessionId, VerdictOn(g, k, granted);
    var g1 := Log(g, verdict);
    var i := FindSession(g1, id, 0);
    if FirstWithId(g, id, c) { Finds(g, id, c, g1.log); }
    if granted.Some? && i < |g.attached| {
      var d := g.attached[i];
      assert FirstAt(g, id, d, i);
      assert FirstWithId(g, id, d);
      if FirstWithId(g, id, c) { FirstIsUnique(g, id, c, d); }
      var p := Promoted(d, g.calls[k].conn, id, granted.value);
      assert g.log + [verdict] + [p] == g.log + [verdict, p];
    }
  }

  /** The end of a handler is recorded, reported if there is anything to report, and the call is
      over; no session changes. */
  lemma EndEffects(g: State, k: nat, end: HandlerEnd) returns (result: HandlerResult, reply: Reply)
    requires k < |g.calls| && !g.calls[k].stage.Verifying?
    ensures EndsWith(g.calls[k], end, result)
    ensures var call, g' := g.calls[k], Step(g, HandlerEnds(k, end));
            var silent := result.Success? && call.frame.mid == 0;
            && (!silent ==> Reports(result, call.frame.mid, reply))
            && g' == g.(calls := g.calls[..k] + g.calls[k + 1..],
                        log := g.log + [Returned(call.conn, call.frame, result)] +
                               if silent then [] else [Replied(call.conn, call.frame.mid, reply)])
  {
    var call := g.calls[k];
    result := ResultOf(call, end);
    reply := if result.Success? then Ack else Nack(if result.reason.Unlisted? then Malformed else result.reason);
    var returned := g.log + [Returned(call.conn, call.frame, result)];
    assert returned + [] == returned;
  }

  /** A new session id is that connection's alone. */
  lemma RenameEffects(g: State, c: Conn, sessionId: string)
    requires c in g.sessions
    ensures var g' := Step(g, SetsSessionId(c, sessionId));
            && g' == g.(sessions := g'.sessions) && g'.sessions.Keys == g.sessions.Keys
            && forall d :: d in g.sessions ==>
                 g'.sessions[d] == if d == c then g.sessions[d].(sessionId := sessionId) else g.sessions[d]
  {
  }

  /** Leaving the table: the others stay, in their order. */
  lemma {:induction false} DetachKeepsOrder(attached: seq<Conn>, c: Conn, rest: seq<Conn>)
    ensures c !in Detach(attached, c)
    ensures Detach(attached + rest, c) == Detach(attached, c) + Detach(rest, c)
    ensures c !in attached ==> Detach(attached, c) == attached
  {
    if attached == [] {
      assert attached + rest == rest;
    } else {
      assert (attached + rest)[1..] == attached[1..] + rest;
      DetachKeepsOrder(attached[1..], c, rest);
    }
  }

  /** A detached connection loses its place in the table, and nothing else changes. */
  lemma DetachEffects(g: State, before: seq<Conn>, c: Conn, after: seq<Conn>)
    requires g.attached == before + [c] + after && c !in before && c !in after
    ensures Step(g, Detaches(c)) == g.(attached := before + after)
  {
    DetachKeepsOrder(before + [c], c, after);
    DetachKeepsOrder(before, c, [c]);
    DetachKeepsOrder(after, c, []);
    assert Detach([c], c) == [];
  }

  // ---------------------------------------------------------------- every run

  /** In every run every frame that ever arrives on an open connection, reliable or not, is either
      handled or answered: if the session it met let it pass, the history records that its handler
      was started, and otherwise the reply that refuses it. */
  lemma NothingIsDropped(handlers: set<int>, es: seq<Event>, j: nat, c: Conn) returns (reply: Reply)
    requires j < |es| && Delivers(Run(handlers, es[..j]), es[j], c)
    ensures var g, f, log := Run(handlers, es[..j]), es[j].message.frame, Run(handlers, es).log;
            && Received(c, f) in log
            && if Passes(g.sessions[c], f, g.handlers) then Invoked(c, f) in log
               else Refuses(g.sessions[c], f, g.handlers, reply) && Replied(c, f.mid, reply) in log
  {
    hide Run, Step, Passes, Refuses;
    var g, f, log := Run(handlers, es[..j]), es[j].message.frame, Run(handlers, es).log;
    reply := FrameEffects(g, es[j], c);
    R.RunStep(handlers, es, j);
    R.HistoryOnlyGrows(handlers, es, j + 1);
    var step := Step(g, es[j]).log;
    assert forall i :: 0 <= i < |step| ==> step[i] in log;
    assert step[|g.log|] == Received(c, f);
    assert step[|g.log| + 1] in log;
  }
}
