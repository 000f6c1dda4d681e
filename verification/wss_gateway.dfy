/** WssGateway as the object it is: session records on the heap, updated in place by the
    message listener and by `authenticate`. Each method takes exactly the step of the gateway
    state machine (packages/network/src/server/WssGateway.ts). */
module Wss {
  import opened Common
  import opened Gateway

  class GatewaySession {
    var sessionId: string
    var authenticated: bool
    var permissions: seq<string>
    var challenge: string
    var seenMids: set<nat>

    constructor (sessionId: string, challenge: string)
      ensures Snapshot() == Session(sessionId, false, [], challenge, {})
    {
      this.sessionId, this.challenge := sessionId, challenge;
      authenticated, permissions, seenMids := false, [], {};
    }

    function Snapshot(): Session
      reads this
    {
      Session(sessionId, authenticated, permissions, challenge, seenMids)
    }
  }

  class WssGateway {
    const handlers: set<int>
    /** The session object each connection's listeners captured. */
    var sessions: map<Conn, GatewaySession>
    /** The sessions table, in insertion order. */
    var attached: seq<Conn>
    var calls: seq<Call>
    /** Frames sent and handlers started, in order. */
    var log: seq<Entry>
    ghost var view: State

    ghost predicate Linked()
      reads this, sessions.Values
    {
      && (forall c, d :: c in sessions && d in sessions && c != d ==> sessions[c] != sessions[d])
      && view.sessions.Keys == sessions.Keys
      && (forall c :: c in sessions ==> view.sessions[c] == sessions[c].Snapshot())
      && Headed()
    }

    ghost predicate Headed()
      reads this
    {
      view == State(handlers, view.sessions, attached, calls, log) && (forall c :: c in attached ==> c in sessions)
    }

    constructor (handlers: set<int>)
      ensures Linked() && view == Init(handlers)
    {
      this.handlers := handlers;
      sessions, attached, calls, log, view := map[], [], [], [], Init(handlers);
    }

    /** Bring `view` up to date after changing the session of connection c. */
    ghost method Sync(c: Conn)
      requires c in sessions && view.sessions.Keys == sessions.Keys && Headed()
      requires forall c, d :: c in sessions && d in sessions && c != d ==> sessions[c] != sessions[d]
      requires forall d :: d in sessions && d != c ==> view.sessions[d] == sessions[d].Snapshot()
      modifies this`view
      ensures Linked() && view == old(view).(sessions := old(view).sessions[c := sessions[c].Snapshot()])
    {
      view := view.(sessions := view.sessions[c := sessions[c].Snapshot()]);
    }

    lemma SessionAt(c: Conn)
      requires Linked() && c in sessions
      ensures c in view.sessions && view.sessions[c] == sessions[c].Snapshot()
    {
    }

    lemma ViewHeader()
      requires Linked()
      ensures view.calls == calls && view.attached == attached
    {
    }

    /** Record an effect: a frame sent, or a handler started. */
    method Emit(e: Entry)
      requires Linked()
      modifies this`log, this`view
      ensures Linked() && view == Log(old(view), e)
    {
      log := log + [e];
      view := Log(view, e);
    }

    /** The accepted part of `onConnection`. */
    method OnConnection(c: Conn, sessionId: string, nonce: string)
      requires Linked() && c !in sessions && nonce != ""
      modifies this
      ensures Linked() && view == Step(old(view), Connects(c, sessionId, nonce))
    {
      var session := new GatewaySession(sessionId, nonce);
      sessions := sessions[c := session];
      attached := attached + [c];
      view := view.(sessions := view.sessions[c := session.Snapshot()], attached := attached);
      Emit(Opened(c, nonce));
    }

    method ConsumeChallenge(c: Conn, session: GatewaySession) returns (used: string)
      requires Linked() && c in sessions && sessions[c] == session
      modifies this`view, session`challenge
      ensures Linked() && view == BlankChallenge(old(view), c) && used == old(session.challenge)
    {
      used := session.challenge;
      session.challenge := "";
      Sync(c);
    }

    method StartCall(call: Call)
      requires Linked()
      modifies this`calls, this`view
      ensures Linked() && view == Start(old(view), call)
    {
      calls := calls + [call];
      view := Start(view, call);
    }

    /** The registered handler runs up to its first await. */
    method CallHandler(c: Conn, session: GatewaySession, f: Frame)
      requires Linked() && c in sessions && sessions[c] == session
      modifies this, session`challenge
      ensures Linked() && sessions == old(sessions) && view == RunHandler(old(view), c, f)
    {
      if f.t == HELLO {
        Emit(ChallengeSent(c, session.challenge));
        var _ := ConsumeChallenge(c, session);
        StartCall(Call(c, f, Settling(Success)));
      } else if f.t == AUTHENTICATE {
        var presented, expected := Presented(f.p), session.challenge;
        if f.p.Credentials? && ChallengeAccepted(expected, presented) {
          Emit(VerificationStarted(c, f.p.sessionId, f.p.sessionToken, presented));
          var _ := ConsumeChallenge(c, session);
          StartCall(Call(c, f, Verifying(f.p.sessionId, f.p.sessionToken)));
        } else {
          var _ := ConsumeChallenge(c, session);
          StartCall(Call(c, f, Settling(Refusal(NotAuthenticated))));
        }
      } else {
        StartCall(Call(c, f, Running));
      }
    }

    /** `router.route`, up to the handler's first await. */
    method RouteFrame(c: Conn, session: GatewaySession, f: Frame)
      requires Linked() && c in sessions && sessions[c] == session
      modifies this, session`challenge
      ensures Linked() && sessions == old(sessions) && view == Route(old(view), c, f)
    {
      var gated := Gate(f, session.authenticated, handlers);
      if gated.Some? {
        Emit(Replied(c, f.mid, gated.value));
      } else {
        Emit(Invoked(c, f));
        CallHandler(c, session, f);
      }
    }

    /** The replay guard: remember a mid above 0, and tell whether it was there already. */
    method GuardReplay(c: Conn, session: GatewaySession, mid: nat) returns (replayed: bool)
      requires Linked() && c in sessions && sessions[c] == session
      modifies this`view, session`seenMids
      ensures replayed <==> mid > 0 && mid in old(session.seenMids)
      ensures Linked() && view == if replayed then old(view) else Remember(old(view), c, mid)
    {
      if mid > 0 {
        if mid in session.seenMids { return true; }
        session.seenMids := session.seenMids + {mid};
        Sync(c);
      }
      return false;
    }

    /** What happens to a frame once decoded. */
    method OnDecoded(c: Conn, session: GatewaySession, f: Frame)
      requires Linked() && c in sessions && sessions[c] == session
      modifies this, session
      ensures Linked() && sessions == old(sessions) && view == OnFrame(old(view), c, f)
    {
      hide Route, Remember, Linked;
      SessionAt(c);
      Emit(Received(c, f));
      var replayed := GuardReplay(c, session, f.mid);
      if replayed {
        Emit(Replied(c, f.mid, Nack(Replay)));
      } else if f.t == PING {
        Emit(Replied(c, f.mid, Pong));
      } else {
        RouteFrame(c, session, f);
      }
    }

    method OnMessage(c: Conn, m: Message)
      requires Linked() && c in sessions
      modifies this, sessions[c]
      ensures Linked() && sessions == old(sessions) && view == Step(old(view), Receives(c, m))
    {
      hide OnFrame, Log;
      match m
      case Text => Emit(Replied(c, 0, Close(CLOSE_UNSUPPORTED_VERSION)));
      case TooLarge => Emit(Replied(c, 0, Nack(PayloadTooLarge)));
      case Undecodable => Emit(Replied(c, 0, Nack(Malformed)));
      case Decoded(f) => OnDecoded(c, sessions[c], f);
    }

    /** `authenticate`: scan the table and promote the first session with the id. */
    method Authenticate(caller: Conn, sessionId: string, permissions: seq<string>) returns (found: bool)
      requires Linked()
      modifies this`log, this`view, sessions.Values
      ensures Linked() && view == Promote(old(view), caller, sessionId, permissions)
      ensures found <==> FindSession(old(view), sessionId, 0) < |old(attached)|
      ensures !found ==> view == old(view)
    {
      var i := 0;
      while i < |attached|
        invariant 0 <= i <= |attached| && Linked() && view == old(view) && sessions == old(sessions)
        invariant FindSession(view, sessionId, 0) == FindSession(view, sessionId, i)
        invariant attached == old(attached)
      {
        var session := sessions[attached[i]];
        if session.sessionId == sessionId {
          session.authenticated := true;
          session.permissions := permissions;
          Sync(attached[i]);
          Emit(Promoted(attached[i], caller, sessionId, permissions));
          return true;
        }
        i := i + 1;
      }
      return false;
    }

    /** The handler's promise settles: the rest of `route`, then `applyOutcome`. */
    method HandlerSettles(k: nat, end: HandlerEnd)
      requires Linked() && k < |calls| && !calls[k].stage.Verifying?
      modifies this`calls, this`log, this`view
      ensures Linked() && view == Step(old(view), HandlerEnds(k, end))
    {
      var call := calls[k];
      calls := RemoveAt(calls, k);
      view := view.(calls := calls);
      var result := ResultOf(call, end);
      Emit(Returned(call.conn, call.frame, result));
      match result
      case Success =>
        if call.frame.mid > 0 { Emit(Replied(call.conn, call.frame.mid, Ack)); }
      case Refusal(reason) =>
        Emit(Replied(call.conn, call.frame.mid, Nack(if reason.Unlisted? then Malformed else reason)));
    }

    method FixResult(k: nat, result: HandlerResult)
      requires Linked() && k < |calls|
      modifies this`calls, this`view
      ensures Linked() && view == SetStage(old(view), k, Settling(result))
    {
      calls := calls[k := calls[k].(stage := Settling(result))];
      view := view.(calls := calls);
    }

    /** The Authenticate handler resumes with the token store's verdict. */
    method TokenArrives(k: nat, granted: Option<seq<string>>)
      requires Linked() && k < |calls| && calls[k].stage.Verifying?
      modifies this, sessions.Values
      ensures Linked() && sessions == old(sessions) && view == Step(old(view), TokenChecked(k, granted))
    {
      hide FindSession, Promote, SetStage, Linked;
      ViewHeader();
      var result := Refusal(NotAuthenticated);
      Emit(TokenVerdict(calls[k].conn, calls[k].stage.sessionId, calls[k].stage.token, granted));
      if granted.Some? {
        var found := Authenticate(calls[k].conn, calls[k].stage.sessionId, granted.value);
        if found { result := Success; }
      }
      FixResult(k, result);
    }

    /** `removeSession`: the table forgets the connection, its listeners do not. */
    method RemoveSession(c: Conn)
      requires Linked()
      modifies this`attached, this`view
      ensures Linked() && view == Step(old(view), Detaches(c))
    {
      attached := Detach(attached, c);
      DetachKeeps(old(attached), c);
      view := view.(attached := attached);
    }
  }

  lemma {:induction false} DetachKeeps(attached: seq<Conn>, c: Conn)
    ensures forall d :: d in Detach(attached, c) <==> d in attached && d != c
    ensures c !in attached ==> Detach(attached, c) == attached
  {
    if attached != [] { DetachKeeps(attached[1..], c); }
  }
}
