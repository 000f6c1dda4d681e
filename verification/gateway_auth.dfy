/** Authentication safety of the gateway, over every run and all connections at once. */
module GatewayAuth {
  import opened Common
  import opened Gateway
  import opened GatewayCounts
  import opened GatewayCauses
  import N = GatewayNonce

  ghost predicate WasPromoted(log: seq<Entry>, c: Conn) {
    exists e :: e in log && e.Promoted? && e.conn == c
  }

  ghost predicate StartedVerification(log: seq<Entry>, c: Conn, sessionId: string, token: string) {
    exists e :: e in log && e.VerificationStarted? && e.conn == c && e.sessionId == sessionId && e.token == token
  }

  /** The token store approved a token presented on `c` for the session id. */
  ghost predicate Approved(log: seq<Entry>, c: Conn, sessionId: string, permissions: seq<string>) {
    exists e :: e in log && e.TokenVerdict? && e.conn == c && e.sessionId == sessionId && e.granted == Some(permissions)
  }

  ghost predicate SaidHello(log: seq<Entry>, c: Conn) {
    exists e :: e in log && e.Invoked? && e.conn == c && e.frame.t == HELLO
  }

  /** The last thing that happened is that the handler of an Authenticate with these credentials
      was started on c. */
  predicate JustInvoked(log: seq<Entry>, c: Conn, sessionId: string, token: string, nonce: string) {
    && log != []
    && var last := log[|log| - 1];
       && last.Invoked? && last.conn == c && last.frame.t == AUTHENTICATE
       && Credited(last.frame.p, sessionId, token, nonce)
  }

  /** What must have happened before an entry is added to the history. */
  ghost predicate Justified(before: seq<Entry>, e: Entry) {
    match e
    case Invoked(c, f) => f.t !in PRE_AUTH_TYPES ==> WasPromoted(before, c)
    case Promoted(_, caller, sessionId, permissions) => Approved(before, caller, sessionId, permissions)
    case TokenVerdict(caller, sessionId, token, _) => StartedVerification(before, caller, sessionId, token)
    case ChallengeSent(c, _) => SaidHello(before, c)
    case VerificationStarted(c, sessionId, token, presented) =>
      && presented != "" && Opened(c, presented) in before && !SaidHello(before, c)
      && JustInvoked(before, c, sessionId, token, presented)
    case _ => true
  }

  ghost predicate History(log: seq<Entry>) {
    log == [] || (History(log[..|log| - 1]) && Justified(log[..|log| - 1], log[|log| - 1]))
  }

  ghost predicate SessionOk(log: seq<Entry>, c: Conn, s: Session) {
    && (s.authenticated ==> WasPromoted(log, c))
    && (s.challenge != "" ==> Opened(c, s.challenge) in log && !SaidHello(log, c))
  }

  ghost predicate CallOk(log: seq<Entry>, call: Call) {
    call.stage.Verifying? ==> StartedVerification(log, call.conn, call.stage.sessionId, call.stage.token)
  }

  ghost predicate AuthOk(g: State) {
    && History(g.log)
    && (forall c :: c in g.sessions ==> SessionOk(g.log, c, g.sessions[c]))
    && (forall call :: call in g.calls ==> CallOk(g.log, call))
    && (forall e :: e in g.log && e.Invoked? ==> e.conn in g.sessions)
  }

  lemma PushKeepsFacts(log: seq<Entry>, e: Entry)
    ensures forall c :: WasPromoted(log, c) ==> WasPromoted(log + [e], c)
    ensures forall c, id, t :: StartedVerification(log, c, id, t) ==> StartedVerification(log + [e], c, id, t)
    ensures forall c :: SaidHello(log + [e], c) <==>
              SaidHello(log, c) || (e.Invoked? && e.conn == c && e.frame.t == HELLO)
    ensures History(log + [e]) <==> History(log) && Justified(log, e)
  {
    assert (log + [e])[..|log|] == log;
    assert forall x :: x in log + [e] <==> x in log || x == e;
    if e.Invoked? && e.frame.t == HELLO { assert e in log + [e]; }
  }

  /** Adding a justified entry keeps everything; a Hello may only be logged over a blank
      challenge. */
  lemma LogKeepsAuth(g: State, e: Entry)
    requires AuthOk(g) && Justified(g.log, e)
    requires e.Invoked? ==> e.conn in g.sessions && (e.frame.t == HELLO ==> g.sessions[e.conn].challenge == "")
    ensures AuthOk(Log(g, e))
  {
    PushKeepsFacts(g.log, e);
  }

  lemma BlankKeepsAuth(g: State, c: Conn)
    requires AuthOk(g) && c in g.sessions
    ensures AuthOk(BlankChallenge(g, c))
  {
  }

  lemma StartKeepsAuth(g: State, call: Call)
    requires AuthOk(g) && CallOk(g.log, call)
    ensures AuthOk(Start(g, call))
  {
  }

  lemma RunHandlerKeepsAuth(g: State, c: Conn, f: Frame)
    requires AuthOk(g) && c in g.sessions
    requires f.t !in PRE_AUTH_TYPES ==> g.sessions[c].authenticated
    ensures AuthOk(RunHandler(Log(g, Invoked(c, f)), c, f))
  {
    var expected := g.sessions[c].challenge;
    var blank := BlankChallenge(g, c);
    BlankKeepsAuth(g, c);
    if f.t == HELLO {
      LogKeepsAuth(blank, Invoked(c, f));
      LogKeepsAuth(Log(blank, Invoked(c, f)), ChallengeSent(c, expected));
      StartKeepsAuth(Log(Log(blank, Invoked(c, f)), ChallengeSent(c, expected)), Call(c, f, Settling(Success)));
    } else {
      LogKeepsAuth(g, Invoked(c, f));
      var invoked := Log(g, Invoked(c, f));
      if f.t != AUTHENTICATE {
        StartKeepsAuth(invoked, Call(c, f, Running));
      } else if f.p.Credentials? && ChallengeAccepted(expected, Presented(f.p)) {
        AcceptedKeepsAuth(invoked, c, f);
      } else {
        BlankKeepsAuth(invoked, c);
        StartKeepsAuth(BlankChallenge(invoked, c), Call(c, f, Settling(Refusal(NotAuthenticated))));
      }
    }
  }

  lemma AcceptedKeepsAuth(g: State, c: Conn, f: Frame)
    requires AuthOk(g) && c in g.sessions && f.t == AUTHENTICATE && f.p.Credentials?
    requires g.log != [] && g.log[|g.log| - 1] == Invoked(c, f)
    requires ChallengeAccepted(g.sessions[c].challenge, Presented(f.p))
    ensures AuthOk(RunHandler(g, c, f))
  {
    var e := VerificationStarted(c, f.p.sessionId, f.p.sessionToken, Presented(f.p));
    assert SessionOk(g.log, c, g.sessions[c]);
    LogKeepsAuth(g, e);
    var logged := Log(g, e);
    assert e in logged.log;
    BlankKeepsAuth(logged, c);
    StartKeepsAuth(BlankChallenge(logged, c), Call(c, f, Verifying(f.p.sessionId, f.p.sessionToken)));
  }

  lemma RouteKeepsAuth(g: State, c: Conn, f: Frame)
    requires AuthOk(g) && c in g.sessions
    ensures AuthOk(Route(g, c, f))
  {
    match Gate(f, g.sessions[c].authenticated, g.handlers)
    case Some(reply) => LogKeepsAuth(g, Replied(c, f.mid, reply));
    case None => RunHandlerKeepsAuth(g, c, f);
  }

  lemma RememberKeepsAuth(g: State, c: Conn, mid: nat)
    requires AuthOk(g) && c in g.sessions
    ensures AuthOk(Remember(g, c, mid))
  {
  }

  lemma FrameKeepsAuth(g: State, c: Conn, f: Frame)
    requires AuthOk(g) && c in g.sessions
    ensures AuthOk(OnFrame(g, c, f))
  {
    LogKeepsAuth(g, Received(c, f));
    var received := Log(g, Received(c, f));
    if f.mid > 0 && f.mid in g.sessions[c].seenMids {
      LogKeepsAuth(received, Replied(c, f.mid, Nack(Replay)));
    } else {
      RememberKeepsAuth(received, c, f.mid);
      var g1 := Remember(received, c, f.mid);
      if f.t == PING {
        LogKeepsAuth(g1, Replied(c, f.mid, Pong));
      } else {
        RouteKeepsAuth(g1, c, f);
      }
    }
  }

  lemma SetStageKeepsAuth(g: State, k: nat, r: HandlerResult)
    requires AuthOk(g) && k < |g.calls|
    ensures AuthOk(SetStage(g, k, Settling(r)))
  {
  }

  lemma TokenKeepsAuth(g: State, k: nat, granted: Option<seq<string>>)
    requires AuthOk(g) && k < |g.calls| && g.calls[k].stage.Verifying?
    ensures AuthOk(OnTokenChecked(g, k, granted))
  {
    var id, verdict := g.calls[k].stage.sessionId, VerdictOn(g, k, granted);
    assert CallOk(g.log, g.calls[k]);
    LogKeepsAuth(g, verdict);
    var g1 := Log(g, verdict);
    SetStageKeepsAuth(g1, k, Refusal(NotAuthenticated));
    var i := FindSession(g1, id, 0);
    if granted.Some? && i < |g.attached| {
      assert verdict in g1.log;
      PromoteKeepsAuth(g1, g.calls[k].conn, id, granted.value);
      SetStageKeepsAuth(Promote(g1, g.calls[k].conn, id, granted.value), k, Success);
    }
  }

  lemma PromoteKeepsAuth(g: State, caller: Conn, id: string, permissions: seq<string>)
    requires AuthOk(g) && Approved(g.log, caller, id, permissions)
    ensures AuthOk(Promote(g, caller, id, permissions))
  {
    var i := FindSession(g, id, 0);
    if i < |g.attached| {
      var c, e := g.attached[i], Promoted(g.attached[i], caller, id, permissions);
      LogKeepsAuth(g, e);
      var logged := Log(g, e);
      assert e in logged.log && WasPromoted(logged.log, c);
    }
  }

  lemma CompleteKeepsAuth(g: State, k: nat, end: HandlerEnd)
    requires AuthOk(g) && k < |g.calls|
    ensures AuthOk(Complete(g, k, end))
  {
    var call := g.calls[k];
    var g0 := g.(calls := RemoveAt(g.calls, k));
    assert AuthOk(g0);
    var returned := Returned(call.conn, call.frame, ResultOf(call, end));
    LogKeepsAuth(g0, returned);
    LogKeepsAuth(Log(g0, returned), Replied(call.conn, call.frame.mid, Ack));
    if ResultOf(call, end).Refusal? {
      var reason := ResultOf(call, end).reason;
      LogKeepsAuth(Log(g0, returned),
                   Replied(call.conn, call.frame.mid, Nack(if reason.Unlisted? then Malformed else reason)));
    }
  }

  lemma ConnectKeepsAuth(g: State, c: Conn, sessionId: string, nonce: string)
    requires AuthOk(g) && c !in g.sessions && nonce != ""
    ensures AuthOk(Step(g, Connects(c, sessionId, nonce)))
  {
    LogKeepsAuth(g, Opened(c, nonce));
    var g' := Log(g, Opened(c, nonce));
    assert Opened(c, nonce) in g'.log;
    assert !SaidHello(g'.log, c);
  }

  lemma StepKeepsAuth(g: State, e: Event)
    requires AuthOk(g)
    ensures AuthOk(Step(g, e))
  {
    match e
    case Connects(c, id, nonce) =>
      if c !in g.sessions && nonce != "" { ConnectKeepsAuth(g, c, id, nonce); }
    case Receives(c, message) =>
      LogKeepsAuth(g, Replied(c, 0, Close(CLOSE_UNSUPPORTED_VERSION)));
      LogKeepsAuth(g, Replied(c, 0, Nack(PayloadTooLarge)));
      LogKeepsAuth(g, Replied(c, 0, Nack(Malformed)));
      if c in g.sessions && message.Decoded? { FrameKeepsAuth(g, c, message.frame); }
    case TokenChecked(k, granted) =>
      if k < |g.calls| && g.calls[k].stage.Verifying? { TokenKeepsAuth(g, k, granted); }
    case HandlerEnds(k, end) =>
      if k < |g.calls| && !g.calls[k].stage.Verifying? { CompleteKeepsAuth(g, k, end); }
    case SetsSessionId(_, _) =>
    case Detaches(_) =>
  }

  lemma {:induction false} InvariantHolds(handlers: set<int>, es: seq<Event>)
    ensures AuthOk(Run(handlers, es))
  {
    if es != [] {
      InvariantHolds(handlers, es[..|es| - 1]);
      StepKeepsAuth(Run(handlers, es[..|es| - 1]), es[|es| - 1]);
    }
  }

  /** Over every run and all connections: the invariant holds, and every entry of the history has
      its cause in an event. */
  lemma AlwaysAuthOk(handlers: set<int>, es: seq<Event>)
    ensures AuthOk(Run(handlers, es))
    ensures forall i :: 0 <= i < |Run(handlers, es).log| ==> HasCause(handlers, es, i)
  {
    hide Run;
    InvariantHolds(handlers, es);
    forall i | 0 <= i < |Run(handlers, es).log| ensures HasCause(handlers, es, i) {
      var j := EveryEntryCaused(handlers, es, i);
    }
  }

  lemma {:induction false} HistoryAt(log: seq<Entry>, i: nat)
    requires History(log) && i < |log|
    ensures Justified(log[..i], log[i])
  {
    var init := log[..|log| - 1];
    if i < |log| - 1 {
      HistoryAt(init, i);
      assert init[..i] == log[..i];
    }
  }

  /** Whole-run safety, entry by entry: what must have happened before a handler outside the
      four pre-authentication types runs, before a session is promoted, before the token store
      answers and before it is asked; and the event that made it happen: for a promotion a grant
      to a waiting call while the promoted connection's session was the first with that id, for
      a verification the arrival of an Authenticate with exactly those credentials. */
  lemma EveryEntryJustified(handlers: set<int>, es: seq<Event>, i: nat)
    requires i < |Run(handlers, es).log|
    ensures Justified(Run(handlers, es).log[..i], Run(handlers, es).log[i])
    ensures HasCause(handlers, es, i)
  {
    hide Run;
    AlwaysAuthOk(handlers, es);
    HistoryAt(Run(handlers, es).log, i);
  }

  /** The chain behind a promotion: the token store had approved exactly the promoted permissions,
      on a token that the same caller presented for the same session id, in an Authenticate
      together with the nonce its own connection was opened with, before that connection ever said
      Hello. */
  ghost predicate Chain(log: seq<Entry>, p: nat, v: nat, s: nat, o: nat) {
    && o < s < v < p < |log|
    && log[p].Promoted?
    && log[v].TokenVerdict? && log[v].conn == log[p].caller
    && log[v].sessionId == log[p].sessionId && log[v].granted == Some(log[p].permissions)
    && log[s].VerificationStarted? && log[s].conn == log[v].conn
    && log[s].sessionId == log[v].sessionId && log[s].token == log[v].token
    && JustInvoked(log[..s], log[s].conn, log[s].sessionId, log[s].token, log[s].presented)
    && log[o] == Opened(log[s].conn, log[s].presented)
    && !SaidHello(log[..s], log[s].conn)
  }

  lemma PromotionsNeedApproval(handlers: set<int>, es: seq<Event>, p: nat) returns (v: nat, s: nat, o: nat)
    requires p < |Run(handlers, es).log| && Run(handlers, es).log[p].Promoted?
    ensures Chain(Run(handlers, es).log, p, v, s, o)
    ensures HasCause(handlers, es, p) && HasCause(handlers, es, v) && HasCause(handlers, es, s)
  {
    hide Run;
    var log := Run(handlers, es).log;
    EveryEntryJustified(handlers, es, p);
    v :| 0 <= v < p && log[..p][v].TokenVerdict? && log[..p][v].conn == log[p].caller
         && log[..p][v].sessionId == log[p].sessionId && log[..p][v].granted == Some(log[p].permissions);
    EveryEntryJustified(handlers, es, v);
    s :| 0 <= s < v && log[..v][s].VerificationStarted? && log[..v][s].conn == log[v].conn
         && log[..v][s].sessionId == log[v].sessionId && log[..v][s].token == log[v].token;
    EveryEntryJustified(handlers, es, s);
    o :| 0 <= o < s && log[..s][o] == Opened(log[s].conn, log[s].presented);
  }

  /** A handler outside the four pre-authentication types runs on a connection only after that
      connection's session was promoted with the token store's approval. */
  lemma OperationalFramesNeedApproval(handlers: set<int>, es: seq<Event>, i: nat)
    returns (p: nat, v: nat, s: nat, o: nat)
    requires i < |Run(handlers, es).log|
    requires var e := Run(handlers, es).log[i]; e.Invoked? && e.frame.t !in PRE_AUTH_TYPES
    ensures p < i && Chain(Run(handlers, es).log, p, v, s, o)
    ensures Run(handlers, es).log[p].conn == Run(handlers, es).log[i].conn
    ensures HasCause(handlers, es, p) && HasCause(handlers, es, v) && HasCause(handlers, es, s)
  {
    hide Run, Chain;
    var log := Run(handlers, es).log;
    EveryEntryJustified(handlers, es, i);
    p :| 0 <= p < i && log[..i][p].Promoted? && log[..i][p].conn == log[i].conn;
    v, s, o := PromotionsNeedApproval(handlers, es, p);
  }

  /** A verdict in the history is the token store's answer, given at that point of the history, to
      a call that was waiting for it, on exactly that call's session id and token. */
  lemma VerdictsComeFromStore(handlers: set<int>, es: seq<Event>, v: nat) returns (j: nat)
    requires v < |Run(handlers, es).log| && Run(handlers, es).log[v].TokenVerdict?
    ensures CausedAt(handlers, es, v, j) && |Run(handlers, es[..j]).log| == v
  {
    j := EveryEntryCaused(handlers, es, v);
  }

  // ---------------------------------------------------------------- the nonce is used once

  predicate Blank(g: State, c: Conn) { c in g.sessions && g.sessions[c].challenge == "" }

  ghost predicate NonceOk(g: State, c: Conn) {
    Count(g.log, NonceUses(c)) <= if Blank(g, c) then 1 else 0
  }

  lemma LogNonce(g: State, e: Entry, c: Conn)
    ensures Count(Log(g, e).log, NonceUses(c)) == Count(g.log, NonceUses(c)) + if Hits(NonceUses(c), e) then 1 else 0
  {
    CountPush(g.log, e, NonceUses(c));
  }

  lemma RunHandlerKeepsNonce(g: State, s: Conn, f: Frame, c: Conn)
    requires NonceOk(g, c) && s in g.sessions
    ensures NonceOk(RunHandler(g, s, f), c)
  {
    hide Count;
    var g' := RunHandler(g, s, f);
    if |g'.log| > |g.log| { LogNonce(g, g'.log[|g.log|], c); }
  }

  lemma RouteKeepsNonce(g: State, s: Conn, f: Frame, c: Conn)
    requires NonceOk(g, c) && s in g.sessions
    ensures NonceOk(Route(g, s, f), c)
  {
    hide Count;
    match Gate(f, g.sessions[s].authenticated, g.handlers)
    case Some(reply) => LogNonce(g, Replied(s, f.mid, reply), c);
    case None =>
      LogNonce(g, Invoked(s, f), c);
      RunHandlerKeepsNonce(Log(g, Invoked(s, f)), s, f, c);
  }

  lemma FrameKeepsNonce(g: State, s: Conn, f: Frame, c: Conn)
    requires NonceOk(g, c) && s in g.sessions
    ensures NonceOk(OnFrame(g, s, f), c)
  {
    hide Count;
    LogNonce(g, Received(s, f), c);
    var received := Log(g, Received(s, f));
    if f.mid > 0 && f.mid in g.sessions[s].seenMids {
      LogNonce(received, Replied(s, f.mid, Nack(Replay)), c);
    } else {
      var g1 := Remember(received, s, f.mid);
      assert Blank(g1, c) == Blank(g, c);
      if f.t == PING {
        LogNonce(g1, Replied(s, f.mid, Pong), c);
      } else {
        RouteKeepsNonce(g1, s, f, c);
      }
    }
  }

  lemma MessageKeepsNonce(g: State, s: Conn, message: Message, c: Conn)
    requires NonceOk(g, c) && s in g.sessions
    ensures NonceOk(OnMessage(g, s, message), c)
  {
    hide Count;
    match message
    case Text => LogNonce(g, Replied(s, 0, Close(CLOSE_UNSUPPORTED_VERSION)), c);
    case TooLarge => LogNonce(g, Replied(s, 0, Nack(PayloadTooLarge)), c);
    case Undecodable => LogNonce(g, Replied(s, 0, Nack(Malformed)), c);
    case Decoded(f) => FrameKeepsNonce(g, s, f, c);
  }

  lemma CompleteKeepsNonce(g: State, k: nat, end: HandlerEnd, c: Conn)
    requires NonceOk(g, c) && k < |g.calls|
    ensures NonceOk(Complete(g, k, end), c)
  {
    hide Count;
    var call, result := g.calls[k], ResultOf(g.calls[k], end);
    var g0 := g.(calls := RemoveAt(g.calls, k));
    LogNonce(g0, Returned(call.conn, call.frame, result), c);
    var g1 := Log(g0, Returned(call.conn, call.frame, result));
    LogNonce(g1, Replied(call.conn, call.frame.mid, Ack), c);
    if result.Refusal? {
      LogNonce(g1, Replied(call.conn, call.frame.mid,
                           Nack(if result.reason.Unlisted? then Malformed else result.reason)), c);
    }
  }

  lemma TokenKeepsNonce(g: State, k: nat, granted: Option<seq<string>>, c: Conn)
    requires NonceOk(g, c) && k < |g.calls| && g.calls[k].stage.Verifying?
    ensures NonceOk(OnTokenChecked(g, k, granted), c)
  {
    hide Count;
    var id := g.calls[k].stage.sessionId;
    LogNonce(g, VerdictOn(g, k, granted), c);
    var g1 := Log(g, VerdictOn(g, k, granted));
    var i := FindSession(g1, id, 0);
    if granted.Some? && i < |g.attached| {
      LogNonce(g1, Promoted(g.attached[i], g.calls[k].conn, id, granted.value), c);
    }
  }

  lemma StepKeepsNonce(g: State, e: Event, c: Conn)
    requires NonceOk(g, c)
    ensures NonceOk(Step(g, e), c)
  {
    match e
    case Connects(s, _, nonce) => LogNonce(g, Opened(s, nonce), c);
    case Receives(s, message) => if s in g.sessions { MessageKeepsNonce(g, s, message, c); }
    case TokenChecked(k, granted) =>
      if k < |g.calls| && g.calls[k].stage.Verifying? { TokenKeepsNonce(g, k, granted, c); }
    case HandlerEnds(k, end) =>
      if k < |g.calls| { CompleteKeepsNonce(g, k, end, c); }
    case SetsSessionId(_, _) =>
    case Detaches(_) =>
  }

  lemma {:induction false} NonceAlwaysOk(handlers: set<int>, es: seq<Event>, c: Conn)
    ensures NonceOk(Run(handlers, es), c)
  {
    if es != [] {
      NonceAlwaysOk(handlers, es[..|es| - 1], c);
      StepKeepsNonce(Run(handlers, es[..|es| - 1]), es[|es| - 1], c);
    }
  }

  /** In every run a connection's nonce is disclosed or verified at most once, and only by the very
      first Hello or Authenticate handled there: a refused Authenticate uses it up as well. */
  lemma NonceUsedOnce(handlers: set<int>, es: seq<Event>, c: Conn)
    ensures var log := Run(handlers, es).log;
            && Count(log, NonceUses(c)) <= 1
            && (forall i :: 0 <= i < |log| && N.Uses(log[i], c) ==>
                  i > 0 && N.Takes(log[i - 1], c) && !N.Taken(log[..i - 1], c))
  {
    hide Run, Count;
    NonceAlwaysOk(handlers, es, c);
    var log := Run(handlers, es).log;
    forall i | 0 <= i < |log| && N.Uses(log[i], c)
      ensures i > 0 && N.Takes(log[i - 1], c) && !N.Taken(log[..i - 1], c)
    {
      N.OnlyFirstUses(handlers, es, i, c);
    }
  }

  /** A nonce that HelloAck disclosed never passes: what a peer can learn from the gateway is
      exactly what the gateway no longer accepts. */
  lemma DisclosedNonceNeverVerifies(handlers: set<int>, es: seq<Event>, i: nat, j: nat)
    requires i < |Run(handlers, es).log| && j < |Run(handlers, es).log|
    requires var e := Run(handlers, es).log[i]; e.ChallengeSent? && e.nonce != ""
    ensures var log := Run(handlers, es).log; !(log[j].VerificationStarted? && log[j].conn == log[i].conn)
  {
    var log := Run(handlers, es).log;
    var c := log[i].conn;
    if log[j].VerificationStarted? && log[j].conn == c {
      NonceUsedOnce(handlers, es, c);
      TwoHits(log, i, j, NonceUses(c));
    }
  }

  // ---------------------------------------------------------------- what a session may do

  /** The permissions of the latest promotion of a connection's session. */
  function LastPromotion(log: seq<Entry>, c: Conn): Option<seq<string>> {
    if log == [] then None
    else
      var last := log[|log| - 1];
      if last.Promoted? && last.conn == c then Some(last.permissions) else LastPromotion(log[..|log| - 1], c)
  }

  function Rights(g: State, c: Conn): Option<seq<string>> {
    if c in g.sessions && g.sessions[c].authenticated then Some(g.sessions[c].permissions) else None
  }

  lemma LogPromotion(log: seq<Entry>, e: Entry, c: Conn)
    ensures LastPromotion(log + [e], c) ==
            if e.Promoted? && e.conn == c then Some(e.permissions) else LastPromotion(log, c)
  {
    assert (log + [e])[..|log|] == log;
  }

  lemma FrameKeepsRights(g: State, s: Conn, f: Frame, c: Conn)
    requires s in g.sessions
    ensures Rights(OnFrame(g, s, f), c) == Rights(g, c)
    ensures LastPromotion(OnFrame(g, s, f).log, c) == LastPromotion(g.log, c)
  {
    hide LastPromotion;
    var received := Log(g, Received(s, f));
    LogPromotion(g.log, Received(s, f), c);
    if f.mid > 0 && f.mid in g.sessions[s].seenMids {
      LogPromotion(received.log, Replied(s, f.mid, Nack(Replay)), c);
    } else {
      var g1 := Remember(received, s, f.mid);
      LogPromotion(g1.log, Replied(s, f.mid, Pong), c);
      if f.t != PING { RouteKeepsRights(g1, s, f, c); }
    }
  }

  lemma RouteKeepsRights(g: State, s: Conn, f: Frame, c: Conn)
    requires s in g.sessions
    ensures Rights(Route(g, s, f), c) == Rights(g, c)
    ensures LastPromotion(Route(g, s, f).log, c) == LastPromotion(g.log, c)
  {
    hide LastPromotion;
    match Gate(f, g.sessions[s].authenticated, g.handlers)
    case Some(reply) => LogPromotion(g.log, Replied(s, f.mid, reply), c);
    case None =>
      LogPromotion(g.log, Invoked(s, f), c);
      var g' := RunHandler(Log(g, Invoked(s, f)), s, f);
      if |g'.log| > |g.log| + 1 { LogPromotion(g.log + [Invoked(s, f)], g'.log[|g.log| + 1], c); }
  }

  lemma CompleteKeepsRights(g: State, k: nat, end: HandlerEnd, c: Conn)
    requires k < |g.calls|
    ensures Rights(Complete(g, k, end), c) == Rights(g, c)
    ensures LastPromotion(Complete(g, k, end).log, c) == LastPromotion(g.log, c)
  {
    hide LastPromotion;
    var g' := Complete(g, k, end);
    LogPromotion(g.log, g'.log[|g.log|], c);
    if |g'.log| > |g.log| + 1 { LogPromotion(g.log + [g'.log[|g.log|]], g'.log[|g.log| + 1], c); }
  }

  lemma StepKeepsRights(g: State, e: Event, c: Conn)
    requires Rights(g, c) == LastPromotion(g.log, c)
    ensures Rights(Step(g, e), c) == LastPromotion(Step(g, e).log, c)
  {
    hide LastPromotion, OnFrame, Complete;
    match e
    case Connects(s, _, nonce) => LogPromotion(g.log, Opened(s, nonce), c);
    case Receives(s, message) =>
      LogPromotion(g.log, Replied(s, 0, Close(CLOSE_UNSUPPORTED_VERSION)), c);
      LogPromotion(g.log, Replied(s, 0, Nack(PayloadTooLarge)), c);
      LogPromotion(g.log, Replied(s, 0, Nack(Malformed)), c);
      if s in g.sessions && message.Decoded? { FrameKeepsRights(g, s, message.frame, c); }
    case TokenChecked(k, granted) =>
      if k < |g.calls| && g.calls[k].stage.Verifying? {
        var id, g1 := g.calls[k].stage.sessionId, Log(g, VerdictOn(g, k, granted));
        var i := FindSession(g1, id, 0);
        LogPromotion(g.log, VerdictOn(g, k, granted), c);
        if granted.Some? && i < |g.attached| {
          LogPromotion(g1.log, Promoted(g.attached[i], g.calls[k].conn, id, granted.value), c);
        }
      }
    case HandlerEnds(k, end) =>
      if k < |g.calls| && !g.calls[k].stage.Verifying? { CompleteKeepsRights(g, k, end, c); }
    case SetsSessionId(_, _) =>
    case Detaches(_) =>
  }

  /** In every run a session is authenticated exactly when it was promoted, and its permissions
      are exactly those of its latest promotion. */
  lemma {:induction false} RightsComeFromPromotion(handlers: set<int>, es: seq<Event>, c: Conn)
    ensures Rights(Run(handlers, es), c) == LastPromotion(Run(handlers, es).log, c)
  {
    if es != [] {
      RightsComeFromPromotion(handlers, es[..|es| - 1], c);
      StepKeepsRights(Run(handlers, es[..|es| - 1]), es[|es| - 1], c);
    }
  }

  /** Nothing ever takes an authentication back: whatever happens after it, on this connection or
      any other, the session stays authenticated. */
  lemma {:induction false} RightsNeverWithdrawn(handlers: set<int>, es: seq<Event>, n: nat, c: Conn)
    requires n <= |es| && Rights(Run(handlers, es[..n]), c).Some?
    ensures Rights(Run(handlers, es), c).Some?
  {
    hide Step, Rights;
    if n == |es| {
      assert es[..n] == es;
    } else {
      var m := |es| - 1;
      assert es[..m][..n] == es[..n];
      RightsNeverWithdrawn(handlers, es[..m], n, c);
      RightsComeFromPromotion(handlers, es[..m], c);
      RightsComeFromPromotion(handlers, es, c);
      StepOnlyAdds(Run(handlers, es[..m]), es[m]);
      PromotionsStay(Run(handlers, es[..m]).log, Run(handlers, es).log, c);
    }
  }

  lemma {:induction false} PromotionsStay(log: seq<Entry>, log': seq<Entry>, c: Conn)
    requires log <= log' && LastPromotion(log, c).Some?
    ensures LastPromotion(log', c).Some?
  {
    if log' != log { PromotionsStay(log, log'[..|log'| - 1], c); }
  }
}
