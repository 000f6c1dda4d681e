/** The one-time nonce of a connection: who may use it, and exactly when an Authenticate gets as
    far as token verification (apps/receiver/src/main/networkService.ts,
    packages/network/src/server/WssGateway.ts). */
module GatewayNonce {
  import opened Common
  import opened Gateway
  import opened GatewayCauses
  import R = GatewayResults

  /** A handler that takes the nonce was started on connection c. */
  predicate Takes(x: Entry, c: Conn) {
    x.Invoked? && x.conn == c && (x.frame.t == HELLO || x.frame.t == AUTHENTICATE)
  }

  ghost predicate Taken(log: seq<Entry>, c: Conn) { exists x :: x in log && Takes(x, c) }

  ghost predicate NeverOpened(log: seq<Entry>, c: Conn) { forall x :: x in log && x.Opened? ==> x.conn != c }

  ghost predicate OpenedWith(log: seq<Entry>, c: Conn, nonce: string) {
    && nonce != "" && Opened(c, nonce) in log
    && forall x :: x in log && x.Opened? && x.conn == c ==> x.nonce == nonce
  }

  /** Before connecting there is nothing; from then on the challenge is the nonce of the opening
      until a handler takes it, and blank afterwards. */
  ghost predicate NonceKept(g: State, c: Conn) {
    if c !in g.sessions then NeverOpened(g.log, c) && !Taken(g.log, c)
    else if Taken(g.log, c) then g.sessions[c].challenge == "" && exists nonce :: OpenedWith(g.log, c, nonce)
    else OpenedWith(g.log, c, g.sessions[c].challenge)
  }

  lemma Push(log: seq<Entry>, x: Entry, c: Conn)
    ensures Taken(log + [x], c) <==> Taken(log, c) || Takes(x, c)
    ensures !x.Opened? || x.conn != c ==>
              && (NeverOpened(log, c) ==> NeverOpened(log + [x], c))
              && (forall nonce :: OpenedWith(log, c, nonce) ==> OpenedWith(log + [x], c, nonce))
  {
    var log' := log + [x];
    assert forall y :: y in log' <==> y in log || y == x;
  }

  /** An entry that neither opens nor takes leaves everything as it is. */
  lemma LogKeeps(g: State, x: Entry, c: Conn)
    requires NonceKept(g, c) && !Takes(x, c) && (!x.Opened? || x.conn != c)
    ensures NonceKept(Log(g, x), c)
  {
    Push(g.log, x, c);
  }

  /** Starting a handler on s, and what it does with the nonce. */
  lemma HandlerKeeps(g: State, s: Conn, f: Frame, c: Conn)
    requires NonceKept(g, c) && s in g.sessions
    ensures NonceKept(RunHandler(Log(g, Invoked(s, f)), s, f), c)
  {
    hide Taken, NeverOpened, OpenedWith;
    Push(g.log, Invoked(s, f), c);
    var invoked := Log(g, Invoked(s, f));
    var g' := RunHandler(invoked, s, f);
    if |g'.log| > |invoked.log| { Push(invoked.log, g'.log[|invoked.log|], c); }
  }

  lemma RouteKeeps(g: State, s: Conn, f: Frame, c: Conn)
    requires NonceKept(g, c) && s in g.sessions
    ensures NonceKept(Route(g, s, f), c)
  {
    hide NonceKept, RunHandler;
    match Gate(f, g.sessions[s].authenticated, g.handlers)
    case Some(reply) => LogKeeps(g, Replied(s, f.mid, reply), c);
    case None => HandlerKeeps(g, s, f, c);
  }

  lemma FrameKeeps(g: State, s: Conn, f: Frame, c: Conn)
    requires NonceKept(g, c) && s in g.sessions
    ensures NonceKept(OnFrame(g, s, f), c)
  {
    hide NonceKept, Route, Remember;
    var received := Log(g, Received(s, f));
    LogKeeps(g, Received(s, f), c);
    if f.mid > 0 && f.mid in g.sessions[s].seenMids {
      LogKeeps(received, Replied(s, f.mid, Nack(Replay)), c);
    } else {
      var g1 := Remember(received, s, f.mid);
      RememberKeeps(received, s, f.mid, c);
      if f.t == PING { LogKeeps(g1, Replied(s, f.mid, Pong), c); } else { RouteKeeps(g1, s, f, c); }
    }
  }

  lemma RememberKeeps(g: State, s: Conn, mid: nat, c: Conn)
    requires NonceKept(g, c) && s in g.sessions
    ensures NonceKept(Remember(g, s, mid), c) && s in Remember(g, s, mid).sessions
  {
    hide Taken, NeverOpened, OpenedWith;
  }

  lemma VerdictKeeps(g: State, k: nat, granted: Option<seq<string>>, c: Conn)
    requires NonceKept(g, c) && k < |g.calls| && g.calls[k].stage.Verifying?
    ensures NonceKept(OnTokenChecked(g, k, granted), c)
  {
    hide Taken, NeverOpened, OpenedWith;
    var g1 := Log(g, VerdictOn(g, k, granted));
    LogKeeps(g, VerdictOn(g, k, granted), c);
    var g' := OnTokenChecked(g, k, granted);
    if |g'.log| > |g1.log| { Push(g1.log, g'.log[|g1.log|], c); }
  }

  lemma EndKeeps(g: State, k: nat, end: HandlerEnd, c: Conn)
    requires NonceKept(g, c) && k < |g.calls|
    ensures NonceKept(Complete(g, k, end), c)
  {
    hide Taken, NeverOpened, OpenedWith;
    var g' := Complete(g, k, end);
    Push(g.log, g'.log[|g.log|], c);
    if |g'.log| > |g.log| + 1 { Push(g.log + [g'.log[|g.log|]], g'.log[|g.log| + 1], c); }
  }

  lemma ConnectKeeps(g: State, s: Conn, sessionId: string, nonce: string, c: Conn)
    requires NonceKept(g, c) && s !in g.sessions && nonce != ""
    ensures NonceKept(Step(g, Connects(s, sessionId, nonce)), c)
  {
    Push(g.log, Opened(s, nonce), c);
    var log' := g.log + [Opened(s, nonce)];
    assert forall y :: y in log' <==> y in g.log || y == Opened(s, nonce);
    if s == c { assert OpenedWith(log', c, nonce); }
  }

  lemma StepKeeps(g: State, e: Event, c: Conn)
    requires NonceKept(g, c)
    ensures NonceKept(Step(g, e), c)
  {
    hide Taken, NeverOpened, OpenedWith, OnFrame, OnTokenChecked, Complete;
    match e
    case Connects(s, id, nonce) => if s !in g.sessions && nonce != "" { ConnectKeeps(g, s, id, nonce, c); }
    case Receives(s, message) =>
      LogKeeps(g, Replied(s, 0, Close(CLOSE_UNSUPPORTED_VERSION)), c);
      LogKeeps(g, Replied(s, 0, Nack(PayloadTooLarge)), c);
      LogKeeps(g, Replied(s, 0, Nack(Malformed)), c);
      if s in g.sessions && message.Decoded? { FrameKeeps(g, s, message.frame, c); }
    case TokenChecked(k, granted) =>
      if k < |g.calls| && g.calls[k].stage.Verifying? { VerdictKeeps(g, k, granted, c); }
    case HandlerEnds(k, end) => if k < |g.calls| { EndKeeps(g, k, end, c); }
    case SetsSessionId(_, _) =>
    case Detaches(_) =>
  }

  lemma {:induction false} AlwaysKept(handlers: set<int>, es: seq<Event>, c: Conn)
    ensures NonceKept(Run(handlers, es), c)
  {
    hide Step;
    if es != [] {
      AlwaysKept(handlers, es[..|es| - 1], c);
      StepKeeps(Run(handlers, es[..|es| - 1]), es[|es| - 1], c);
    }
  }

  /** In every run a connection's challenge is not blank if and only if no Hello and no
      Authenticate was handled on it, and it is then the nonce the connection was opened with. */
  lemma NonceExactly(handlers: set<int>, es: seq<Event>, c: Conn)
    requires c in Run(handlers, es).sessions
    ensures var g := Run(handlers, es);
            && (g.sessions[c].challenge != "" <==> !Taken(g.log, c))
            && (g.sessions[c].challenge != "" ==> OpenedWith(g.log, c, g.sessions[c].challenge))
  {
    AlwaysKept(handlers, es, c);
  }

  // ---------------------------------------------------------------- who gets to use it

  /** The nonce leaves the gateway, or opens the way to token verification. */
  predicate Uses(x: Entry, c: Conn) {
    (x.ChallengeSent? && x.conn == c && x.nonce != "") || (x.VerificationStarted? && x.conn == c)
  }

  lemma UseFollowsStart(g: State, e: Event, i: nat, c: Conn)
    requires |g.log| <= i < |Step(g, e).log| && Uses(Step(g, e).log[i], c)
    ensures i == |g.log| + 2 && Step(g, e).log[..i - 1] == g.log + [Step(g, e).log[|g.log|]]
    ensures Step(g, e).log[|g.log|].Received? && Takes(Step(g, e).log[i - 1], c)
    ensures c in g.sessions && g.sessions[c].challenge != ""
  {
    StepCauses(g, e, i);
    hide Gate;
  }

  /** Only the first Hello or Authenticate handled on a connection, whether it is answered,
      verified or refused, ever has the nonce to use. */
  lemma OnlyFirstUses(handlers: set<int>, es: seq<Event>, i: nat, c: Conn)
    requires i < |Run(handlers, es).log| && Uses(Run(handlers, es).log[i], c)
    ensures i > 0 && Takes(Run(handlers, es).log[i - 1], c) && !Taken(Run(handlers, es).log[..i - 1], c)
  {
    hide Run, Step, Caused, Taken, NeverOpened, OpenedWith;
    var log := Run(handlers, es).log;
    var j := EveryEntryCaused(handlers, es, i);
    var g := Run(handlers, es[..j]);
    R.RunStep(handlers, es, j);
    R.HistoryOnlyGrows(handlers, es, j + 1);
    var after := Step(g, es[j]).log;
    UseFollowsStart(g, es[j], i, c);
    assert log[..i - 1] == after[..i - 1] && log[i - 1] == after[i - 1];
    NonceExactly(handlers, es[..j], c);
    Push(g.log, after[|g.log|], c);
  }

  // ---------------------------------------------------------------- exactly when it verifies

  /** The event brings connection c an Authenticate with these credentials that gets through the
      replay guard and the gates and presents the nonce of the opening, before any Hello or
      Authenticate was handled there. */
  ghost predicate Qualifies(g: State, e: Event, c: Conn, sessionId: string, token: string, nonce: string) {
    && Delivers(g, e, c) && Passes(g.sessions[c], e.message.frame, g.handlers)
    && e.message.frame.t == AUTHENTICATE && Credited(e.message.frame.p, sessionId, token, nonce)
    && |nonce| <= 128
    && OpenedWith(g.log, c, nonce) && !Taken(g.log, c)
  }

  ghost predicate Qualified(handlers: set<int>, es: seq<Event>, c: Conn,
                            sessionId: string, token: string, nonce: string)
  {
    exists k :: 0 <= k < |es| && Qualifies(Run(handlers, es[..k]), es[k], c, sessionId, token, nonce)
  }

  lemma QualifiedStarts(g: State, e: Event, c: Conn, sessionId: string, token: string, nonce: string)
    requires NonceKept(g, c) && Qualifies(g, e, c, sessionId, token, nonce)
    ensures VerificationStarted(c, sessionId, token, nonce) in Step(g, e).log
  {
    var f := e.message.frame;
    assert g.sessions[c].challenge == nonce;
    var g' := Step(g, e);
    assert g'.log[|g.log| + 2] == VerificationStarted(c, sessionId, token, nonce);
  }

  /** In every run the token store is asked about these credentials for connection c if and only
      if some Authenticate with them qualified there. */
  lemma VerificationExactly(handlers: set<int>, es: seq<Event>, c: Conn,
                            sessionId: string, token: string, nonce: string)
    ensures VerificationStarted(c, sessionId, token, nonce) in Run(handlers, es).log <==>
            Qualified(handlers, es, c, sessionId, token, nonce)
  {
    hide Run, Step, Taken, OpenedWith, Passes;
    var x, log := VerificationStarted(c, sessionId, token, nonce), Run(handlers, es).log;
    if x in log {
      var i :| 0 <= i < |log| && log[i] == x;
      var j := EveryEntryCaused(handlers, es, i);
      NonceExactly(handlers, es[..j], c);
      assert Qualifies(Run(handlers, es[..j]), es[j], c, sessionId, token, nonce);
    }
    if Qualified(handlers, es, c, sessionId, token, nonce) {
      var k :| 0 <= k < |es| && Qualifies(Run(handlers, es[..k]), es[k], c, sessionId, token, nonce);
      AlwaysKept(handlers, es[..k], c);
      QualifiedStarts(Run(handlers, es[..k]), es[k], c, sessionId, token, nonce);
      R.RunStep(handlers, es, k);
      R.HistoryOnlyGrows(handlers, es, k + 1);
    }
  }
}
