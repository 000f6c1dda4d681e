/** Exactly when the gateway runs a handler (packages/network/src/server/WssGateway.ts,
    frameRouter.ts). */
module GatewayHandled {
  import opened Common
  import opened Gateway

  ghost predicate HandledOn(log: seq<Entry>, c: Conn, m: nat) {
    exists x :: x in log && x.Invoked? && x.conn == c && x.frame.mid == m
  }

  /** The event brings connection c a frame with mid m that is neither a replay nor a Ping and
      that the router's gates let pass. */
  predicate GetsThrough(g: State, e: Event, c: Conn, m: nat) {
    && e.Receives? && e.conn == c && c in g.sessions
    && e.message.Decoded? && e.message.frame.mid == m && e.message.frame.t != PING
    && m !in g.sessions[c].seenMids
    && Gate(e.message.frame, g.sessions[c].authenticated, g.handlers).None?
  }

  ghost predicate GotThrough(handlers: set<int>, es: seq<Event>, c: Conn, m: nat) {
    exists k :: 0 <= k < |es| && GetsThrough(Run(handlers, es[..k]), es[k], c, m)
  }

  lemma HandledPush(log: seq<Entry>, x: Entry, c: Conn, m: nat)
    ensures HandledOn(log + [x], c, m) <==> HandledOn(log, c, m) || (x.Invoked? && x.conn == c && x.frame.mid == m)
  {
    if HandledOn(log, c, m) {
      var y :| y in log && y.Invoked? && y.conn == c && y.frame.mid == m;
      assert y in log + [x];
    }
    if x.Invoked? && x.conn == c && x.frame.mid == m { assert x in log + [x]; }
  }

  lemma RouteHandles(g: State, s: Conn, f: Frame, c: Conn, m: nat)
    requires s in g.sessions
    ensures HandledOn(Route(g, s, f).log, c, m) <==>
            HandledOn(g.log, c, m) ||
            (s == c && f.mid == m && Gate(f, g.sessions[s].authenticated, g.handlers).None?)
  {
    hide HandledOn;
    match Gate(f, g.sessions[s].authenticated, g.handlers)
    case Some(reply) => HandledPush(g.log, Replied(s, f.mid, reply), c, m);
    case None =>
      HandledPush(g.log, Invoked(s, f), c, m);
      var g' := RunHandler(Log(g, Invoked(s, f)), s, f);
      if |g'.log| > |g.log| + 1 { HandledPush(g.log + [Invoked(s, f)], g'.log[|g.log| + 1], c, m); }
  }

  lemma FrameHandles(g: State, s: Conn, f: Frame, c: Conn, m: nat)
    requires s in g.sessions && m > 0
    ensures HandledOn(OnFrame(g, s, f).log, c, m) <==>
            HandledOn(g.log, c, m) || GetsThrough(g, Receives(s, Decoded(f)), c, m)
  {
    hide HandledOn;
    var received := Log(g, Received(s, f));
    HandledPush(g.log, Received(s, f), c, m);
    if f.mid > 0 && f.mid in g.sessions[s].seenMids {
      HandledPush(received.log, Replied(s, f.mid, Nack(Replay)), c, m);
    } else {
      var g1 := Remember(received, s, f.mid);
      HandledPush(g1.log, Replied(s, f.mid, Pong), c, m);
      if f.t != PING { RouteHandles(g1, s, f, c, m); }
    }
  }

  lemma CompleteHandles(g: State, k: nat, end: HandlerEnd, c: Conn, m: nat)
    requires k < |g.calls|
    ensures HandledOn(Complete(g, k, end).log, c, m) <==> HandledOn(g.log, c, m)
  {
    hide HandledOn;
    var g' := Complete(g, k, end);
    HandledPush(g.log, g'.log[|g.log|], c, m);
    if |g'.log| > |g.log| + 1 { HandledPush(g.log + [g'.log[|g.log|]], g'.log[|g.log| + 1], c, m); }
  }

  lemma VerdictHandles(g: State, k: nat, granted: Option<seq<string>>, c: Conn, m: nat)
    requires k < |g.calls| && g.calls[k].stage.Verifying?
    ensures HandledOn(OnTokenChecked(g, k, granted).log, c, m) <==> HandledOn(g.log, c, m)
  {
    hide HandledOn;
    var g' := OnTokenChecked(g, k, granted);
    HandledPush(g.log, VerdictOn(g, k, granted), c, m);
    if |g'.log| > |g.log| + 1 { HandledPush(g.log + [VerdictOn(g, k, granted)], g'.log[|g.log| + 1], c, m); }
  }

  lemma StepHandles(g: State, e: Event, c: Conn, m: nat)
    requires m > 0
    ensures HandledOn(Step(g, e).log, c, m) <==> HandledOn(g.log, c, m) || GetsThrough(g, e, c, m)
  {
    hide HandledOn, OnFrame, Complete, OnTokenChecked;
    match e
    case Connects(s, _, nonce) => HandledPush(g.log, Opened(s, nonce), c, m);
    case Receives(s, message) =>
      HandledPush(g.log, Replied(s, 0, Close(CLOSE_UNSUPPORTED_VERSION)), c, m);
      HandledPush(g.log, Replied(s, 0, Nack(PayloadTooLarge)), c, m);
      HandledPush(g.log, Replied(s, 0, Nack(Malformed)), c, m);
      if s in g.sessions && message.Decoded? { FrameHandles(g, s, message.frame, c, m); }
    case TokenChecked(k, granted) =>
      if k < |g.calls| && g.calls[k].stage.Verifying? { VerdictHandles(g, k, granted, c, m); }
    case HandlerEnds(k, end) => if k < |g.calls| { CompleteHandles(g, k, end, c, m); }
    case SetsSessionId(_, _) =>
    case Detaches(_) =>
  }

  lemma GotThroughPush(handlers: set<int>, es: seq<Event>, c: Conn, m: nat)
    requires es != []
    ensures var n := |es| - 1;
            GotThrough(handlers, es, c, m) <==>
            GotThrough(handlers, es[..n], c, m) || GetsThrough(Run(handlers, es[..n]), es[n], c, m)
  {
    hide Run, GetsThrough;
    var n := |es| - 1;
    forall k | 0 <= k < n
      ensures GetsThrough(Run(handlers, es[..n][..k]), es[..n][k], c, m) ==
              GetsThrough(Run(handlers, es[..k]), es[k], c, m)
    {
      assert es[..n][..k] == es[..k];
    }
    if GotThrough(handlers, es[..n], c, m) {
      var k :| 0 <= k < n && GetsThrough(Run(handlers, es[..n][..k]), es[..n][k], c, m);
      assert GetsThrough(Run(handlers, es[..k]), es[k], c, m);
    }
  }

  /** Over every run: a handler ran for mid m on connection c if and only if some copy got
      through the replay guard and the gates there. */
  lemma {:induction false} HandledExactly(handlers: set<int>, es: seq<Event>, c: Conn, m: nat)
    requires m > 0
    ensures HandledOn(Run(handlers, es).log, c, m) <==> GotThrough(handlers, es, c, m)
  {
    hide Step, HandledOn, GetsThrough;
    if es == [] {
      NothingHandled(c, m);
    } else {
      hide GotThrough;
      var n := |es| - 1;
      HandledExactly(handlers, es[..n], c, m);
      StepHandles(Run(handlers, es[..n]), es[n], c, m);
      GotThroughPush(handlers, es, c, m);
    }
  }

  lemma NothingHandled(c: Conn, m: nat)
    ensures !HandledOn([], c, m)
  {
  }
}
