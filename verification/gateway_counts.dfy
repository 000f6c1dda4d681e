/** How often the gateway runs a handler and answers, over every run. */
module GatewayCounts {
  import opened Common
  import opened Gateway

  /** The questions asked of the history. */
  datatype Query =
    | Receipts(c: Conn, m: nat)
    | Invocations(c: Conn, m: nat)
    | Replies(c: Conn, m: nat)
    | Verdicts(c: Conn, m: nat)
    | NonceUses(c: Conn)

  /** A verdict is any reply but the replay guard's. A nonce is consumed by sending it in
      HelloAck or by verifying an Authenticate. */
  predicate Hits(q: Query, e: Entry) {
    match q
    case Receipts(c, m) => e.Received? && e.conn == c && e.frame.mid == m
    case Invocations(c, m) => e.Invoked? && e.conn == c && e.frame.mid == m
    case Replies(c, m) => e.Replied? && e.conn == c && e.mid == m
    case Verdicts(c, m) => e.Replied? && e.conn == c && e.mid == m && e.reply != Nack(Replay)
    case NonceUses(c) => e.conn == c && (e.VerificationStarted? || (e.ChallengeSent? && e.nonce != ""))
  }

  function Count(log: seq<Entry>, q: Query): nat {
    if log == [] then 0 else Count(log[..|log| - 1], q) + if Hits(q, log[|log| - 1]) then 1 else 0
  }

  function InFlight(calls: seq<Call>, c: Conn, m: nat): nat {
    if calls == [] then 0
    else InFlight(calls[1..], c, m) + if calls[0].conn == c && calls[0].frame.mid == m then 1 else 0
  }

  predicate Seen(g: State, c: Conn, m: nat) { c in g.sessions && m in g.sessions[c].seenMids }

  /** A mid is invoked at most once, and only after the guard recorded it; every copy
      received is answered or being handled. */
  ghost predicate CountsOk(g: State, c: Conn, m: nat) {
    && Count(g.log, Invocations(c, m)) <= (if Seen(g, c, m) then 1 else 0)
    && Count(g.log, Verdicts(c, m)) + InFlight(g.calls, c, m) <= (if Seen(g, c, m) then 1 else 0)
    && Count(g.log, Receipts(c, m)) == Count(g.log, Replies(c, m)) + InFlight(g.calls, c, m)
  }

  lemma CountPush(log: seq<Entry>, e: Entry, q: Query)
    ensures Count(log + [e], q) == Count(log, q) + if Hits(q, e) then 1 else 0
  {
    assert (log + [e])[..|log|] == log;
  }

  lemma {:induction false} OneHit(log: seq<Entry>, i: nat, q: Query)
    requires i < |log| && Hits(q, log[i])
    ensures Count(log, q) >= 1
  {
    if i < |log| - 1 { OneHit(log[..|log| - 1], i, q); }
  }

  lemma {:induction false} TwoHits(log: seq<Entry>, i: nat, j: nat, q: Query)
    requires i < |log| && j < |log| && i != j && Hits(q, log[i]) && Hits(q, log[j])
    ensures Count(log, q) >= 2
  {
    var init := log[..|log| - 1];
    if i == |log| - 1 { OneHit(init, j, q); }
    else if j == |log| - 1 { OneHit(init, i, q); }
    else { TwoHits(init, i, j, q); }
  }

  lemma CountLog(g: State, e: Entry, c: Conn, m: nat)
    ensures var log' := Log(g, e).log;
            && Count(log', Receipts(c, m)) ==
               Count(g.log, Receipts(c, m)) + (if Hits(Receipts(c, m), e) then 1 else 0)
            && Count(log', Invocations(c, m)) ==
               Count(g.log, Invocations(c, m)) + (if Hits(Invocations(c, m), e) then 1 else 0)
            && Count(log', Replies(c, m)) ==
               Count(g.log, Replies(c, m)) + (if Hits(Replies(c, m), e) then 1 else 0)
            && Count(log', Verdicts(c, m)) ==
               Count(g.log, Verdicts(c, m)) + (if Hits(Verdicts(c, m), e) then 1 else 0)
  {
    CountPush(g.log, e, Receipts(c, m));
    CountPush(g.log, e, Invocations(c, m));
    CountPush(g.log, e, Replies(c, m));
    CountPush(g.log, e, Verdicts(c, m));
  }

  lemma {:induction false} InFlightPush(calls: seq<Call>, call: Call, c: Conn, m: nat)
    ensures InFlight(calls + [call], c, m) ==
            InFlight(calls, c, m) + if call.conn == c && call.frame.mid == m then 1 else 0
  {
    if calls == [] {
      assert calls + [call] == [call];
    } else {
      assert (calls + [call])[1..] == calls[1..] + [call];
      InFlightPush(calls[1..], call, c, m);
    }
  }

  lemma {:induction false} InFlightRemove(calls: seq<Call>, k: nat, c: Conn, m: nat)
    requires k < |calls|
    ensures InFlight(calls, c, m) ==
            InFlight(RemoveAt(calls, k), c, m) + if calls[k].conn == c && calls[k].frame.mid == m then 1 else 0
  {
    if k == 0 {
      assert RemoveAt(calls, 0) == calls[1..];
    } else {
      InFlightRemove(calls[1..], k - 1, c, m);
      assert RemoveAt(calls, k) == [calls[0]] + RemoveAt(calls[1..], k - 1);
    }
  }

  lemma {:induction false} InFlightSetStage(calls: seq<Call>, k: nat, stage: Stage, c: Conn, m: nat)
    requires k < |calls|
    ensures InFlight(calls[k := calls[k].(stage := stage)], c, m) == InFlight(calls, c, m)
  {
    var calls' := calls[k := calls[k].(stage := stage)];
    InFlightRemove(calls, k, c, m);
    InFlightRemove(calls', k, c, m);
    assert RemoveAt(calls', k) == RemoveAt(calls, k);
  }

  /** A handler start adds one call, and asks nothing of the guard. */
  lemma CountRunHandler(g: State, s: Conn, f: Frame, c: Conn, m: nat)
    requires s in g.sessions
    ensures var g' := RunHandler(g, s, f);
            && Count(g'.log, Receipts(c, m)) == Count(g.log, Receipts(c, m))
            && Count(g'.log, Invocations(c, m)) == Count(g.log, Invocations(c, m))
            && Count(g'.log, Replies(c, m)) == Count(g.log, Replies(c, m))
            && Count(g'.log, Verdicts(c, m)) == Count(g.log, Verdicts(c, m))
            && InFlight(g'.calls, c, m) == InFlight(g.calls, c, m) + (if s == c && f.mid == m then 1 else 0)
            && Seen(g', c, m) == Seen(g, c, m)
  {
    hide Count, InFlight;
    var g' := RunHandler(g, s, f);
    InFlightPush(g.calls, g'.calls[|g.calls|], c, m);
    if |g'.log| > |g.log| { CountLog(g, g'.log[|g.log|], c, m); }
  }

  lemma RouteKeepsCounts(g: State, s: Conn, f: Frame, c: Conn, m: nat)
    requires s in g.sessions && m > 0
    requires Count(g.log, Invocations(c, m)) <= (if Seen(g, c, m) && !(s == c && f.mid == m) then 1 else 0)
    requires Count(g.log, Verdicts(c, m)) + InFlight(g.calls, c, m) <=
             (if Seen(g, c, m) && !(s == c && f.mid == m) then 1 else 0)
    requires s == c && f.mid == m ==> Seen(g, c, m)
    requires Count(g.log, Receipts(c, m)) ==
             Count(g.log, Replies(c, m)) + InFlight(g.calls, c, m) + (if s == c && f.mid == m then 1 else 0)
    ensures CountsOk(Route(g, s, f), c, m)
  {
    hide Count, InFlight;
    match Gate(f, g.sessions[s].authenticated, g.handlers)
    case Some(reply) => CountLog(g, Replied(s, f.mid, reply), c, m);
    case None =>
      CountLog(g, Invoked(s, f), c, m);
      CountRunHandler(Log(g, Invoked(s, f)), s, f, c, m);
  }

  lemma FrameKeepsCounts(g: State, s: Conn, f: Frame, c: Conn, m: nat)
    requires s in g.sessions && m > 0 && CountsOk(g, c, m)
    ensures CountsOk(OnFrame(g, s, f), c, m)
  {
    hide Count, InFlight, Route;
    var received := Log(g, Received(s, f));
    CountLog(g, Received(s, f), c, m);
    if f.mid > 0 && f.mid in g.sessions[s].seenMids {
      CountLog(received, Replied(s, f.mid, Nack(Replay)), c, m);
    } else {
      var g1 := Remember(received, s, f.mid);
      assert Seen(g1, c, m) == (Seen(g, c, m) || (s == c && f.mid == m));
      if f.t == PING {
        CountLog(g1, Replied(s, f.mid, Pong), c, m);
      } else {
        RouteKeepsCounts(g1, s, f, c, m);
      }
    }
  }

  lemma CompleteKeepsCounts(g: State, k: nat, end: HandlerEnd, c: Conn, m: nat)
    requires k < |g.calls| && m > 0 && CountsOk(g, c, m)
    ensures CountsOk(Complete(g, k, end), c, m)
  {
    hide Count, InFlight;
    var call := g.calls[k];
    var result := ResultOf(call, end);
    InFlightRemove(g.calls, k, c, m);
    var g0 := g.(calls := RemoveAt(g.calls, k));
    CountLog(g0, Returned(call.conn, call.frame, result), c, m);
    var g1 := Log(g0, Returned(call.conn, call.frame, result));
    CountLog(g1, Replied(call.conn, call.frame.mid, Ack), c, m);
    if result.Refusal? {
      var reason := if result.reason.Unlisted? then Malformed else result.reason;
      CountLog(g1, Replied(call.conn, call.frame.mid, Nack(reason)), c, m);
    }
  }

  lemma TokenKeepsCounts(g: State, k: nat, granted: Option<seq<string>>, c: Conn, m: nat)
    requires k < |g.calls| && g.calls[k].stage.Verifying? && CountsOk(g, c, m)
    ensures CountsOk(OnTokenChecked(g, k, granted), c, m)
  {
    hide Count, InFlight;
    var id := g.calls[k].stage.sessionId;
    var g1 := Log(g, VerdictOn(g, k, granted));
    var i := FindSession(g1, id, 0);
    CountLog(g, VerdictOn(g, k, granted), c, m);
    InFlightSetStage(g.calls, k, Settling(Refusal(NotAuthenticated)), c, m);
    InFlightSetStage(g.calls, k, Settling(Success), c, m);
    if granted.Some? && i < |g.attached| {
      CountLog(g1, Promoted(g.attached[i], g.calls[k].conn, id, granted.value), c, m);
    }
  }

  lemma MessageKeepsCounts(g: State, s: Conn, message: Message, c: Conn, m: nat)
    requires s in g.sessions && m > 0 && CountsOk(g, c, m)
    ensures CountsOk(OnMessage(g, s, message), c, m)
  {
    hide Count, InFlight;
    match message
    case Text => CountLog(g, Replied(s, 0, Close(CLOSE_UNSUPPORTED_VERSION)), c, m);
    case TooLarge => CountLog(g, Replied(s, 0, Nack(PayloadTooLarge)), c, m);
    case Undecodable => CountLog(g, Replied(s, 0, Nack(Malformed)), c, m);
    case Decoded(f) => FrameKeepsCounts(g, s, f, c, m);
  }

  lemma StepKeepsCounts(g: State, e: Event, c: Conn, m: nat)
    requires m > 0 && CountsOk(g, c, m)
    ensures CountsOk(Step(g, e), c, m)
  {
    hide Count, InFlight;
    match e
    case Connects(s, _, nonce) => CountLog(g, Opened(s, nonce), c, m);
    case Receives(s, message) =>
      if s in g.sessions { MessageKeepsCounts(g, s, message, c, m); }
    case TokenChecked(k, granted) =>
      if k < |g.calls| && g.calls[k].stage.Verifying? { TokenKeepsCounts(g, k, granted, c, m); }
    case HandlerEnds(k, end) =>
      if k < |g.calls| && !g.calls[k].stage.Verifying? { CompleteKeepsCounts(g, k, end, c, m); }
    case SetsSessionId(_, _) =>
    case Detaches(_) =>
  }

  /** Over every run and for every connection and mid > 0: a handler runs at most once; every
      copy received is answered exactly once or is being handled; and apart from replay nacks
      there is at most one answer, so an Ack and a refusal exclude each other. */
  lemma {:induction false} AtMostOnceAndAnswered(handlers: set<int>, es: seq<Event>, c: Conn, m: nat)
    requires m > 0
    ensures var g := Run(handlers, es);
            && Count(g.log, Invocations(c, m)) <= 1
            && Count(g.log, Receipts(c, m)) == Count(g.log, Replies(c, m)) + InFlight(g.calls, c, m)
            && Count(g.log, Verdicts(c, m)) + InFlight(g.calls, c, m) <= 1
            && CountsOk(g, c, m)
  {
    if es != [] {
      AtMostOnceAndAnswered(handlers, es[..|es| - 1], c, m);
      StepKeepsCounts(Run(handlers, es[..|es| - 1]), es[|es| - 1], c, m);
    }
  }
}
