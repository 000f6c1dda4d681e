/** What an Ack is worth: exactly which ends of which handlers it reports
    (packages/network/src/server/frameRouter.ts, WssGateway.ts). */
module GatewayResults {
  import opened Common
  import opened Gateway
  import opened GatewayCauses

  /** Connection c had the session with this id promoted. */
  ghost predicate PromotedBy(log: seq<Entry>, c: Conn, sessionId: string) {
    exists x :: x in log && x.Promoted? && x.caller == c && x.sessionId == sessionId
  }

  /** What the two built-in handlers may have settled on: Hello always succeeds, an Authenticate
      only by having promoted the session it names. */
  ghost predicate CallGrounded(log: seq<Entry>, call: Call) {
    var f := call.frame;
    match call.stage
    case Running => f.t != HELLO && f.t != AUTHENTICATE
    case Verifying(sessionId, token) =>
      f.t == AUTHENTICATE && f.p.Credentials? && f.p.sessionId == sessionId && f.p.sessionToken == token
    case Settling(result) =>
      if f.t == HELLO then result == Success
      else
        && f.t == AUTHENTICATE
        && (result == Refusal(NotAuthenticated) ||
            (result == Success && f.p.Credentials? && PromotedBy(log, call.conn, f.p.sessionId)))
  }

  ghost predicate CallsGrounded(log: seq<Entry>, calls: seq<Call>) {
    forall call :: call in calls ==> CallGrounded(log, call)
  }

  lemma PromotedMore(log: seq<Entry>, log': seq<Entry>, c: Conn, sessionId: string)
    requires log <= log' && PromotedBy(log, c, sessionId)
    ensures PromotedBy(log', c, sessionId)
  {
    var x :| x in log && x.Promoted? && x.caller == c && x.sessionId == sessionId;
    assert x in log';
  }

  lemma GroundedMore(log: seq<Entry>, log': seq<Entry>, calls: seq<Call>)
    requires log <= log' && CallsGrounded(log, calls)
    ensures CallsGrounded(log', calls)
  {
    forall call | call in calls ensures CallGrounded(log', call) {
      assert CallGrounded(log, call);
      if call.stage.Settling? && call.frame.p.Credentials? && PromotedBy(log, call.conn, call.frame.p.sessionId) {
        PromotedMore(log, log', call.conn, call.frame.p.sessionId);
      }
    }
  }

  lemma HandlerKeepsGrounded(g: State, c: Conn, f: Frame)
    requires c in g.sessions && CallsGrounded(g.log, g.calls)
    ensures CallsGrounded(RunHandler(g, c, f).log, RunHandler(g, c, f).calls)
  {
    var g' := RunHandler(g, c, f);
    GroundedMore(g.log, g'.log, g.calls);
    assert g'.calls == g.calls + [g'.calls[|g.calls|]];
  }

  lemma FrameKeepsGrounded(g: State, c: Conn, f: Frame)
    requires c in g.sessions && CallsGrounded(g.log, g.calls)
    ensures CallsGrounded(OnFrame(g, c, f).log, OnFrame(g, c, f).calls)
  {
    hide RunHandler, CallsGrounded;
    var received := Log(g, Received(c, f));
    StepOnlyAdds(g, Receives(c, Decoded(f)));
    GroundedMore(g.log, OnFrame(g, c, f).log, g.calls);
    if !Replayed(g.sessions[c], f) && f.t != PING {
      var g1 := Remember(received, c, f.mid);
      if Gate(f, g1.sessions[c].authenticated, g1.handlers).None? {
        var invoked := Log(g1, Invoked(c, f));
        GroundedMore(g.log, invoked.log, g.calls);
        HandlerKeepsGrounded(invoked, c, f);
      }
    }
  }

  lemma VerdictKeepsGrounded(g: State, k: nat, granted: Option<seq<string>>)
    requires k < |g.calls| && g.calls[k].stage.Verifying? && CallsGrounded(g.log, g.calls)
    ensures CallsGrounded(OnTokenChecked(g, k, granted).log, OnTokenChecked(g, k, granted).calls)
  {
    var g' := OnTokenChecked(g, k, granted);
    GroundedMore(g.log, g'.log, g.calls);
    var f, id := g.calls[k].frame, g.calls[k].stage.sessionId;
    assert CallGrounded(g.log, g.calls[k]) by { assert g.calls[k] in g.calls; }
    if g'.calls[k].stage == Settling(Success) {
      var x := g'.log[|g.log| + 1];
      assert x in g'.log && x.Promoted? && x.caller == g.calls[k].conn && x.sessionId == id;
    }
    assert CallGrounded(g'.log, g'.calls[k]);
    forall call | call in g'.calls ensures CallGrounded(g'.log, call) {
      var i :| 0 <= i < |g'.calls| && g'.calls[i] == call;
      if i != k { assert g.calls[i] in g.calls; }
    }
  }

  lemma StepKeepsGrounded(g: State, e: Event)
    requires CallsGrounded(g.log, g.calls)
    ensures CallsGrounded(Step(g, e).log, Step(g, e).calls)
  {
    hide OnFrame, OnTokenChecked, CallsGrounded;
    StepOnlyAdds(g, e);
    GroundedMore(g.log, Step(g, e).log, g.calls);
    match e
    case Connects(_, _, _) =>
    case Receives(c, message) => if c in g.sessions && message.Decoded? { FrameKeepsGrounded(g, c, message.frame); }
    case TokenChecked(k, granted) =>
      if k < |g.calls| && g.calls[k].stage.Verifying? { VerdictKeepsGrounded(g, k, granted); }
    case HandlerEnds(k, end) =>
      if k < |g.calls| && !g.calls[k].stage.Verifying? { FewerGrounded(Step(g, e).log, g.calls, k); }
    case SetsSessionId(_, _) =>
    case Detaches(_) =>
  }

  lemma FewerGrounded(log: seq<Entry>, calls: seq<Call>, k: nat)
    requires k < |calls| && CallsGrounded(log, calls)
    ensures CallsGrounded(log, RemoveAt(calls, k))
  {
  }

  lemma {:induction false} CallsAlwaysGrounded(handlers: set<int>, es: seq<Event>)
    ensures CallsGrounded(Run(handlers, es).log, Run(handlers, es).calls)
  {
    hide Step;
    if es != [] {
      CallsAlwaysGrounded(handlers, es[..|es| - 1]);
      StepKeepsGrounded(Run(handlers, es[..|es| - 1]), es[|es| - 1]);
    }
  }

  // ---------------------------------------------------------------- success

  /** Event `e` ends the handler of frame f on connection c well: a registered handler returned
      ok, or threw an error that stands for ok; Hello was answered; or Authenticate promoted the
      session it names. */
  ghost predicate Succeeds(g: State, e: Event, c: Conn, f: Frame) {
    && e.HandlerEnds? && e.k < |g.calls| && g.calls[e.k].conn == c && g.calls[e.k].frame == f
    && if f.t == HELLO then g.calls[e.k].stage.Settling?
       else if f.t == AUTHENTICATE then
         g.calls[e.k].stage == Settling(Success) && f.p.Credentials? && PromotedBy(g.log, c, f.p.sessionId)
       else g.calls[e.k].stage.Running? && (e.end == Returns(Success) || e.end == ThrowsTyped(Success))
  }

  ghost predicate Succeeded(handlers: set<int>, es: seq<Event>, c: Conn, f: Frame) {
    exists j :: 0 <= j < |es| && Succeeds(Run(handlers, es[..j]), es[j], c, f)
  }

  /** Ending with success is what the handlers make of it. */
  lemma SuccessExactly(g: State, e: Event, c: Conn, f: Frame)
    requires CallsGrounded(g.log, g.calls)
    ensures Ends(g, e, c, f, Success) <==> Succeeds(g, e, c, f)
  {
    if e.HandlerEnds? && e.k < |g.calls| { assert CallGrounded(g.log, g.calls[e.k]); }
  }

  /** A handler that the history records as having returned ok did. */
  lemma ReturnsAreReal(handlers: set<int>, es: seq<Event>, c: Conn, f: Frame)
    requires Returned(c, f, Success) in Run(handlers, es).log
    ensures Succeeded(handlers, es, c, f)
  {
    hide Run, Succeeds, Ends;
    var i :| 0 <= i < |Run(handlers, es).log| && Run(handlers, es).log[i] == Returned(c, f, Success);
    var j := EveryEntryCaused(handlers, es, i);
    CallsAlwaysGrounded(handlers, es[..j]);
    SuccessExactly(Run(handlers, es[..j]), es[j], c, f);
  }

  lemma {:induction false} HistoryOnlyGrows(handlers: set<int>, es: seq<Event>, n: nat)
    requires n <= |es|
    ensures Run(handlers, es[..n]).log <= Run(handlers, es).log
  {
    hide Step;
    if n == |es| {
      assert es[..n] == es;
    } else {
      var m := |es| - 1;
      HistoryOnlyGrows(handlers, es[..m], n);
      assert es[..m][..n] == es[..n];
      StepOnlyAdds(Run(handlers, es[..m]), es[m]);
    }
  }

  lemma SuccessAcks(g: State, e: Event, c: Conn, f: Frame)
    requires CallsGrounded(g.log, g.calls) && Succeeds(g, e, c, f) && f.mid > 0
    ensures Replied(c, f.mid, Ack) in Step(g, e).log
  {
    SuccessExactly(g, e, c, f);
    var log := Step(g, e).log;
    assert log[|log| - 1] == Replied(c, f.mid, Ack);
  }

  ghost predicate AckEarned(handlers: set<int>, es: seq<Event>, c: Conn, m: nat) {
    exists f: Frame :: f.mid == m && Succeeded(handlers, es, c, f)
  }

  /** In every run, a reliable frame was acknowledged on a connection if and only if a handler for
      a frame with that mid ended well there. */
  lemma AckedExactly(handlers: set<int>, es: seq<Event>, c: Conn, m: nat)
    requires m > 0
    ensures Replied(c, m, Ack) in Run(handlers, es).log <==> AckEarned(handlers, es, c, m)
  {
    hide Run, Succeeds, Ends, Step;
    if Replied(c, m, Ack) in Run(handlers, es).log {
      var i :| 0 <= i < |Run(handlers, es).log| && Run(handlers, es).log[i] == Replied(c, m, Ack);
      var j := EveryEntryCaused(handlers, es, i);
      var g := Run(handlers, es[..j]);
      CallsAlwaysGrounded(handlers, es[..j]);
      AckEnds(g, es[j], c, m);
      SuccessExactly(g, es[j], c, g.calls[es[j].k].frame);
      assert Succeeded(handlers, es, c, g.calls[es[j].k].frame);
    }
    if AckEarned(handlers, es, c, m) {
      var f: Frame :| f.mid == m && Succeeded(handlers, es, c, f);
      var j :| 0 <= j < |es| && Succeeds(Run(handlers, es[..j]), es[j], c, f);
      CallsAlwaysGrounded(handlers, es[..j]);
      SuccessAcks(Run(handlers, es[..j]), es[j], c, f);
      RunStep(handlers, es, j);
      HistoryOnlyGrows(handlers, es, j + 1);
    }
  }

  lemma RunStep(handlers: set<int>, es: seq<Event>, j: nat)
    requires j < |es|
    ensures Run(handlers, es[..j + 1]) == Step(Run(handlers, es[..j]), es[j])
  {
    hide Step;
    assert es[..j + 1][..j] == es[..j];
  }

  lemma AckEnds(g: State, e: Event, c: Conn, m: nat)
    requires Caused(g, e, Replied(c, m, Ack))
    ensures e.HandlerEnds? && e.k < |g.calls| && g.calls[e.k].frame.mid == m
    ensures Ends(g, e, c, g.calls[e.k].frame, Success)
  {
  }
}
