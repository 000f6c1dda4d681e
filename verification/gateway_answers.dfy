/** Where the gateway's answers come from, over every run. */
module GatewayAnswers {
  import opened Common
  import opened Gateway
  import R = GatewayResults

  ghost predicate Accepted(log: seq<Entry>, c: Conn, m: nat) {
    exists e :: e in log && e.Returned? && e.conn == c && e.frame.mid == m && e.result == Success
  }

  /** What an entry of the history rests on: an Ack on a handler that returned ok for a frame
      with that mid on that connection, a return on its invocation, an invocation on a copy
      received, and that on an open connection. */
  ghost predicate Grounded(log: seq<Entry>, open: set<Conn>, e: Entry) {
    match e
    case Received(c, f) => c in open
    case Invoked(c, f) => Received(c, f) in log
    case Returned(c, f, _) => Invoked(c, f) in log
    case Replied(c, m, Ack) => Accepted(log, c, m)
    case _ => true
  }

  ghost predicate Answers(log: seq<Entry>, open: set<Conn>, calls: seq<Call>) {
    && (forall e :: e in log ==> Grounded(log, open, e))
    && (forall call :: call in calls ==> Invoked(call.conn, call.frame) in log)
  }

  ghost predicate AnswersOk(g: State) { Answers(g.log, g.sessions.Keys, g.calls) }

  lemma PushEntry(log: seq<Entry>, open: set<Conn>, calls: seq<Call>, e: Entry)
    requires Answers(log, open, calls) && Grounded(log, open, e)
    ensures Answers(log + [e], open, calls)
  {
    var log' := log + [e];
    forall x | x in log' ensures Grounded(log', open, x) {
      assert Grounded(log, open, x);
      if x.Replied? && x.reply == Ack {
        var r :| r in log && r.Returned? && r.conn == x.conn && r.frame.mid == x.mid && r.result == Success;
        assert r in log';
      }
    }
  }

  lemma LogKeepsAnswers(g: State, e: Entry)
    requires AnswersOk(g) && Grounded(g.log, g.sessions.Keys, e)
    ensures AnswersOk(Log(g, e))
  {
    PushEntry(g.log, g.sessions.Keys, g.calls, e);
  }

  lemma RunHandlerKeepsAnswers(g: State, c: Conn, f: Frame)
    requires AnswersOk(g) && c in g.sessions && Invoked(c, f) in g.log
    ensures AnswersOk(RunHandler(g, c, f))
  {
    var g' := RunHandler(g, c, f);
    assert g'.sessions.Keys == g.sessions.Keys;
    if |g'.log| > |g.log| { LogKeepsAnswers(g, g'.log[|g.log|]); }
    assert g'.calls == g.calls + [g'.calls[|g.calls|]];
  }

  lemma RouteKeepsAnswers(g: State, c: Conn, f: Frame)
    requires AnswersOk(g) && c in g.sessions && Received(c, f) in g.log
    ensures AnswersOk(Route(g, c, f))
  {
    match Gate(f, g.sessions[c].authenticated, g.handlers)
    case Some(reply) => LogKeepsAnswers(g, Replied(c, f.mid, reply));
    case None =>
      LogKeepsAnswers(g, Invoked(c, f));
      RunHandlerKeepsAnswers(Log(g, Invoked(c, f)), c, f);
  }

  lemma MessageKeepsAnswers(g: State, c: Conn, message: Message)
    requires AnswersOk(g) && c in g.sessions
    ensures AnswersOk(OnMessage(g, c, message))
  {
    match message
    case Text => LogKeepsAnswers(g, Replied(c, 0, Close(CLOSE_UNSUPPORTED_VERSION)));
    case TooLarge => LogKeepsAnswers(g, Replied(c, 0, Nack(PayloadTooLarge)));
    case Undecodable => LogKeepsAnswers(g, Replied(c, 0, Nack(Malformed)));
    case Decoded(f) =>
      LogKeepsAnswers(g, Received(c, f));
      var received := Log(g, Received(c, f));
      if f.mid > 0 && f.mid in g.sessions[c].seenMids {
        LogKeepsAnswers(received, Replied(c, f.mid, Nack(Replay)));
      } else {
        var g1 := Remember(received, c, f.mid);
        assert g1.sessions.Keys == g.sessions.Keys && AnswersOk(g1);
        if f.t == PING {
          LogKeepsAnswers(g1, Replied(c, f.mid, Pong));
        } else {
          RouteKeepsAnswers(g1, c, f);
        }
      }
  }

  lemma CompleteKeepsAnswers(g: State, k: nat, end: HandlerEnd)
    requires AnswersOk(g) && k < |g.calls|
    ensures AnswersOk(Complete(g, k, end))
  {
    var call, result := g.calls[k], ResultOf(g.calls[k], end);
    assert call in g.calls;
    var g0 := g.(calls := RemoveAt(g.calls, k));
    assert AnswersOk(g0);
    var returned := Returned(call.conn, call.frame, result);
    LogKeepsAnswers(g0, returned);
    var g1 := Log(g0, returned);
    if result.Success? {
      assert returned in g1.log;
      LogKeepsAnswers(g1, Replied(call.conn, call.frame.mid, Ack));
    } else {
      LogKeepsAnswers(g1, Replied(call.conn, call.frame.mid,
                                  Nack(if result.reason.Unlisted? then Malformed else result.reason)));
    }
  }

  lemma TokenKeepsAnswers(g: State, k: nat, granted: Option<seq<string>>)
    requires AnswersOk(g) && k < |g.calls| && g.calls[k].stage.Verifying?
    ensures AnswersOk(OnTokenChecked(g, k, granted))
  {
    assert g.calls[k] in g.calls;
    var g' := OnTokenChecked(g, k, granted);
    var g1 := Log(g, VerdictOn(g, k, granted));
    LogKeepsAnswers(g, VerdictOn(g, k, granted));
    assert g'.sessions.Keys == g.sessions.Keys;
    if |g'.log| > |g1.log| { LogKeepsAnswers(g1, g'.log[|g1.log|]); }
    forall call | call in g'.calls ensures Invoked(call.conn, call.frame) in g.log {
      var i :| 0 <= i < |g'.calls| && g'.calls[i] == call;
      assert g.calls[i] in g.calls;
    }
  }

  lemma OpenMore(log: seq<Entry>, open: set<Conn>, c: Conn, calls: seq<Call>)
    requires Answers(log, open, calls)
    ensures Answers(log, open + {c}, calls)
  {
    forall e | e in log ensures Grounded(log, open + {c}, e) {
      assert Grounded(log, open, e);
    }
  }

  lemma StepKeepsAnswers(g: State, e: Event)
    requires AnswersOk(g)
    ensures AnswersOk(Step(g, e))
  {
    match e
    case Connects(c, id, nonce) =>
      if c !in g.sessions && nonce != "" {
        OpenMore(g.log, g.sessions.Keys, c, g.calls);
        PushEntry(g.log, g.sessions.Keys + {c}, g.calls, Opened(c, nonce));
        assert Step(g, e).sessions.Keys == g.sessions.Keys + {c};
      }
    case Receives(c, message) => if c in g.sessions { MessageKeepsAnswers(g, c, message); }
    case TokenChecked(k, granted) =>
      if k < |g.calls| && g.calls[k].stage.Verifying? { TokenKeepsAnswers(g, k, granted); }
    case HandlerEnds(k, end) =>
      if k < |g.calls| && !g.calls[k].stage.Verifying? { CompleteKeepsAnswers(g, k, end); }
    case SetsSessionId(c, id) => assert Step(g, e).sessions.Keys == g.sessions.Keys;
    case Detaches(_) =>
  }

  lemma {:induction false} AlwaysAnswersOk(handlers: set<int>, es: seq<Event>)
    ensures AnswersOk(Run(handlers, es))
  {
    if es != [] {
      AlwaysAnswersOk(handlers, es[..|es| - 1]);
      StepKeepsAnswers(Run(handlers, es[..|es| - 1]), es[|es| - 1]);
    }
  }

  /** Every Ack the gateway ever sends answers a received frame with that mid, on the same
      connection, whose handler was run and really ended well. */
  lemma AcksAreGrounded(handlers: set<int>, es: seq<Event>, c: Conn, m: nat) returns (f: Frame)
    requires Replied(c, m, Ack) in Run(handlers, es).log
    ensures var log := Run(handlers, es).log;
            f.mid == m && Received(c, f) in log && Invoked(c, f) in log && Returned(c, f, Success) in log
    ensures R.Succeeded(handlers, es, c, f)
  {
    hide Run;
    var log, open := Run(handlers, es).log, Run(handlers, es).sessions.Keys;
    AlwaysAnswersOk(handlers, es);
    assert Grounded(log, open, Replied(c, m, Ack));
    var x :| x in log && x.Returned? && x.conn == c && x.frame.mid == m && x.result == Success;
    f := x.frame;
    assert Grounded(log, open, x) && Grounded(log, open, Invoked(c, f));
    R.ReturnsAreReal(handlers, es, c, f);
  }

  /** History is only added to, and a copy is recorded as received only by receiving it. */
  lemma LogGrows(g: State, e: Event)
    ensures g.log <= Step(g, e).log
    ensures forall x :: x in Step(g, e).log && x.Received? ==> x in g.log || e == Receives(x.conn, Decoded(x.frame))
  {
    if e.Receives? && e.conn in g.sessions && e.message.Decoded? { FrameGrows(g, e.conn, e.message.frame); }
  }

  lemma FrameGrows(g: State, c: Conn, f: Frame)
    requires c in g.sessions
    ensures g.log <= OnFrame(g, c, f).log
    ensures forall x :: x in OnFrame(g, c, f).log && x.Received? ==> x in g.log || x == Received(c, f)
  {
    var received := Log(g, Received(c, f));
    if !(f.mid > 0 && f.mid in g.sessions[c].seenMids) && f.t != PING {
      RouteGrows(Remember(received, c, f.mid), c, f);
    }
  }

  lemma RouteGrows(g: State, c: Conn, f: Frame)
    requires c in g.sessions
    ensures g.log <= Route(g, c, f).log
    ensures forall x :: x in Route(g, c, f).log && x.Received? ==> x in g.log
  {
  }
}
