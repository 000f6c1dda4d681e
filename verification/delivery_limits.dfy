/** What the protocol does not give, shown by runs in which every timer fires on time. The
    frame is a reliable Hello, whose handler the receiver registers. */
module DeliveryLimits {
  import opened Common
  import O = Outbox
  import G = Gateway
  import opened Delivery

  /** Timers on time at the client's end. */
  ghost predicate OnTime(es: seq<Event>) { O.OnTimeRun(ClientRun({HELLO}, es)) }

  function At(es: seq<Event>): System { Run({HELLO}, es) }

  /** One more event, on time. */
  lemma Then(es: seq<Event>, e: Event)
    requires OnTime(es)
    requires ClientPart(At(es), e).Some? ==> O.OnTime(At(es).client, ClientPart(At(es), e).value)
    ensures At(es + [e]) == Step(At(es), e) && OnTime(es + [e])
  {
    assert (es + [e])[..|es|] == es;
    EndsRunOnTheirOwn({HELLO}, es);
    if ClientPart(At(es), e).Some? {
      var ces, ce := ClientRun({HELLO}, es), ClientPart(At(es), e).value;
      assert (ces + [ce])[..|ces|] == ces;
    } else {
      assert ClientRun({HELLO}, es + [e]) == ClientRun({HELLO}, es);
    }
  }

  /** The client whose only send is in state `s`, on connection `conn`. */
  function Lone(s: O.Send, conn: Conn, wire: seq<(Conn, Frame)>, conns: set<Conn>, now: Millis): O.Client {
    O.Client([s], Some(conn), true, false, [], wire, conns, now)
  }

  function Hello(): Frame { Frame(HELLO, 1, PROTOCOL_MAJOR_VERSION, Body("")) }

  function Armed(attempts: nat, at: Millis): O.Send {
    O.Send(Hello(), 0.0, attempts, true, Some(at), attempts, [])
  }

  /** State just after the first copy reached its handler on connection 0. */
  ghost predicate FirstCopyRunning(s: System, j: Jitter) {
    && s.client == Lone(Armed(1, 500.0 + j), 0, [(0, Hello())], {0}, 0.0)
    && s.gateway.handlers == {HELLO} && s.gateway.sessions.Keys == {0} && s.gateway.sessions[0].seenMids == {1}
    && s.gateway.calls == [G.Call(0, Hello(), G.Settling(G.Success))]
    && s.gateway.log ==
       [G.Opened(0, "nonce"), G.Received(0, Hello()), G.Invoked(0, Hello()), G.ChallengeSent(0, "nonce")]
  }

  lemma NothingYet()
    ensures At([]) == Init({HELLO}) && OnTime([])
  {
  }

  lemma FirstSend(j: Jitter) returns (es: seq<Event>)
    ensures OnTime(es) && At(es).gateway == G.Init({HELLO})
    ensures At(es).client == Lone(Armed(1, 500.0 + j), 0, [], {0}, 0.0).(encoding := [Hello()])
  {
    hide Run, At, OnTime;
    assert Pow2(1) == 2;
    var e1, e2 := AtClient(O.SocketCreated(0)), AtClient(O.SocketReady(true));
    var e3 := AtClient(O.SendReliable(HELLO, Body(""), j));
    NothingYet();
    Then([], e1); es := [] + [e1];
    Then(es, e2); es := es + [e2];
    Then(es, e3); es := es + [e3];
    assert At(es).client.sends == [Armed(1, 500.0 + j)];
  }

  lemma FirstCopy(j: Jitter) returns (es: seq<Event>)
    ensures OnTime(es) && FirstCopyRunning(At(es), j)
  {
    hide Run, At, OnTime;
    es := FirstSend(j);
    var e1, e2, e3 := AtGateway(G.Connects(0, "id", "nonce")), AtClient(O.EncodeDone(0)), Deliver(0);
    Then(es, e1); es := es + [e1];
    assert At(es).gateway.sessions == map[0 := G.Session("id", false, [], "nonce", {})];
    Then(es, e2); es := es + [e2];
    assert At(es).client.wire == [(0, Hello())];
    Then(es, e3); es := es + [e3];
  }

  /** Wait for the retry timer of the only send and let it fire. */
  lemma Retry(es: seq<Event>, n: nat, at: Millis, conn: Conn, wire: seq<(Conn, Frame)>, conns: set<Conn>,
              now: Millis, j: Jitter)
    returns (es': seq<Event>)
    requires OnTime(es) && 1 <= n <= 2 && now <= at
    requires At(es).client == Lone(Armed(n, at), conn, wire, conns, now)
    ensures OnTime(es') && At(es').gateway == At(es).gateway
    ensures At(es').client ==
            Lone(Armed(n + 1, at + RetryDelay(n + 1, j)), conn, wire + [(conn, Hello())], conns, at)
  {
    hide Run, At, OnTime;
    var e1, e2, e3 := AtClient(O.Advance(at)), AtClient(O.TimerFires(0, j)), AtClient(O.EncodeDone(0));
    Then(es, e1); es' := es + [e1];
    assert At(es').client == Lone(Armed(n, at), conn, wire, conns, at);
    Then(es', e2); es' := es' + [e2];
    assert At(es').client.sends == [Armed(n + 1, at + RetryDelay(n + 1, j))];
    Then(es', e3); es' := es' + [e3];
  }

  // ---------------------------------------------------------------- handled twice

  /** At most once holds per connection only: after a reconnect the retry runs the handler
      again, for one and the same send. */
  lemma HandledAgain() returns (es: seq<Event>)
    ensures OnTime(es) && HandledTwice(At(es), 1) && At(es).client.sends == [Armed(2, 1500.0)]
  {
    hide Run, At, OnTime;
    var wire := [(0, Hello())];
    es := FirstCopy(0.0);
    es := Reconnected(es);
    assert Pow2(2) == 4;
    es := Retry(es, 1, 500.0, 1, wire, {0, 1}, 0.0, 0.0);
    es := SecondCopy(es);
  }

  lemma Reconnected(es: seq<Event>) returns (es': seq<Event>)
    requires OnTime(es) && FirstCopyRunning(At(es), 0.0)
    ensures OnTime(es')
    ensures var s := At(es');
            && s.client == Lone(Armed(1, 500.0), 1, [(0, Hello())], {0, 1}, 0.0)
            && s.gateway.handlers == {HELLO} && 1 in s.gateway.sessions && s.gateway.sessions[1].seenMids == {}
            && |s.gateway.log| == 5 && s.gateway.log[2] == G.Invoked(0, Hello())
  {
    hide Run, At, OnTime;
    var e1, e2 := AtClient(O.SocketCloses(4001)), AtClient(O.SocketCreated(1));
    var e3, e4 := AtClient(O.SocketReady(true)), AtGateway(G.Connects(1, "id2", "nonce2"));
    Then(es, e1); es' := es + [e1];
    Then(es', e2); es' := es' + [e2];
    Then(es', e3); es' := es' + [e3];
    Then(es', e4); es' := es' + [e4];
  }

  lemma SecondCopy(es: seq<Event>) returns (es': seq<Event>)
    requires OnTime(es)
    requires var s := At(es);
             && s.client == Lone(Armed(2, 1500.0), 1, [(0, Hello()), (1, Hello())], {0, 1}, 500.0)
             && s.gateway.handlers == {HELLO} && 1 in s.gateway.sessions && s.gateway.sessions[1].seenMids == {}
             && |s.gateway.log| == 5 && s.gateway.log[2] == G.Invoked(0, Hello())
    ensures OnTime(es') && HandledTwice(At(es'), 1) && At(es').client == At(es).client
  {
    hide Run, At, OnTime;
    var e := Deliver(1);
    Then(es, e); es' := es + [e];
    assert HandledAt(At(es'), 2, 1) && At(es').gateway.log[6] == G.Invoked(1, Hello());
    assert HandledAt(At(es'), 6, 1);
  }

  // ---------------------------------------------------------------- handled, and reported as failed

  /** The retry reaches the gateway while the first copy's handler is awaited, and the replay
      guard nacks it. */
  lemma DuplicateNacked(j: Jitter) returns (es: seq<Event>)
    ensures OnTime(es)
    ensures var s := At(es);
            && s.client == Lone(Armed(2, 1500.0 + 2.0 * j), 0, [(0, Hello()), (0, Hello())], {0}, 500.0 + j)
            && s.gateway.calls == [G.Call(0, Hello(), G.Settling(G.Success))]
            && |s.gateway.log| == 6 && s.gateway.log[5] == G.Replied(0, 1, G.Nack(Replay))
  {
    hide Run, At, OnTime;
    assert Pow2(2) == 4;
    es := FirstCopy(j);
    var e := Deliver(1);
    es := Retry(es, 1, 500.0 + j, 0, [(0, Hello())], {0}, 0.0, j);
    Then(es, e); es := es + [e];
  }

  /** The transient nack takes the send out of the outbox, the later Ack is ignored, and the send
      is reported as failed although its handler returned ok and its Ack was sent. */
  lemma FailedButHandled() returns (es: seq<Event>)
    ensures OnTime(es)
    ensures var s := At(es);
            && |s.client.sends| == 1
            && s.client.sends[0].results == [O.Failed(O.RetryExhausted)]
            && G.Returned(0, s.client.sends[0].frame, G.Success) in s.gateway.log
            && G.Replied(0, 1, G.Ack) in s.gateway.log
  {
    hide Run, At, OnTime;
    es := DuplicateNacked(0.0);
    assert Pow2(2) == 4;
    var e1, e2, e3 := Answer(5, 0.0), AtGateway(G.HandlerEnds(0, G.Returns(G.Success))), Answer(7, 0.0);
    Then(es, e1); es := es + [e1];
    assert At(es).client.sends == [Armed(2, 1500.0).(inOutbox := false)];
    Then(es, e2); es := es + [e2];
    var log := At(es).gateway.log;
    assert log[6] == G.Returned(0, Hello(), G.Success) && log[7] == G.Replied(0, 1, G.Ack);
    Then(es, e3); es := es + [e3];
    assert log[6] in log && log[7] in log;
    es := Exhaust(es);
  }

  lemma Exhaust(es: seq<Event>) returns (es': seq<Event>)
    requires OnTime(es)
    requires At(es).client.sends == [Armed(2, 1500.0).(inOutbox := false)] && At(es).client.now == 500.0
    ensures OnTime(es') && At(es').gateway == At(es).gateway
    ensures |At(es').client.sends| == 1
    ensures var s := At(es').client.sends[0]; s.frame == Hello() && s.results == [O.Failed(O.RetryExhausted)]
  {
    hide Run, At, OnTime;
    assert Pow2(3) == 8;
    var e1, e2 := AtClient(O.Advance(1500.0)), AtClient(O.TimerFires(0, 0.0));
    var e3, e4 := AtClient(O.Advance(3500.0)), AtClient(O.TimerFires(0, 0.0));
    Then(es, e1); es' := es + [e1];
    Then(es', e2); es' := es' + [e2];
    assert At(es').client.sends[0].timer == Some(3500.0);
    Then(es', e3); es' := es' + [e3];
    Then(es', e4); es' := es' + [e4];
  }

  // ---------------------------------------------------------------- the time bound is tight

  /** 6500 ms cannot be improved on: with jitter close to its maximum, and the replay guard's
      nack of a duplicate arriving at the last deadline, a send is still unresolved arbitrarily
      close to it. */
  lemma BoundIsTight(slack: real) returns (es: seq<Event>)
    requires 0.0 < slack < 1000.0
    ensures OnTime(es) && |At(es).client.sends| == 1
    ensures var s, now := At(es).client.sends[0], At(es).client.now;
            s.results == [] && now == s.sentAt + 6500.0 - slack
  {
    hide Run, At, OnTime;
    assert Pow2(3) == 8;
    var j: Jitter := 250.0 - slack / 4.0;
    var wire := [(0, Hello()), (0, Hello())];
    es := DuplicateNacked(j);
    es := Retry(es, 2, 1500.0 + 2.0 * j, 0, wire, {0}, 500.0 + j, j);
    es := LateNack(es, j);
  }

  lemma LateNack(es: seq<Event>, j: Jitter) returns (es': seq<Event>)
    requires OnTime(es)
    requires At(es).client.sends == [Armed(3, 3500.0 + 3.0 * j)]
    requires At(es).client.conns == {0} && At(es).client.now <= 3500.0 + 3.0 * j
    requires |At(es).gateway.log| == 6 && At(es).gateway.log[5] == G.Replied(0, 1, G.Nack(Replay))
    ensures OnTime(es') && |At(es').client.sends| == 1
    ensures var s := At(es').client.sends[0]; s.results == [] && s.sentAt == 0.0
    ensures At(es').client.now == 5500.0 + 4.0 * j
  {
    hide Run, At, OnTime;
    assert Pow2(3) == 8;
    var e1, e2 := AtClient(O.Advance(3500.0 + 3.0 * j)), Answer(5, j);
    var e3 := AtClient(O.Advance(5500.0 + 4.0 * j));
    Then(es, e1); es' := es + [e1];
    Then(es', e2); es' := es' + [e2];
    assert At(es').client.sends[0].timer == Some(5500.0 + 4.0 * j);
    Then(es', e3); es' := es' + [e3];
  }
}
