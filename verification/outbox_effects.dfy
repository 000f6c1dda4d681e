/** What every event does to the outbox, in full, and exactly which event ends a send with which
    result (packages/network/src/client/ClientConnection.ts). */
module OutboxEffects {
  import opened Common
  import opened Outbox

  predicate IsOpen(c: Client) { c.socket.Some? && c.socketOpen }

  /** min(250 ms · 2^attempt, 3 s) for the attempts that are ever waited for. */
  function Wait(attempt: nat): Millis
    requires 1 <= attempt <= 3
  {
    if attempt == 1 then 500.0 else if attempt == 2 then 1000.0 else 2000.0
  }

  lemma Waits(attempt: nat, jitter: Jitter)
    requires 1 <= attempt <= 3
    ensures RetryDelay(attempt, jitter) == Wait(attempt) + jitter
  {
    assert Pow2(1) == 2 && Pow2(2) == 4 && Pow2(3) == 8;
  }

  // ---------------------------------------------------------------- sending

  /** A reliable send gets the next mid, goes to the encoder if the socket is open, and waits. */
  lemma ReliableEffects(c: Client, t: int, p: Payload, jitter: Jitter)
    ensures var f := Frame(t, |c.sends| + 1, 1, p);
            var s := Send(f, c.now, 1, true, Some(c.now + 500.0 + jitter), if IsOpen(c) then 1 else 0, []);
            Step(c, SendReliable(t, p, jitter)) ==
            c.(sends := c.sends + [s], encoding := if IsOpen(c) then c.encoding + [f] else c.encoding)
  {
    Waits(1, jitter);
  }

  /** An unreliable frame reaches the current socket at once, with mid 0, if it is open. */
  lemma UnreliableEffects(c: Client, t: int, p: Payload)
    ensures Step(c, SendUnreliable(t, p)) ==
            if IsOpen(c) then c.(wire := c.wire + [(c.socket.value, Frame(t, 0, 1, p))]) else c
  {
  }

  /** A due timer sends the frame again and waits longer, or, the fourth time, gives up. */
  lemma TimerEffects(c: Client, i: nat, jitter: Jitter)
    requires OutboxOk(c) && i < |c.sends| && c.sends[i].timer.Some? && c.sends[i].timer.value <= c.now
    ensures var s, sent := c.sends[i], if IsOpen(c) then 1 else 0;
            var counted := s.(attempts := s.attempts + 1, transmissions := s.transmissions + sent);
            && 1 <= s.attempts <= 3
            && Step(c, TimerFires(i, jitter)) ==
               c.(sends := c.sends[i :=
                    if s.attempts == 3 then
                      counted.(inOutbox := false, timer := None, results := [Failed(RetryExhausted)])
                    else counted.(timer := Some(c.now + Wait(s.attempts + 1) + jitter))],
                  encoding := if IsOpen(c) then c.encoding + [s.frame] else c.encoding)
  {
    assert SendOk(c.sends[i]);
    assert c.sends[i].results + [Failed(RetryExhausted)] == [Failed(RetryExhausted)];
    if c.sends[i].attempts < 3 { Waits(c.sends[i].attempts + 1, jitter); }
  }

  // ---------------------------------------------------------------- answers

  lemma AckEffects(c: Client, mid: int)
    requires OutboxOk(c)
    ensures Step(c, AckArrives(mid)) ==
            if 1 <= mid <= |c.sends| && c.sends[mid - 1].inOutbox then
              c.(sends := c.sends[mid - 1 := c.sends[mid - 1].(inOutbox := false, timer := None, results := [Ok])])
            else c
  {
    if 1 <= mid <= |c.sends| && c.sends[mid - 1].inOutbox {
      assert SendOk(c.sends[mid - 1]);
      assert c.sends[mid - 1].results + [Ok] == [Ok];
    }
  }

  /** A terminal nack refuses the send; any other takes it out of the outbox and waits as long as
      for its last attempt once more. */
  lemma NackEffects(c: Client, mid: int, reason: NackReason, jitter: Jitter)
    requires OutboxOk(c)
    ensures Step(c, NackArrives(mid, reason, jitter)) ==
            if 1 <= mid <= |c.sends| && c.sends[mid - 1].inOutbox then
              var s := c.sends[mid - 1].(inOutbox := false);
              c.(sends := c.sends[mid - 1 :=
                if reason == PermissionDenied || reason == Malformed then
                  s.(timer := None, results := [Failed(Refused(reason))])
                else if 1 <= s.attempts <= 3 then s.(timer := Some(c.now + Wait(s.attempts) + jitter))
                else s])
            else c
  {
    if 1 <= mid <= |c.sends| && c.sends[mid - 1].inOutbox {
      assert SendOk(c.sends[mid - 1]);
      assert c.sends[mid - 1].results + [Failed(Refused(reason))] == [Failed(Refused(reason))];
      Waits(c.sends[mid - 1].attempts, jitter);
    }
  }

  // ---------------------------------------------------------------- the end of a connection

  /** The result with which an event ends the whole outbox, if it does. */
  function FatalEnd(c: Client, e: ClientEvent): Option<Failure> {
    match e
    case AuthFailedArrives => Some(AuthFailed)
    case Dispose => Some(Disposed)
    case SocketCloses(code) =>
      if code == 4003 then Some(Revoked) else if code == 4004 || c.disposed then Some(Fatal) else None
    case _ => None
  }

  /** After such an event every send that was in the outbox has left it, without a timer and with
      that one result, and every other send is as it was. */
  lemma FatalEffects(c: Client, e: ClientEvent, i: nat)
    requires OutboxOk(c) && FatalEnd(c, e).Some? && i < |c.sends|
    ensures var s := c.sends[i];
            && |Step(c, e).sends| == |c.sends|
            && Step(c, e).sends[i] ==
               if s.inOutbox then s.(inOutbox := false, timer := None, results := [Failed(FatalEnd(c, e).value)]) else s
  {
    assert SendOk(c.sends[i]);
  }

  /** What these events do besides. */
  lemma ClosingEffects(c: Client, e: ClientEvent)
    requires FatalEnd(c, e).Some?
    ensures var c' := Step(c, e);
            c' == match e
                  case AuthFailedArrives => c.(sends := c'.sends, socketOpen := false)
                  case Dispose => c.(sends := c'.sends, disposed := true, socket := None)
                  case _ => c.(sends := c'.sends, socket := None)
  {
  }

  /** Any other close leaves every send waiting; it only loses the socket. */
  lemma OtherCloseKeeps(c: Client, code: int)
    requires FatalEnd(c, SocketCloses(code)).None?
    ensures Step(c, SocketCloses(code)) == c.(socket := None)
  {
  }

  // ---------------------------------------------------------------- sockets, encoder, clock

  lemma SocketEffects(c: Client, conn: Conn, ready: bool)
    ensures Step(c, SocketCreated(conn)) ==
            if c.disposed then c else c.(socket := Some(conn), socketOpen := false, conns := c.conns + {conn})
    ensures Step(c, SocketReady(ready)) == c.(socketOpen := ready)
  {
  }

  /** An encoded frame leaves the encoder for whatever socket is current, or for none. */
  lemma EncodeEffects(c: Client, k: nat)
    requires k < |c.encoding|
    ensures Step(c, EncodeDone(k)) ==
            c.(encoding := c.encoding[..k] + c.encoding[k + 1..],
               wire := if c.socket.None? then c.wire else c.wire + [(c.socket.value, c.encoding[k])])
  {
  }

  // ---------------------------------------------------------------- results, over every run

  /** The event ends send i with this result. */
  predicate EndsSend(c: Client, e: ClientEvent, i: nat, r: FrameResult) {
    && i < |c.sends|
    && match r
       case Ok => e == AckArrives(i + 1) && c.sends[i].inOutbox
       case Failed(Refused(reason)) =>
         && e.NackArrives? && e.mid == i + 1 && e.reason == reason && c.sends[i].inOutbox
         && (reason == PermissionDenied || reason == Malformed)
       case Failed(RetryExhausted) =>
         && e.TimerFires? && e.send == i && c.sends[i].attempts == 3
         && c.sends[i].timer.Some? && c.sends[i].timer.value <= c.now
       case Failed(why) => FatalEnd(c, e) == Some(why) && c.sends[i].inOutbox
  }

  predicate EndedWith(c: Client, i: nat, r: FrameResult) { i < |c.sends| && c.sends[i].results == [r] }

  lemma TimerEnds(c: Client, k: nat, jitter: Jitter, i: nat, r: FrameResult)
    requires OutboxOk(c)
    ensures EndedWith(Step(c, TimerFires(k, jitter)), i, r) <==>
            EndedWith(c, i, r) || EndsSend(c, TimerFires(k, jitter), i, r)
  {
    hide ScheduleRetry, Fired;
    if i < |c.sends| { assert SendOk(c.sends[i]); }
    if CanFire(c, k) {
      hide Step;
      TimerEffects(c, k, jitter);
    }
  }

  lemma AnswerEnds(c: Client, e: ClientEvent, i: nat, r: FrameResult)
    requires OutboxOk(c) && (e.AckArrives? || e.NackArrives?)
    ensures EndedWith(Step(c, e), i, r) <==> EndedWith(c, i, r) || EndsSend(c, e, i, r)
  {
    hide Step;
    if i < |c.sends| { assert SendOk(c.sends[i]); }
    match e
    case AckArrives(mid) => AckEffects(c, mid);
    case NackArrives(mid, reason, jitter) => NackEffects(c, mid, reason, jitter);
  }

  lemma FatalEnds(c: Client, e: ClientEvent, i: nat, r: FrameResult)
    requires OutboxOk(c) && FatalEnd(c, e).Some?
    ensures EndedWith(Step(c, e), i, r) <==> EndedWith(c, i, r) || EndsSend(c, e, i, r)
  {
    hide Step;
    FatalLength(c, e);
    if i < |c.sends| {
      assert SendOk(c.sends[i]);
      FatalEffects(c, e, i);
    }
  }

  lemma EndStep(c: Client, e: ClientEvent, i: nat, r: FrameResult)
    requires OutboxOk(c)
    ensures EndedWith(Step(c, e), i, r) <==> EndedWith(c, i, r) || EndsSend(c, e, i, r)
  {
    hide OutboxOk;
    if FatalEnd(c, e).Some? {
      FatalEnds(c, e, i, r);
    } else {
      match e
      case SendReliable(t, p, jitter) => ReliableEffects(c, t, p, jitter);
      case TimerFires(k, jitter) => TimerEnds(c, k, jitter, i, r);
      case AckArrives(_) => AnswerEnds(c, e, i, r);
      case NackArrives(_, _, _) => AnswerEnds(c, e, i, r);
      case _ =>
    }
  }

  lemma FatalLength(c: Client, e: ClientEvent)
    requires FatalEnd(c, e).Some?
    ensures |Step(c, e).sends| == |c.sends|
  {
  }

  ghost predicate WasEnded(es: seq<ClientEvent>, i: nat, r: FrameResult) {
    exists k :: 0 <= k < |es| && EndsSend(Run(es[..k]), es[k], i, r)
  }

  lemma WasEndedPush(es: seq<ClientEvent>, i: nat, r: FrameResult)
    requires es != []
    ensures var n := |es| - 1;
            WasEnded(es, i, r) <==> WasEnded(es[..n], i, r) || EndsSend(Run(es[..n]), es[n], i, r)
  {
    hide Run, EndsSend;
    var n := |es| - 1;
    forall k | 0 <= k < n ensures EndsSend(Run(es[..n][..k]), es[..n][k], i, r) == EndsSend(Run(es[..k]), es[k], i, r) {
      assert es[..n][..k] == es[..k];
    }
    if WasEnded(es[..n], i, r) {
      var k :| 0 <= k < n && EndsSend(Run(es[..n][..k]), es[..n][k], i, r);
      assert EndsSend(Run(es[..k]), es[k], i, r);
    }
  }

  /** In every run a send has a result if and only if an event gave it just that one: an Ack or a
      terminal nack that met it in the outbox, its fourth deadline, or AuthFailed, dispose or a
      fatal close that met it in the outbox. */
  lemma {:induction false} ResultExactly(es: seq<ClientEvent>, i: nat, r: FrameResult)
    ensures EndedWith(Run(es), i, r) <==> WasEnded(es, i, r)
  {
    hide Step, EndsSend;
    if es != [] {
      var n := |es| - 1;
      ResultExactly(es[..n], i, r);
      OutboxAlwaysOk(es[..n]);
      EndStep(Run(es[..n]), es[n], i, r);
      WasEndedPush(es, i, r);
    }
  }
}
