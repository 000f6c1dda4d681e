/** The sender's reliable-frame outbox as a state machine: every call of the host, every
    timer and every inbound Ack/Nack is an event
    (packages/network/src/client/ClientConnection.ts). */
module Outbox {
  import opened Common

  datatype Failure =
    | RetryExhausted
    | AuthFailed
    | Revoked
    | Fatal
    | Disposed
    | Refused(reason: NackReason)

  /** The value a `sendReliable` promise resolves to. */
  datatype FrameResult = Ok | Failed(why: Failure)

  /** One reliable send. `timer` is the deadline of its live retry timer, `transmissions`
      counts the times the frame was handed to the encoder, `results` lists every call of
      its promise resolver. */
  datatype Send = Send(
    frame: Frame,
    sentAt: Millis,
    attempts: nat,
    inOutbox: bool,
    timer: Option<Millis>,
    transmissions: nat,
    results: seq<FrameResult>)

  /** `sends[i]` carries mid i + 1. `encoding` holds frames between `sendFrame` and
      `socket.send`; `wire` lists what reached a socket; `conns` are the sockets opened. */
  datatype Client = Client(
    sends: seq<Send>,
    socket: Option<Conn>,
    socketOpen: bool,
    disposed: bool,
    encoding: seq<Frame>,
    wire: seq<(Conn, Frame)>,
    conns: set<Conn>,
    now: Millis)

  datatype ClientEvent =
    | SendReliable(t: int, p: Payload, jitter: Jitter)
    | SendUnreliable(t: int, p: Payload)
    | TimerFires(send: nat, jitter: Jitter)
    | AckArrives(mid: int)
    | NackArrives(mid: int, reason: NackReason, jitter: Jitter)
    | AuthFailedArrives
    | SocketCreated(conn: Conn)
    | SocketReady(ready: bool)
    | SocketCloses(code: int)
    | Dispose
    | EncodeDone(k: nat)
    | Advance(to: Millis)

  const INIT_CLIENT := Client([], None, false, false, [], [], {}, 0.0)

  predicate Live(s: Send) { s.timer.Some? }

  predicate Resolved(s: Send) { s.results != [] }

  // ---------------------------------------------------------------- steps

  function Resolve(s: Send, r: FrameResult): Send {
    s.(inOutbox := false, timer := None, results := s.results + [r])
  }

  function ScheduleRetry(s: Send, fromNack: bool, now: Millis, jitter: Jitter): Send {
    var attempts := if fromNack then s.attempts else s.attempts + 1;
    if attempts >= MAX_ACK_ATTEMPTS then
      Resolve(s.(attempts := attempts), Failed(RetryExhausted))
    else
      s.(attempts := attempts, timer := Some(now + RetryDelay(attempts, jitter)))
  }

  predicate CanSend(c: Client) { c.socket.Some? && c.socketOpen }

  /** `sendFrame`: dropped unless the socket is open; a frame with mid 0 is encoded and sent
      at once, any other goes to the asynchronous encoder. */
  function Transmit(c: Client, f: Frame): Client {
    if !CanSend(c) then c
    else if f.mid == 0 then c.(wire := c.wire + [(c.socket.value, f)])
    else c.(encoding := c.encoding + [f])
  }

  function NewSend(c: Client, t: int, p: Payload, jitter: Jitter): Send {
    var frame := Frame(t, |c.sends| + 1, PROTOCOL_MAJOR_VERSION, p);
    ScheduleRetry(Send(frame, c.now, 0, true, None, if CanSend(c) then 1 else 0, []), false, c.now, jitter)
  }

  /** The timer callback: transmit again, then re-arm or give up. */
  function Fired(c: Client, s: Send, jitter: Jitter): Send {
    ScheduleRetry(s.(timer := None, transmissions := s.transmissions + if CanSend(c) then 1 else 0),
                  false, c.now, jitter)
  }

  function Nacked(s: Send, reason: NackReason, now: Millis, jitter: Jitter): Send {
    if reason.PermissionDenied? || reason.Malformed? then
      Resolve(s, Failed(Refused(reason)))
    else
      ScheduleRetry(s.(inOutbox := false, timer := None), true, now, jitter)
  }

  /** `failAllPending`: only the sends still in the map are reached. */
  function FailAll(sends: seq<Send>, why: Failure): seq<Send> {
    seq(|sends|, i requires 0 <= i < |sends| =>
      if sends[i].inOutbox then Resolve(sends[i], Failed(why)) else sends[i])
  }

  predicate InOutbox(c: Client, mid: int) {
    1 <= mid <= |c.sends| && c.sends[mid - 1].inOutbox
  }

  predicate CanFire(c: Client, i: nat) {
    i < |c.sends| && c.sends[i].timer.Some? && c.sends[i].timer.value <= c.now
  }

  function Step(c: Client, e: ClientEvent): Client {
    match e
    case SendReliable(t, p, jitter) =>
      var s := NewSend(c, t, p, jitter);
      Transmit(c.(sends := c.sends + [s]), s.frame)
    case SendUnreliable(t, p) =>
      Transmit(c, Frame(t, 0, PROTOCOL_MAJOR_VERSION, p))
    case TimerFires(i, jitter) =>
      if CanFire(c, i) then
        Transmit(c.(sends := c.sends[i := Fired(c, c.sends[i], jitter)]), c.sends[i].frame)
      else c
    case AckArrives(mid) =>
      if InOutbox(c, mid) then c.(sends := c.sends[mid - 1 := Resolve(c.sends[mid - 1], Ok)]) else c
    case NackArrives(mid, reason, jitter) =>
      if InOutbox(c, mid) then
        c.(sends := c.sends[mid - 1 := Nacked(c.sends[mid - 1], reason, c.now, jitter)])
      else c
    case AuthFailedArrives =>
      c.(sends := FailAll(c.sends, AuthFailed), socketOpen := false)
    case SocketCreated(conn) =>
      if c.disposed then c
      else c.(socket := Some(conn), socketOpen := false, conns := c.conns + {conn})
    case SocketReady(ready) => c.(socketOpen := ready)
    case SocketCloses(code) =>
      var closed := c.(socket := None);
      if code == CLOSE_REVOKED || code == CLOSE_INCOMPATIBLE_VERSION || c.disposed then
        closed.(sends := FailAll(c.sends, if code == CLOSE_REVOKED then Revoked else Fatal))
      else closed
    case Dispose =>
      c.(disposed := true, sends := FailAll(c.sends, Disposed), socket := None)
    case EncodeDone(k) =>
      if k < |c.encoding| then
        var sent := c.(encoding := RemoveAt(c.encoding, k));
        if c.socket.Some? then sent.(wire := c.wire + [(c.socket.value, c.encoding[k])]) else sent
      else c
    case Advance(to) => if to >= c.now then c.(now := to) else c
  }

  function Run(es: seq<ClientEvent>): Client {
    if es == [] then INIT_CLIENT else Step(Run(es[..|es| - 1]), es[|es| - 1])
  }

  // ---------------------------------------------------------------- invariant

  /** Resolved exactly when it has no live timer, resolved at most once, never more
      transmissions than attempts, never more than four attempts, and reported as refused
      for the two terminal reasons only. */
  ghost predicate SendOk(s: Send) {
    && s.transmissions <= s.attempts && 1 <= s.attempts <= MAX_ACK_ATTEMPTS
    && |s.results| <= 1
    && (Resolved(s) <==> !Live(s))
    && (s.inOutbox ==> !Resolved(s))
    && (!Resolved(s) ==> 1 <= s.attempts < MAX_ACK_ATTEMPTS)
    && (forall r :: Failed(Refused(r)) in s.results ==> r.PermissionDenied? || r.Malformed?)
  }

  ghost predicate OutboxOk(c: Client) {
    forall i {:trigger c.sends[i]} :: 0 <= i < |c.sends| ==> SendOk(c.sends[i]) && c.sends[i].frame.mid == i + 1
  }

  lemma RescheduleKeepsSend(s: Send, fromNack: bool, now: Millis, jitter: Jitter)
    requires s.results == [] && s.transmissions <= s.attempts + (if fromNack then 0 else 1)
    requires s.attempts < MAX_ACK_ATTEMPTS && (fromNack ==> 1 <= s.attempts)
    ensures SendOk(ScheduleRetry(s, fromNack, now, jitter))
    ensures ScheduleRetry(s, fromNack, now, jitter).frame == s.frame
  {
  }

  lemma StepKeepsOutbox(c: Client, e: ClientEvent)
    requires OutboxOk(c)
    ensures OutboxOk(Step(c, e))
  {
    hide ScheduleRetry;
    match e
    case SendReliable(t, p, jitter) =>
      var frame := Frame(t, |c.sends| + 1, PROTOCOL_MAJOR_VERSION, p);
      var s := Send(frame, c.now, 0, true, None, if CanSend(c) then 1 else 0, []);
      RescheduleKeepsSend(s, false, c.now, jitter);
    case TimerFires(i, jitter) =>
      if CanFire(c, i) {
        var s := c.sends[i];
        RescheduleKeepsSend(s.(timer := None, transmissions := s.transmissions + if CanSend(c) then 1 else 0),
                            false, c.now, jitter);
      }
    case NackArrives(mid, reason, jitter) =>
      if InOutbox(c, mid) {
        RescheduleKeepsSend(c.sends[mid - 1].(inOutbox := false, timer := None), true, c.now, jitter);
      }
    case _ =>
  }

  /** Every run, under any order of acks, nacks, timers, closes and dispose. */
  lemma {:induction false} OutboxAlwaysOk(es: seq<ClientEvent>)
    ensures OutboxOk(Run(es))
  {
    if es != [] {
      OutboxAlwaysOk(es[..|es| - 1]);
      StepKeepsOutbox(Run(es[..|es| - 1]), es[|es| - 1]);
    }
  }

  /** A send keeps its frame and, once resolved, its result for ever. */
  lemma SendsPersist(c: Client, e: ClientEvent, i: nat)
    requires OutboxOk(c) && i < |c.sends|
    ensures i < |Step(c, e).sends| && Step(c, e).sends[i].frame == c.sends[i].frame
    ensures c.sends[i].results <= Step(c, e).sends[i].results
    ensures Resolved(c.sends[i]) ==> Step(c, e).sends[i].results == c.sends[i].results
  {
  }

  /** Only an Ack for its mid resolves a send ok, only a Nack for its mid as refused. */
  lemma ResultsComeFrom(c: Client, e: ClientEvent, i: nat)
    requires OutboxOk(c) && i < |Step(c, e).sends|
    ensures var before := if i < |c.sends| then c.sends[i].results else [];
            var after := Step(c, e).sends[i].results;
            && (Ok in after ==> Ok in before || e == AckArrives(i + 1))
            && (forall r :: Failed(Refused(r)) in after ==>
                  Failed(Refused(r)) in before || (e.NackArrives? && e.mid == i + 1 && e.reason == r))
  {
  }

  /** A send that a transient nack took out of the outbox can no longer end ok. */
  lemma TransientNackIsFinal(c: Client, e: ClientEvent, i: nat)
    requires OutboxOk(c) && i < |c.sends| && !c.sends[i].inOutbox && Ok !in c.sends[i].results
    ensures var s := Step(c, e).sends[i];
            !s.inOutbox && (s.results == c.sends[i].results || s.results == [Failed(RetryExhausted)])
  {
  }

  predicate EndedOk(c: Client, i: nat) { i < |c.sends| && Ok in c.sends[i].results }

  lemma EndsOkStep(c: Client, e: ClientEvent, i: nat)
    requires OutboxOk(c)
    ensures EndedOk(Step(c, e), i) <==> EndedOk(c, i) || (e == AckArrives(i + 1) && InOutbox(c, i + 1))
  {
    hide RetryDelay;
    if i < |c.sends| {
      SendsPersist(c, e, i);
      ResultsComeFrom(c, e, i);
    }
  }

  ghost predicate AckedInOutbox(es: seq<ClientEvent>, i: nat) {
    exists k :: 0 <= k < |es| && es[k] == AckArrives(i + 1) && InOutbox(Run(es[..k]), i + 1)
  }

  /** A send ends ok exactly when an Ack for its mid arrived while it was still in the outbox. */
  lemma {:induction false} OkExactly(es: seq<ClientEvent>, i: nat)
    ensures EndedOk(Run(es), i) <==> AckedInOutbox(es, i)
  {
    hide Step, InOutbox;
    if es != [] {
      var n := |es| - 1;
      OkExactly(es[..n], i);
      OutboxAlwaysOk(es[..n]);
      EndsOkStep(Run(es[..n]), es[n], i);
      assert forall k :: 0 <= k < n ==> es[..n][..k] == es[..k] && es[..n][k] == es[k];
      if AckedInOutbox(es[..n], i) {
        var k :| 0 <= k < n && es[..n][k] == AckArrives(i + 1) && InOutbox(Run(es[..n][..k]), i + 1);
        assert es[k] == AckArrives(i + 1) && es[..k] == es[..n][..k];
      }
    }
  }

  // ---------------------------------------------------------------- termination

  /** What is left of a send's retry budget. */
  function Budget(s: Send): int { 2 * (MAX_ACK_ATTEMPTS - s.attempts) + if s.inOutbox then 1 else 0 }

  /** No event gives budget back, and every retry, every nack that reaches the send and every
      other event that moves its deadline uses some up. */
  lemma RearmingCostsBudget(c: Client, e: ClientEvent, i: nat)
    requires OutboxOk(c) && i < |c.sends|
    ensures var s, s' := c.sends[i], Step(c, e).sends[i];
            && 0 <= Budget(s') <= Budget(s) <= 7
            && (e.TimerFires? && e.send == i && CanFire(c, i) ==> Budget(s') < Budget(s))
            && (e.NackArrives? && e.mid == i + 1 && s.inOutbox ==> Budget(s') < Budget(s))
            && (s'.timer != s.timer ==> Budget(s') < Budget(s))
  {
  }

  // ---------------------------------------------------------------- time bound

  /** Timers on time: the clock never passes the deadline of a live timer. */
  ghost predicate OnTime(c: Client, e: ClientEvent) {
    e.Advance? ==> forall i :: 0 <= i < |c.sends| && c.sends[i].timer.Some? ==> e.to <= c.sends[i].timer.value
  }

  ghost predicate OnTimeRun(es: seq<ClientEvent>) {
    es == [] || (OnTimeRun(es[..|es| - 1]) && OnTime(Run(es[..|es| - 1]), es[|es| - 1]))
  }

  /** Longest delay before attempt number `attempts` + 1, and the sum of all up to it. */
  function Longest(attempts: nat): Millis
    requires 1 <= attempts <= 3
  {
    if attempts == 1 then 750.0 else if attempts == 2 then 1250.0 else 2250.0
  }

  function LongestSoFar(attempts: nat): Millis
    requires 1 <= attempts <= 3
  {
    if attempts == 1 then 750.0 else if attempts == 2 then 2000.0 else 4250.0
  }

  ghost predicate SendOnTime(s: Send, now: Millis) {
    && s.sentAt <= now
    && (!Resolved(s) ==>
      && s.timer.Some? && 1 <= s.attempts <= 3
      && now <= s.timer.value
      && s.timer.value < s.sentAt + LongestSoFar(s.attempts) + if s.inOutbox then 0.0 else Longest(s.attempts))
  }

  ghost predicate AllOnTime(c: Client) {
    forall i {:trigger c.sends[i]} :: 0 <= i < |c.sends| ==> SendOnTime(c.sends[i], c.now)
  }

  lemma DelayBounds(attempts: nat, jitter: Jitter)
    requires 1 <= attempts <= 3
    ensures Longest(attempts) - 250.0 <= RetryDelay(attempts, jitter) < Longest(attempts)
  {
    assert Pow2(1) == 2 && Pow2(2) == 4 && Pow2(3) == 8;
  }

  lemma FiredOnTime(c: Client, s: Send, jitter: Jitter)
    requires SendOk(s) && SendOnTime(s, c.now) && s.timer.Some? && s.timer.value <= c.now
    ensures SendOnTime(Fired(c, s, jitter), c.now)
  {
    if s.attempts < 3 { DelayBounds(s.attempts + 1, jitter); }
  }

  lemma NackedOnTime(s: Send, reason: NackReason, now: Millis, jitter: Jitter)
    requires SendOk(s) && SendOnTime(s, now) && s.inOutbox
    ensures SendOnTime(Nacked(s, reason, now, jitter), now)
  {
    DelayBounds(s.attempts, jitter);
  }

  lemma NewSendOnTime(c: Client, t: int, p: Payload, jitter: Jitter)
    ensures SendOnTime(NewSend(c, t, p, jitter), c.now)
  {
    DelayBounds(1, jitter);
  }

  lemma StepKeepsOnTime(c: Client, e: ClientEvent)
    requires OutboxOk(c) && AllOnTime(c) && OnTime(c, e)
    ensures AllOnTime(Step(c, e))
  {
    hide ScheduleRetry, RetryDelay, Fired, Nacked, NewSend, SendOk;
    match e
    case SendReliable(t, p, jitter) => NewSendOnTime(c, t, p, jitter);
    case TimerFires(i, jitter) => if CanFire(c, i) { FiredOnTime(c, c.sends[i], jitter); }
    case NackArrives(mid, reason, jitter) =>
      if InOutbox(c, mid) { NackedOnTime(c.sends[mid - 1], reason, c.now, jitter); }
    case Advance(to) =>
    case _ =>
  }

  lemma {:induction false} RunsStayOnTime(es: seq<ClientEvent>)
    requires OnTimeRun(es)
    ensures AllOnTime(Run(es))
  {
    if es != [] {
      RunsStayOnTime(es[..|es| - 1]);
      OutboxAlwaysOk(es[..|es| - 1]);
      StepKeepsOnTime(Run(es[..|es| - 1]), es[|es| - 1]);
    }
  }

  predicate TransientNack(e: ClientEvent, mid: int) {
    e.NackArrives? && e.mid == mid && !e.reason.PermissionDenied? && !e.reason.Malformed?
  }

  predicate Detached(c: Client, i: nat) {
    i < |c.sends| && !c.sends[i].inOutbox && !Resolved(c.sends[i])
  }

  lemma DetachStep(c: Client, e: ClientEvent, i: nat)
    requires OutboxOk(c) && Detached(Step(c, e), i)
    ensures Detached(c, i) || TransientNack(e, i + 1)
  {
    hide RetryDelay;
  }

  /** Only a transient nack for its own mid takes an unresolved send out of the outbox. */
  lemma {:induction false} DetachedByNack(es: seq<ClientEvent>, i: nat)
    requires Detached(Run(es), i)
    ensures exists k :: 0 <= k < |es| && TransientNack(es[k], i + 1)
  {
    hide Step;
    if es != [] {
      var n := |es| - 1;
      OutboxAlwaysOk(es[..n]);
      DetachStep(Run(es[..n]), es[n], i);
      if !TransientNack(es[n], i + 1) {
        DetachedByNack(es[..n], i);
        var k :| 0 <= k < n && TransientNack(es[..n][k], i + 1);
        assert TransientNack(es[k], i + 1);
      }
    }
  }

  /** Every reliable send resolves within 6500 ms, and within 4250 ms if no transient nack
      for its mid ever arrived. */
  lemma ResolvesInTime(es: seq<ClientEvent>, i: nat)
    requires OnTimeRun(es) && i < |Run(es).sends|
    ensures var s, now := Run(es).sends[i], Run(es).now;
            && (now >= s.sentAt + 6500.0 ==> |s.results| == 1)
            && (now >= s.sentAt + 4250.0 && (forall k :: 0 <= k < |es| ==> !TransientNack(es[k], i + 1)) ==>
                |s.results| == 1)
  {
    hide Run, Step, OnTimeRun;
    OutboxAlwaysOk(es);
    RunsStayOnTime(es);
    assert SendOnTime(Run(es).sends[i], Run(es).now) && SendOk(Run(es).sends[i]);
    if Detached(Run(es), i) { DetachedByNack(es, i); }
  }

  // ---------------------------------------------------------------- what reaches a socket

  /** How many of these frames carry the mid. */
  function Copies(frames: seq<Frame>, mid: nat): nat {
    if frames == [] then 0
    else Copies(frames[..|frames| - 1], mid) + if frames[|frames| - 1].mid == mid then 1 else 0
  }

  function CopiesSent(wire: seq<(Conn, Frame)>, mid: nat): nat {
    if wire == [] then 0
    else CopiesSent(wire[..|wire| - 1], mid) + if wire[|wire| - 1].1.mid == mid then 1 else 0
  }

  /** Copies on a socket or on their way to one; none for a mid not given out. */
  ghost predicate CopiesOk(c: Client, mid: nat)
    requires mid > 0
  {
    Copies(c.encoding, mid) + CopiesSent(c.wire, mid) <=
      if mid <= |c.sends| then c.sends[mid - 1].transmissions else 0
  }

  lemma CopiesPush(frames: seq<Frame>, f: Frame, mid: nat)
    ensures Copies(frames + [f], mid) == Copies(frames, mid) + if f.mid == mid then 1 else 0
  {
    assert (frames + [f])[..|frames|] == frames;
  }

  lemma CopiesSentPush(wire: seq<(Conn, Frame)>, w: (Conn, Frame), mid: nat)
    ensures CopiesSent(wire + [w], mid) == CopiesSent(wire, mid) + if w.1.mid == mid then 1 else 0
  {
    assert (wire + [w])[..|wire|] == wire;
  }

  lemma {:induction false} CopiesRemove(frames: seq<Frame>, k: nat, mid: nat)
    requires k < |frames|
    ensures Copies(frames, mid) == Copies(RemoveAt(frames, k), mid) + if frames[k].mid == mid then 1 else 0
  {
    var n := |frames| - 1;
    if k == n {
      assert RemoveAt(frames, k) == frames[..n];
    } else {
      CopiesRemove(frames[..n], k, mid);
      assert RemoveAt(frames, k) == RemoveAt(frames[..n], k) + [frames[n]];
      CopiesPush(RemoveAt(frames[..n], k), frames[n], mid);
    }
  }

  lemma TransmitCopies(c: Client, f: Frame, mid: nat)
    requires mid > 0
    ensures Copies(Transmit(c, f).encoding, mid) ==
            Copies(c.encoding, mid) + if CanSend(c) && f.mid == mid then 1 else 0
    ensures CopiesSent(Transmit(c, f).wire, mid) == CopiesSent(c.wire, mid)
    ensures Transmit(c, f).sends == c.sends
  {
    CopiesPush(c.encoding, f, mid);
    if CanSend(c) { CopiesSentPush(c.wire, (c.socket.value, f), mid); }
  }

  lemma StepKeepsCopies(c: Client, e: ClientEvent, mid: nat)
    requires mid > 0 && OutboxOk(c) && CopiesOk(c, mid)
    ensures CopiesOk(Step(c, e), mid)
  {
    hide Copies, CopiesSent, RetryDelay;
    match e
    case SendReliable(t, p, jitter) =>
      var s := NewSend(c, t, p, jitter);
      TransmitCopies(c.(sends := c.sends + [s]), s.frame, mid);
    case SendUnreliable(t, p) => TransmitCopies(c, Frame(t, 0, PROTOCOL_MAJOR_VERSION, p), mid);
    case TimerFires(i, jitter) =>
      if CanFire(c, i) {
        TransmitCopies(c.(sends := c.sends[i := Fired(c, c.sends[i], jitter)]), c.sends[i].frame, mid);
      }
    case EncodeDone(k) =>
      if k < |c.encoding| {
        CopiesRemove(c.encoding, k, mid);
        if c.socket.Some? { CopiesSentPush(c.wire, (c.socket.value, c.encoding[k]), mid); }
      }
    case _ =>
  }

  lemma {:induction false} AlwaysCopiesOk(es: seq<ClientEvent>, mid: nat)
    requires mid > 0
    ensures CopiesOk(Run(es), mid)
  {
    hide Step;
    if es == [] {
    } else {
      AlwaysCopiesOk(es[..|es| - 1], mid);
      OutboxAlwaysOk(es[..|es| - 1]);
      StepKeepsCopies(Run(es[..|es| - 1]), es[|es| - 1], mid);
    }
  }

  /** Whatever happens, at most four copies of a reliable frame ever reach a socket, one per
      attempt, and no frame carries a mid that was not given out. */
  lemma AtMostFourCopies(es: seq<ClientEvent>, mid: nat)
    requires mid > 0
    ensures CopiesSent(Run(es).wire, mid) <= MAX_ACK_ATTEMPTS
    ensures mid <= |Run(es).sends| ==> CopiesSent(Run(es).wire, mid) <= Run(es).sends[mid - 1].attempts
    ensures mid > |Run(es).sends| ==> CopiesSent(Run(es).wire, mid) == 0
  {
    hide Run, Copies, CopiesSent;
    AlwaysCopiesOk(es, mid);
    OutboxAlwaysOk(es);
    if mid <= |Run(es).sends| { assert SendOk(Run(es).sends[mid - 1]); }
  }
}
