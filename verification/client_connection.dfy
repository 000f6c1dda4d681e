/** ClientConnection as the object it is: PendingFrame records on the heap, shared between
    the `pending` map and the timer callbacks. Each method is proved to take exactly the step
    of the outbox state machine, so everything proved about runs holds of the object
    (packages/network/src/client/ClientConnection.ts). */
module Connection {
  import opened Common
  import opened Outbox

  class PendingFrame {
    const frame: Frame
    ghost const sentAt: Millis
    var attempts: nat
    var timer: Option<Millis>
    ghost var transmissions: nat
    var results: seq<FrameResult>

    constructor (frame: Frame, ghost now: Millis)
      ensures this.frame == frame && sentAt == now
      ensures attempts == 0 && timer == None && transmissions == 0 && results == []
    {
      this.frame, this.sentAt := frame, now;
      attempts, timer, transmissions, results := 0, None, 0, [];
    }

    ghost function Record(inOutbox: bool): Send
      reads this
    {
      Send(frame, sentAt, attempts, inOutbox, timer, transmissions, results)
    }
  }

  /** `c` with the reliable send of this mid replaced. */
  ghost function Put(c: Client, mid: nat, s: Send): Client
    requires 1 <= mid <= |c.sends|
  {
    c.(sends := c.sends[mid - 1 := s])
  }

  /** A registered, transmitted and armed record is the step. */
  lemma SendStep(c: Client, c': Client, t: int, p: Payload, jitter: Jitter, s0: Send, s1: Send, s: Send)
    requires OutboxOk(c) && s == NewSend(c, t, p, jitter)
    requires c' == Put(Transmit(Put(c.(sends := c.sends + [s0]), |c.sends| + 1, s1), s.frame), |c.sends| + 1, s)
    ensures c' == Step(c, ClientEvent.SendReliable(t, p, jitter)) && OutboxOk(c')
  {
    assert c'.sends == c.sends + [s];
    StepKeepsOutbox(c, ClientEvent.SendReliable(t, p, jitter));
  }

  lemma NackStep(c: Client, c': Client, mid: nat, reason: NackReason, jitter: Jitter, s: Send)
    requires OutboxOk(c) && InOutbox(c, mid)
    requires s == Nacked(c.sends[mid - 1], reason, c.now, jitter) && c' == Put(c, mid, s)
    ensures c' == Step(c, NackArrives(mid, reason, jitter)) && OutboxOk(c')
  {
    StepKeepsOutbox(c, NackArrives(mid, reason, jitter));
  }

  lemma FailOneFirst(c: Client, mid: nat, why: Failure)
    requires InOutbox(c, mid)
    ensures FailAll(Put(c, mid, Resolve(c.sends[mid - 1], Failed(why))).sends, why) == FailAll(c.sends, why)
  {
  }

  lemma NothingToFail(c: Client, why: Failure)
    requires forall i {:trigger c.sends[i]} :: 0 <= i < |c.sends| ==> !c.sends[i].inOutbox
    ensures FailAll(c.sends, why) == c.sends
  {
  }

  /** An answer for a mid that is not in the outbox changes nothing. */
  lemma Missed(c: Client, e: ClientEvent)
    requires (e.AckArrives? || e.NackArrives?) && !InOutbox(c, e.mid)
    ensures Step(c, e) == c
  {
  }

  /** The record of a fired timer, put in place and handed to the encoder, is the step. */
  lemma FireStep(c: Client, c': Client, mid: nat, jitter: Jitter, s: Send)
    requires OutboxOk(c) && 1 <= mid <= |c.sends| && CanFire(c, mid - 1)
    requires s == Fired(c, c.sends[mid - 1], jitter)
    requires c' == Transmit(Put(c, mid, s), c.sends[mid - 1].frame)
    ensures c' == Step(c, ClientEvent.TimerFires(mid - 1, jitter)) && OutboxOk(c')
  {
    StepKeepsOutbox(c, ClientEvent.TimerFires(mid - 1, jitter));
  }

  class ClientConnection {
    var midCounter: nat
    var pending: map<nat, PendingFrame>
    var socket: Option<Conn>
    var socketOpen: bool
    var disposed: bool
    var encoding: seq<Frame>
    var wire: seq<(Conn, Frame)>
    var now: Millis
    /** Every reliable send ever made, including those no longer in `pending`. */
    ghost var sends: seq<PendingFrame>

    /** The state machine's state, kept in step with the fields. */
    ghost var view: Client

    ghost predicate Valid()
      reads this, sends
    {
      Linked() && OutboxOk(view)
    }

    /** Records are distinct, mids count them, `pending` points back at them, and `view`
        describes the fields. */
    ghost predicate Linked()
      reads this, sends
    {
      && Shaped()
      && (forall i :: 0 <= i < |sends| ==> view.sends[i] == sends[i].Record(sends[i].frame.mid in pending))
    }

    ghost predicate Shaped()
      reads this
    {
      && midCounter == |sends| + 1 == |view.sends| + 1
      && (forall i :: 0 <= i < |sends| ==> sends[i].frame.mid == i + 1)
      && (forall m :: m in pending ==> 1 <= m <= |sends| && pending[m] == sends[m - 1])
      && view == Client(view.sends, socket, socketOpen, disposed, encoding, wire, view.conns, now)
    }

    ghost predicate Mine(p: PendingFrame)
      reads this
    {
      1 <= p.frame.mid <= |sends| && sends[p.frame.mid - 1] == p
    }

    ghost function RecordOf(p: PendingFrame): Send
      requires Mine(p)
      reads this, p
    {
      p.Record(p.frame.mid in pending)
    }

    constructor ()
      ensures Valid() && view == INIT_CLIENT
    {
      midCounter, pending, socket, socketOpen, disposed := 1, map[], None, false, false;
      encoding, wire, now, sends, view := [], [], 0.0, [], INIT_CLIENT;
    }

    lemma ViewAt(p: PendingFrame)
      requires Linked() && Mine(p)
      ensures 1 <= p.frame.mid <= |view.sends| && view.sends[p.frame.mid - 1] == RecordOf(p)
    {
    }

    lemma ViewHeader()
      requires Linked()
      ensures midCounter == |view.sends| + 1 && view.now == now
    {
    }

    /** Bring `view` up to date after changing one record. */
    ghost method Sync(p: PendingFrame)
      requires Shaped() && Mine(p)
      requires forall i :: 0 <= i < |sends| && sends[i] != p ==>
        view.sends[i] == sends[i].Record(sends[i].frame.mid in pending)
      modifies this`view
      ensures Linked() && Mine(p) && view == Put(old(view), p.frame.mid, RecordOf(p))
    {
      view := Put(view, p.frame.mid, RecordOf(p));
    }

    /** `delete`, `clear` and `resolve`: the whole of settling a send. */
    method Settle(p: PendingFrame, r: FrameResult)
      requires Linked() && Mine(p)
      modifies this`pending, this`view, p
      ensures Linked() && Mine(p) && view == Put(old(view), p.frame.mid, RecordOf(p))
      ensures RecordOf(p) == Resolve(old(RecordOf(p)), r)
      ensures pending == old(pending) - {p.frame.mid}
    {
      pending := pending - {p.frame.mid};
      p.timer := None;
      p.results := p.results + [r];
      Sync(p);
    }

    method Disarm(p: PendingFrame)
      requires Linked() && Mine(p)
      modifies this`view, p`timer
      ensures Linked() && Mine(p) && view == Put(old(view), p.frame.mid, RecordOf(p))
      ensures RecordOf(p) == old(RecordOf(p)).(timer := None)
    {
      p.timer := None;
      Sync(p);
    }

    /** Dropped unless the socket is open; mid 0 goes out at once, any other frame is encoded
        first. */
    method SendFrame(f: Frame)
      requires Linked()
      modifies this`encoding, this`wire, this`view
      ensures Linked() && view == Transmit(old(view), f)
    {
      if socket.None? || !socketOpen { return; }
      if f.mid == 0 {
        wire := wire + [(socket.value, f)];
        view := view.(wire := wire);
      } else {
        encoding := encoding + [f];
        view := view.(encoding := encoding);
      }
    }

    /** `sendFrame` of a pending record's frame, counted on the record. */
    method SendPending(p: PendingFrame)
      requires Linked() && Mine(p)
      modifies this`encoding, this`wire, this`view, p`transmissions
      ensures Linked() && Mine(p) && view == Transmit(Put(old(view), p.frame.mid, RecordOf(p)), p.frame)
      ensures RecordOf(p) ==
              old(RecordOf(p)).(transmissions := old(p.transmissions) + if old(CanSend(view)) then 1 else 0)
    {
      SendFrame(p.frame);
      if CanSend(view) { p.transmissions := p.transmissions + 1; }
      Sync(p);
    }

    /** `send`: fire and forget. */
    method SendUnreliable(t: int, payload: Payload)
      requires Valid()
      modifies this`encoding, this`wire, this`view
      ensures Valid() && sends == old(sends) && view == Step(old(view), ClientEvent.SendUnreliable(t, payload))
    {
      SendFrame(Frame(t, 0, PROTOCOL_MAJOR_VERSION, payload));
    }

    /** `scheduleRetry`: count the attempt, then give up or re-arm the timer. */
    method Reschedule(p: PendingFrame, fromNack: bool, jitter: Jitter)
      requires Linked() && Mine(p)
      modifies this`pending, this`view, p
      ensures Linked() && Mine(p) && view == Put(old(view), p.frame.mid, RecordOf(p))
      ensures RecordOf(p) == ScheduleRetry(old(RecordOf(p)), fromNack, now, jitter)
    {
      if !fromNack {
        p.attempts := p.attempts + 1;
        Sync(p);
      }
      if p.attempts >= MAX_ACK_ATTEMPTS {
        Settle(p, Failed(RetryExhausted));
      } else {
        p.timer := Some(now + RetryDelay(p.attempts, jitter));
        Sync(p);
      }
    }

    method Register(t: int, payload: Payload) returns (p: PendingFrame)
      requires Linked()
      modifies this`midCounter, this`pending, this`view, this`sends
      ensures Linked() && fresh(p) && sends == old(sends) + [p] && Mine(p)
      ensures p.frame == Frame(t, old(midCounter), PROTOCOL_MAJOR_VERSION, payload)
      ensures RecordOf(p) == Send(p.frame, now, 0, true, None, 0, [])
      ensures view == old(view).(sends := old(view).sends + [RecordOf(p)])
    {
      p := new PendingFrame(Frame(t, midCounter, PROTOCOL_MAJOR_VERSION, payload), now);
      pending := pending[midCounter := p];
      midCounter := midCounter + 1;
      sends := sends + [p];
      view := view.(sends := view.sends + [p.Record(true)]);
    }

    method SendReliable(t: int, payload: Payload, jitter: Jitter) returns (p: PendingFrame)
      requires Valid()
      modifies this
      ensures Valid() && view == Step(old(view), ClientEvent.SendReliable(t, payload, jitter))
      ensures fresh(p) && sends == old(sends) + [p] && p.frame.mid == old(midCounter)
    {
      hide OutboxOk, ScheduleRetry, Linked;
      ghost var before := view;
      ViewHeader();
      p := Register(t, payload);
      ghost var s0 := RecordOf(p);
      SendPending(p);
      ghost var s1 := RecordOf(p);
      Reschedule(p, false, jitter);
      SendStep(before, view, t, payload, jitter, s0, s1, RecordOf(p));
    }

    /** The retry callback; it captured the record, not the map entry. */
    method TimerFires(p: PendingFrame, jitter: Jitter)
      requires Valid() && Mine(p) && p.timer.Some? && p.timer.value <= now
      modifies this, p
      ensures Valid() && sends == old(sends)
      ensures view == Step(old(view), ClientEvent.TimerFires(p.frame.mid - 1, jitter))
    {
      hide OutboxOk, ScheduleRetry, Linked;
      ghost var before := view;
      ViewAt(p); ViewHeader();
      Disarm(p);
      SendPending(p);
      Reschedule(p, false, jitter);
      FireStep(before, view, p.frame.mid, jitter, RecordOf(p));
    }

    method HandleAck(mid: int)
      requires Valid()
      modifies this, sends
      ensures Valid() && sends == old(sends) && view == Step(old(view), AckArrives(mid))
    {
      ghost var before := view;
      if mid >= 0 && mid in pending {
        Settle(pending[mid], Ok);
      } else if 1 <= mid <= |view.sends| {
        assert sends[mid - 1].frame.mid == mid;
      }
      StepKeepsOutbox(before, AckArrives(mid));
    }

    /** Take a record out of the map and stop its timer, leaving its promise open. */
    method Detach(p: PendingFrame)
      requires Linked() && Mine(p)
      modifies this`pending, this`view, p`timer
      ensures Linked() && Mine(p) && view == Put(old(view), p.frame.mid, RecordOf(p))
      ensures RecordOf(p) == old(RecordOf(p)).(inOutbox := false, timer := None)
    {
      pending := pending - {p.frame.mid};
      p.timer := None;
      Sync(p);
    }

    /** The socket factory's socket becomes current, still connecting. */
    method OpenSocket(conn: Conn)
      requires Valid() && !disposed
      modifies this
      ensures Valid() && sends == old(sends) && view == Step(old(view), SocketCreated(conn))
    {
      socket, socketOpen := Some(conn), false;
      view := view.(socket := socket, socketOpen := false, conns := view.conns + {conn});
    }

    /** The encoder's promise for frame k resolves: send on whatever socket is current now. */
    method EncodeResolves(k: nat)
      requires Valid() && k < |encoding|
      modifies this
      ensures Valid() && sends == old(sends) && view == Step(old(view), EncodeDone(k))
    {
      if socket.Some? { wire := wire + [(socket.value, encoding[k])]; }
      encoding := RemoveAt(encoding, k);
      view := view.(wire := wire, encoding := encoding);
    }

    method HandleNack(mid: int, reason: NackReason, jitter: Jitter)
      requires Valid()
      modifies this, sends
      ensures Valid() && sends == old(sends) && view == Step(old(view), NackArrives(mid, reason, jitter))
    {
      hide OutboxOk, ScheduleRetry, Step;
      ghost var before := view;
      if mid >= 0 && mid in pending {
        var p := pending[mid];
        if reason.PermissionDenied? || reason.Malformed? {
          Settle(p, Failed(Refused(reason)));
        } else {
          Detach(p);
          Reschedule(p, true, jitter);
        }
        NackStep(before, view, mid, reason, jitter, RecordOf(p));
        return;
      } else if 1 <= mid <= |view.sends| {
        assert sends[mid - 1].frame.mid == mid;
      }
      Missed(before, NackArrives(mid, reason, jitter));
    }

    /** Walk the map, settling every entry. Sends that a transient nack took out of the map
        are not reached and keep their timers. */
    method FailAllPending(why: Failure)
      requires Linked()
      modifies this`pending, this`view, sends
      ensures Linked() && pending == map[]
      ensures view == old(view).(sends := FailAll(old(view).sends, why))
    {
      hide FailAll, Step, OutboxOk;
      ghost var before := view;
      while pending != map[]
        invariant Linked() && view == before.(sends := view.sends)
        invariant FailAll(view.sends, why) == FailAll(before.sends, why)
        decreases pending.Keys
      {
        var mid :| mid in pending;
        ghost var c := view;
        assert view.sends[mid - 1] == RecordOf(pending[mid]);
        Settle(pending[mid], Failed(why));
        FailOneFirst(c, mid, why);
      }
      NothingToFail(view, why);
    }

    method OnSocketClose(code: int)
      requires Valid()
      modifies this, sends
      ensures Valid() && sends == old(sends) && view == Step(old(view), SocketCloses(code))
    {
      hide OutboxOk, FailAll;
      ghost var before := view;
      socket := None;
      view := view.(socket := None);
      if code == CLOSE_REVOKED || code == CLOSE_INCOMPATIBLE_VERSION || disposed {
        FailAllPending(if code == CLOSE_REVOKED then Revoked else Fatal);
      }
      StepKeepsOutbox(before, SocketCloses(code));
    }

    /** AuthFailed: everything pending fails and the socket starts to close. */
    method HandleAuthFailed()
      requires Valid()
      modifies this, sends
      ensures Valid() && sends == old(sends) && view == Step(old(view), AuthFailedArrives)
    {
      hide OutboxOk, FailAll;
      ghost var before := view;
      FailAllPending(AuthFailed);
      socketOpen := false;
      view := view.(socketOpen := false);
      StepKeepsOutbox(before, AuthFailedArrives);
    }

    /** The socket's `readyState` becomes open, or stops being it. */
    method SocketBecomes(ready: bool)
      requires Valid()
      modifies this`socketOpen, this`view
      ensures Valid() && sends == old(sends) && view == Step(old(view), SocketReady(ready))
    {
      socketOpen := ready;
      view := view.(socketOpen := ready);
    }

    /** The clock moves on. */
    method Tick(to: Millis)
      requires Valid()
      modifies this`now, this`view
      ensures Valid() && sends == old(sends) && view == Step(old(view), Advance(to))
    {
      if to >= now {
        now := to;
        view := view.(now := to);
      }
    }

    /** `dispose`. */
    method TearDown()
      requires Valid()
      modifies this, sends
      ensures Valid() && sends == old(sends) && view == Step(old(view), Dispose)
    {
      hide OutboxOk, FailAll;
      ghost var before := view;
      disposed := true;
      view := view.(disposed := true);
      FailAllPending(Disposed);
      socket := None;
      view := view.(socket := None);
      StepKeepsOutbox(before, Dispose);
    }
  }
}
