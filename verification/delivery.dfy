/** Both ends over a network that may drop, duplicate, reorder and delay frames in either
    direction, across any number of connections, with other devices on the same gateway. */
module Delivery {
  import opened Common
  import O = Outbox
  import G = Gateway
  import opened GatewayCounts
  import opened GatewayAnswers
  import E = GatewayEcho
  import H = GatewayHandled
  import C = GatewayCauses
  import GE = GatewayEffects
  import OE = OutboxEffects
  import R = GatewayResults

  datatype System = System(client: O.Client, gateway: G.State)

  /** `Deliver(k)` hands the k-th frame ever put on a socket to the gateway, `Answer(k)` the
      k-th entry of the gateway's history, if it is an Ack or Nack, to the client. Either may
      happen never, late, or often. */
  datatype Event =
    | AtClient(ce: O.ClientEvent)
    | AtGateway(ge: G.Event)
    | Deliver(k: nat)
    | Garble(conn: Conn, message: G.Message)
    | OtherDevice(conn: Conn, frame: Frame)
    | Answer(k: nat, jitter: Jitter)

  function Init(handlers: set<int>): System { System(O.INIT_CLIENT, G.Init(handlers)) }

  /** The client's part of an event, if it has one. */
  function ClientPart(s: System, e: Event): Option<O.ClientEvent> {
    match e
    case AtClient(ce) =>
      if ce.AckArrives? || ce.NackArrives? || (ce.SocketCreated? && ce.conn in s.gateway.sessions) then None
      else Some(ce)
    case Answer(k, jitter) =>
      if k < |s.gateway.log| && s.gateway.log[k].Replied? && s.gateway.log[k].conn in s.client.conns then
        match s.gateway.log[k].reply
        case Ack => Some(O.AckArrives(s.gateway.log[k].mid))
        case Nack(reason) => Some(O.NackArrives(s.gateway.log[k].mid, reason, jitter))
        case _ => None
      else None
    case _ => None
  }

  /** The gateway's part of an event, if it has one. */
  function GatewayPart(s: System, e: Event): Option<G.Event> {
    match e
    case AtGateway(ge) => if ge.Receives? then None else Some(ge)
    case Deliver(k) =>
      if k < |s.client.wire| then Some(G.Receives(s.client.wire[k].0, G.Decoded(s.client.wire[k].1))) else None
    case Garble(c, message) => if message.Decoded? then None else Some(G.Receives(c, message))
    case OtherDevice(c, f) => if c in s.client.conns then None else Some(G.Receives(c, G.Decoded(f)))
    case _ => None
  }

  function Step(s: System, e: Event): System {
    System(
      match ClientPart(s, e) { case Some(ce) => O.Step(s.client, ce) case None => s.client },
      match GatewayPart(s, e) { case Some(ge) => G.Step(s.gateway, ge) case None => s.gateway })
  }

  function Run(handlers: set<int>, es: seq<Event>): System {
    if es == [] then Init(handlers) else Step(Run(handlers, es[..|es| - 1]), es[|es| - 1])
  }

  // ---------------------------------------------------------------- each end's own run

  function ClientRun(handlers: set<int>, es: seq<Event>): seq<O.ClientEvent> {
    if es == [] then []
    else
      var init := es[..|es| - 1];
      ClientRun(handlers, init) +
      match ClientPart(Run(handlers, init), es[|es| - 1]) { case Some(ce) => [ce] case None => [] }
  }

  function GatewayRun(handlers: set<int>, es: seq<Event>): seq<G.Event> {
    if es == [] then []
    else
      var init := es[..|es| - 1];
      GatewayRun(handlers, init) +
      match GatewayPart(Run(handlers, init), es[|es| - 1]) { case Some(ge) => [ge] case None => [] }
  }

  /** Whatever holds of every run of one end holds of that end inside the system. */
  lemma {:induction false} EndsRunOnTheirOwn(handlers: set<int>, es: seq<Event>)
    ensures Run(handlers, es).client == O.Run(ClientRun(handlers, es))
    ensures Run(handlers, es).gateway == G.Run(handlers, GatewayRun(handlers, es))
  {
    hide O.Step, G.Step, ClientPart, GatewayPart;
    if es != [] {
      var init := es[..|es| - 1];
      var s, e := Run(handlers, init), es[|es| - 1];
      EndsRunOnTheirOwn(handlers, init);
      var cs, gs := ClientRun(handlers, init), GatewayRun(handlers, init);
      if ClientPart(s, e).Some? { assert (cs + [ClientPart(s, e).value])[..|cs|] == cs; }
      else { assert ClientRun(handlers, es) == cs; }
      if GatewayPart(s, e).Some? { assert (gs + [GatewayPart(s, e).value])[..|gs|] == gs; }
      else { assert GatewayRun(handlers, es) == gs; }
    }
  }

  // ---------------------------------------------------------------- what the network carries

  /** A delivery to an open connection: the gateway receives just that frame, and handles it or
      answers with the reply that refuses it; the client notices nothing. */
  lemma DeliveryEffects(s: System, k: nat) returns (reply: G.Reply)
    requires k < |s.client.wire| && s.client.wire[k].0 in s.gateway.sessions
    ensures var c, f, s' := s.client.wire[k].0, s.client.wire[k].1, Step(s, Deliver(k));
            && s'.client == s.client && G.Received(c, f) in s'.gateway.log
            && if C.Passes(s.gateway.sessions[c], f, s.gateway.handlers) then G.Invoked(c, f) in s'.gateway.log
               else C.Refuses(s.gateway.sessions[c], f, s.gateway.handlers, reply)
                    && G.Replied(c, f.mid, reply) in s'.gateway.log
  {
    hide C.Passes, C.Refuses, G.Step;
    var c, f := s.client.wire[k].0, s.client.wire[k].1;
    var e := G.Receives(c, G.Decoded(f));
    reply := GE.FrameEffects(s.gateway, e, c);
    var log := G.Step(s.gateway, e).log;
    assert log[|s.gateway.log|] == G.Received(c, f);
    assert log[|s.gateway.log| + 1] in log;
  }

  /** An answer that reaches the client while the send is in the outbox decides it: an Ack ends it
      ok, a terminal nack as refused. The gateway notices nothing. */
  lemma AnswerEffects(handlers: set<int>, es: seq<Event>, k: nat, jitter: Jitter)
    requires var s := Run(handlers, es);
             && k < |s.gateway.log| && s.gateway.log[k].Replied? && s.gateway.log[k].conn in s.client.conns
             && O.InOutbox(s.client, s.gateway.log[k].mid)
    ensures var s, s' := Run(handlers, es), Step(Run(handlers, es), Answer(k, jitter));
            var mid, reply := s.gateway.log[k].mid, s.gateway.log[k].reply;
            && s'.gateway == s.gateway && |s'.client.sends| == |s.client.sends|
            && (reply.Ack? ==> s'.client.sends[mid - 1].results == [O.Ok])
            && (reply.Nack? && (reply.reason == PermissionDenied || reply.reason == Malformed) ==>
                  s'.client.sends[mid - 1].results == [O.Failed(O.Refused(reply.reason))])
  {
    hide Run, ClientRun, GatewayRun, O.Run, O.Step, O.OutboxOk, G.Run, G.Step;
    var s := Run(handlers, es);
    EndsRunOnTheirOwn(handlers, es);
    O.OutboxAlwaysOk(ClientRun(handlers, es));
    OE.AckEffects(s.client, s.gateway.log[k].mid);
    if s.gateway.log[k].reply.Nack? {
      OE.NackEffects(s.client, s.gateway.log[k].mid, s.gateway.log[k].reply.reason, jitter);
    }
  }

  // ---------------------------------------------------------------- frames are never confused

  /** `f` is the frame of the reliable send its mid names; mids are never reused. */
  ghost predicate Genuine(c: O.Client, f: Frame) {
    f.mid > 0 ==> f.mid <= |c.sends| && c.sends[f.mid - 1].frame == f
  }

  ghost predicate ClientLinks(s: System) {
    && (forall f :: f in s.client.encoding ==> Genuine(s.client, f))
    && (forall w :: w in s.client.wire ==> w.0 in s.client.conns && Genuine(s.client, w.1))
    && (s.client.socket.Some? ==> s.client.socket.value in s.client.conns)
  }

  ghost predicate GatewayLinks(s: System) {
    forall e :: e in s.gateway.log && e.Received? && e.conn in s.client.conns ==> Genuine(s.client, e.frame)
  }

  ghost predicate Links(s: System) {
    O.OutboxOk(s.client) && AnswersOk(s.gateway) && ClientLinks(s) && GatewayLinks(s)
  }

  lemma ClientStepKeepsGenuine(c: O.Client, ce: O.ClientEvent, f: Frame)
    requires O.OutboxOk(c) && Genuine(c, f)
    ensures Genuine(O.Step(c, ce), f)
  {
    if f.mid > 0 { O.SendsPersist(c, ce, f.mid - 1); }
  }

  lemma ClientStepKeepsLinks(s: System, ce: O.ClientEvent)
    requires Links(s) && (ce.SocketCreated? ==> ce.conn !in s.gateway.sessions)
    ensures Links(s.(client := O.Step(s.client, ce)))
  {
    var c, c' := s.client, O.Step(s.client, ce);
    O.StepKeepsOutbox(c, ce);
    forall f | Genuine(c, f) ensures Genuine(c', f) { ClientStepKeepsGenuine(c, ce, f); }
    assert ClientLinks(System(c', s.gateway)) by { NewFramesGenuine(c, ce); }
    forall e | e in s.gateway.log && e.Received? && e.conn in c'.conns ensures Genuine(c', e.frame) {
      assert Grounded(s.gateway.log, s.gateway.sessions.Keys, e);
    }
  }

  /** What a client step hands to the encoder or puts on a socket. */
  lemma NewFramesGenuine(c: O.Client, ce: O.ClientEvent)
    requires O.OutboxOk(c)
    ensures var c' := O.Step(c, ce);
            && c.conns <= c'.conns
            && (forall f :: f in c'.encoding ==> f in c.encoding || Genuine(c', f))
            && (forall w :: w in c'.wire && w !in c.wire ==>
                  c.socket.Some? && w.0 == c.socket.value && (w.1 in c.encoding || Genuine(c', w.1)))
            && (c'.socket.Some? ==> c'.socket.value in c'.conns || c'.socket == c.socket)
  {
    var c' := O.Step(c, ce);
    if ce.TimerFires? && O.CanFire(c, ce.send) { assert Genuine(c', c.sends[ce.send].frame); }
    if ce.SendReliable? { assert Genuine(c', c'.sends[|c.sends|].frame); }
  }

  lemma GatewayStepKeepsLinks(s: System, ge: G.Event)
    requires Links(s)
    requires ge.Receives? && ge.message.Decoded? && ge.conn in s.client.conns ==> Genuine(s.client, ge.message.frame)
    ensures Links(s.(gateway := G.Step(s.gateway, ge)))
  {
    StepKeepsAnswers(s.gateway, ge);
    LogGrows(s.gateway, ge);
  }

  lemma StepKeepsLinks(s: System, e: Event)
    requires Links(s)
    ensures Links(Step(s, e))
  {
    match ClientPart(s, e)
    case Some(ce) => ClientStepKeepsLinks(s, ce);
    case None =>
      match GatewayPart(s, e)
      case Some(ge) => GatewayStepKeepsLinks(s, ge);
      case None =>
  }

  // ---------------------------------------------------------------- results are truthful

  ghost predicate Replied(s: System, m: nat, reply: G.Reply) {
    exists c :: c in s.client.conns && G.Replied(c, m, reply) in s.gateway.log
  }

  ghost predicate ResultsOk(s: System) {
    forall i {:trigger s.client.sends[i]} :: 0 <= i < |s.client.sends| ==>
      && (O.Ok in s.client.sends[i].results ==> Replied(s, i + 1, G.Ack))
      && (forall r :: O.Failed(O.Refused(r)) in s.client.sends[i].results ==> Replied(s, i + 1, G.Nack(r)))
  }

  lemma StepKeepsResults(s: System, e: Event)
    requires Links(s) && ResultsOk(s)
    ensures ResultsOk(Step(s, e))
  {
    var s' := Step(s, e);
    if GatewayPart(s, e).Some? { LogGrows(s.gateway, GatewayPart(s, e).value); }
    if ClientPart(s, e).Some? { NewFramesGenuine(s.client, ClientPart(s, e).value); }
    assert forall m, reply :: Replied(s, m, reply) ==> Replied(s', m, reply);
    forall i | 0 <= i < |s'.client.sends|
      ensures O.Ok in s'.client.sends[i].results ==> Replied(s', i + 1, G.Ack)
      ensures forall r :: O.Failed(O.Refused(r)) in s'.client.sends[i].results ==> Replied(s', i + 1, G.Nack(r))
    {
      if ClientPart(s, e).Some? { O.ResultsComeFrom(s.client, ClientPart(s, e).value, i); }
    }
  }

  lemma {:induction false} AlwaysLinked(handlers: set<int>, es: seq<Event>)
    ensures Links(Run(handlers, es)) && ResultsOk(Run(handlers, es))
  {
    if es != [] {
      AlwaysLinked(handlers, es[..|es| - 1]);
      StepKeepsLinks(Run(handlers, es[..|es| - 1]), es[|es| - 1]);
      StepKeepsResults(Run(handlers, es[..|es| - 1]), es[|es| - 1]);
    }
  }

  /** `ok: true` is sound: on some connection of this client the handler was run on exactly this
      frame and ended well, by what it returned or threw and not merely by what was recorded. */
  lemma OkMeansHandled(handlers: set<int>, es: seq<Event>, i: nat) returns (c: Conn)
    requires i < |Run(handlers, es).client.sends|
    requires O.Ok in Run(handlers, es).client.sends[i].results
    ensures var s := Run(handlers, es);
            && c in s.client.conns
            && G.Invoked(c, s.client.sends[i].frame) in s.gateway.log
            && G.Returned(c, s.client.sends[i].frame, G.Success) in s.gateway.log
            && R.Succeeded(handlers, GatewayRun(handlers, es), c, s.client.sends[i].frame)
  {
    hide Run, G.Run, GatewayRun, R.Succeeded;
    var s := Run(handlers, es);
    AlwaysLinked(handlers, es);
    EndsRunOnTheirOwn(handlers, es);
    c :| c in s.client.conns && G.Replied(c, i + 1, G.Ack) in s.gateway.log;
    var f := AcksAreGrounded(handlers, GatewayRun(handlers, es), c, i + 1);
    assert Genuine(s.client, f) by { assert G.Received(c, f) in s.gateway.log; }
  }

  /** On each connection of the client, the handler runs at most once on a reliable frame,
      however often the network or the retry timer repeats it. */
  lemma HandledAtMostOncePerConnection(handlers: set<int>, es: seq<Event>, i: nat, j: nat)
    requires i < j < |Run(handlers, es).gateway.log|
    requires var log := Run(handlers, es).gateway.log;
             log[i].Invoked? && log[j].Invoked? && log[i].frame.mid == log[j].frame.mid > 0
    ensures var log := Run(handlers, es).gateway.log; log[i].conn != log[j].conn
  {
    hide Run, G.Run, Count;
    var log := Run(handlers, es).gateway.log;
    var c, m := log[i].conn, log[i].frame.mid;
    if log[j].conn == c {
      EndsRunOnTheirOwn(handlers, es);
      AtMostOnceAndAnswered(handlers, GatewayRun(handlers, es), c, m);
      TwoHits(log, i, j, Invocations(c, m));
    }
  }

  /** Two entries of the history are runs of a handler on this mid, both for this client. */
  ghost predicate HandledTwice(s: System, m: nat) {
    exists a, b :: 0 <= a < b < |s.gateway.log| && HandledAt(s, a, m) && HandledAt(s, b, m)
  }

  predicate HandledAt(s: System, a: nat, m: nat)
    requires a < |s.gateway.log|
  {
    s.gateway.log[a].Invoked? && s.gateway.log[a].frame.mid == m && s.gateway.log[a].conn in s.client.conns
  }

  /** A copy got through the replay guard and the gates on two connections of this client. */
  ghost predicate ThroughTwice(handlers: set<int>, es: seq<Event>, m: nat) {
    exists c, d ::
      && c in Run(handlers, es).client.conns && d in Run(handlers, es).client.conns && c != d
      && H.GotThrough(handlers, GatewayRun(handlers, es), c, m)
      && H.GotThrough(handlers, GatewayRun(handlers, es), d, m)
  }

  /** What the replay guard is worth across reconnects: a reliable frame is handled more than
      once if and only if copies of it get through on two different connections. */
  lemma HandledTwiceExactly(handlers: set<int>, es: seq<Event>, m: nat)
    requires m > 0
    ensures HandledTwice(Run(handlers, es), m) <==> ThroughTwice(handlers, es, m)
  {
    hide Run, G.Run, H.GotThrough, GatewayRun;
    var s := Run(handlers, es);
    EndsRunOnTheirOwn(handlers, es);
    if HandledTwice(s, m) {
      var a, b :| 0 <= a < b < |s.gateway.log| && HandledAt(s, a, m) && HandledAt(s, b, m);
      var c, d := s.gateway.log[a].conn, s.gateway.log[b].conn;
      HandledAtMostOncePerConnection(handlers, es, a, b);
      H.HandledExactly(handlers, GatewayRun(handlers, es), c, m);
      H.HandledExactly(handlers, GatewayRun(handlers, es), d, m);
      assert s.gateway.log[a] in s.gateway.log && s.gateway.log[b] in s.gateway.log;
      assert ThroughTwice(handlers, es, m);
    }
    if ThroughTwice(handlers, es, m) {
      var c, d :|
        && c in s.client.conns && d in s.client.conns && c != d
        && H.GotThrough(handlers, GatewayRun(handlers, es), c, m)
        && H.GotThrough(handlers, GatewayRun(handlers, es), d, m);
      var a := HandledIndex(handlers, es, c, m);
      var b := HandledIndex(handlers, es, d, m);
      assert HandledAt(s, a, m) && HandledAt(s, b, m);
      assert a < b || b < a;
    }
  }

  lemma HandledIndex(handlers: set<int>, es: seq<Event>, c: Conn, m: nat) returns (a: nat)
    requires m > 0 && H.GotThrough(handlers, GatewayRun(handlers, es), c, m)
    ensures var log := Run(handlers, es).gateway.log;
            a < |log| && log[a].Invoked? && log[a].conn == c && log[a].frame.mid == m
  {
    hide Run, G.Run, H.GotThrough, GatewayRun;
    var log := Run(handlers, es).gateway.log;
    EndsRunOnTheirOwn(handlers, es);
    H.HandledExactly(handlers, GatewayRun(handlers, es), c, m);
    var x :| x in log && x.Invoked? && x.conn == c && x.frame.mid == m;
    a :| 0 <= a < |log| && log[a] == x;
  }

  /** On one connection an Ack and a refusal other than the replay guard's exclude each other. */
  lemma AckExcludesRefusal(handlers: set<int>, es: seq<Event>, c: Conn, m: nat, r: NackReason)
    requires m > 0 && r != Replay && G.Replied(c, m, G.Nack(r)) in Run(handlers, es).gateway.log
    ensures G.Replied(c, m, G.Ack) !in Run(handlers, es).gateway.log
  {
    hide Run, G.Run, Count, GatewayRun;
    var log := Run(handlers, es).gateway.log;
    var a :| 0 <= a < |log| && log[a] == G.Replied(c, m, G.Nack(r));
    if G.Replied(c, m, G.Ack) in log {
      var b :| 0 <= b < |log| && log[b] == G.Replied(c, m, G.Ack);
      EndsRunOnTheirOwn(handlers, es);
      AtMostOnceAndAnswered(handlers, GatewayRun(handlers, es), c, m);
      TwoHits(log, a, b, Verdicts(c, m));
    }
  }

  /** A terminal refusal is truthful too: on the connection that sent it the frame was not,
      and will not be, acknowledged. */
  lemma RefusedMeansNotAcked(handlers: set<int>, es: seq<Event>, i: nat, r: NackReason) returns (c: Conn)
    requires i < |Run(handlers, es).client.sends|
    requires O.Failed(O.Refused(r)) in Run(handlers, es).client.sends[i].results
    ensures var s := Run(handlers, es);
            && c in s.client.conns
            && G.Replied(c, i + 1, G.Nack(r)) in s.gateway.log
            && G.Replied(c, i + 1, G.Ack) !in s.gateway.log
  {
    hide Run;
    var s := Run(handlers, es);
    AlwaysLinked(handlers, es);
    assert r != Replay by { assert O.SendOk(s.client.sends[i]); }
    c :| c in s.client.conns && G.Replied(c, i + 1, G.Nack(r)) in s.gateway.log;
    AckExcludesRefusal(handlers, es, c, i + 1, r);
  }

  /** When every peer answers only with nonces disclosed to it, as the client does, no session
      is ever promoted and no operational handler ever runs. */
  lemma EchoingNeverOperates(handlers: set<int>, es: seq<Event>, x: G.Entry)
    requires forall c :: E.Echoes(handlers, GatewayRun(handlers, es), c)
    requires x in Run(handlers, es).gateway.log
    ensures !x.Promoted? && (x.Invoked? ==> x.frame.t in G.PRE_AUTH_TYPES)
  {
    EndsRunOnTheirOwn(handlers, es);
    E.EchoingNeverOperates(handlers, GatewayRun(handlers, es), x);
  }
}
