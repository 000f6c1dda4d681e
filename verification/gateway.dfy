/** The receiver's gateway as a state machine: per-connection replay guard, router with its
    pre-authentication gate, asynchronous handlers and the Hello/Authenticate handlers
    (packages/network/src/server/WssGateway.ts, frameRouter.ts,
    apps/receiver/src/main/networkService.ts). */
module Gateway {
  import opened Common

  datatype HandlerResult = Success | Refusal(reason: NackReason)

  /** How a handler's promise ends; a FrameHandlerError carries a result of its own. */
  datatype HandlerEnd = Returns(result: HandlerResult) | ThrowsTyped(result: HandlerResult) | ThrowsOther

  /** A started handler: still running, awaiting the token store, or with its result fixed. */
  datatype Stage =
    | Running
    | Verifying(sessionId: string, token: string)
    | Settling(result: HandlerResult)

  datatype Call = Call(conn: Conn, frame: Frame, stage: Stage)

  datatype Session = Session(
    sessionId: string,
    authenticated: bool,
    permissions: seq<string>,
    challenge: string,
    seenMids: set<nat>)

  datatype Message = Text | TooLarge | Undecodable | Decoded(frame: Frame)

  datatype Reply = Ack | Nack(reason: NackReason) | Pong | Close(code: int)

  /** The history of the gateway. */
  datatype Entry =
    | Opened(conn: Conn, nonce: string)
    | Received(conn: Conn, frame: Frame)
    | Invoked(conn: Conn, frame: Frame)
    | Returned(conn: Conn, frame: Frame, result: HandlerResult)
    | Replied(conn: Conn, mid: nat, reply: Reply)
    | ChallengeSent(conn: Conn, nonce: string)
    | VerificationStarted(conn: Conn, sessionId: string, token: string, presented: string)
    | TokenVerdict(conn: Conn, sessionId: string, token: string, granted: Option<seq<string>>)
    | Promoted(conn: Conn, caller: Conn, sessionId: string, permissions: seq<string>)

  /** `sessions` holds every session object ever created (message listeners keep theirs after
      removal); `attached` is the insertion-ordered sessions table. */
  datatype State = State(
    handlers: set<int>,
    sessions: map<Conn, Session>,
    attached: seq<Conn>,
    calls: seq<Call>,
    log: seq<Entry>)

  datatype Event =
    | Connects(conn: Conn, sessionId: string, nonce: string)
    | Receives(conn: Conn, message: Message)
    | TokenChecked(k: nat, granted: Option<seq<string>>)
    | HandlerEnds(k: nat, end: HandlerEnd)
    | SetsSessionId(conn: Conn, sessionId: string)
    | Detaches(conn: Conn)

  const PRE_AUTH_TYPES := { HELLO, PAIR_REQUEST, PAIR_RESPONSE, AUTHENTICATE }

  function Init(handlers: set<int>): State { State(handlers, map[], [], [], []) }

  // ---------------------------------------------------------------- steps

  /** What the token store is asked by call k, and answers. */
  function VerdictOn(g: State, k: nat, granted: Option<seq<string>>): Entry
    requires k < |g.calls| && g.calls[k].stage.Verifying?
  {
    TokenVerdict(g.calls[k].conn, g.calls[k].stage.sessionId, g.calls[k].stage.token, granted)
  }

  function Log(g: State, e: Entry): State { g.(log := g.log + [e]) }

  function Start(g: State, call: Call): State { g.(calls := g.calls + [call]) }

  /** `consumeChallenge`. */
  function BlankChallenge(g: State, c: Conn): State
    requires c in g.sessions
  {
    g.(sessions := g.sessions[c := g.sessions[c].(challenge := "")])
  }

  /** The challenge field of an Authenticate payload, blank when absent. */
  function Presented(p: Payload): string {
    if p.Credentials? && p.challenge.Some? then p.challenge.value else ""
  }

  predicate ChallengeAccepted(expected: string, presented: string) {
    expected != "" && presented != "" && |presented| <= 128 && presented == expected
  }

  function RunHandler(g: State, c: Conn, f: Frame): State
    requires c in g.sessions
  {
    var expected := g.sessions[c].challenge;
    if f.t == HELLO then
      Start(BlankChallenge(Log(g, ChallengeSent(c, expected)), c), Call(c, f, Settling(Success)))
    else if f.t == AUTHENTICATE then
      if f.p.Credentials? && ChallengeAccepted(expected, Presented(f.p)) then
        Start(BlankChallenge(Log(g, VerificationStarted(c, f.p.sessionId, f.p.sessionToken, Presented(f.p))), c),
              Call(c, f, Verifying(f.p.sessionId, f.p.sessionToken)))
      else
        Start(BlankChallenge(g, c), Call(c, f, Settling(Refusal(NotAuthenticated))))
    else
      Start(g, Call(c, f, Running))
  }

  /** What `route` decides before any handler runs; None lets the handler run. */
  function Gate(f: Frame, authenticated: bool, handlers: set<int>): Option<Reply> {
    if f.p.NotAnObject? then Some(Nack(Malformed))
    else if f.v != PROTOCOL_MAJOR_VERSION then Some(Close(CLOSE_INCOMPATIBLE_VERSION))
    else if !authenticated && f.t !in PRE_AUTH_TYPES then Some(Nack(NotAuthenticated))
    else if f.t !in handlers then Some(Nack(UnknownType))
    else None
  }

  function Route(g: State, c: Conn, f: Frame): State
    requires c in g.sessions
  {
    match Gate(f, g.sessions[c].authenticated, g.handlers)
    case Some(reply) => Log(g, Replied(c, f.mid, reply))
    case None => RunHandler(Log(g, Invoked(c, f)), c, f)
  }

  function Remember(g: State, c: Conn, mid: nat): State
    requires c in g.sessions
  {
    if mid > 0 then
      g.(sessions := g.sessions[c := g.sessions[c].(seenMids := g.sessions[c].seenMids + {mid})])
    else g
  }

  /** `onMessage` of a decoded frame. */
  function OnFrame(g: State, c: Conn, f: Frame): State
    requires c in g.sessions
  {
    var received := Log(g, Received(c, f));
    if f.mid > 0 && f.mid in g.sessions[c].seenMids then
      Log(received, Replied(c, f.mid, Nack(Replay)))
    else if f.t == PING then
      Log(Remember(received, c, f.mid), Replied(c, f.mid, Pong))
    else
      Route(Remember(received, c, f.mid), c, f)
  }

  function OnMessage(g: State, c: Conn, m: Message): State
    requires c in g.sessions
  {
    match m
    case Text => Log(g, Replied(c, 0, Close(CLOSE_UNSUPPORTED_VERSION)))
    case TooLarge => Log(g, Replied(c, 0, Nack(PayloadTooLarge)))
    case Undecodable => Log(g, Replied(c, 0, Nack(Malformed)))
    case Decoded(f) => OnFrame(g, c, f)
  }

  function SetStage(g: State, k: nat, stage: Stage): State
    requires k < |g.calls|
  {
    g.(calls := g.calls[k := g.calls[k].(stage := stage)])
  }

  /** Position of the first attached session with this id, or |attached|. */
  function FindSession(g: State, sessionId: string, from: nat): (i: nat)
    requires from <= |g.attached|
    ensures from <= i <= |g.attached|
    ensures i < |g.attached| ==> g.attached[i] in g.sessions && g.sessions[g.attached[i]].sessionId == sessionId
    ensures forall j :: from <= j < i && g.attached[j] in g.sessions ==>
              g.sessions[g.attached[j]].sessionId != sessionId
    decreases |g.attached| - from
  {
    if from == |g.attached| then from
    else if g.attached[from] in g.sessions && g.sessions[g.attached[from]].sessionId == sessionId then from
    else FindSession(g, sessionId, from + 1)
  }

  /** `authenticate`: promote the first attached session with the id. */
  function Promote(g: State, caller: Conn, sessionId: string, permissions: seq<string>): State {
    var i := FindSession(g, sessionId, 0);
    if i == |g.attached| then g
    else
      var c := g.attached[i];
      Log(g.(sessions := g.sessions[c := g.sessions[c].(authenticated := true, permissions := permissions)]),
          Promoted(c, caller, sessionId, permissions))
  }

  /** The Authenticate handler resumes with the token store's verdict. */
  function OnTokenChecked(g: State, k: nat, granted: Option<seq<string>>): State
    requires k < |g.calls| && g.calls[k].stage.Verifying?
  {
    var caller, sessionId := g.calls[k].conn, g.calls[k].stage.sessionId;
    var g1 := Log(g, VerdictOn(g, k, granted));
    if granted.None? || FindSession(g1, sessionId, 0) == |g1.attached| then
      SetStage(g1, k, Settling(Refusal(NotAuthenticated)))
    else
      SetStage(Promote(g1, caller, sessionId, granted.value), k, Settling(Success))
  }

  /** The result `route` works with once the handler has ended. */
  function ResultOf(call: Call, end: HandlerEnd): HandlerResult {
    if call.stage.Settling? then call.stage.result
    else if end.ThrowsOther? then Refusal(Malformed)
    else end.result
  }

  function Complete(g: State, k: nat, end: HandlerEnd): State
    requires k < |g.calls|
  {
    var call := g.calls[k];
    var result := ResultOf(call, end);
    var g1 := Log(g.(calls := RemoveAt(g.calls, k)), Returned(call.conn, call.frame, result));
    if result.Success? then
      if call.frame.mid > 0 then Log(g1, Replied(call.conn, call.frame.mid, Ack)) else g1
    else
      var reason := if result.reason.Unlisted? then Malformed else result.reason;
      Log(g1, Replied(call.conn, call.frame.mid, Nack(reason)))
  }

  function Detach(attached: seq<Conn>, c: Conn): seq<Conn> {
    if attached == [] then []
    else if attached[0] == c then Detach(attached[1..], c)
    else [attached[0]] + Detach(attached[1..], c)
  }

  function Step(g: State, e: Event): State {
    match e
    case Connects(c, sessionId, nonce) =>
      if c in g.sessions || nonce == "" then g
      else
        Log(g.(sessions := g.sessions[c := Session(sessionId, false, [], nonce, {})], attached := g.attached + [c]),
            Opened(c, nonce))
    case Receives(c, message) =>
      if c in g.sessions then OnMessage(g, c, message) else g
    case TokenChecked(k, granted) =>
      if k < |g.calls| && g.calls[k].stage.Verifying? then OnTokenChecked(g, k, granted) else g
    case HandlerEnds(k, end) =>
      if k < |g.calls| && !g.calls[k].stage.Verifying? then Complete(g, k, end) else g
    case SetsSessionId(c, sessionId) =>
      if c in g.sessions then g.(sessions := g.sessions[c := g.sessions[c].(sessionId := sessionId)]) else g
    case Detaches(c) => g.(attached := Detach(g.attached, c))
  }

  function Run(handlers: set<int>, es: seq<Event>): State {
    if es == [] then Init(handlers) else Step(Run(handlers, es[..|es| - 1]), es[|es| - 1])
  }
}
