# Verified model of the KBM Remote protocol core

A Dafny model of the parts of KBM Remote in which state outlives a single call: the sender's
reliable-frame outbox, the receiver's gateway and router, the two of them over an unreliable
network, the authentication handshake, the flood guard, the device registry, the frame codecs, and
the input pipeline from the frame coalescer to the mouse and keyboard controllers.

`dafny verify dfyconfig.toml` checks everything.

## How it is organised

Each stateful part appears twice. A *step function* on values says what one event does, and lemmas
about `Run` say what holds after every sequence of events. A *class* with the source's fields
updates them in place, and each of its methods is proved to take exactly the step of its event
(`view == Step(old(view), event)`), so what is proved about runs holds of the object.

| file | part |
|---|---|
| `common.dfy` | wire types, retry delays, close codes |
| `outbox.dfy`, `client_connection.dfy` | the sender's outbox: state machine, then the object with its shared pending records |
| `outbox_effects.dfy` | what each event does to the outbox, and which event ends a send with which result |
| `gateway.dfy`, `wss_gateway.dfy` | replay guard, pre-authentication gate, asynchronous handlers, Hello/Authenticate: state machine, then the object |
| `gateway_causes.dfy`, `gateway_results.dfy`, `gateway_answers.dfy` | every entry of the gateway's history traced to an event; what an Ack is worth |
| `gateway_effects.dfy` | the converse: what each event does to the gateway, for every mid |
| `gateway_counts.dfy`, `gateway_handled.dfy` | how often, and exactly when, a handler runs |
| `gateway_auth.dfy`, `gateway_nonce.dfy`, `gateway_echo.dfy` | with what authority a session acts, and what becomes of its nonce |
| `delivery.dfy`, `delivery_limits.dfy` | both ends over a network that drops, duplicates, delays and reorders, across reconnects; and what the protocol does not give |
| `coalescer.dfy`, `coalescer_groups.dfy` | batching of input frames: what it must not change, and exactly which frames it sends |
| `scroll_batching.dfy` | batching together with the receiver's scroll clamp |
| `ip_guard.dfy`, `device_registry.dfy`, `codec.dfy` | connection cap and ban, pairing and tokens, the two codecs |
| `receiver.dfy` | the gateway with the registry as its token store |
| `latency.dfy`, `mouse.dfy`, `keyboard.dfy`, `clipboard.dfy`, `utf8.dfy` | round-trip metrics, drag and throttle, key combinations, clipboard history, byte counting |

Time is an input: events carry the clock's reading and the retry jitter, which is any value the
random source can yield. MessagePack and DEFLATE are functions about which only round trips are
taken for granted (`Codec.Sound`); hashing is any function, collision-free where a lemma says so;
`localeCompare` is any total preorder.

## Where the code and its documentation part

The model follows the code. Each point below is a proved statement.

- The protocol document says that a network delivering an original and its retry cannot produce
  double side effects (docs/Protocol-Documentation.md, section 5.2). The replay guard lives per
  connection: `Delivery.HandledTwiceExactly` says that a frame is handled more than once exactly
  when copies of it get through on two connections, and `DeliveryLimits.HandledAgain` is a run in
  which a retry after a reconnect does.
- A transient Nack takes a send out of the outbox before re-arming it, so a later Ack is ignored.
  `Outbox.OkExactly` says exactly when a send ends ok, and `DeliveryLimits.FailedButHandled` is a
  run in which a frame is handled, acknowledged and reported as failed.
- The document gives the retry policy as four delays over about 10 s. The code waits three times
  before giving up, and `Outbox.ResolvesInTime` bounds the whole by 4250 ms, or 6500 ms with a
  transient Nack; `DeliveryLimits.BoundIsTight` runs both ends to show that 6500 cannot be lowered.
- The Hello handler consumes the nonce it discloses, so an Authenticate that echoes it never
  reaches token verification (`GatewayAuth.DisclosedNonceNeverVerifies`). If all peers answer as
  the sender does, no session is ever promoted and no operational handler ever runs
  (`GatewayEcho.EchoingNeverOperates`).
- The registry's header says that revoking a device instantly kills its session (lines 13-15). No
  authentication is ever taken back (`GatewayAuth.RightsNeverWithdrawn`), so an operational handler
  can start after the revocation (`Receiver.RevokedStillOperates`); what revocation does is keep
  the token store from ever approving the id again (`Receiver.RevokedNeverApproved`).
- The fast encoder promises the baseline's wire format. `Codec.BaselineReadsFastFrames`: the
  baseline decoder, which both ends use, reads a fast-encoded frame exactly when its payload
  encodes to at most 256 bytes and has no `__raw` entry of its own.
- The per-address connection count is decremented by both `error` and `close` of a socket and
  deleted by a ban. `IpGuard.ExactExactly` says exactly when it is the number of open sockets, and
  `IpGuard.CapHoldsExactly` that the cap holds from then on exactly when it is;
  `IpGuard.CapCanBeExceeded` opens any number of sockets under a count of zero.
- Batching drops absolute coordinates of a `MouseMove` and missing or unknown fields of others:
  `Coalescer.FaithfulExactly`. The receiver clamps a batched scroll once instead of each part:
  `ScrollBatching.BatchedScrollExactly`.
- The mouse controller's header says that the latest sample is always honoured; the first of a
  burst is (`Mouse.MoveExactly`, `Mouse.LatestSampleCanBeLost`). A resolved coordinate can
  be one unit past the display (`Mouse.ProjectionRange`).
- The loss fraction is described as that of the last 60 s, but counts every pong since the reset:
  `Latency.LossNeverOverstated` says when the two agree.
- `utf8ByteLength` is exact on well-formed text, and on ill-formed text exactly when what it hides
  and what it adds cancel (`Utf8.CountsExactly`, `Utf8.IllFormedMiscounts`).
- A shortcut that contains a key the user is holding releases it
  (`Keyboard.DownRestoredExactly`).

## Model

| member | source | states |
|---|---|---|
| `Outbox.OutboxAlwaysOk` | packages/network/src/client/ClientConnection.ts:264-278 | under any order of sends, acks, nacks, timers, closes and dispose: a send is resolved exactly when it has no live timer, at most once, with transmissions ≤ attempts ≤ 4 |
| `Outbox.AtMostFourCopies` | packages/network/src/client/ClientConnection.ts:548-588 | at most attempts ≤ 4 copies of a reliable frame ever reach a socket, and none carries a mid not given out |
| `Outbox.SendsPersist` | packages/network/src/client/ClientConnection.ts:576-596 | a send keeps its frame, and its result once it has one |
| `Outbox.ResultsComeFrom` | packages/network/src/client/ClientConnection.ts:425-451 | only an Ack for its own mid resolves a send ok, only a Nack for its own mid as refused |
| `Outbox.TransientNackIsFinal` | packages/network/src/client/ClientConnection.ts:436-449 | a send out of the map can only still end as exhausted |
| `Outbox.OkExactly` | packages/network/src/client/ClientConnection.ts:425-434 | a send ends ok if and only if an Ack for its mid arrived while it was in the outbox |
| `OutboxEffects.ResultExactly` | packages/network/src/client/ClientConnection.ts:425-473 | over every run and for every result: a send has it if and only if an event gave it just that one, an Ack or terminal nack for its mid that met it in the outbox, its fourth deadline, or an AuthFailed, dispose, close 4003, close 4004 or close while disposed that met it in the outbox |
| `OutboxEffects.FatalEffects` | packages/network/src/client/ClientConnection.ts:590-596 | after AuthFailed, dispose or a fatal close every send that was in the outbox has left it, has no timer and has the one result authFailed, disposed, revoked (4003) or fatal; every other send is as it was |
| `OutboxEffects.ClosingEffects` | packages/network/src/client/ClientConnection.ts:405-410 | besides, AuthFailed closes the socket, dispose and a close drop it |
| `OutboxEffects.OtherCloseKeeps` | packages/network/src/client/ClientConnection.ts:459-473 | any other close leaves every send waiting |
| `OutboxEffects.ReliableEffects` | packages/network/src/client/ClientConnection.ts:264-278 | the next mid, a first attempt, a deadline 500 ms plus jitter away, and the frame at the encoder if the socket is open |
| `OutboxEffects.UnreliableEffects` | packages/network/src/client/ClientConnection.ts:256-258 | exactly this type and payload, with mid 0, reaches the current socket at once, if it is open |
| `OutboxEffects.TimerEffects` | packages/network/src/client/ClientConnection.ts:576-588 | a due timer sends the frame again and waits 1 s, then 2 s, plus jitter; the fourth attempt ends the send as exhausted |
| `OutboxEffects.AckEffects` | packages/network/src/client/ClientConnection.ts:425-434 | an Ack settles the send in the outbox under its mid, and nothing else |
| `OutboxEffects.NackEffects` | packages/network/src/client/ClientConnection.ts:436-451 | permissionDenied and malformed refuse the send; any other reason takes it out of the outbox and re-arms it for the delay of its last attempt |
| `OutboxEffects.SocketEffects` | packages/network/src/client/ClientConnection.ts:297-299 | a new socket becomes current, except on a disposed client |
| `OutboxEffects.EncodeEffects` | packages/network/src/client/ClientConnection.ts:569-573 | an encoded frame leaves the encoder for the current socket, or for none |
| `Outbox.RearmingCostsBudget` | packages/network/src/client/ClientConnection.ts:436-448 | 2·(4 − attempts) + (in map ? 1 : 0) never grows and drops on every retry and on every nack that reaches the send |
| `Outbox.DelayBounds` | packages/network/src/common/index.ts:75-85 | the three delays lie in [500, 750), [1000, 1250) and [2000, 2250) ms |
| `Outbox.RunsStayOnTime` | packages/network/src/client/ClientConnection.ts:576-588 | with timers on time, every armed deadline stays within the delays so far |
| `Outbox.DetachedByNack` | packages/network/src/client/ClientConnection.ts:436-449 | an unresolved send is out of the map only if a transient nack for its own mid arrived |
| `Outbox.ResolvesInTime` | packages/network/src/client/ClientConnection.ts:576-588 | every reliable send resolves within 6500 ms, and within 4250 ms if no transient nack for its mid ever arrived |
| `Connection.ClientConnection.SendReliable` | packages/network/src/client/ClientConnection.ts:264-278 | registers, transmits and arms a fresh mid: the outbox's step, invariant kept |
| `Connection.ClientConnection.SendFrame` | packages/network/src/client/ClientConnection.ts:548-574 | drops the frame when the socket is not open, sends mid 0 at once, hands any other to the encoder |
| `Connection.ClientConnection.SendUnreliable` | packages/network/src/client/ClientConnection.ts:256-258 | fire and forget with mid 0, outbox untouched |
| `Connection.ClientConnection.Reschedule` | packages/network/src/client/ClientConnection.ts:576-588 | counts the attempt, then gives up and leaves the map or re-arms |
| `Connection.ClientConnection.TimerFires` | packages/network/src/client/ClientConnection.ts:584-587 | the callback works on the captured record, in the map or not |
| `Connection.ClientConnection.HandleAck` | packages/network/src/client/ClientConnection.ts:425-434 | settles the send in the map under that mid, ignores any other mid |
| `Connection.ClientConnection.HandleNack` | packages/network/src/client/ClientConnection.ts:436-451 | terminal reasons settle, others detach and re-arm |
| `Connection.ClientConnection.HandleAuthFailed` | packages/network/src/client/ClientConnection.ts:405-410 | fails the outbox and starts to close the socket |
| `Connection.ClientConnection.OpenSocket` | packages/network/src/client/ClientConnection.ts:297-299 | the new socket replaces the old, outbox untouched |
| `Connection.ClientConnection.EncodeResolves` | packages/network/src/client/ClientConnection.ts:569-573 | an encoded frame goes to whatever socket is current by then |
| `Connection.ClientConnection.FailAllPending` | packages/network/src/client/ClientConnection.ts:590-596 | the loop settles exactly the sends in the map and empties it |
| `Connection.ClientConnection.OnSocketClose` | packages/network/src/client/ClientConnection.ts:459-473 | fatal codes and a disposed client fail the outbox, other closes keep it |
| `Connection.ClientConnection.TearDown` | packages/network/src/client/ClientConnection.ts:190-198 | dispose fails the outbox and drops the socket |
| `GatewayCounts.AtMostOnceAndAnswered` | packages/network/src/server/WssGateway.ts:299-347 | per connection and mid > 0: one handler start at most; copies received = replies + handlers in flight; at most one reply besides replay nacks |
| `GatewayHandled.HandledExactly` | packages/network/src/server/WssGateway.ts:299-346 | a handler ran for mid > 0 on a connection if and only if a copy arrived there that was no replay, no Ping, and passed the gates |
| `GatewayAnswers.AcksAreGrounded` | packages/network/src/server/WssGateway.ts:345-379 | every Ack answers a received frame with that mid, on that connection, whose handler was run and, by the event that ended it, ended well |
| `GatewayCauses.EveryEntryCaused` | packages/network/src/server/WssGateway.ts:270-379 | every opening, receipt, handler start, disclosure, verification, verdict, promotion, result and reply in the history was brought about by an event of the run on which the source does just that in that state |
| `GatewayEffects.NothingIsDropped` | packages/network/src/server/WssGateway.ts:299-347 | in every run every frame that arrives, reliable or not, is handled, if the session it met lets it pass, or else answered with the reply that refuses it |
| `GatewayEffects.FrameEffects` | packages/network/src/server/WssGateway.ts:299-347 | a decoded frame of any mid: its mid remembered, and either its handler started with exactly one new call (Hello disclosing the nonce, a nonce-bearing Authenticate starting verification) or the one reply that refuses it; no other session touched |
| `GatewayEffects.UnreadEffects` | packages/network/src/server/WssGateway.ts:270-297 | text, oversized and undecodable messages draw their one reply and change nothing else |
| `GatewayEffects.ConnectEffects` | packages/network/src/server/WssGateway.ts:233-256 | a new session, unauthenticated and without rights, last in the table |
| `GatewayEffects.VerdictEffects` | apps/receiver/src/main/networkService.ts:224-257 | a grant promotes the first attached session with the id, however many are attached, to exactly the granted permissions, and the call succeeds; a refusal, or a grant for an id nobody attached has, fails it |
| `GatewayEffects.EndEffects` | packages/network/src/server/frameRouter.ts:121-138 | the end of a handler is recorded, reported unless it is a success of an unreliable frame, and the call is over |
| `GatewayEffects.RenameEffects` | packages/network/src/server/WssGateway.ts:335-337 | a new session id is that connection's alone |
| `GatewayEffects.DetachEffects` | packages/network/src/server/WssGateway.ts:608-614 | a detached connection loses its place, the others stay in their order |
| `GatewayResults.AckedExactly` | packages/network/src/server/frameRouter.ts:121-138 | a reliable frame is acknowledged if and only if a handler for its mid ended well there: returned or threw ok, answered Hello, or promoted the session its Authenticate names |
| `GatewayResults.ReturnsAreReal` | packages/network/src/server/frameRouter.ts:121-133 | a recorded ok is what the handler's end made of it |
| `GatewayResults.CallsAlwaysGrounded` | apps/receiver/src/main/networkService.ts:165-257 | Hello settles only on ok; Authenticate on ok only after promoting the session it names, else on notAuthenticated |
| `GatewayAnswers.LogGrows` | packages/network/src/server/WssGateway.ts:270-308 | history only grows, and a receipt is recorded only by receiving |
| `GatewayAuth.OperationalFramesNeedApproval` | apps/receiver/src/main/networkService.ts:191-257 | behind a handler outside the four pre-auth types: a promotion of its session, which was then the first with that id; before that the token store's approval of exactly those permissions; before that an Authenticate received on the caller with that id, that token and the caller's own nonce, no Hello having been handled there |
| `GatewayAuth.PromotionsNeedApproval` | packages/network/src/server/WssGateway.ts:438-448 | the same chain, with its causes, behind every promotion |
| `GatewayAuth.EveryEntryJustified` | packages/network/src/server/frameRouter.ts:47-119 | every handler start, promotion, verdict, verification and disclosure has its justification earlier in the history and its cause in an event: the connection promoted, the credentials received |
| `GatewayAuth.AlwaysAuthOk` | packages/network/src/server/WssGateway.ts:432-448 | the invariant behind it, verdicts and causes included, over every run and all connections |
| `GatewayAuth.VerdictsComeFromStore` | packages/network/src/server/authMiddleware.ts:70-81 | every verdict is the store's answer, at that point of the history, to a call waiting with those credentials |
| `GatewayAuth.NonceUsedOnce` | apps/receiver/src/main/networkService.ts:165-222 | a connection's nonce is disclosed or verified at most once, and only by the first Hello or Authenticate handled there, refused ones included |
| `GatewayNonce.NonceExactly` | packages/network/src/server/WssGateway.ts:338-342 | a session's challenge is not blank if and only if no Hello and no Authenticate was handled on it, and is then the nonce of its opening |
| `GatewayNonce.OnlyFirstUses` | apps/receiver/src/main/networkService.ts:204-222 | whatever uses the nonce is the first Hello or Authenticate handler of its connection |
| `GatewayNonce.VerificationExactly` | apps/receiver/src/main/networkService.ts:193-224 | the token store is asked about given credentials if and only if an Authenticate with them gets through guard and gates, presents the nonce of the opening, and is the first Hello or Authenticate handled there |
| `GatewayAuth.DisclosedNonceNeverVerifies` | apps/receiver/src/main/networkService.ts:181-222 | once HelloAck has disclosed the nonce, no Authenticate on that connection reaches verification |
| `GatewayEcho.EchoingNeverVerifies` | packages/network/src/client/ClientConnection.ts:234-249 | a connection whose Authenticates carry no challenge or a disclosed one never gets the token store asked |
| `GatewayEcho.EchoingNeverOperates` | apps/receiver/src/main/networkService.ts:181-222 | if every connection is like that, no session is ever promoted and no operational handler ever runs |
| `Receiver.OperationalMeansEntitled` | apps/receiver/src/main/deviceRegistry.ts:213-245 | with the registry as token store, the same chain and causes; and when the verdict was given the promoted session's id was approved and not revoked, the received token was its last, and the permissions promoted were those last granted |
| `Receiver.AnswersExactly` | apps/receiver/src/main/deviceRegistry.ts:213-245 | the store grants a waiting call if and only if the registry's history entitles what it presents, and then exactly those permissions |
| `Receiver.EntitledIsPromoted` | apps/receiver/src/main/networkService.ts:224-257 | once the store has answered for an entitled call, the first attached session with its id is authenticated and holds exactly the permissions last granted |
| `Receiver.RevokedNeverApproved` | apps/receiver/src/main/deviceRegistry.ts:151-158 | no verdict after the revocation of its id approves |
| `Receiver.RevokedStillOperates` | apps/receiver/src/main/deviceRegistry.ts:13-15 | a run in which an operational handler starts for a device after its revocation |
| `Receiver.VerdictsAreEntitled` | packages/network/src/server/authMiddleware.ts:70-81 | every approving verdict rests on the registry's history at that moment |
| `Receiver.PartsRunOnTheirOwn` | apps/receiver/src/main/networkService.ts:224 | gateway and registry each do a run of their own, so their theorems carry over |
| `GatewayAuth.RightsComeFromPromotion` | packages/network/src/server/WssGateway.ts:438-448 | a session is authenticated if and only if it was promoted, and holds exactly the permissions of its latest promotion |
| `GatewayAuth.RightsNeverWithdrawn` | packages/network/src/server/WssGateway.ts:438-448 | once authenticated, a session stays so whatever happens |
| `Wss.WssGateway.OnConnection` | packages/network/src/server/WssGateway.ts:233-256 | an accepted socket gets a fresh unauthenticated session with its nonce |
| `Wss.WssGateway.GuardReplay` | packages/network/src/server/WssGateway.ts:299-308 | tells a replay, remembers any other mid above 0 |
| `Wss.WssGateway.OnDecoded` | packages/network/src/server/WssGateway.ts:299-347 | replay, Ping or route: exactly the frame's step |
| `Wss.WssGateway.OnMessage` | packages/network/src/server/WssGateway.ts:270-347 | text, oversized, undecodable, replayed, Ping and routed frames: exactly the gateway's step |
| `Wss.WssGateway.RouteFrame` | packages/network/src/server/frameRouter.ts:95-121 | malformed, version, pre-auth and unknown-type gates in that order, then the handler |
| `Wss.WssGateway.CallHandler` | apps/receiver/src/main/networkService.ts:165-224 | Hello discloses and blanks the nonce; Authenticate blanks it and verifies only a matching one |
| `Wss.WssGateway.ConsumeChallenge` | packages/network/src/server/WssGateway.ts:338-342 | yields the nonce and blanks it |
| `Wss.WssGateway.Authenticate` | packages/network/src/server/WssGateway.ts:438-448 | the scan promotes the first attached session with the id, and only it |
| `Wss.WssGateway.TokenArrives` | apps/receiver/src/main/networkService.ts:224-257 | promotes and succeeds exactly when the token passed and a session with the id is attached |
| `Wss.WssGateway.HandlerSettles` | packages/network/src/server/frameRouter.ts:121-138 | Ack for an ok result of a reliable frame, Nack with a listed reason otherwise |
| `Wss.WssGateway.RemoveSession` | packages/network/src/server/WssGateway.ts:608-614 | the table forgets the connection, its listeners keep their session |
| `Delivery.EndsRunOnTheirOwn` | packages/network/src/client/ClientConnection.ts:368-457 | inside the two-party system each end does a run of its own, so its theorems carry over |
| `Delivery.AlwaysLinked` | packages/network/src/client/ClientConnection.ts:264-270 | mids are never confused: every frame in flight or received is the one its mid names |
| `Delivery.OkMeansHandled` | packages/network/src/client/ClientConnection.ts:425-434 | ok: true only if, on some connection of this client, a handler was run on exactly this frame and ended well, by what it returned or threw |
| `Delivery.DeliveryEffects` | packages/network/src/server/WssGateway.ts:299-347 | a frame the network delivers to an open connection is received as sent, and handled or answered with the reply that refuses it |
| `Delivery.AnswerEffects` | packages/network/src/client/ClientConnection.ts:425-451 | an Ack or terminal nack that reaches the client while the send is in the outbox ends it with just that result |
| `Delivery.HandledAtMostOncePerConnection` | packages/network/src/server/WssGateway.ts:299-308 | whatever the network repeats, two handler runs for one mid are on two connections |
| `Delivery.HandledTwiceExactly` | packages/network/src/server/WssGateway.ts:249 | a reliable frame is handled more than once if and only if copies get through replay guard and gates on two connections of the client |
| `Delivery.EchoingNeverOperates` | packages/network/src/client/ClientConnection.ts:383-396 | in the two-party system too, peers that echo disclosed nonces never get an operational handler to run |
| `Delivery.RefusedMeansNotAcked` | packages/network/src/client/ClientConnection.ts:442-445 | a reported refusal was sent on a connection that never acknowledges that frame |
| `DeliveryLimits.HandledAgain` | packages/network/src/server/WssGateway.ts:249 | an on-time run in which one send is handled on two connections |
| `DeliveryLimits.FailedButHandled` | packages/network/src/client/ClientConnection.ts:440-447 | an on-time run in which a send is handled, its Ack is sent, and it is reported as exhausted |
| `DeliveryLimits.BoundIsTight` | packages/network/src/common/index.ts:82-85 | for every slack, an on-time run of both ends that leaves a send unresolved at 6500 ms minus the slack |
| `Coalescer.BatchingIsInvisible` | packages/network/src/client/FrameCoalescer.ts:64-148 | for every interleaving of faithful frames and flushes, then dispose: any receiver ends as with the raw stream and meets every click and key in the same cursor state |
| `Coalescer.FaithfulExactly` | packages/network/src/client/FrameCoalescer.ts:97-141 | a frame survives batching for every receiver if and only if it is faithful |
| `Coalescer.NeverMoreFrames` | packages/network/src/client/FrameCoalescer.ts:109-142 | frames sent plus frames due never exceed frames offered |
| `CoalescerGroups.SentExactly` | packages/network/src/client/FrameCoalescer.ts:64-148 | over every run: what has been sent is what the ended groups of the calls amount to, in order, and nothing of the open group; a flush or dispose then sends just that: summed deltas, last positions, summed scrolls per axis |
| `CoalescerGroups.OneFramePerGroup` | packages/network/src/client/FrameCoalescer.ts:90-142 | exactly one move or drag frame has been sent per ended group of them, however many frames it had |
| `CoalescerGroups.DisposeIsFinal` | packages/network/src/client/FrameCoalescer.ts:145-148 | whatever is offered or flushed after dispose, nothing more is sent |
| `Coalescer.FrameCoalescer.Offer` | packages/network/src/client/FrameCoalescer.ts:64-88 | the object's send is the step; distinct events flush first |
| `Coalescer.FrameCoalescer.AccumulateFrame` | packages/network/src/client/FrameCoalescer.ts:90-107 | a change of kind flushes, then the frame is added |
| `Coalescer.FrameCoalescer.FlushBatch` | packages/network/src/client/FrameCoalescer.ts:109-142 | sends what the batch holds, vertical scroll first, zero sums not at all |
| `Coalescer.FrameCoalescer.Close` | packages/network/src/client/FrameCoalescer.ts:145-148 | flushes and stops accepting |
| `ScrollBatching.BatchedScrollExactly` | packages/input-provider/src/controllers/MouseController.ts:124-130 | any scrolls keep their clamped total through batching if and only if their sum exceeds the clamp by as much as its parts do: within-clamp parts, iff the sum is within it; one direction, iff it is or at most one is not zero |
| `IpGuard.BannedExactly` | packages/network/src/server/WssGateway.ts:211-222 | refused as banned if and only if the full log holds a failure under ten minutes old that was at least the tenth in its own minute |
| `IpGuard.AdmittedExactly` | packages/network/src/server/WssGateway.ts:211-231 | over every run: a connection is let in and counted if and only if fewer than 32 are counted and the full log holds no failure under ten minutes old that was at least the tenth in its own minute; otherwise nothing changes |
| `IpGuard.EndEffects` | packages/network/src/server/WssGateway.ts:470-477 | the end of a socket takes one off its own address, if there is one, and touches no other address, failure or ban |
| `IpGuard.FailureEffects` | packages/network/src/server/WssGateway.ts:487-505 | a failure concerns its own address only |
| `IpGuard.PruningLosesNothing` | packages/network/src/server/WssGateway.ts:492-496 | pruning at every failure equals pruning the full log once |
| `IpGuard.RecentExactly` | packages/network/src/server/WssGateway.ts:494 | the window filter keeps every later failure as often as it occurs, and no other |
| `IpGuard.CountNeverOver` | packages/network/src/server/WssGateway.ts:223-231 | the count never exceeds 32 nor the sockets open from the address |
| `IpGuard.ExactExactly` | packages/network/src/server/WssGateway.ts:254-262 | the count is right throughout a run if and only if no open socket errors and no ban fires while one is open |
| `IpGuard.CapHoldsExactly` | packages/network/src/server/WssGateway.ts:223-231 | from any point of a run on, 32 bounds the open sockets through every drift-free continuation if and only if the count is exact there |
| `IpGuard.CapCanBeExceeded` | packages/network/src/server/WssGateway.ts:258-262 | rounds of one socket that stays and one that errs and closes leave any number open under a count of zero |
| `IpGuard.FloodGuard.Admit` | packages/network/src/server/WssGateway.ts:214-231 | accepts exactly when neither banned nor at the cap, and counts it |
| `IpGuard.FloodGuard.DecrementIpCount` | packages/network/src/server/WssGateway.ts:470-477 | one less, gone at zero |
| `IpGuard.FloodGuard.RecordAuthFailure` | packages/network/src/server/WssGateway.ts:487-505 | pruned list, ban from the tenth on, reported expiry in force |
| `DeviceRegistry.VerifiesExactly` | apps/receiver/src/main/deviceRegistry.ts:210-245 | a token passes if and only if the id was approved, never revoked, and the token is the nonempty one last issued or stored; it yields exactly the permissions last granted |
| `DeviceRegistry.AlwaysRegistryOk` | apps/receiver/src/main/deviceRegistry.ts:131-191 | the registry agrees with its history in every run, and at most five requests are pending |
| `DeviceRegistry.TrustedExactly` | apps/receiver/src/main/deviceRegistry.ts:131-158 | in every run a device is trusted if and only if its last approval or revocation was an approval |
| `DeviceRegistry.FactsExactly` | apps/receiver/src/main/deviceRegistry.ts:131-191 | over every run the history that the other results speak of holds a fact (token issued or stored, approval, grant, revocation) if and only if a call brought it about |
| `DeviceRegistry.PruneEffects` | apps/receiver/src/main/deviceRegistry.ts:118-121 | in every run pruning drops a front part of the requests, all of them expired, and keeps the rest, none of them expired |
| `DeviceRegistry.RevokeEffects` | apps/receiver/src/main/deviceRegistry.ts:151-158 | a revoked device is unknown and its id revoked, nobody else's; revoking an unknown device does nothing |
| `DeviceRegistry.GrantEffects` | apps/receiver/src/main/deviceRegistry.ts:160-165 | the known ones of the list, as often as listed, replace the permissions of that device alone; name, token and salt stay |
| `DeviceRegistry.StoreEffects` | apps/receiver/src/main/deviceRegistry.ts:246-255 | a stored token goes to the trusted device, else to the pending request, else nowhere |
| `DeviceRegistry.RequestEffects` | apps/receiver/src/main/deviceRegistry.ts:167-191 | a request joins the end of the last five, to expire in ten minutes, with its token; one that has to make room loses its own; nothing else changes |
| `DeviceRegistry.ApproveEffects` | apps/receiver/src/main/deviceRegistry.ts:131-149 | a pending request becomes a trusted device of that id and name with mouse and keyboard and the request's token, and leaves the pending list |
| `DeviceRegistry.OldestMakesRoom` | apps/receiver/src/main/deviceRegistry.ts:180-185 | in every run the request that makes room for a sixth is one that expires first |
| `DeviceRegistry.RequestedTenMinutesBefore` | apps/receiver/src/main/deviceRegistry.ts:171-179 | in every run a pending request was made exactly ten minutes before it expires |
| `DeviceRegistry.KnownExactly` | apps/receiver/src/main/deviceRegistry.ts:163 | the known permissions survive as often as given, no other does |
| `DeviceRegistry.UnexpiredIsSublist` | apps/receiver/src/main/deviceRegistry.ts:118-121 | pruning keeps a request if and only if it has not expired |
| `DeviceRegistry.DeviceTable.PrunePending` | apps/receiver/src/main/deviceRegistry.ts:118-121 | the deleting loop keeps exactly the unexpired requests, in order |
| `DeviceRegistry.DeviceTable.Request` | apps/receiver/src/main/deviceRegistry.ts:167-191 | the oldest request and its token make room, the new one is last |
| `DeviceRegistry.DeviceTable.ApproveDevice` | apps/receiver/src/main/deviceRegistry.ts:131-149 | a pending request becomes a trusted entry with its token, and the stored object itself is returned; otherwise nothing changes |
| `DeviceRegistry.DeviceTable.RevokeDevice` | apps/receiver/src/main/deviceRegistry.ts:151-158 | a trusted device is forgotten and its session revoked |
| `DeviceRegistry.DeviceTable.Grant` | apps/receiver/src/main/deviceRegistry.ts:160-165 | replaces the entry's permissions in place by the known ones of the list |
| `DeviceRegistry.DeviceTable.StoreToken` | apps/receiver/src/main/deviceRegistry.ts:246-255 | a trusted entry's token, else a pending request's, else nothing |
| `DeviceRegistry.DeviceTable.CheckToken` | apps/receiver/src/main/deviceRegistry.ts:213-245 | the branches of verifyToken compute its specification |
| `DeviceRegistry.DeviceTable.RevokeToken` | apps/receiver/src/main/deviceRegistry.ts:256-263 | revokes the id whether or not it is known |
| `Codec.InflateCapped` | packages/protocol/src/codec/index.ts:62-99 | for any chunking, the whole output if within the cap and the stream ends well, the zip-bomb error if over it, else a decompression error |
| `Codec.DecodesExactly` | packages/protocol/src/codec/index.ts:169-201 | for any bytes whatever: which of the five errors the baseline decoder gives, or the envelope read, its payload unpacked if packed |
| `Codec.DecodesFastExactly` | packages/protocol/src/codec/FastCodec.ts:121-155 | the same for the fast decoder, which asks less of an envelope and has one error for all of unpacking |
| `Codec.CompressesExactly` | packages/protocol/src/codec/index.ts:147-166 | either encoder compresses exactly the payloads above 256 bytes |
| `Codec.RoundTrip` | packages/protocol/src/codec/index.ts:147-201 | both decoders recover all five fields of a baseline-encoded frame if and only if its payload encodes to at most 4 MiB |
| `Codec.FastRoundTrip` | packages/protocol/src/codec/FastCodec.ts:77-155 | the same for the fast codec on its own output; a payload with a `__raw` of its own comes back if and only if those bytes unpack to it |
| `Codec.BaselineReadsFastFrames` | packages/protocol/src/codec/FastCodec.ts:93-115 | the baseline decoder recovers a fast-encoded frame if and only if it is small and has no `__raw` of its own, and rejects every other |
| `Codec.EchoUnpacks` | packages/protocol/src/codec/FastCodec.ts:81-84 | a payload that already is compressed bytes decodes to what they compress |
| `Latency.KeepsLastSamples` | packages/network/src/monitoring/index.ts:51-67 | the kept samples are the last min(32, n) of all round trips since the reset; a ping is open exactly while the log shows it unanswered |
| `Latency.PingsAreAccountedFor` | packages/network/src/monitoring/index.ts:51-67 | on the sender, open + answered + overwritten = sent, under any pongs |
| `Latency.PingsAreConserved` | packages/network/src/client/ClientConnection.ts:514-528 | with the sender's own numbering nothing is overwritten: open + answered = sent since the reset |
| `Latency.CountersExactly` | packages/network/src/monitoring/index.ts:41-78 | on either side the counters count what they are named after, and the last activity is the last arrival |
| `Latency.MedianExactly` | packages/network/src/monitoring/index.ts:81-85 | a value is the reported median if and only if ⌊n/2⌋ + 1 samples are at most it and n − ⌊n/2⌋ at least it |
| `Latency.RttOfRun` | packages/network/src/monitoring/index.ts:57-85 | so after any run, for the last min(32, n) round trips; null before the first |
| `Latency.LossNeverOverstated` | packages/network/src/monitoring/index.ts:96-121 | the estimate is in [0, 1], never above the share its comment promises, and equal to it if and only if no recent ping is open or every answered ping was sent in the last 60 s |
| `Latency.LatencyMetrics.RecordPingSent` | packages/network/src/monitoring/index.ts:51-54 | opens the ping and counts it |
| `Latency.LatencyMetrics.RecordPongReceived` | packages/network/src/monitoring/index.ts:57-67 | closes an open ping, keeps the window, ignores stale pongs |
| `Latency.LatencyMetrics.Rtt` | packages/network/src/monitoring/index.ts:81-85 | null without samples, else a sample with ⌊n/2⌋ + 1 samples at most it and n − ⌊n/2⌋ at least it |
| `Latency.LatencyMetrics.Clear` | packages/network/src/monitoring/index.ts:137-142 | forgets all but the last activity |
| `Latency.LatencyMetrics.LossFraction` | packages/network/src/monitoring/index.ts:100-121 | the loop over open pings computes the estimate |
| `Mouse.DragsAreBracketed` | packages/input-provider/src/controllers/MouseController.ts:134-179 | the provider sees (start move\* end)\*, unfinished if and only if `isDragActive` |
| `Mouse.ThrottleHolds` | packages/input-provider/src/controllers/MouseController.ts:184-192 | any window of length T holds at most ⌊T / throttle⌋ + 1 forwarded moves of all kinds, whatever the clock does |
| `Mouse.MoveExactly` | packages/input-provider/src/controllers/MouseController.ts:76-163 | a move, absolute, relative or drag, is forwarded if and only if it takes a slot (last one a throttle period old; for drags, one is open) and, unless relative, a display is connected; without a slot nothing changes |
| `Mouse.LatestSampleCanBeLost` | packages/input-provider/src/controllers/MouseController.ts:9-11 | a burst whose last sample never reaches the provider |
| `Mouse.ProjectionRange` | packages/input-provider/src/controllers/MouseController.ts:94-102 | a coordinate stays within [x, x + width], and within the display if and only if the point is not within half a unit of the far edge |
| `Mouse.ProjectionMonotone` | packages/input-provider/src/controllers/MouseController.ts:94-102 | larger fractions never land further left |
| `Mouse.PicksConnectedDisplay` | packages/input-provider/src/controllers/MouseController.ts:194-207 | the wanted display if connected, else the current one, else a primary, else the first |
| `Mouse.MovesStayOnDisplays` | packages/input-provider/src/controllers/MouseController.ts:76-103 | every position passed on is that of the request: the unit nearest to the requested point, limited to the display the request refers to, or one unit past it |
| `Mouse.RelativeEffects` | packages/input-provider/src/controllers/MouseController.ts:105-111 | a forwarded relative move tells the provider one move, by the integers nearest to both of its deltas |
| `Mouse.PositionEffects` | packages/input-provider/src/controllers/MouseController.ts:76-163 | how an absolute or drag move ends: each error, in order, and what it leaves behind |
| `Mouse.ClickEffects` | packages/input-provider/src/controllers/MouseController.ts:115-120 | a click is passed on with its own button and action, an unknown button is an error |
| `Mouse.ScrollEffects` | packages/input-provider/src/controllers/MouseController.ts:124-130 | a scroll goes out along its own axis and direction, limited to 15; one of nothing does not |
| `Mouse.DragEffects` | packages/input-provider/src/controllers/MouseController.ts:134-174 | a drag starts with left or middle while none is open and ends while one is; everything else is its error and changes nothing |
| `Mouse.FailedMoveUsesSlot` | packages/input-provider/src/controllers/MouseController.ts:76-91 | a move that fails for want of a display still throttles the next one |
| `Mouse.MouseController.AcceptMove` | packages/input-provider/src/controllers/MouseController.ts:184-192 | accepts and takes the slot exactly when it is free |
| `Mouse.MouseController.ResolveAbsoluteTarget` | packages/input-provider/src/controllers/MouseController.ts:87-103 | picked display and projected coordinates, or noDisplays |
| `Mouse.MouseController.DoMoveAbsolute` | packages/input-provider/src/controllers/MouseController.ts:76-84 | exactly the step, error included |
| `Mouse.MouseController.DoMoveRelative` | packages/input-provider/src/controllers/MouseController.ts:105-111 | exactly the step |
| `Mouse.MouseController.DoClick` | packages/input-provider/src/controllers/MouseController.ts:115-120 | exactly the step, error included |
| `Mouse.MouseController.DoScroll` | packages/input-provider/src/controllers/MouseController.ts:124-130 | sign times clamped size is the clamp to ±15; zero is not passed on |
| `Mouse.MouseController.DoDragStart` | packages/input-provider/src/controllers/MouseController.ts:134-146 | exactly the step, errors included |
| `Mouse.MouseController.DoDragMove` | packages/input-provider/src/controllers/MouseController.ts:148-163 | exactly the step, errors included |
| `Mouse.MouseController.DoDragEnd` | packages/input-provider/src/controllers/MouseController.ts:165-174 | exactly the step, errors included |
| `Keyboard.NormalizeSettles` | packages/input-provider/src/keyboard.ts:266-289 | normalised identifiers are legal and stay as they are, and differ from the input at most in the case of the last letter |
| `Keyboard.LegalExactly` | packages/input-provider/src/keyboard.ts:266-289 | a string is accepted if and only if it is a letter, a digit, Key and a letter, F1 to F24, or one of the listed names |
| `Keyboard.LettersAreUpper` | packages/input-provider/src/keyboard.ts:266-289 | a single letter, and the letter after Key, come out in upper case |
| `Keyboard.KeyOrderLaws` | packages/input-provider/src/controllers/KeyboardController.ts:161-168 | `keyOrder` is a total preorder, every modifier strictly before every other key, modifiers tie only with themselves, the collation orders the rest |
| `Keyboard.ModifierOrder` | packages/input-provider/src/controllers/KeyboardController.ts:161-170 | modifiers come in the order in which they are listed |
| `Keyboard.SortFacts` | packages/input-provider/src/controllers/KeyboardController.ts:66-70 | the sorted combination is an ordered permutation |
| `Keyboard.SortExactly` | packages/input-provider/src/controllers/KeyboardController.ts:69-70 | it is the only ordered list that keeps tying keys in their given order, whatever stable sort computes it |
| `Keyboard.PressExactly` | packages/input-provider/src/controllers/KeyboardController.ts:62-71 | press makes one call, with the only ordered list that keeps ties in order, or gives the error that fits and makes none |
| `Keyboard.ShortcutExactly` | packages/input-provider/src/controllers/KeyboardController.ts:136-147 | a shortcut refuses an illegal key before too few, else presses that same list and releases it in reverse |
| `Keyboard.ShortcutRestoresHeld` | packages/input-provider/src/controllers/KeyboardController.ts:136-147 | refused without a call, or pressed as a permutation, all held, and every key back to its prior count |
| `Keyboard.DownRestoredExactly` | packages/input-provider/src/controllers/KeyboardController.ts:142-146 | the set of keys down is restored if and only if none of the shortcut's keys was down before |
| `Keyboard.ModifiersLastUp` | packages/input-provider/src/controllers/KeyboardController.ts:141-146 | released in the reverse of the pressed order, in which modifiers come first |
| `Keyboard.KeyboardController.PressKeys` | packages/input-provider/src/controllers/KeyboardController.ts:62-71 | one press of the sorted combination, or the error and no call |
| `Keyboard.KeyboardController.Shortcut` | packages/input-provider/src/controllers/KeyboardController.ts:136-147 | the loop's calls are the press and the releases in reverse |
| `Clipboard.HistoryIsNewest` | apps/sender/src/store/clipboardStore.ts:44-55 | the stored history is the first 20 distinct texts of the reversed log of texts accepted since the last clear |
| `Clipboard.TruncateEarly` | apps/sender/src/store/clipboardStore.ts:50-53 | truncating at every step loses nothing against truncating once |
| `Clipboard.RememberedExactly` | apps/sender/src/store/clipboardStore.ts:44-76 | a text is remembered if and only if it was accepted since the last clear and fewer than 20 others after it |
| `Clipboard.RemoteIsLatest` | apps/sender/src/store/clipboardStore.ts:67-70 | the remote text is the last one set since the last clear |
| `Clipboard.AcceptedExactly` | apps/sender/src/store/clipboardStore.ts:44-54 | a text counts as accepted if and only if it was recorded since the last clear and takes at most 65,536 bytes in UTF-8 |
| `Clipboard.ClipboardStore.Record` | apps/sender/src/store/clipboardStore.ts:44-55 | drops oversized text, else moves it to the front and truncates |
| `Clipboard.ClipboardStore.Remember` | apps/sender/src/store/clipboardStore.ts:67 | sets the remote text and nothing else |
| `Clipboard.ClipboardStore.Forget` | apps/sender/src/store/clipboardStore.ts:69-70 | empties history and remote text |
| `Utf8.Utf8ByteLength` | packages/input-provider/src/keyboard.ts:332-345 | on well-formed text the loop yields the length of the UTF-8 encoding |
| `Utf8.CountsWellFormed` | packages/input-provider/src/keyboard.ts:332-345 | the count and section 3 of RFC 3629 agree on every well-formed UTF-16 string |
| `Utf8.CountsExactly` | packages/input-provider/src/keyboard.ts:332-345 | on every string: count = encoding + 1 if a high surrogate dangles at the end − bytes hidden behind unpaired ones, so it is exact if and only if those cancel |
| `Utf8.WellFormedHidesNothing` | packages/input-provider/src/keyboard.ts:338-341 | well-formed text has neither |
| `Utf8.AdditiveExactly` | packages/input-provider/src/keyboard.ts:334-342 | the count is additive for every continuation if and only if the loop does not run past the end, as on all well-formed text |
| `Utf8.CountedRange` | packages/input-provider/src/keyboard.ts:338-342 | on any string at most one byte too high and at least two thirds of the encoding |
| `Utf8.IllFormedMiscounts` | packages/input-provider/src/keyboard.ts:338-342 | both bounds are met |
| `Utf8.TypeText` | packages/input-provider/src/controllers/KeyboardController.ts:110-125 | text is typed if and only if it is not empty and its encoding, corrected by what the count hides and adds, is at most 4096 bytes; uncorrected on well-formed text and wherever the count is exact; no text above 6144 bytes ever is |

## Left out

- Sockets, TLS, certificate pinning, HTTP upgrade, logging and event callbacks: I/O.
- MessagePack and DEFLATE themselves: parameters of the codec with stated round trips.
- Envelope timestamps and the contents of Pong, HelloAck, AuthOk and AuthFailed: nothing modelled reads them.
- Reconnect scheduling, heartbeat, watchdog and authentication timeout: sockets open and close by events at any time, which covers every schedule.
- `clearReconnectTimer` resets the `reconnecting` flag that `scheduleReconnect` has just set, so the flag never guards anything; not modelled.
- Which address an authentication failure is charged to (`recordAuthFailureFor`): the flood guard takes the address as an input.
- Pairing codes, their rate limit and the event listeners of the registry.
- Loading and saving the registry, the clipboard history and settings: I/O.
- DeviceRegistry.VerifiesExactly: takes fresh random request ids for granted, as the source does.
- Codec.EncodeFrameFast: a `__raw` entry that the constructor of byte arrays refuses, such as a negative number; every other value converts as JavaScript converts it, by a parameter.
- The internal buffer that the fast encoder reuses (`toExactBytes`): encoders are functions here.
- Coalescer.BatchingIsInvisible: the receiver neither throttles nor rounds, and arithmetic is exact.
- Each controller call runs to its end before the next: the awaits inside one call are not interleaved with other calls.
- `holdKey`, its repeat timer and `releaseKey`: the timer is armed after an await, so a release during the delay is lost and no invariant of interest holds.
- Media keys, the providers, the platform adapters and the display API: recorded as a trace of calls or taken as inputs.
- Jitter and quality band of the metrics: one-line formulas.
- NaN, infinities and rounding of floating-point numbers: times, deltas and positions are reals.
- Permission scopes of individual input handlers: one-branch checks.
- Handlers that send an Ack or a Nack themselves: a handler answers through its result alone, where the clipboard handler also sends a Nack of its own after a local conflict.
- `sendReliable` has no caller in the applications; the runs of `DeliveryLimits` send a reliable Hello because its handler is registered and needs no authentication.
