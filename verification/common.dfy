/** Wire types and shared constants of the two ends of the protocol
    (packages/network/src/common, packages/protocol/src/types). */
module Common {
  datatype Option<+T> = None | Some(value: T)

  /** Wall-clock milliseconds; `real` because the jitter is a fraction of a millisecond. */
  type Millis = real

  /** A WebSocket connection, by the order in which it was opened. */
  type Conn = nat

  // Frame discriminators that the modelled code branches on.
  const HELLO := 0x01
  const AUTHENTICATE := 0x03
  const PAIR_REQUEST := 0x10
  const PAIR_RESPONSE := 0x12
  const PING := 0x20
  const MOUSE_MOVE := 0x40

  const PROTOCOL_MAJOR_VERSION := 1

  /** What the modelled code can tell apart about a decoded payload. A compressed
      frame can decode to something that is not a map, hence `NotAnObject`. */
  datatype Payload =
    | NotAnObject
    | Credentials(sessionId: string, sessionToken: string, challenge: Option<string>)
    | Body(data: string)

  datatype Frame = Frame(t: int, mid: nat, v: int, p: Payload)

  const MAX_ACK_ATTEMPTS: nat := 4
  const RETRY_BASE_MS := 250
  const RETRY_CEILING_MS := 3000

  /** `Math.random() * RETRY_JITTER_MS`. */
  type Jitter = r: real | 0.0 <= r < 250.0 witness 0.0

  function Pow2(n: nat): nat { if n == 0 then 1 else 2 * Pow2(n - 1) }

  function RetryDelay(attempt: nat, jitter: Jitter): Millis {
    var grown := RETRY_BASE_MS * Pow2(attempt);
    (if grown <= RETRY_CEILING_MS then grown else RETRY_CEILING_MS) as real + jitter
  }

  const CLOSE_UNSUPPORTED_VERSION := 4002
  const CLOSE_REVOKED := 4003
  const CLOSE_INCOMPATIBLE_VERSION := 4004

  /** The machine-readable refusal reasons of NACK_REASONS, or any other string. */
  datatype NackReason =
    | Malformed
    | NotAuthenticated
    | PermissionDenied
    | PayloadTooLarge
    | UnknownType
    | Replay
    | TooManyConnections
    | Unlisted(name: string)

  function RemoveAt<T>(s: seq<T>, k: nat): seq<T>
    requires k < |s|
  {
    s[..k] + s[k + 1..]
  }
}
