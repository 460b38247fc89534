/** The storage contract the decision engine depends on (pkg/ratelimiter/storage.go).
    Every backend operation either applies its whole effect and answers `Ok`, or
    reports `Unavailable` (the backend could not be reached). Durations and
    instants are integers counted in nanoseconds, as Go's `time.Duration` is. */
module Storage {

  /** One second, in nanoseconds. */
  const Second: int := 1_000_000_000

  /** The answer of one storage operation: a value, or the single error kind. */
  datatype Outcome<+T> = Ok(value: T) | Unavailable

  /** The storage operations a rate-limit check calls, as calls a client makes
      (`Get` and `Close` are never part of a check). */
  datatype Call =
    | IncrementCall(key: string, window: int)
    | SetBlockCall(key: string, duration: int)
    | IsBlockedCall(key: string)

  /** What a backend answers to the (at most) three calls of one rate-limit check:
      `IsBlocked`, then `Increment`, then `SetBlock`. A reply for a call that is
      never made is simply not consulted. */
  datatype Replies = Replies(isBlocked: Outcome<bool>, increment: Outcome<int>, setBlock: Outcome<()>)

  /** The reply a backend gave to `call`, reduced to "did it fail". */
  predicate Fails(replies: Replies, call: Call)
  {
    match call
    case IsBlockedCall(_) => replies.isBlocked.Unavailable?
    case IncrementCall(_, _) => replies.increment.Unavailable?
    case SetBlockCall(_, _) => replies.setBlock.Unavailable?
  }
}
