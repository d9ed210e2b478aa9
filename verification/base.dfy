/** Shared vocabulary of the model: optional values, results, the pair a
    state transition returns, user ids and the clock's units.

    Every timestamp is an integer number of milliseconds, the value of
    `Date.now()` (or of a `Date`) at the moment the request reads the clock. */
module Base {

  /** A value that may be absent: JavaScript's `null` / `undefined`. */
  datatype Option<+T> = None | Some(value: T) {

    /** The value, or `default` when absent (JavaScript's `x || default` for
        a value whose falsy forms all mean "absent"). */
    function GetOr(default: T): T {
      match this
      case Some(v) => v
      case None => default
    }
  }

  /** The outcome of a request: a reply, or the error the handler throws. */
  datatype Result<+T, +E> = Ok(value: T) | Err(error: E)

  /** A transition: the state after a request together with its reply. */
  datatype Step<+S, +R> = Step(state: S, reply: R)

  /** The string form of a database object id; the model treats it as opaque. */
  type UserId = string

  const SECOND_MS: int := 1000
  const MINUTE_MS: int := 60 * SECOND_MS
  const HOUR_MS: int := 60 * MINUTE_MS
  const DAY_MS: int := 24 * HOUR_MS

  /** JavaScript truthiness of an optional string: missing and "" are falsy. */
  predicate Present(s: Option<string>) {
    s.Some? && s.value != ""
  }
}
