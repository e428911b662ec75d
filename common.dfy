/** Shared vocabulary: optional values, the service layer's error kinds, time units. */
module Common {

  datatype Option<+T> = None | Some(value: T)

  /** The exceptions the Django services raise, by the HTTP answer they become.
      `Crash` stands for an unhandled Python error (AttributeError, TypeError,
      ValueError), which surfaces as a server error. */
  datatype Err =
    | PermissionDenied(msg: string)
    | NotFound(msg: string)
    | Invalid(msg: string)
    | Crash(msg: string)

  /** `data.get(key, 0)`: an absent number counts as zero. */
  function OrZero(x: Option<int>): int {
    if x.Some? then x.value else 0
  }

  datatype Result<+T> = Ok(value: T) | Fail(err: Err)

  /** Time is an integer number of seconds. */
  const MINUTE: int := 60
  const HOUR: int := 3600
  const DAY: int := 86400
  const WEEK: int := 7 * DAY
}
