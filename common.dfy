/** Small value types shared by the services: JavaScript's `null`-or-value
    and the outcome of an awaited call that may throw. */
module Common {

  /** A value or JavaScript `null`. */
  datatype Option<+T> = None | Some(value: T) {
    /** `x ?? d`: the value, or the default when `null`. */
    function GetOr(default: T): T {
      match this
      case Some(v) => v
      case None => default
    }
  }

  /** What an awaited remote call produced: a value, or an exception. */
  datatype Call<+T> = Returned(value: T) | Threw

  /** Minimum of two integers. */
  function Min(a: int, b: int): int {
    if a <= b then a else b
  }
}
