/** Option and Result, the failure-carrying values used throughout the model. */
module Wrappers {

  /** A value that may be missing: Python's `None` versus a present value. */
  datatype Option<+T> = None | Some(value: T) {

    /** The value, or `default` when there is none (Python's `x or default`
        when `x` can only be falsy by being absent). */
    function GetOr(default: T): T {
      match this
      case Some(v) => v
      case None => default
    }
  }

  /** The outcome of an operation that may raise: a value or the error it raised. */
  datatype Result<+R, +E> = Ok(value: R) | Err(error: E)

  /** The exceptions the modelled code can raise. */
  datatype Error =
    | ZeroDivision                  // `1 / 0` on a boost multiplier
    | FetchFailed(reason: string)   // the upstream page fetch raised
}
