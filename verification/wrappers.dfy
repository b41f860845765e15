/** Optional values and error-carrying results, used in place of Python's
    `None` and of the exceptions the bot raises or swallows. */
module Wrappers {

  /** A value that may be absent (Python `None`). */
  datatype Option<+T> = None | Some(value: T) {

    /** The wrapped value, or `default` when absent (Python's `x or default`
        for a key looked up with `dict.get(key, default)`). */
    function GetOr(default: T): T {
      match this
      case Some(v) => v
      case None => default
    }
  }

  /** Either a value or the error that stopped the computation. */
  datatype Result<+R, +E> = Success(value: R) | Failure(error: E)
}
