/** Optional values and results, for the source's `None`s and error returns. */
module Wrappers {

  /** A value that may be absent (Python's `None`). */
  datatype Option<T> = None | Some(value: T) {

    /** The wrapped value, or `default` when absent (Python's `dict.get(key, default)`). */
    function GetOr(default: T): T {
      match this
      case Some(v) => v
      case None => default
    }
  }

  /** Either a value or an error (an early return with an error response, an exception). */
  datatype Result<T, E> = Success(value: T) | Failure(error: E)
}
