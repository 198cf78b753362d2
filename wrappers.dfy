/** Optional and result values used by the client and downloader models. */
module Wrappers {

  /** A value that may be absent, as a Python `Optional`. */
  datatype Option<+T> = None | Some(value: T) {
    /** The wrapped value, or `default` when absent. */
    function GetOr(default: T): T {
      match this
      case Some(v) => v
      case None => default
    }
  }

  /** A computation that either produced a value or raised an exception with a message. */
  datatype Result<+R, +E> = Success(value: R) | Failure(error: E)
}
