/** The two wrappers the model is written in: an optional value
    (a JavaScript value that may be `undefined` or `null`) and the outcome of
    an operation that either resolves with a value or rejects with an error. */
module Wrappers {

  /** A value that may be absent. */
  datatype Option<+T> = None | Some(value: T) {

    /** The wrapped value, or `default` when absent. */
    function GetOr(default: T): T {
      match this
      case Some(v) => v
      case None => default
    }
  }

  /** A resolved value or a rejection. */
  datatype Result<+R, +E> = Success(value: R) | Failure(error: E)
}
