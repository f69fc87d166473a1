/** Optional values and results with an error case, shared by every module of the model. */
module Wrappers {

  /** A value that may be absent: JavaScript's `undefined` (or `null`) where the
      plugin's code treats both the same way. */
  datatype Option<+T> = None | Some(value: T) {

    /** The value, or `default` when absent: the `??` operator. */
    function GetOr(default: T): T {
      match this
      case Some(v) => v
      case None => default
    }
  }

  /** The outcome of a computation that can throw: `Failure` carries what was thrown. */
  datatype Result<+R, +E> = Success(value: R) | Failure(error: E)
}
