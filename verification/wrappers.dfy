/** Failure-carrying values used across the model: an absent value (C# `null`)
    and the outcome of a step that may throw. */
module Wrappers {

  /** A value that may be absent, as a nullable reference is in the source. */
  datatype Option<+T> = None | Some(value: T) {

    /** The wrapped value, or `default` when absent. */
    function GetOr(default: T): T {
      match this
      case Some(v) => v
      case None => default
    }
  }

  /** The result of a step that either produces a value or raises an error. */
  datatype Result<+R, +E> = Success(value: R) | Failure(error: E)
}
