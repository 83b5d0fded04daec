/** Failure-compatible wrappers used throughout the engine model. */
module Wrappers {

  /** An optional value: the client's `undefined` for absent parameters. */
  datatype Option<+T> = None | Some(value: T) {

    /** The wrapped value, or `default` when absent (the `??` operator). */
    function GetOr(default: T): T {
      match this
      case Some(v) => v
      case None => default
    }
  }

  /** Either a value or the error a caller-facing operation raises. */
  datatype Result<+T, +E> = Success(value: T) | Failure(error: E)
}
