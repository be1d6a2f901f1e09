/** Failure-compatible wrappers: the nullable references and thrown
    exceptions of the system become `Option` and `Result` values. */
module Wrappers {

  /** A value that may be absent (a C# `null`, a TypeScript `undefined`). */
  datatype Option<+T> = None | Some(value: T) {

    /** The wrapped value, or `default` when there is none. */
    function GetOr(default: T): T {
      match this
      case Some(v) => v
      case None => default
    }
  }

  /** The outcome of an operation that may throw instead of returning. */
  datatype Result<+R, +E> = Success(value: R) | Failure(error: E)
}
