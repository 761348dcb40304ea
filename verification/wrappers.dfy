/** Failure-compatible wrappers used across the model. */
module Wrappers {

  /** An optional value: `None` stands for JavaScript's `undefined`, `NaN`
      or "not found", depending on where it is used. */
  datatype Option<+T> = None | Some(value: T) {

    /** The wrapped value, or `default` when there is none. */
    function GetOr(default: T): T {
      match this
      case Some(v) => v
      case None => default
    }
  }

  /** The outcome of a validated mutation: the new value or a user-facing error. */
  datatype Result<+R, +E> = Success(value: R) | Failure(error: E)
}
