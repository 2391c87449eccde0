/** Failure-compatible wrappers used throughout the model: an absent value and
    a value-or-error result (the Swift `throws` and the JavaScript `throw`). */
module Wrappers {

  datatype Option<+T> = None | Some(value: T) {
    function GetOr(default: T): T {
      match this
      case Some(v) => v
      case None => default
    }
  }

  datatype Result<+T, +E> = Success(value: T) | Failure(error: E)
}
