/** Option and Result, the two wrappers every other module uses for absent rows and thrown errors. */
module Wrappers {

  /** A value that may be missing: JavaScript's `undefined`/`null` or an absent database row. */
  datatype Option<+T> = None | Some(value: T) {
    function GetOr(default: T): T {
      match this
      case Some(v) => v
      case None => default
    }
  }

  /** The outcome of an operation that either returns a value or throws. */
  datatype Result<+R, +E> = Success(value: R) | Failure(error: E)
}
