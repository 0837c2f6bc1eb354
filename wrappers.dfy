/** Optional values and error returns shared by every module of the model. */
module Wrappers {

  /** JavaScript's `undefined`/`null` against a present value. */
  datatype Option<+T> = None | Some(value: T) {
    function GetOr(default: T): T {
      match this
      case Some(v) => v
      case None => default
    }
  }

  /** A computation that either yields a value or fails (a thrown error or a rejected promise). */
  datatype Result<+T, +E> = Success(value: T) | Failure(error: E)
}
