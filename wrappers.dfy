/** Option and result types shared by every module: Java's nullable
    references and TypeScript's `null` become `Option`, a thrown exception
    becomes the failure side of `Result` or `Outcome`. */
module Wrappers {

  datatype Option<+T> = None | Some(value: T) {
    function GetOr(default: T): T {
      match this
      case Some(v) => v
      case None => default
    }
  }

  datatype Result<+R, +E> = Success(value: R) | Failure(error: E)

  /** The result of a `void` operation that may throw. */
  datatype Outcome<+E> = Pass | Fail(error: E)
}
