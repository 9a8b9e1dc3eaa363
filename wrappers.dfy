/** Option, Result and Outcome: the error paths of the modelled C# code (null
    references, thrown exceptions) become explicit values of these types. */
module Wrappers {

  /** A possibly-null reference: `None` stands for C#'s `null`. */
  datatype Option<+T> = None | Some(value: T) {
    function GetOr(default: T): T {
      match this
      case Some(v) => v
      case None => default
    }
  }

  /** The value a C# member returns, or the exception it throws. */
  datatype Result<+R, +E> = Success(value: R) | Failure(error: E)

  /** A C# member of type `void` that either returns or throws. */
  datatype Outcome<+E> = Pass | Fail(error: E)
}
