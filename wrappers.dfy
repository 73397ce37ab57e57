/** Small outcome types shared by the model. */
module Wrappers {

  /** A value that may be absent: JavaScript's `null`. */
  datatype Option<+T> = None | Some(value: T)

  /** The outcome of a JavaScript call that returns normally or throws. */
  datatype Result<+T, +E> = Success(value: T) | Failure(error: E)

  /** The exceptions the program can raise. */
  datatype Exception =
    | InvalidCharacterError  // thrown by `btoa` / `atob`
    | TypeError              // property access on `null`
}
