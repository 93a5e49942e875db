/** The wrapper types the model uses for JavaScript's `null`/`undefined`
    and for an exception that escapes a function. */
module Wrappers {

  /** A value that may be missing (`undefined` or `null` in the source). */
  datatype Option<+T> = None | Some(value: T)

  /** A computation that either returns a value or throws. */
  datatype Result<+T, +E> = Success(value: T) | Failure(error: E)

  /** An exception that propagates out of the modelled function uncaught. */
  datatype Thrown = Thrown
}
