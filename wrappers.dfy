/** Option and Result: the absent value and the thrown error of the route module. */
module Wrappers {

  /** A value that may be absent (a missing query parameter, an empty pick). */
  datatype Option<+T> = None | Some(value: T)

  /** The outcome of an operation that either returns a value or throws an Error with a message. */
  datatype Result<+R, +E> = Success(value: R) | Failure(error: E)
}
