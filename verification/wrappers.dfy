/** Optional values and success/failure results shared by the other modules. */
module Wrappers {

  /** A value that may be absent (Python's `None`, or a JSON `null`). */
  datatype Option<+T> = None | Some(value: T)

  /** The outcome of an operation that either returns a value or raises. */
  datatype Result<+T, +E> = Success(value: T) | Failure(error: E)
}
