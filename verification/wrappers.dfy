/** Optional values and results with an error, used wherever the program
    reads a field that may be absent or raises on bad input. */
module Wrappers {

  /** A value that may be absent: a missing HTML element, a missing JSON key,
      or Python's `None`. */
  datatype Option<+T> = None | Some(value: T)

  /** The outcome of an operation that either succeeds or raises. */
  datatype Result<+R, +E> = Success(value: R) | Failure(error: E)
}
