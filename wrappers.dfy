/** Failure-carrying result types shared by the other modules. */
module Wrappers {

  datatype Option<+T> = None | Some(value: T)

  /** The outcome of an operation of the source that either returns or raises. */
  datatype Result<+T, +E> = Success(value: T) | Failure(error: E)
}
