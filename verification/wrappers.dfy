/** Failure-carrying return types shared by the other modules. */
module Wrappers {

  /** A value that may be missing: a JSON key that is absent, a field never set. */
  datatype Option<+T> = None | Some(value: T)

  /** The outcome of an operation that the program can abandon with an exception. */
  datatype Result<+R, +E> = Success(value: R) | Failure(error: E)
}
