/** Optional values (Java's nullable references) and the outcome of an operation that may fail. */
module Wrappers {

  /** A nullable Java value: None stands for null. */
  datatype Option<+T> = None | Some(value: T)

  /** The result of a service call that returns a value or throws. */
  datatype Result<+R, +E> = Success(value: R) | Failure(error: E)

  /** The result of a check that either passes or throws. */
  datatype Outcome<+E> = Pass | Fail(error: E)
}
