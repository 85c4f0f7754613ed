/** Failure-carrying datatypes shared by the rate provider and the converter. */
module Wrappers {

  /** An optional value; `None` stands for a Java `null` argument. */
  datatype Option<+T> = None | Some(value: T)

  /** The outcome of an operation that either yields a value or fails with an
      error; a failure stands for an exception thrown to the caller. */
  datatype Result<+R, +E> = Success(value: R) | Failure(error: E)
}
