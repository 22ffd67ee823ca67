/** Failure-carrying datatypes shared by the other modules. */
module Wrappers {

  /** A value that may be absent (a missing dictionary key, a NaN statistic). */
  datatype Option<+T> = None | Some(value: T)

  /** Either a computed value or the error the program would raise instead. */
  datatype Result<+R, +E> = Success(value: R) | Failure(error: E)
}
