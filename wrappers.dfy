/** Plain wrappers used to model the exceptions and the null reference of the C# code. */
module Wrappers {

  /** A value or nothing; stands for a C# reference that may be null. */
  datatype Option<+T> = None | Some(value: T)

  /** The value of a call that returns normally, or the exception it throws. */
  datatype Result<+R, +E> = Success(value: R) | Failure(error: E)

  /** The outcome of a call that returns nothing, or the exception it throws. */
  datatype Outcome<+E> = Pass | Fail(error: E)
}
