/** Option and Result datatypes shared by the model. */
module Wrappers {

  /** An optional value; stands in for JavaScript's `undefined` where the source reads a missing slot. */
  datatype Option<+T> = None | Some(value: T)

  /** A settled promise: fulfilled with a value or rejected with an error. */
  datatype Result<+R, +E> = Success(value: R) | Failure(error: E)
}
