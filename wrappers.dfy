/** Failure-carrying wrappers used for missing cells and for the errors the simulator raises. */
module Wrappers {

  /** A cell that may be missing (Python's None / pandas' NaN). */
  datatype Option<+T> = None | Some(value: T)

  /** The outcome of an operation that may raise an error. */
  datatype Result<+R, +E> = Success(value: R) | Failure(error: E)
}
