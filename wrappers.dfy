/** Option and Result, the two failure-carrying datatypes the model uses. */
module Wrappers {

  /** A cell or lookup that may be missing (pandas' NaN / Python's None). */
  datatype Option<+T> = None | Some(value: T)

  /** The outcome of a step that can stop the run with an error. */
  datatype Result<+R, +E> = Success(value: R) | Failure(error: E)
}
