/** Failure-carrying wrappers shared by the modules of the model. */
module Wrappers {

  /** A value that may be missing (Python's None, an absent dictionary key). */
  datatype Option<+T> = None | Some(value: T)

  /** Either a value or the error that the source raises instead. */
  datatype Result<+R, +E> = Success(value: R) | Failure(error: E)
}
