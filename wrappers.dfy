/** The optional value and the success-or-error result shared by every module of the model. */
module Wrappers {

  /** An optional value: Python's `None` and JavaScript's `undefined` are `None`. */
  datatype Option<+T> = None | Some(value: T)

  /** A value or the error that the source raises or throws instead. */
  datatype Result<+T, +E> = Success(value: T) | Failure(error: E)
}
