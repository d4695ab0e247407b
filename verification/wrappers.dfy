/** Failure-compatible result types shared by the storefront modules. */
module Wrappers {

  /** A value that may be missing, as a form field or a session key may be. */
  datatype Option<+T> = None | Some(value: T)

  /** Either a computed value or the error that the source raises instead. */
  datatype Result<+R, +E> = Success(value: R) | Failure(error: E)
}
