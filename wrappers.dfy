/** Option and Result values used across the model for JavaScript's `null`/`undefined`
    and for operations that throw. */
module Wrappers {

  datatype Option<+T> = None | Some(value: T)

  datatype Result<+R, +E> = Success(value: R) | Failure(error: E)
}
