/** Failure-carrying results: Python raises an exception where the model returns
    `None` or `Failure(e)`. */
module Wrappers {

  datatype Option<+T> = None | Some(value: T)

  datatype Result<+R, +E> = Success(value: R) | Failure(error: E)
}
