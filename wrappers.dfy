/** Option and Result: the model's stand-ins for Python's `None` returns and raised exceptions. */
module Wrappers {

  datatype Option<+T> = None | Some(value: T)

  /** A call that either returns `value` or raises `error`. */
  datatype Result<+R, +E> = Success(value: R) | Failure(error: E)
}
