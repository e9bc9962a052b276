/** Option and Result, used for values the source treats as possibly absent
    and for operations that can throw. */
module Wrappers {
  datatype Option<+T> = None | Some(value: T)

  datatype Result<+T, +E> = Success(value: T) | Failure(error: E)
}
