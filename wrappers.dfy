/** Optional values and results with an error, used for Go's `(value, ok)`
    and `(value, err)` returns. */
module Wrappers {

  datatype Option<+T> = None | Some(value: T)

  datatype Result<+R, +E> = Success(value: R) | Failure(error: E)
}
