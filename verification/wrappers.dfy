/** Optional values and success/failure results, used for JavaScript's
    `undefined`/`null` and for operations that throw. */
module Wrappers {

  datatype Option<+T> = None | Some(value: T)

  datatype Result<+R, +E> = Success(value: R) | Failure(error: E)
}
