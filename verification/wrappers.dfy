/** Optional values and success/failure results, used for JavaScript's
    `undefined`/`null` fields and for resolved/rejected promises. */
module Wrappers {

  datatype Option<+T> = None | Some(value: T)

  datatype Result<+R, +E> = Success(value: R) | Failure(error: E)
}
