/** Optional values and error-carrying results, used for JavaScript's
    `undefined` fields and for calls that throw. */
module Wrappers {

  datatype Option<+T> = None | Some(value: T)

  datatype Result<+R, +E> = Success(value: R) | Failure(error: E)
}
