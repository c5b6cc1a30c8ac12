/** Optional values and error-or-value results, used for JavaScript's
    `undefined`/absent fields and for the servers' 400 responses. */
module Wrappers {

  datatype Option<+T> = None | Some(value: T)

  datatype Result<+R, +E> = Success(value: R) | Failure(error: E)
}
