/** Optional values and results: the model's stand-ins for `undefined`/`null`
    and for a promise that either resolves or rejects. */
module Wrappers {

  datatype Option<+T> = None | Some(value: T)

  datatype Result<+T, +E> = Success(value: T) | Failure(error: E)
}
