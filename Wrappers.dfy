/** Optional values and success-or-error results, used where the source has
    `Optional[...]` parameters and raised exceptions. */
module Wrappers {

  datatype Option<+T> = None | Some(value: T)

  datatype Result<+T, +E> = Success(value: T) | Failure(error: E)
}
