/** Optional values and results with an error, for the dictionary keys that
    the source sometimes leaves unset and for the exceptions it raises. */
module Wrappers {

  datatype Option<T> = None | Some(value: T)

  datatype Result<T, E> = Success(value: T) | Failure(error: E)
}
