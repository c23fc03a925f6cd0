/** Optional values and results with an error, used for the nullable
    references and the thrown exception of the declarator. */
module Wrappers {

  datatype Option<+T> = None | Some(value: T)

  datatype Result<+R, +E> = Success(value: R) | Failure(error: E)
}
