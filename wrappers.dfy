/** Optional values and success/failure results, used for the absent packet or
    exception of a read state and for the outcome of the external codec. */
module Wrappers {

  datatype Option<+T> = None | Some(value: T)

  datatype Result<+R, +E> = Success(value: R) | Failure(error: E)
}
