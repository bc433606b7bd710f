/** Optional values: a missing record, an absent request parameter, a null column. */
module Wrappers {

  datatype Option<+T> = None | Some(value: T)

  /** Success carries a value; Failure carries the reason the operation did not happen. */
  datatype Result<+R, +E> = Success(value: R) | Failure(error: E)
}
