/** Optional values and error results shared by the fleet model modules. */
module Wrappers {

  /** A value that may be absent (a missing data series, a missing year). */
  datatype Option<+T> = None | Some(value: T)

  /** The outcome of an operation that may raise an error. */
  datatype Result<+R> = Success(value: R) | Failure(error: string)
}
