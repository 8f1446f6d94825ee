/** Option and Result: a possibly missing value, and a value or the error that stopped it. */
module Wrappers {

  /** A value that may be absent: what a dictionary lookup with a default of None gives. */
  datatype Option<+T> = None | Some(value: T)

  /** Either a value, or the error raised while computing it. */
  datatype Result<+R, +E> = Success(value: R) | Failure(error: E)
}
