/** Option and Result values, for JavaScript's `null`/`undefined` and for thrown errors. */
module Wrappers {

  /** A value that may be absent: `T | null` in the TypeScript source. */
  datatype Option<+T> = None | Some(value: T)

  /** A computation that either produces a value or fails with an error. */
  datatype Result<+T, +E> = Success(value: T) | Failure(error: E)
}
