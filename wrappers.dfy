/** Option and Result, used for JavaScript's `null` and for thrown errors. */
module Wrappers {

  /** A value that may be absent: `None` stands for JavaScript's `null`. */
  datatype Option<+T> = None | Some(value: T)

  /** The outcome of an operation that either returns a value or throws. */
  datatype Result<+T> = Success(value: T) | Failure(message: string)
}
