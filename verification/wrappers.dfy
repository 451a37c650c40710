/** Failure-compatible wrappers used across the model: an optional value and a
    value-or-error result. */
module Wrappers {

  /** An optional value; `None` stands for JavaScript's `undefined`. */
  datatype Option<+T> = None | Some(value: T)

  /** Either a value or an error; the error side carries validation issues. */
  datatype Result<+R, +E> = Success(value: R) | Failure(error: E)
}
