/** Option and Result, the failure-carrying datatypes shared by the model's modules. */
module Wrappers {

  /** A value that may be absent: JavaScript's `null` / `undefined` next to a value. */
  datatype Option<+T> = None | Some(value: T)

  /** The outcome of a handler: a value, or the reason it was refused. */
  datatype Result<+R, +E> = Success(value: R) | Failure(error: E)
}
