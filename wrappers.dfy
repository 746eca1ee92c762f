/** Option and Result, the two failure-carrying values the rest of the model uses. */
module Wrappers {

  /** `null` versus a present value, as the plugin uses `null` for "no queue". */
  datatype Option<+T> = None | Some(value: T)

  /** A callback's `(err, value)` pair: exactly one of the two is meaningful. */
  datatype Result<+R, +E> = Success(value: R) | Failure(error: E)
}
