/** Failure-aware values used throughout the model. */
module Wrappers {

  datatype Option<+T> = None | Some(value: T)

  datatype Result<+T, +E> = Success(value: T) | Failure(error: E)

  /** `x or 0.0`. */
  function OrZero(x: Option<real>): real { if x.Some? then x.value else 0.0 }
}
