/** Optional values and fallible results used across the model. */
module Wrappers {

  /** `None` stands for an absent value: no pending recommendation, or a
      JavaScript `NaN` where a number was computed from nothing. */
  datatype Option<+T> = None | Some(value: T)

  /** The outcome of an operation that can fail the way the source fails. */
  datatype Result<+T, +E> = Ok(value: T) | Err(error: E)
}
