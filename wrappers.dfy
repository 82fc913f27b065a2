/** Optional values and results with an error value, used for NaN cells and raised exceptions. */
module Wrappers {

  /** `None` stands for a missing value (pandas NaN / Python None). */
  datatype Option<+T> = None | Some(value: T)

  /** The outcome of an operation that can raise: `Err` carries the exception. */
  datatype Result<+T, +E> = Ok(value: T) | Err(error: E)
}
