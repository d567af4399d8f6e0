/** Failure-compatible wrappers: a nullable value and the outcome of a step that may raise. */
module Wrappers {

  /** A pandas cell or derived value that may be null (NaN, NaT or pd.NA). */
  datatype Option<+T> = None | Some(value: T)

  /** The result of a step that either produces a value or raises an error. */
  datatype Result<+T, +E> = Ok(value: T) | Err(error: E)
}
