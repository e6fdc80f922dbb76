/** Failure-carrying results shared by every module of the model. */
module Wrappers {

  /** An optional value; the source writes the absent case as -1 or as a KeyError. */
  datatype Option<+T> = None | Some(value: T)

  /** A value or the reason it could not be produced (the source raises ValueError). */
  datatype Result<+T, +E> = Ok(value: T) | Err(error: E)
}
