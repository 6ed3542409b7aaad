/** Optional values and results with an error, shared by the other modules. */
module Outcomes {

  /** A value that may be missing (a query that found no row, a field that did not parse). */
  datatype Option<T> = None | Some(value: T)

  /** The outcome of an operation that either succeeds with a value or is refused with an error. */
  datatype Result<T, E> = Ok(value: T) | Err(error: E)
}
