/** Optional values and failing computations. */
module Outcomes {
  datatype Option<+T> = None | Some(value: T)

  /** A normal return, or an exception carrying its message. */
  datatype Result<+T> = Ok(value: T) | Err(message: string)
}
