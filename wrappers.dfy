/** Option and Result values used by every stage of the sales pipeline. */
module Wrappers {

  datatype Option<+T> = None | Some(value: T)

  /** A stage either produces its output table or fails with a cause. */
  datatype Result<+T, +E> = Ok(value: T) | Err(error: E)
}
