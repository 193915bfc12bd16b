/** The two result types shared by every module of the model. */
module Wrappers {

  /** A column or argument that may be absent (Python's None, SQL's NULL). */
  datatype Option<+T> = None | Some(value: T)

  /** A call that returns a value or raises. */
  datatype Result<+T, +E> = Ok(value: T) | Err(error: E)
}
