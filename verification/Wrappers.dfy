/** The two result shapes the other modules share. */
module Wrappers {

  datatype Option<+T> = None | Some(value: T)

  /** A computation that the source ends by returning or by throwing. */
  datatype Result<+T, +E> = Ok(value: T) | Threw(error: E)
}
