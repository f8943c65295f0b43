/** Option and Result, the two shapes in which the model reports "nothing" and "a thrown error". */
module Wrappers {

  datatype Option<+T> = None | Some(value: T)

  /** A database or model operation either yields a value or throws an Error with a message. */
  datatype Result<+T> = Ok(value: T) | Err(message: string)
}
