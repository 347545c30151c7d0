/** Option, Result and parser outcomes shared by the whole model. */
module Wrappers {
  datatype Option<+T> = None | Some(value: T)

  datatype Result<+T, +E> = Ok(value: T) | Err(error: E)

  /** A parser's outcome; Go panics when a fixed-width read runs off the end of its slice. */
  datatype Outcome<+T, +E> = Parsed(value: T) | Failed(code: E) | Panicked
}
