/** Outcome datatypes shared by every component. */
module Wrappers {

  datatype Option<+T> = None | Some(value: T)

  /** A handler either answers with a value or throws; a thrown handler writes nothing. */
  datatype Result<+T, +E> = Ok(value: T) | Err(error: E)
}
