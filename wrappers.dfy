/** Optional values and results shared by the tile calculator modules. */
module Wrappers {

  /** A value that may be absent: a lookup that found nothing, a text that is not a number. */
  datatype Option<+T> = None | Some(value: T)

  /** The outcome of a calculation: a value, or the reason it was refused. */
  datatype Result<+T, +E> = Ok(value: T) | Err(error: E)
}
