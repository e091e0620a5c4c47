/** Optional values and results that carry an error. */
module Wrappers {

  datatype Option<+T> = None | Some(value: T)

  datatype Result<+T, +E> = Ok(value: T) | Err(error: E)

  /** What a poll of a stream answers: nothing yet, an item, or that the stream is over. */
  datatype Poll<+T> = Pending | Item(value: T) | Ended
}
