/** Option and Result, the two failure-carrying wrappers the model uses for Java's
    nullable references and thrown exceptions. */
module Wrappers {

  datatype Option<+T> = None | Some(value: T)

  /** `Ok(v)` is a normal return, `Err(e)` a thrown exception described by `e`. */
  datatype Result<+T, +E> = Ok(value: T) | Err(error: E)
}
