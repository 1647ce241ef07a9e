/** Option and Result values shared by the models, and the byte representation they use. */
module Outcomes {

  /** Bytes of a file or stream, one character per byte. */
  type Bytes = seq<char>

  datatype Option<+T> = None | Some(value: T)

  datatype Result<+T, +E> = Ok(value: T) | Err(error: E)
}
