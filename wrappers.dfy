/** Option and Result values shared by the two modules of this model. */
module Wrappers {

  datatype Option<+T> = None | Some(value: T)

  /** The `anyhow::Result` of the Rust code: a value, or an error carrying its message. */
  datatype Result<+T> = Ok(value: T) | Err(message: string)
}
