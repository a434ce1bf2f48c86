/** Option and Result values shared by the two worker stores and the XML renderer.
    Errors are plain strings, as in the Rust source (`Result<_, String>`). */
module Wrappers {

  datatype Option<+T> = None | Some(value: T)

  datatype Result<+T> = Ok(value: T) | Err(msg: string)
}
