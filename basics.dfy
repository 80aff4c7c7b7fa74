/** Option and Result: the shapes the Rust code's `Option`, `Result` and panics take in this model. */
module Basics {

  /** An optional value. Besides Rust's own `Option`, a `None` result stands for an
      operation of the source that panics (an `unwrap` on bad input, an explicit `panic!`). */
  datatype Option<+T> = None | Some(value: T)

  /** A result that carries either a value or an error message. */
  datatype Result<+T> = Ok(value: T) | Err(message: string)
}
