/** `Option` and `Result`, used across the model: `Option` stands for a
    JavaScript value that may be `undefined`, `Result` for an operation that
    may throw. */
module Wrappers {

  /** `None` is JavaScript's `undefined`; `Some(v)` is a defined value. */
  datatype Option<+T> = None | Some(value: T)

  /** `Err(e)` is a thrown error, `Ok(v)` a normal return. */
  datatype Result<+T, +E> = Ok(value: T) | Err(error: E)
}
