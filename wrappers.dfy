/** Option and Result values used by the string helpers and the parser. */
module Wrappers {

  /** An optional value, the counterpart of Rust's `Option`. */
  datatype Option<+T> = None | Some(value: T)

  /** A value or an error, the counterpart of Rust's `Result`. */
  datatype Result<+T, +E> = Ok(value: T) | Err(error: E) {
    /** The same failure, as a result of any other value type. */
    function PropagateError<U>(): Result<U, E>
      requires Err?
    {
      Err(error)
    }
  }
}
