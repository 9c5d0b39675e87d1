/** Option and Result, used for Java's nullable values and thrown exceptions. */
module Wrappers {

  /** `None` stands for Java's `null`. */
  datatype Option<T> = None | Some(value: T)

  /** `Err` stands for an exception that escapes the modelled method. */
  datatype Result<T, E> = Ok(value: T) | Err(error: E)
}
