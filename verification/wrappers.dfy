/** Small failure-carrying datatypes shared by the model. */
module Wrappers {

  /** A Go pointer that may be nil: None stands for nil. */
  datatype Option<+T> = None | Some(value: T)

  /** A lookup that either yields a value or fails with an error message. */
  datatype Result<+T> = Ok(value: T) | Err(message: string)

  /** Go's `(value, error)` pair: a value is returned even when `err` is set. */
  datatype Parsed<+T> = Parsed(value: T, err: Option<string>)
}
