/** Option and Result, the error-returning shapes used by the model. */
module Wrappers {

  datatype Option<T> = None | Some(value: T)

  /** `Err` stands for a JavaScript exception: the value is the message it carries. */
  datatype Result<T, E> = Ok(value: T) | Err(error: E)
}
