/** Option and Result datatypes standing in for Java's `null` and thrown exceptions. */
module Wrappers {

  /** An optional value: `None` is the model of a Java field or return value that is `null`. */
  datatype Option<+T> = None | Some(value: T)

  /** Either a value or the error a Java method would have thrown instead of returning. */
  datatype Result<+T, +E> = Ok(value: T) | Err(error: E)
}
