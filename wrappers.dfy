/** Option and Result types standing in for Java's null returns and thrown exceptions. */
module Wrappers {

  /** `None` plays the role of a Java `null` result. */
  datatype Option<T> = None | Some(value: T)

  /** The exceptions the modelled code can raise. */
  datatype Error = IllegalArgument | NoSuchElement | NegativeArraySize

  /** Either a value or the exception the Java code would have thrown. */
  datatype Result<T> = Success(value: T) | Failure(error: Error)
}
