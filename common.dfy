/** Option and Result, the two wrappers the model uses for Java's null and exceptions. */
module Common {

  /** `None` plays the role of a Java `null` reference. */
  datatype Option<+T> = None | Some(value: T)

  /** `Failure` plays the role of an exception that ends the call. */
  datatype Result<+R, +E> = Success(value: R) | Failure(error: E)
}
