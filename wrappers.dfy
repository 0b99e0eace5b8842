/** Option and Result, used for Java's nullable references and for constructors that throw. */
module Wrappers {

  /** `None` stands for a Java `null` reference. */
  datatype Option<+T> = None | Some(value: T)

  /** `Failure` carries the message of the exception a Java operation throws. */
  datatype Result<+T, +E> = Success(value: T) | Failure(error: E)
}
