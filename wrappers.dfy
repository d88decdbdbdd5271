/** Option and Result: the model's stand-ins for C# null references and thrown exceptions. */
module Wrappers {

  datatype Option<+T> = None | Some(value: T)

  /** `Failure` stands for an exception that the modelled C# code lets escape to its caller. */
  datatype Result<+R, +E> = Success(value: R) | Failure(error: E)
}
