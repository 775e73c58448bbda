/** Small wrappers shared by the model: optional values, results, and the
    .NET exceptions the modelled code can raise. */
module Basics {

  datatype Option<+T> = None | Some(value: T)

  datatype Result<+T, +E> = Success(value: T) | Failure(error: E)

  /** The exceptions the address-space engine can raise. A raised exception
      leaves the method that raised it at once. */
  datatype Exn =
    | NullReference            // a member read through a null reference
    | InvalidCast              // an unboxing cast to a type the box does not hold
    | ArgumentOutOfRange       // msg.Data[k] with too few arguments
    | DuplicateKey(key: string) // Dictionary.Add with a key already present
}
