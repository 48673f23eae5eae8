/**
 * Shared vocabulary of the Piping model: C# references that may be null,
 * the exceptions the engine creates or passes on, and what a call into
 * caller-supplied logic produces.
 */
module Basics {
  /** A reference-typed C# value: `null` (also `default(T)`) or an object. */
  datatype Nullable<T> = Null | NonNull(value: T)

  /** The exception types the engine creates or tells apart. */
  datatype ExceptionKind = InvalidOperation | NullReference | Other(typeName: string)

  /** A .NET exception reduced to its type and its message. */
  datatype Fault = Fault(kind: ExceptionKind, message: string)

  /** A call into caller logic either returns normally or throws. */
  datatype Result<T> = Success(value: T) | Failure(error: Fault)

  /**
   * What a returning call into caller logic leaves behind: the state of the
   * objects it was given (the logic may change them in place) and the object
   * it returned.
   */
  datatype Call<A, R> = Call(after: A, ret: R)

  /** The message .NET gives a call on a null reference. */
  const NullReferenceMessage := "Object reference not set to an instance of an object."
  const NullReferenceFault := Fault(NullReference, NullReferenceMessage)

  /** The message of an InvalidOperationException created without one. */
  const InvalidOperationMessage := "Operation is not valid due to the current state of the object."

  /** The marker type a pipeline uses when one channel carries nothing. */
  datatype Unit = Unit
}
