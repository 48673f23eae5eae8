/** The IInvariant capability (Piping/IInvariant.cs). */
module Invariant {
  /**
   * How a value answers the `IInvariant<T>` capability: either it does not
   * implement it, or it reports whether it is valid and its current error text.
   */
  datatype Invariance = NotInvariant | Invariant(isValid: bool, error: string)

  /** A validation result keeps only its message. */
  datatype ValidationResult = ValidationResult(errorMessage: string)

  /** `ToValidationResult`: a validation result carrying the value's current error. */
  function ToValidationResult(inv: Invariance): (r: ValidationResult)
    requires inv.Invariant?
    ensures r.errorMessage == inv.error
  {
    ValidationResult(inv.error)
  }

  /** The test of `TestInputIsInvariant` and `ValidateIsValid`: implements IInvariant and is invalid. */
  predicate IsInvalid(inv: Invariance)
  {
    inv.Invariant? && !inv.isValid
  }
}
