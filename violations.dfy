/** `DefaultConstraintViolation` and `ConstraintViolationException`
    (constraint/model/ConstraintViolation.kt). */
module Violations {
  import opened Wrappers
  import opened Values
  import opened Constraints

  /** One failed rule: the property it was checked under (absent for a
      root pipeline without a name), the offending value, and the descriptor
      of the rule; `value` defaults to null. The Kotlin data class compares
      its three fields, the constraint as `SameConstraint` does. */
  datatype Violation = Violation(property: Option<string>, value: Value := NullV, constraint: Constraint)

  /** The exception `throwIfIsNotValid` raises: it carries the violations
      as they were handed to it. */
  datatype ConstraintViolationException = ConstraintViolationException(constraintViolations: seq<Violation>)
}
