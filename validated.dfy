/** `Validated<V>`, the terminal result of a validation run (Validated.kt).

    It holds the original value and the violations the run had recorded
    when `toValidated` built it. Kotlin hands it the validator's own list,
    to which a pipeline that outlives the run could still append; the model
    holds a copy. */
module Results {
  import opened Wrappers
  import opened Violations

  datatype Validated<T> = Validated(value: T, violations: seq<Violation>) {

    /** `isValid()`: no violation was recorded. */
    predicate IsValid()
      ensures IsValid() <==> |violations| == 0
    {
      violations == []
    }

    /** `isNotValid()`. */
    predicate IsNotValid()
      ensures IsNotValid() <==> !IsValid()
    {
      !IsValid()
    }

    /** `throwIfIsNotValid()`: the value when valid, otherwise the exception
        carrying every violation, in the order they were recorded. */
    function ThrowIfIsNotValid(): (r: Result<T, ConstraintViolationException>)
      ensures r.Success? <==> IsValid()
      ensures r.Success? ==> r.value == value
      ensures r.Failure? ==> r.error.constraintViolations == violations && |violations| > 0
    {
      if IsValid() then Success(value) else Failure(ConstraintViolationException(violations))
    }

    /** `violations()`: absent when valid, otherwise the carried collection. */
    function Violations(): (r: Option<seq<Violation>>)
      ensures r.None? <==> IsValid()
      ensures r.Some? ==> r.value == violations
    {
      if IsValid() then None else Some(ThrowIfIsNotValid().error.constraintViolations)
    }

    /** `toResult()`: success with the value iff valid, failure with the
        same exception `throwIfIsNotValid()` raises otherwise. */
    function ToResult(): (r: Result<T, ConstraintViolationException>)
      ensures r.Success? <==> IsValid()
      ensures r.Success? ==> r.value == value
      ensures r.Failure? ==> r.error == ThrowIfIsNotValid().error && Violations() == Some(r.error.constraintViolations)
    {
      if IsValid() then Success(value) else Failure(ConstraintViolationException(violations))
    }
  }
}
