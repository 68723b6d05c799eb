/** The rule of NullabilityFunctions.kt: the second `isNotNull`, which
    records the `IsNotNull` descriptor by default. */
module NullabilityFunctions {
  import opened Values
  import opened Constraints
  import opened Validation
  import AnyFunctions

  /** `isNotNull(constraintFunc = { IsNotNull })`: a `validateAndMap` that
      accepts any non-null value and maps it to itself. */
  function IsNotNull(constraintFunc: Value -> Constraint := _ => Constraint.IsNotNull): (op: Op)
    ensures forall v :: MapsAs(op, v, constraintFunc(v), v) && (Passes(op, v) <==> v != NullV)
  {
    CheckAndMap(constraintFunc, v => v != NullV, (v: Value) requires v != NullV => v)
  }

  /** The two `isNotNull` rules check and map alike; by default they differ
      only in the descriptor they record, whose message is the same once
      `IsNotNull` is bound to the `NotNull` resource. */
  lemma SameAsAnyIsNotNull(v: Value)
    ensures IsNotNull().isValid(v) == AnyFunctions.IsNotNull().isValid(v)
    ensures v != NullV ==> IsNotNull().mapper(v) == AnyFunctions.IsNotNull().mapper(v)
    ensures v == NullV ==>
      IsNotNull().builder(v) == Constraint.IsNotNull &&
      MessageProvider(IsNotNull().builder(v)) == MessageProvider(AnyFunctions.IsNotNull().builder(v))
  {
  }
}
