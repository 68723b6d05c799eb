/** The rules of BooleanFunctions.kt. Each takes the builder of the
    constraint it records, `True` or `False` by default. */
module BooleanFunctions {
  import opened Values
  import opened Constraints
  import opened Validation

  /** A boolean rule's predicate: any property of type `Boolean?`. */
  predicate IsBoolean(v: Value) {
    v.NullV? || v.BoolV?
  }

  /** `isTrue(constraintFunc = { True })`. */
  function IsTrue(constraintFunc: Value -> Constraint := _ => True): (op: Op)
    ensures forall b: bool :: ChecksAs(op, BoolV(b), constraintFunc(BoolV(b))) && (Passes(op, BoolV(b)) <==> b)
  {
    Check(constraintFunc, (v: Value) requires IsBoolean(v) => v.NullV? || v.b)
  }

  /** `isFalse(constraintFunc = { False })`. */
  function IsFalse(constraintFunc: Value -> Constraint := _ => False): (op: Op)
    ensures forall b: bool :: ChecksAs(op, BoolV(b), constraintFunc(BoolV(b))) && (Passes(op, BoolV(b)) <==> !b)
  {
    Check(constraintFunc, (v: Value) requires IsBoolean(v) => v.NullV? || !v.b)
  }

  /** On a boolean exactly one of `isTrue()` and `isFalse()` fails, and the
      one that fails records the descriptor of the value it expected. */
  lemma ExactlyOneBooleanRuleFails(b: bool)
    ensures Passes(IsTrue(), BoolV(b)) != Passes(IsFalse(), BoolV(b))
    ensures !b ==> IsTrue().builder(BoolV(b)) == True
    ensures b ==> IsFalse().builder(BoolV(b)) == False
  {
  }

  /** Both predicates let null through, whatever the constraint builder. */
  lemma NullPassesBothPredicates(constraintFunc: Value -> Constraint)
    ensures Passes(IsTrue(constraintFunc), NullV) && Passes(IsFalse(constraintFunc), NullV)
  {
  }
}
