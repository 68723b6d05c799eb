/** The rules of ComparableFunctions.kt, over integer properties. Each rule
    is the `validate` call it makes: the constraint it records and the
    predicate it checks. The predicates let null through, which `validate`
    never hands them. */
module ComparableFunctions {
  import opened Values
  import opened Constraints
  import opened Validation

  /** A comparable rule's predicate: any property of the Kotlin type, that
      is null or an integer. */
  predicate IsComparable(v: Value) {
    v.NullV? || v.IntV?
  }

  /** `isLessThan(value)`. */
  function IsLessThan(bound: int): (op: Op)
    ensures forall i: int :: ChecksAs(op, IntV(i), Less(IntV(bound))) && (Passes(op, IntV(i)) <==> i < bound)
  {
    Check(_ => Less(IntV(bound)), (v: Value) requires IsComparable(v) => v.NullV? || v.i < bound)
  }

  /** `isLessThanOrEqualTo(value)`. */
  function IsLessThanOrEqualTo(bound: int): (op: Op)
    ensures forall i: int :: ChecksAs(op, IntV(i), LessOrEqual(IntV(bound))) && (Passes(op, IntV(i)) <==> i <= bound)
  {
    Check(_ => LessOrEqual(IntV(bound)), (v: Value) requires IsComparable(v) => v.NullV? || v.i <= bound)
  }

  /** `isGreaterThan(value)`. */
  function IsGreaterThan(bound: int): (op: Op)
    ensures forall i: int :: ChecksAs(op, IntV(i), Greater(IntV(bound))) && (Passes(op, IntV(i)) <==> i > bound)
  {
    Check(_ => Greater(IntV(bound)), (v: Value) requires IsComparable(v) => v.NullV? || v.i > bound)
  }

  /** `isGreaterThanOrEqualTo(value)` as ComparableFunctions.kt writes it:
      the predicate is `>=`, but the constraint it records is `Greater`. */
  function IsGreaterThanOrEqualToAsWritten(bound: int): (op: Op)
    ensures forall i: int :: ChecksAs(op, IntV(i), Greater(IntV(bound))) && (Passes(op, IntV(i)) <==> i >= bound)
  {
    Check(_ => Greater(IntV(bound)), (v: Value) requires IsComparable(v) => v.NullV? || v.i >= bound)
  }

  /** `isGreaterThanOrEqualTo(value)` recording `GreaterOrEqual`, the
      descriptor of its own predicate. The rest of the model uses this one. */
  function IsGreaterThanOrEqualTo(bound: int): (op: Op)
    ensures forall i: int :: ChecksAs(op, IntV(i), GreaterOrEqual(IntV(bound))) && (Passes(op, IntV(i)) <==> i >= bound)
  {
    Check(_ => GreaterOrEqual(IntV(bound)), (v: Value) requires IsComparable(v) => v.NullV? || v.i >= bound)
  }

  /** `isBetween(start, end)`: both ends inclusive. */
  function IsBetween(start: int, end: int): (op: Op)
    ensures forall i: int ::
      ChecksAs(op, IntV(i), Between(IntV(start), IntV(end))) && (Passes(op, IntV(i)) <==> start <= i <= end)
  {
    Check(_ => Between(IntV(start), IntV(end)),
          (v: Value) requires IsComparable(v) => v.NullV? || (start <= v.i && v.i <= end))
  }

  /** `isNotBetween(start, end)`: outside the inclusive range. */
  function IsNotBetween(start: int, end: int): (op: Op)
    ensures forall i: int ::
      ChecksAs(op, IntV(i), NotBetween(IntV(start), IntV(end))) && (Passes(op, IntV(i)) <==> i < start || end < i)
  {
    Check(_ => NotBetween(IntV(start), IntV(end)),
          (v: Value) requires IsComparable(v) => v.NullV? || !(start <= v.i && v.i <= end))
  }

  /** What a comparison descriptor of ComparableConstraints.kt says of an
      integer, read from its name. Any other descriptor says nothing. */
  predicate Holds(c: Constraint, i: int) {
    match c
    case Less(IntV(b)) => i < b
    case LessOrEqual(IntV(b)) => i <= b
    case Greater(IntV(b)) => i > b
    case GreaterOrEqual(IntV(b)) => i >= b
    case Between(IntV(s), IntV(e)) => s <= i <= e
    case NotBetween(IntV(s), IntV(e)) => i < s || e < i
    case _ => false
  }

  /** `op` records, for the integer `i`, a constraint that holds exactly
      when its predicate passes. */
  ghost predicate RecordsItsPredicate(op: Op, i: int) {
    op.Check? && op.isValid.requires(IntV(i)) && op.builder.requires(IntV(i)) &&
    (op.isValid(IntV(i)) <==> Holds(op.builder(IntV(i)), i))
  }

  /** Every comparison rule records a constraint that holds exactly when its
      predicate passes: the violation it appends describes the value
      truthfully, and a value satisfying the recorded constraint would have
      passed. */
  lemma RulesRecordTheirOwnPredicate(bound: int, start: int, end: int, i: int)
    ensures RecordsItsPredicate(IsLessThan(bound), i)
    ensures RecordsItsPredicate(IsLessThanOrEqualTo(bound), i)
    ensures RecordsItsPredicate(IsGreaterThan(bound), i)
    ensures RecordsItsPredicate(IsGreaterThanOrEqualTo(bound), i)
    ensures RecordsItsPredicate(IsBetween(start, end), i)
    ensures RecordsItsPredicate(IsNotBetween(start, end), i)
  {
  }

  /** As written, `isGreaterThanOrEqualTo(b)` accepts `b` itself, yet the
      constraint it records is `Greater(b)`, which `b` does not satisfy;
      so its violation on `b - 1` is indistinguishable from that of
      `isGreaterThan(b)`, which rejects `b`. */
  lemma GreaterOrEqualAsWrittenMislabels(b: int)
    ensures Passes(IsGreaterThanOrEqualToAsWritten(b), IntV(b))
    ensures !Holds(IsGreaterThanOrEqualToAsWritten(b).builder(IntV(b)), b)
    ensures !RecordsItsPredicate(IsGreaterThanOrEqualToAsWritten(b), b)
    ensures !Passes(IsGreaterThan(b), IntV(b))
    ensures IsGreaterThanOrEqualToAsWritten(b).builder(IntV(b - 1)) == IsGreaterThan(b).builder(IntV(b - 1))
  {
  }

  /** `isLessThan` and `isGreaterThanOrEqualTo` split the integers between
      them, and so do `isGreaterThan` and `isLessThanOrEqualTo`, and
      `isBetween` and `isNotBetween`. */
  lemma ComplementaryRules(bound: int, start: int, end: int, i: int)
    ensures Passes(IsLessThan(bound), IntV(i)) != Passes(IsGreaterThanOrEqualTo(bound), IntV(i))
    ensures Passes(IsGreaterThan(bound), IntV(i)) != Passes(IsLessThanOrEqualTo(bound), IntV(i))
    ensures Passes(IsBetween(start, end), IntV(i)) != Passes(IsNotBetween(start, end), IntV(i))
  {
  }

  /** A range whose start lies after its end is empty: `isBetween` rejects
      every value and `isNotBetween` accepts every value. */
  lemma EmptyRange(start: int, end: int, i: int)
    requires end < start
    ensures !Passes(IsBetween(start, end), IntV(i))
    ensures Passes(IsNotBetween(start, end), IntV(i))
  {
  }

  /** Every comparison predicate lets null through. */
  lemma NullPassesEveryPredicate(bound: int, start: int, end: int)
    ensures Passes(IsLessThan(bound), NullV) && Passes(IsLessThanOrEqualTo(bound), NullV)
    ensures Passes(IsGreaterThan(bound), NullV) && Passes(IsGreaterThanOrEqualTo(bound), NullV)
    ensures Passes(IsBetween(start, end), NullV) && Passes(IsNotBetween(start, end), NullV)
  {
  }
}
