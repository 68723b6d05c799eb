/** The rules of AnyFunctions.kt. Each rule is the pipeline call it makes:
    the constraint it records and the predicate it checks. Every predicate
    but `isNull`'s lets null through, yet `validate` dereferences the value
    before calling it, so on a pipeline holding null these rules fault
    instead (`IsNullNeverPasses`, `ValidateOnNullFaults`). */
module AnyFunctions {
  import opened Wrappers
  import opened Values
  import opened Constraints
  import opened Violations
  import opened Validation

  /** `isNull()`: the predicate accepts null only. */
  function IsNull(): (op: Op)
    ensures forall v :: ChecksAs(op, v, Null) && (Passes(op, v) <==> v == NullV)
  {
    Check(_ => Null, v => v == NullV)
  }

  /** `isNotNull(constraintFunc = { NotNull })`: a `validateAndMap` that
      accepts any non-null value and maps it to itself; on null it records
      what `constraintFunc` builds for null. */
  function IsNotNull(constraintFunc: Value -> Constraint := _ => NotNull): (op: Op)
    ensures forall v :: MapsAs(op, v, constraintFunc(v), v) && (Passes(op, v) <==> v != NullV)
  {
    CheckAndMap(constraintFunc, v => v != NullV, (v: Value) requires v != NullV => v)
  }

  /** `isEqualTo(value)`. */
  function IsEqualTo(value: Value): (op: Op)
    ensures forall v :: ChecksAs(op, v, Equals(value)) && (Passes(op, v) <==> v == NullV || v == value)
  {
    Check(_ => Equals(value), v => v == NullV || v == value)
  }

  /** `isNotEqualTo(value)`. */
  function IsNotEqualTo(value: Value): (op: Op)
    ensures forall v :: ChecksAs(op, v, NotEquals(value)) && (Passes(op, v) <==> v == NullV || v != value)
  {
    Check(_ => NotEquals(value), v => v == NullV || v != value)
  }

  /** `isIn(vararg values)` and `isIn(values: Iterable)`: membership in the
      arguments. The vararg overload records them as a set, the `Iterable`
      one as the list given. */
  function IsIn(values: Args<Value>): (op: Op)
    ensures forall v :: ChecksAs(op, v, In(Collected(values))) && (Passes(op, v) <==> v == NullV || v in values.items)
  {
    Check(_ => In(Collected(values)), v => v == NullV || v in values.items)
  }

  /** `isNotIn(vararg values)` and `isNotIn(values: Iterable)`. */
  function IsNotIn(values: Args<Value>): (op: Op)
    ensures forall v :: ChecksAs(op, v, NotIn(Collected(values))) && (Passes(op, v) <==> v == NullV || v !in values.items)
  {
    Check(_ => NotIn(Collected(values)), v => v == NullV || v !in values.items)
  }

  /** `isValid(validator)` and `isCoValid(validator)`: the caller's
      predicate, on non-null values. */
  function IsValid(validator: Value -> bool): (op: Op)
    ensures forall v :: ChecksAs(op, v, Valid) && (Passes(op, v) <==> v == NullV || validator(v))
  {
    Check(_ => Valid, v => v == NullV || validator(v))
  }

  /** `isNull` cannot let a pipeline through clean: on null `validate`
      faults before the predicate runs, and any other value records `Null`. */
  lemma IsNullNeverPasses(s: State)
    requires !s.IsStopped()
    ensures Defined(s, IsNull())
    ensures s.value == NullV ==> StepOf(s, IsNull()) == Failure(NullDereference)
    ensures s.value != NullV ==>
      StepOf(s, IsNull()) == Success(Step(s, [Violation(s.propName, s.value, Null)]))
  {
    if s.value != NullV {
      StepOfCheck(s, IsNull(), Null);
    }
  }

  /** On a non-null value exactly one of `isEqualTo(x)` and
      `isNotEqualTo(x)` fails, and exactly one of `isIn(xs)` and
      `isNotIn(xs)`. */
  lemma NegatedRulesComplement(x: Value, xs: Args<Value>, v: Value)
    requires v != NullV
    ensures IsEqualTo(x).isValid(v) != IsNotEqualTo(x).isValid(v)
    ensures IsIn(xs).isValid(v) != IsNotIn(xs).isValid(v)
  {
  }

  /** `isIn(x)` with one argument gives the verdict of `isEqualTo(x)`. */
  lemma IsInOneIsEqualTo(x: Value, v: Value)
    ensures IsIn(Vararg([x])).isValid(v) == IsEqualTo(x).isValid(v)
    ensures IsIn(Vararg([x])).builder(v) == In(SetOf([x]))
  {
    assert ToSet([x][..0]) == [];
  }

  /** The two overloads of `isIn` and `isNotIn` give the same verdict on
      every value, yet never record equal descriptors: the vararg one
      records a set, the `Iterable` one a list. The set iterates as the
      list does exactly when the arguments have no repeats. */
  lemma VarargAndIterableAgree(items: seq<Value>, v: Value)
    ensures IsIn(Vararg(items)).isValid(v) == IsIn(Iterable(items)).isValid(v)
    ensures IsNotIn(Vararg(items)).isValid(v) == IsNotIn(Iterable(items)).isValid(v)
    ensures !SameConstraint(IsIn(Vararg(items)).builder(v), IsIn(Iterable(items)).builder(v))
    ensures !SameConstraint(IsNotIn(Vararg(items)).builder(v), IsNotIn(Iterable(items)).builder(v))
    ensures IsIn(Vararg(items)).builder(v).values.elems == items <==> NoDuplicates(items)
  {
    CollectedAgree(items);
  }

  /** The order of vararg arguments does not show in the descriptor, while
      the order of an `Iterable` does: `isIn(1, 2)` and `isIn(2, 1)` record
      equal descriptors, `isIn(listOf(1, 2))` and `isIn(listOf(2, 1))` do
      not. */
  lemma ArgumentOrder(xs: seq<Value>, ys: seq<Value>, v: Value)
    ensures (forall e :: e in xs <==> e in ys) ==>
      SameConstraint(IsIn(Vararg(xs)).builder(v), IsIn(Vararg(ys)).builder(v)) &&
      SameConstraint(IsNotIn(Vararg(xs)).builder(v), IsNotIn(Vararg(ys)).builder(v))
    ensures SameConstraint(IsIn(Iterable(xs)).builder(v), IsIn(Iterable(ys)).builder(v)) <==> xs == ys
  {
    CollectedOrder(xs, ys);
  }

  /** Which constraint `isNotNull()` records, and that its mapper hands
      the value on unchanged. */
  lemma IsNotNullDefault(v: Value)
    ensures IsNotNull().isValid(v) <==> v != NullV
    ensures v == NullV ==> IsNotNull().builder(v) == NotNull
    ensures v != NullV ==> IsNotNull().mapper(v) == v
  {
  }
}
