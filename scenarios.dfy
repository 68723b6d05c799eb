/** The two runs the repository's tests describe (ValidatorTest.kt and
    ValidatedTest.kt), with what those tests expect of them stated as
    postconditions. */
module Scenarios {
  import opened Wrappers
  import opened Values
  import opened Constraints
  import opened Violations
  import opened Results
  import opened Validation
  import Entry
  import AnyFunctions
  import BooleanFunctions
  import ComparableFunctions
  import StringFunctions

  /** The object of ValidatorTest.kt: `a = true`, `b = null`, `d.e = 2`,
      `d.f = "2"` (its random `c` plays no part). */
  const SomeObj: Value := ListV([BoolV(true), NullV, IntV(2), StrV("2")])

  /** The body of the `validate(obj) { ... }` call in ValidatorTest.kt, step
      by step: `isFalse` on `a`, `isGreaterThan(3)` on `d.e`, `isNotNull` on
      `b`, whose stopped pipeline then takes `isEmpty()` and a
      `validateAndMap` without faulting, and `isNotNull` on `d.f`. The test
      expects exactly three violations, in any order; the model records
      them in the order of the body. */
  method ValidatorTestRun() returns (validated: Validated<Value>, nullValidation: State, nonNullValidation: State)
    ensures validated.value == SomeObj
    ensures validated.violations == [
      Violation(Some("a"), BoolV(true), False),
      Violation(Some("d.e"), IntV(2), Greater(IntV(3))),
      Violation(Some("b"), NullV, NotNull)]
    ensures nullValidation == Stopped(Some("b")) && nullValidation.ReadValue() == Failure(AccessToValue)
    ensures nonNullValidation == Mapped(StrV("2"), Some("d.f"))
  {
    var validator := new Validator();

    var a := validator.ValidateVal(BoolV(true), "a");
    var r := a.Apply(BooleanFunctions.IsFalse());

    var e := validator.ValidateVal(IntV(2), "d.e");
    r := e.Apply(ComparableFunctions.IsGreaterThan(3));

    var b := validator.ValidateVal(NullV, "b");
    r := b.Apply(AnyFunctions.IsNotNull());
    nullValidation := r.value.state;
    var stopped := r.value;
    r := stopped.Apply(StringFunctions.IsEmpty());
    assert r.Success?;
    // `mapperFunc = {}` returns `Unit`; any value stands for it.
    r := stopped.Apply(CheckAndMap(_ => Valid, (v: Value) requires v.StrV? => |v.s| != 0, _ => NullV));
    assert r.Success?;

    var f := validator.ValidateVal(StrV("2"), "d.f");
    r := f.Apply(AnyFunctions.IsNotNull());
    nonNullValidation := r.value.state;

    validated := ToValidated(validator, SomeObj);
  }

  /** The violations of `"123".validateSelf("test") { isEmpty().isEqualTo("321") }`. */
  const SelfViolations: seq<Violation> := [
    Violation(Some("test"), StrV("123"), Empty),
    Violation(Some("test"), StrV("123"), Equals(StrV("321")))]

  /** ValidatedTest.kt: both rules fail on "123", so `throwIfIsNotValid()`
      throws the exception carrying both violations in the order of the
      chain ("test: Must be empty; test: Must be equal to [321]"). */
  method ValidatedTestRun() returns (r: Result<Validated<Value>, Fault>)
    ensures r == Success(Validated(StrV("123"), SelfViolations))
    ensures r.value.ThrowIfIsNotValid() == Failure(ConstraintViolationException(SelfViolations))
  {
    var chain := [StringFunctions.IsEmpty(), AnyFunctions.IsEqualTo(StrV("321"))];
    var s := Root(StrV("123"), Some("test"));
    ChecksRecordFailuresInOrder(s, chain);
    assert chain[..1] == [chain[0]] && [chain[0]][..0] == [];
    var lines := Entry.SelfLines(StrV("123"), Some("test"), [chain]);
    assert [Entry.Line(s, chain)][..0] == [];
    assert lines == [Entry.Line(s, chain)];
    assert Failing(s.propName, s.value, chain[..1]) == [SelfViolations[0]];
    assert Failing(s.propName, s.value, chain) == SelfViolations;
    assert Entry.Script(lines) == Entry.Effect(SelfViolations, None);
    r := Entry.ValidateSelf(StrV("123"), [chain], Some("test"));
  }
}
