# kvalidity validation core in Dafny

This project models the validation core of kvalidity, a Kotlin library. A caller opens a run with `validate(value) { ... }` or `value.validateSelf(propName) { ... }`. Inside the run, `validateVal(value, propName)` opens a pipeline over a property, and rule calls are chained onto it (`isNotNull().isNotEmpty().hasSize(max = 10)`). Every failing rule appends a violation to the run's shared sink, the `Validator`. At the end the run returns a `Validated`: the original value together with every violation in the order it was appended.

The model has these parts:

- **Values and descriptors.**
  - `Values`: property values as a datatype (null, booleans, integers, strings, lists), a `toString` model, `Array.toSet()`, the vararg/iterable argument lists, and the set or list a descriptor records with Kotlin's equality on it.
  - `Text`: `contains`, `startsWith` and `endsWith` on strings.
  - `Constraints`: every constraint descriptor, with Kotlin's equality on descriptors (`SameConstraint`), its message resource and its parameters (`toParamArrayOrNull`, the four-way `getData` choice of `Size`, `IntegerDigits` and `DecimalDigits`).
  - `Violations`: `DefaultConstraintViolation` and `ConstraintViolationException`.
- **The pipeline** (`Validation`).
  - `State` holds the three pipeline kinds: `ValueObjectValidation`, `MutatedObjectValidation.Valid` and `MutatedObjectValidation.Invalid`, the stopped one.
  - `StepOf` and `Run` are the pure meaning of one rule application and of a chain.
  - `Validator` is a class whose `violations` sequence the `Pipeline` methods `Validate`, `ValidateAndMap`, `Apply` and `RunChain` append to in place. Each method is proved against `StepOf`/`Run`.
  - The `value!!` inside `validate` is the fault `NullDereference`. Reading `Invalid.value` is the fault `AccessToValue`.
- **The entry points** (`Entry`): `validate` and `validateSelf` create a fresh validator, run the body's chains against it in a loop and return `toValidated`. `Results.Validated` holds the terminal result.
- **The rule catalog.**
  - `AnyFunctions`, `StringFunctions`, `ComparableFunctions`, `BooleanFunctions` and `NullabilityFunctions` each build the `validate` or `validateAndMap` call their Kotlin rule makes.
  - Each rule's contract states its verdict on every value and the constraint it records on failure.
- **Scenarios**: the runs described by `ValidatorTest.kt` and `ValidatedTest.kt`, with the expected violations as postconditions.

The lambdas a rule passes to the pipeline (predicate, constraint builder, mapper) are partial Dafny functions. The pipeline is proved to need each lambda only on the values it actually passes to it. So a stopped pipeline, which calls nothing, needs nothing of them.

`validate` dereferences the held value before calling the predicate, so every `it == null ||` guard in the rule predicates is unreachable through `validate`. One consequence: `isNull()` faults on null and records `Null` on anything else, so it never passes (`AnyFunctions.IsNullNeverPasses`).

## Model

| member | source | states |
|---|---|---|
| Validation.State.ReadValue | src/commonMain/kotlin/com/prvz/kvalidity/ObjectValidation.kt:92-117 | reading the value faults with `AccessToValueException` exactly on the stopped (`Invalid`) pipeline; the others return what they hold |
| Validation.StepOf | src/commonMain/kotlin/com/prvz/kvalidity/ObjectValidation.kt:33-89 | one application appends at most one violation, named after the pipeline and carrying its value; it faults iff it is a `validate` on a non-stopped pipeline holding null; a stopped pipeline is returned unchanged with nothing appended; `validate` keeps the pipeline; `validateAndMap` stops it iff it appended |
| Validation.ValidateOnNullFaults | src/commonMain/kotlin/com/prvz/kvalidity/ObjectValidation.kt:33-53 | `validate` on a pipeline holding null faults, whatever its predicate and builder |
| Validation.StepOfCheck | src/commonMain/kotlin/com/prvz/kvalidity/ObjectValidation.kt:28-42 | a rule on a pipeline holding a non-null value keeps the pipeline and appends `(propName, value, constraint)` exactly when its predicate rejects the value |
| Validation.RunRecordsPrefix | src/commonMain/kotlin/com/prvz/kvalidity/ObjectValidation.kt:28-31 | the sink is append-only: what a prefix of a chain records is a prefix of what the whole chain records |
| Validation.StoppedChainIsInert | src/commonMain/kotlin/com/prvz/kvalidity/ObjectValidation.kt:119-131 | any chain on a stopped pipeline calls no lambda, appends nothing, raises no fault and leaves it as it was |
| Validation.RunAppend | src/commonMain/kotlin/com/prvz/kvalidity/ObjectValidation.kt:33-89 | running a chain and then another chain on its result equals running the concatenated chain, and the appended violations concatenate |
| Validation.ChecksRecordFailuresInOrder | src/commonMain/kotlin/com/prvz/kvalidity/ObjectValidation.kt:33-42 | a chain of `validate` calls on a non-null value never stops or faults, and appends exactly one violation per failing check, in call order |
| Validation.ValidateAndMapThen | src/commonMain/kotlin/com/prvz/kvalidity/ObjectValidation.kt:63-76 | `validateAndMap` with a passing predicate gives a `Valid` pipeline over `mapper(value)` and appends nothing; with a failing one it appends one violation and stops, and the rest of the chain appends nothing |
| Validation.Validator.constructor | src/commonMain/kotlin/com/prvz/kvalidity/Validator.kt:21 | a new validator has recorded nothing |
| Validation.Validator.ValidateVal | src/commonMain/kotlin/com/prvz/kvalidity/Validator.kt:23-24 | a non-stopped pipeline over the value, named `propName`, sharing this validator's sink |
| Validation.ToValidated | src/commonMain/kotlin/com/prvz/kvalidity/Validator.kt:27-30 | the given value and exactly the accumulated violations; valid iff the sink is empty |
| Validation.Pipeline.AddNewViolation | src/commonMain/kotlin/com/prvz/kvalidity/ObjectValidation.kt:28-31 | appends `(propName, value, constraint)` at the end of the sink and changes nothing else |
| Validation.Pipeline.Validate | src/commonMain/kotlin/com/prvz/kvalidity/ObjectValidation.kt:33-53 | faults iff `StepOf` does, then leaving the sink unchanged; otherwise it returns the same pipeline, and the sink grows by exactly what `StepOf` records |
| Validation.Pipeline.ValidateConstant | src/commonMain/kotlin/com/prvz/kvalidity/ObjectValidation.kt:55-61 | the constant-constraint overload behaves as `validate({ constraint }, isValid)` |
| Validation.Pipeline.ValidateAndMap | src/commonMain/kotlin/com/prvz/kvalidity/ObjectValidation.kt:63-89 | returns the pipeline `StepOf` gives, on the same sink, which grows by exactly what `StepOf` records |
| Validation.Pipeline.Apply | src/commonMain/kotlin/com/prvz/kvalidity/ObjectValidation.kt:33-89 | one rule application of either kind, as `StepOf` gives it |
| Validation.Pipeline.RunChain | src/commonMain/kotlin/com/prvz/kvalidity/ObjectValidation.kt:33-89 | a chain run step by step against the shared sink ends as `Run` says: the sink grows by what the chain records, and the result is the fault or the final pipeline |
| Entry.Validate | src/commonMain/kotlin/com/prvz/kvalidity/Validator.kt:42-46 | a fresh sink, the body's chains run in order, and the original value returned with everything they recorded, or the fault that escaped the body |
| Entry.ValidateSelf | src/commonMain/kotlin/com/prvz/kvalidity/Validator.kt:32-40 | as `validate`, with every chain starting on one root pipeline over the receiver named `propName` (null by default); the receiver itself is returned |
| Entry.RunKeepsPropName | src/commonMain/kotlin/com/prvz/kvalidity/ObjectValidation.kt:28-76 | a chain never renames its pipeline, and every violation it records carries the starting pipeline's name |
| Entry.ScriptNamesEveryViolation | src/commonMain/kotlin/com/prvz/kvalidity/Validator.kt:42-46 | every violation of a run names the pipeline of one of its chains |
| Entry.SelfViolationsAreNamed | src/commonMain/kotlin/com/prvz/kvalidity/Validator.kt:32-40 | a faultless `validateSelf` names every violation after its `propName`, and is valid iff nothing was recorded |
| Results.Validated.IsValid | src/commonMain/kotlin/com/prvz/kvalidity/Validated.kt:25 | valid iff there is no violation |
| Results.Validated.IsNotValid | src/commonMain/kotlin/com/prvz/kvalidity/Validated.kt:27 | the negation of `isValid` |
| Results.Validated.ThrowIfIsNotValid | src/commonMain/kotlin/com/prvz/kvalidity/Validated.kt:29 | the value when valid, otherwise the exception carrying every violation, in order |
| Results.Validated.Violations | src/commonMain/kotlin/com/prvz/kvalidity/Validated.kt:31 | absent when valid, otherwise the carried violations |
| Results.Validated.ToResult | src/commonMain/kotlin/com/prvz/kvalidity/Validated.kt:33-34 | success with the value iff valid, otherwise failure with the exception `throwIfIsNotValid` raises |
| Constraints.ToParamArrayOrNull | src/commonMain/kotlin/com/prvz/kvalidity/constraint/Constraint.kt:7-10 | no parameters for null, otherwise the one-element array holding the value |
| Constraints.PairToParamArrayOrNull | src/commonMain/kotlin/com/prvz/kvalidity/constraint/Constraint.kt:12-19 | no parameters when either component is null, otherwise `[first, second]` in that order |
| Constraints.PairIsBothSingles | src/commonMain/kotlin/com/prvz/kvalidity/constraint/Constraint.kt:7-19 | the pair array is present iff both single arrays are, and is then their concatenation |
| Constraints.BoundsMessage | src/commonMain/kotlin/com/prvz/kvalidity/constraint/CollectionConstraints.kt:112-126 | the four-way choice: one non-default bound selects the `_min` or `_max` resource with that bound alone; both or neither select the plain resource with `[min, max]`; exactly one parameter iff exactly one bound is non-default |
| Constraints.ShownParam | src/commonMain/kotlin/com/prvz/kvalidity/constraint/AnyConstraints.kt:42-47 | the `Equals`/`NotEquals` parameter is absent exactly for null, and never holds null |
| Constraints.MessageProvider | src/commonMain/kotlin/com/prvz/kvalidity/constraint/AnyConstraints.kt:26-97 | every descriptor's parameter array, when present, is non-empty and holds no null |
| Constraints.SameConstraintRefinesEquality | src/commonMain/kotlin/com/prvz/kvalidity/constraint/AnyConstraints.kt:42-87 | descriptors equal as data are equal in Kotlin, and a descriptor holding no collection is equal in Kotlin exactly to the descriptors equal to it as data |
| Constraints.SetNeverSameAsList | src/commonMain/kotlin/com/prvz/kvalidity/constraint/CollectionConstraints.kt:52-97 | a descriptor holding a set never equals, in Kotlin, one of the same kind holding a list |
| Constraints.IsNotNullMessageAsWritten | src/commonMain/kotlin/com/prvz/kvalidity/constraint/NullabilityConstraint.kt:5-8 | as written, `IsNotNull` is bound to the parameterless `True` resource |
| Constraints.SingletonsHaveNoParams | src/commonMain/kotlin/com/prvz/kvalidity/constraint/TextConstraints.kt:23-94 | the parameterless descriptors (`Null`, `NotNull`, `Valid`, `Empty`, `Blank` … `LowerCase`, `Email`, `Website`, `True`, `False`) carry no parameters |
| Constraints.AnyParams | src/commonMain/kotlin/com/prvz/kvalidity/constraint/AnyConstraints.kt:42-87 | `Equals`/`NotEquals` carry `v.toString()` or nothing for null; `In` reuses the `Equals` resource while `NotIn` has its own; both carry their collection, shown as its elements in iteration order |
| Constraints.ComparableParams | src/commonMain/kotlin/com/prvz/kvalidity/constraint/ComparableConstraints.kt:23-67 | the one-bound comparisons carry their bound unless it is null; `Between`/`NotBetween` carry `[start, end]` only when both are non-null |
| Constraints.BoundedParams | src/commonMain/kotlin/com/prvz/kvalidity/constraint/NumberConstraints.kt:26-74 | `Size`, `IntegerDigits` and `DecimalDigits` make the same four-way choice; with default bounds `Size()` carries `[Int.MIN_VALUE, Int.MAX_VALUE]` |
| Constraints.FromRegex | src/commonMain/kotlin/com/prvz/kvalidity/constraint/TextConstraints.kt:101-155 | the regex constructors keep only `regex.pattern`, which is their one parameter |
| Constraints.FromRegexForgetsOptions | src/commonMain/kotlin/com/prvz/kvalidity/constraint/TextConstraints.kt:103 | two regexes with one pattern give equal descriptors whatever their options |
| Constraints.AffixParams | src/commonMain/kotlin/com/prvz/kvalidity/constraint/TextConstraints.kt:162-211 | the prefix and suffix descriptors carry exactly their string |
| Constraints.IsNotNullMessageMislabels | src/commonMain/kotlin/com/prvz/kvalidity/constraint/NullabilityConstraint.kt:5-8 | as written `IsNotNull` reports the `True` message; the corrected binding reports that of `NotNull` |
| Values.ToSet | src/commonMain/kotlin/com/prvz/kvalidity/functions/AnyFunctions.kt:67-84 | `toSet()` keeps the same members, without repeats, and is never longer |
| Values.ToSetKeepsDistinct | src/commonMain/kotlin/com/prvz/kvalidity/functions/StringFunctions.kt:146 | arguments without repeats are recorded unchanged by the vararg overloads |
| Values.Collected | src/commonMain/kotlin/com/prvz/kvalidity/functions/AnyFunctions.kt:67-92 | a vararg is recorded as a set of its arguments, without repeats, and an `Iterable` as the list given; either way with exactly the arguments as members |
| Values.SameCollIsEquivalence | src/commonMain/kotlin/com/prvz/kvalidity/constraint/AnyConstraints.kt:68 | Kotlin collection equality (sets by members, lists element by element, a set never a list) is reflexive, symmetric and transitive |
| Values.CollectedAgree | src/commonMain/kotlin/com/prvz/kvalidity/functions/AnyFunctions.kt:67-92 | the two overloads record collections with the same members that Kotlin never finds equal, the vararg one a set and the `Iterable` one a list; the set iterates as the list does iff the arguments have no repeats |
| Values.CollectedOrder | src/commonMain/kotlin/com/prvz/kvalidity/functions/AnyFunctions.kt:67-76 | vararg arguments with the same members, in any order and with any repeats, record equal sets; two `Iterable`s record equal lists iff they are the same sequence |
| Text.ContainsIffOccurs | src/commonMain/kotlin/com/prvz/kvalidity/functions/StringFunctions.kt:124 | `contains` holds iff the string occurs at some position |
| Text.Length | src/commonMain/kotlin/com/prvz/kvalidity/functions/StringFunctions.kt:116 | `String.length` counts UTF-16 code units: between one and two per character, zero only for the empty string, and the character count iff every character lies in the Basic Multilingual Plane |
| Text.StartsOrEndsWithImpliesContains | src/commonMain/kotlin/com/prvz/kvalidity/functions/StringFunctions.kt:379-420 | a prefix or suffix is a substring |
| AnyFunctions.IsNull | src/commonMain/kotlin/com/prvz/kvalidity/functions/AnyFunctions.kt:34-35 | the predicate accepts exactly null; failure records `Null` |
| AnyFunctions.IsNotNull | src/commonMain/kotlin/com/prvz/kvalidity/functions/AnyFunctions.kt:38-44 | a `validateAndMap` accepting exactly the non-null values, mapping them to themselves, and recording the caller's constraint (by default `NotNull`) on null |
| AnyFunctions.IsEqualTo | src/commonMain/kotlin/com/prvz/kvalidity/functions/AnyFunctions.kt:51-52 | passes iff null or equal; failure records `Equals(value)` |
| AnyFunctions.IsNotEqualTo | src/commonMain/kotlin/com/prvz/kvalidity/functions/AnyFunctions.kt:59-60 | passes iff null or unequal; failure records `NotEquals(value)` |
| AnyFunctions.IsIn | src/commonMain/kotlin/com/prvz/kvalidity/functions/AnyFunctions.kt:67-76 | passes iff null or a member; failure records `In` over a set of the arguments for the vararg overload and over the list given for the `Iterable` one |
| AnyFunctions.IsNotIn | src/commonMain/kotlin/com/prvz/kvalidity/functions/AnyFunctions.kt:83-92 | passes iff null or not a member; failure records `NotIn` likewise |
| AnyFunctions.IsValid | src/commonMain/kotlin/com/prvz/kvalidity/functions/AnyFunctions.kt:99-109 | passes iff null or the caller's predicate holds; failure records `Valid`; `isCoValid` is the same |
| AnyFunctions.IsNullNeverPasses | src/commonMain/kotlin/com/prvz/kvalidity/functions/AnyFunctions.kt:34-35 | through `validate`, `isNull` faults on null and appends `Null` on any other value |
| AnyFunctions.NegatedRulesComplement | src/commonMain/kotlin/com/prvz/kvalidity/functions/AnyFunctions.kt:51-92 | on a non-null value exactly one of `isEqualTo`/`isNotEqualTo` fails, and exactly one of `isIn`/`isNotIn` |
| AnyFunctions.IsInOneIsEqualTo | src/commonMain/kotlin/com/prvz/kvalidity/functions/AnyFunctions.kt:51-68 | `isIn(x)` gives the verdict of `isEqualTo(x)` and records `In(setOf(x))` |
| AnyFunctions.VarargAndIterableAgree | src/commonMain/kotlin/com/prvz/kvalidity/functions/AnyFunctions.kt:67-92 | both overloads of `isIn`/`isNotIn` give the same verdict on every value, yet never record descriptors Kotlin finds equal; the vararg set iterates as the arguments iff they have no repeats |
| AnyFunctions.ArgumentOrder | src/commonMain/kotlin/com/prvz/kvalidity/functions/AnyFunctions.kt:67-92 | vararg `isIn`/`isNotIn` with the same members in any order record descriptors Kotlin finds equal; `Iterable` `isIn` records equal descriptors iff the lists are the same |
| AnyFunctions.IsNotNullDefault | src/commonMain/kotlin/com/prvz/kvalidity/functions/AnyFunctions.kt:38-44 | `isNotNull()` passes iff non-null, records `NotNull` on null, and hands the value on unchanged |
| StringFunctions.IsEmpty | src/commonMain/kotlin/com/prvz/kvalidity/functions/StringFunctions.kt:21-22 | passes iff the string is empty; failure records `Empty` |
| StringFunctions.IsNotEmpty | src/commonMain/kotlin/com/prvz/kvalidity/functions/StringFunctions.kt:25-26 | passes iff the string is non-empty; failure records `NotEmpty` |
| StringFunctions.HasSize | src/commonMain/kotlin/com/prvz/kvalidity/functions/StringFunctions.kt:112-116 | passes iff `min <= length <= max`, the length counted in UTF-16 code units; failure records `Size(min, max)`; the bounds default to `Int.MIN_VALUE`/`Int.MAX_VALUE` |
| StringFunctions.Contains | src/commonMain/kotlin/com/prvz/kvalidity/functions/StringFunctions.kt:123-124 | passes iff the argument is a substring; failure records `Contains(value)` |
| StringFunctions.DoesNotContain | src/commonMain/kotlin/com/prvz/kvalidity/functions/StringFunctions.kt:235-236 | passes iff the argument is not a substring; failure records `NotContain(value)` |
| StringFunctions.ContainsAll | src/commonMain/kotlin/com/prvz/kvalidity/functions/StringFunctions.kt:143-158 | passes iff every argument is a substring; failure records `ContainsAll` over the collected arguments |
| StringFunctions.ContainsAny | src/commonMain/kotlin/com/prvz/kvalidity/functions/StringFunctions.kt:189-204 | passes iff some argument is a substring; failure records `ContainsAny` |
| StringFunctions.DoesNotContainAll | src/commonMain/kotlin/com/prvz/kvalidity/functions/StringFunctions.kt:255-270 | passes iff some argument is missing; failure records `NotContainAll` |
| StringFunctions.DoesNotContainAny | src/commonMain/kotlin/com/prvz/kvalidity/functions/StringFunctions.kt:301-316 | passes iff every argument is missing; failure records `NotContainAny` |
| StringFunctions.StartsWith | src/commonMain/kotlin/com/prvz/kvalidity/functions/StringFunctions.kt:379-380 | passes iff the string is the prefix followed by something; failure records `StartsWith(prefix)` |
| StringFunctions.DoesNotStartWith | src/commonMain/kotlin/com/prvz/kvalidity/functions/StringFunctions.kt:399-400 | passes iff the string does not start with the prefix; failure records `NotStartWith(prefix)` |
| StringFunctions.EndsWith | src/commonMain/kotlin/com/prvz/kvalidity/functions/StringFunctions.kt:419-420 | passes iff the string is something followed by the suffix; failure records `EndsWith(suffix)` |
| StringFunctions.DoesNotEndWith | src/commonMain/kotlin/com/prvz/kvalidity/functions/StringFunctions.kt:439-440 | passes iff the string does not end with the suffix; failure records `NotEndWith(suffix)` |
| StringFunctions.ContainsFindsSubstrings | src/commonMain/kotlin/com/prvz/kvalidity/functions/StringFunctions.kt:123-124 | `contains(value)` passes iff `value` occurs at some position |
| StringFunctions.AffixRulesImplyContains | src/commonMain/kotlin/com/prvz/kvalidity/functions/StringFunctions.kt:379-440 | passing `startsWith(t)` or `endsWith(t)` implies passing `contains(t)`; passing `doesNotContain(t)` implies passing `doesNotStartWith(t)` and `doesNotEndWith(t)` |
| StringFunctions.NegatedRulesComplement | src/commonMain/kotlin/com/prvz/kvalidity/functions/StringFunctions.kt:21-440 | each rule and its negation split the strings between them |
| StringFunctions.NoArguments | src/commonMain/kotlin/com/prvz/kvalidity/functions/StringFunctions.kt:155-316 | with no arguments `containsAll` and `doesNotContainAny` accept everything, `containsAny` and `doesNotContainAll` nothing |
| StringFunctions.OneArgument | src/commonMain/kotlin/com/prvz/kvalidity/functions/StringFunctions.kt:143-204 | with one argument `containsAll` and `containsAny` give the verdict of `contains` |
| StringFunctions.AllImpliesAny | src/commonMain/kotlin/com/prvz/kvalidity/functions/StringFunctions.kt:143-204 | with arguments, passing `containsAll` implies passing `containsAny` |
| StringFunctions.EmptyStringIsEverywhere | src/commonMain/kotlin/com/prvz/kvalidity/functions/StringFunctions.kt:123-420 | every string contains, starts with and ends with "" |
| StringFunctions.HasSizeBounds | src/commonMain/kotlin/com/prvz/kvalidity/functions/StringFunctions.kt:112-116 | with default bounds every string a Kotlin `String` can hold passes; `hasSize(max = 0)` is `isEmpty()` |
| StringFunctions.HasSizeCountsCodeUnits | src/commonMain/kotlin/com/prvz/kvalidity/functions/StringFunctions.kt:112-116 | on strings of the Basic Multilingual Plane `hasSize` bounds the character count; `hasSize(max = 1)` rejects the one-character string "😀", two code units long |
| StringFunctions.VarargAndIterableAgree | src/commonMain/kotlin/com/prvz/kvalidity/functions/StringFunctions.kt:143-316 | both overloads of `containsAll`, `containsAny`, `doesNotContainAll` and `doesNotContainAny` give the same verdict |
| StringFunctions.OverloadsRecordSetAndList | src/commonMain/kotlin/com/prvz/kvalidity/functions/StringFunctions.kt:143-204 | the overloads of `containsAll` and `containsAny` never record descriptors Kotlin finds equal, the vararg one holding a set; the set iterates as the arguments iff they have no repeats |
| StringFunctions.NegatedOverloadsRecordSetAndList | src/commonMain/kotlin/com/prvz/kvalidity/functions/StringFunctions.kt:255-316 | the overloads of `doesNotContainAll` and `doesNotContainAny` never record descriptors Kotlin finds equal |
| StringFunctions.NullPassesEveryPredicate | src/commonMain/kotlin/com/prvz/kvalidity/functions/StringFunctions.kt:22-440 | every string predicate accepts null |
| ComparableFunctions.IsLessThan | src/commonMain/kotlin/com/prvz/kvalidity/functions/ComparableFunctions.kt:21-22 | passes iff `v < value`; failure records `Less(value)` |
| ComparableFunctions.IsLessThanOrEqualTo | src/commonMain/kotlin/com/prvz/kvalidity/functions/ComparableFunctions.kt:25-27 | passes iff `v <= value`; failure records `LessOrEqual(value)` |
| ComparableFunctions.IsGreaterThan | src/commonMain/kotlin/com/prvz/kvalidity/functions/ComparableFunctions.kt:30-31 | passes iff `v > value`; failure records `Greater(value)` |
| ComparableFunctions.IsGreaterThanOrEqualToAsWritten | src/commonMain/kotlin/com/prvz/kvalidity/functions/ComparableFunctions.kt:34-36 | passes iff `v >= value`, yet failure records `Greater(value)` |
| ComparableFunctions.IsGreaterThanOrEqualTo | src/commonMain/kotlin/com/prvz/kvalidity/functions/ComparableFunctions.kt:34-36 | passes iff `v >= value`; failure records `GreaterOrEqual(value)` |
| ComparableFunctions.IsBetween | src/commonMain/kotlin/com/prvz/kvalidity/functions/ComparableFunctions.kt:44-48 | passes iff `start <= v <= end`, both ends inclusive; failure records `Between(start, end)` |
| ComparableFunctions.IsNotBetween | src/commonMain/kotlin/com/prvz/kvalidity/functions/ComparableFunctions.kt:56-60 | passes iff `v` lies outside `[start, end]`; failure records `NotBetween(start, end)` |
| ComparableFunctions.RulesRecordTheirOwnPredicate | src/commonMain/kotlin/com/prvz/kvalidity/functions/ComparableFunctions.kt:21-60 | every comparison rule passes exactly when the constraint it records holds of the value |
| ComparableFunctions.GreaterOrEqualAsWrittenMislabels | src/commonMain/kotlin/com/prvz/kvalidity/functions/ComparableFunctions.kt:30-36 | as written, `isGreaterThanOrEqualTo(b)` accepts `b`, which its recorded `Greater(b)` excludes, and records what `isGreaterThan(b)` records |
| ComparableFunctions.ComplementaryRules | src/commonMain/kotlin/com/prvz/kvalidity/functions/ComparableFunctions.kt:21-60 | `<` and `>=`, `>` and `<=`, and `isBetween` and `isNotBetween` split the integers between them |
| ComparableFunctions.EmptyRange | src/commonMain/kotlin/com/prvz/kvalidity/functions/ComparableFunctions.kt:44-60 | with `end < start` `isBetween` rejects every value and `isNotBetween` accepts every value |
| ComparableFunctions.NullPassesEveryPredicate | src/commonMain/kotlin/com/prvz/kvalidity/functions/ComparableFunctions.kt:21-60 | every comparison predicate accepts null |
| BooleanFunctions.IsTrue | src/commonMain/kotlin/com/prvz/kvalidity/functions/BooleanFunctions.kt:23-25 | passes iff true; failure records what `constraintFunc` builds, `True` by default |
| BooleanFunctions.IsFalse | src/commonMain/kotlin/com/prvz/kvalidity/functions/BooleanFunctions.kt:28-30 | passes iff false; failure records what `constraintFunc` builds, `False` by default |
| BooleanFunctions.ExactlyOneBooleanRuleFails | src/commonMain/kotlin/com/prvz/kvalidity/functions/BooleanFunctions.kt:23-30 | on a boolean exactly one of `isTrue()`/`isFalse()` fails, recording the descriptor of the value it expected |
| BooleanFunctions.NullPassesBothPredicates | src/commonMain/kotlin/com/prvz/kvalidity/functions/BooleanFunctions.kt:23-30 | both predicates accept null |
| NullabilityFunctions.IsNotNull | src/commonMain/kotlin/com/prvz/kvalidity/functions/NullabilityFunctions.kt:7-11 | a `validateAndMap` accepting exactly the non-null values, mapping them to themselves, and recording the caller's constraint (by default `IsNotNull`) on null |
| NullabilityFunctions.SameAsAnyIsNotNull | src/commonMain/kotlin/com/prvz/kvalidity/functions/NullabilityFunctions.kt:7-11 | both `isNotNull` rules check and map alike; by default they differ only in the descriptor they record, which carries the same message once corrected |
| Scenarios.ValidatorTestRun | src/commonTest/kotlin/ValidatorTest.kt:50-84 | the sample run records exactly `("a", true, False)`, `("d.e", 2, Greater(3))` and `("b", null, NotNull)`; the failed `isNotNull` gives a stopped pipeline whose value cannot be read and which takes further rules without fault; the passing one gives a `Valid` pipeline over `"2"` |
| Scenarios.ValidatedTestRun | src/commonTest/kotlin/ValidatedTest.kt:28-35 | `"123".validateSelf("test") { isEmpty().isEqualTo("321") }` records both failures in chain order, and `throwIfIsNotValid()` raises them |

## Left out

- Message text: the Moko resource translator, the `ConstraintMessageProvider` wrappers and locale handling are I/O over a resource library. A descriptor is modelled down to its resource name and its parameters. `MessageProvider` binds each descriptor to the resource the source binds it to (`In`, for one, to the `Equals` resource), except `IsNotNull`, which it binds to `NotNull` as corrected under "## Findings"; `Constraints.IsNotNullMessageAsWritten` keeps the source's `True` binding. The exact text `ValidatedTest.kt` expects is therefore not modelled.
- The regex rules (`matches`, `doesNotMatch`, `contains(regex)`, `doesNotContain(regex)`), `isEmail` and `isWebsite` depend on the regex engine. Their descriptors, and the projection of a regex onto its pattern, are modelled.
- The `*IgnoringCase` rules, `isBlank` and `isNotBlank` depend on Kotlin's Unicode case mapping and whitespace tables.
- Coroutine suspension: `coValidate`, `coValidateAndMap` and `isCoValid` are their synchronous twins.
- The body of `validate` and `validateSelf` is a Kotlin lambda. It is modelled as the list of chains it runs, each from a given pipeline. Arbitrary code between the chains is not modelled.
- Validated.kt declares its field as a single `ConstraintViolationException?`, while Validator.kt:27-30 hands it a list. The model follows Validator.kt: `Validated` holds the violation list and is valid iff the list is empty.
- BooleanFunctions.kt and NullabilityFunctions.kt extend a `Validator<T>.Pipeline` type that is not part of this model. Their rules are applied to the `ObjectValidation` pipeline, like the others.
- Comparable rules are modelled over unbounded integers. Other `Comparable` types and Kotlin's 32-bit `Int` overflow are not modelled; no rule does arithmetic.
- The collection an `Iterable` overload records is the caller's own, of whatever class; the model takes it to be a `List`. A caller passing a `Set` would get set equality, which the model does not capture. The parameter a collection contributes to a message is shown as its elements in iteration order, which is what `toString` prints for either kind.
- Validation.ToValidated: Validator.kt:30 hands `Validated` the validator's live `MutableList`, not a copy, and Validator.kt:29 a fresh empty list. A pipeline that escapes the body and keeps appending after `validate` returns is seen by a non-empty `Validated` and not by an empty one; the model's `Validated` holds the violations as they stood when it was built, so this aliasing is not captured.
- `Show` is a simplified `toString`: integers in decimal, strings as themselves, lists in brackets.
- `constraint/ConstraintViolation.kt` (the older violation type), `Validation.kt` (an empty class) and `ext/ResultMonadExt.kt` (a one-line wrapper over the kotlin-result library, mirroring `toResult`) are not part of this model.
- Exceptions thrown by the caller's own lambdas are not modelled. The only faults are the null dereference in `validate` and reading `Invalid.value`.

## Findings

| source | as written | input that shows it | evidently intended | confidence | as-written member | corrected member |
|---|---|---|---|---|---|---|
| src/commonMain/kotlin/com/prvz/kvalidity/functions/ComparableFunctions.kt:34-36 | `isGreaterThanOrEqualTo(value)` records `Greater(value)` | `validateVal(2, "x").isGreaterThanOrEqualTo(3)` records `Greater(3)`, the same violation `isGreaterThan(3)` records, although 3 itself would pass | record `GreaterOrEqual(value)`, the descriptor of its own predicate | not executed | ComparableFunctions.GreaterOrEqualAsWrittenMislabels | ComparableFunctions.RulesRecordTheirOwnPredicate |
| src/commonMain/kotlin/com/prvz/kvalidity/constraint/NullabilityConstraint.kt:5-8 | `IsNotNull` is bound to the `True` message resource | `validateVal(null, "x").isNotNull()` (the NullabilityFunctions.kt rule) reports the message of a failed `isTrue` | bind it to the `NotNull` resource, like the `NotNull` descriptor | not executed | Constraints.IsNotNullMessageMislabels | NullabilityFunctions.SameAsAnyIsNotNull |
