/** Constraint descriptors: the immutable records a failed rule leaves in a
    violation, and the message resource and parameters each one selects.

    In Kotlin every descriptor is an `object` (a parameterless singleton) or
    a `data class` (equal when its fields are equal); here they are the
    constructors of one datatype. Its equality is structural, which is
    Kotlin's except for the collections some descriptors hold: Kotlin's
    equality is `SameConstraint`. A descriptor's `messageProvider` is a binding to a string resource
    and an optional parameter array; the model keeps the resource name and
    the parameters (see `Message`), and leaves the translation out. */
module Constraints {
  import opened Wrappers
  import opened Values

  datatype Constraint =
    // AnyConstraints.kt
    | Null
    | NotNull
    | Equals(value: Value)
    | NotEquals(value: Value)
    | In(values: Coll<Value>)
    | NotIn(values: Coll<Value>)
    | Valid
    // BooleanConstraints.kt and NullabilityConstraint.kt
    | True
    | False
    | IsNotNull
    // ComparableConstraints.kt
    | Less(value: Value)
    | LessOrEqual(value: Value)
    | Greater(value: Value)
    | GreaterOrEqual(value: Value)
    | Between(start: Value, end: Value)
    | NotBetween(start: Value, end: Value)
    // CollectionConstraints.kt
    | Empty
    | NotEmpty
    | Contains(value: Value)
    | ContainsAll(values: Coll<Value>)
    | ContainsAny(values: Coll<Value>)
    | NotContain(value: Value)
    | NotContainAll(values: Coll<Value>)
    | NotContainAny(values: Coll<Value>)
    | Size(min: Int32 := IntMin, max: Int32 := IntMax)
    // NumberConstraints.kt
    | IntegerDigits(min: Int32 := IntMin, max: Int32 := IntMax)
    | DecimalDigits(min: Int32 := IntMin, max: Int32 := IntMax)
    // TextConstraints.kt
    | Blank
    | NotBlank
    | Letter
    | NotLetter
    | Digit
    | NotDigit
    | LetterOrDigit
    | NotLetterOrDigit
    | UpperCase
    | LowerCase
    | Matches(pattern: string)
    | NotMatch(pattern: string)
    | ContainsRegex(pattern: string)
    | NotContainRegex(pattern: string)
    | StartsWith(prefix: string)
    | NotStartWith(prefix: string)
    | EndsWith(suffix: string)
    | NotEndWith(suffix: string)
    | Email
    | Website

  /** Kotlin's `equals` between two descriptors: the data classes compare
      their fields, a collection field as `SameColl` says and every other
      field as the datatype does; the singletons are equal to themselves
      only. */
  predicate SameConstraint(c: Constraint, d: Constraint) {
    match c
    case In(x) => d.In? && SameColl(x, d.values)
    case NotIn(x) => d.NotIn? && SameColl(x, d.values)
    case ContainsAll(x) => d.ContainsAll? && SameColl(x, d.values)
    case ContainsAny(x) => d.ContainsAny? && SameColl(x, d.values)
    case NotContainAll(x) => d.NotContainAll? && SameColl(x, d.values)
    case NotContainAny(x) => d.NotContainAny? && SameColl(x, d.values)
    case _ => c == d
  }

  /** The descriptors holding a collection. */
  predicate HoldsColl(c: Constraint) {
    c.In? || c.NotIn? || c.ContainsAll? || c.ContainsAny? || c.NotContainAll? || c.NotContainAny?
  }

  /** Descriptors the datatype finds equal are equal in Kotlin too, and
      two descriptors without a collection are equal in Kotlin exactly when
      they are equal here. */
  lemma SameConstraintRefinesEquality(c: Constraint, d: Constraint)
    ensures c == d ==> SameConstraint(c, d)
    ensures !HoldsColl(c) ==> (SameConstraint(c, d) <==> c == d)
  {
    if c == d && HoldsColl(c) {
      SameCollIsEquivalence(c.values, c.values, c.values);
    }
  }

  /** A descriptor holding a set never equals, in Kotlin, one of the same
      kind holding a list. */
  lemma SetNeverSameAsList(x: Coll<Value>, y: Coll<Value>)
    requires x.SetOf? != y.SetOf?
    ensures !SameConstraint(In(x), In(y)) && !SameConstraint(NotIn(x), NotIn(y))
    ensures !SameConstraint(ContainsAll(x), ContainsAll(y)) && !SameConstraint(ContainsAny(x), ContainsAny(y))
    ensures !SameConstraint(NotContainAll(x), NotContainAll(y)) && !SameConstraint(NotContainAny(x), NotContainAny(y))
  {
  }

  /** What a `MokoStaticConstraintMessageProvider` is built from: the name of
      a bundled string resource (`MR.strings.kvalidity_bundled_<resource>`)
      and the parameter array, `None` standing for Kotlin's `null` array. */
  datatype Message = Message(resource: string, params: Option<seq<Value>>)

  /** A parameter array as the Kotlin type `Array<out Any>` allows it: when
      present, it is non-empty and holds no null. */
  predicate NullFree(params: Option<seq<Value>>) {
    params.Some? ==> |params.value| > 0 && NullV !in params.value
  }

  /** `Any?.toParamArrayOrNull()` (Constraint.kt:7-10). */
  function ToParamArrayOrNull(v: Value): (r: Option<seq<Value>>)
    ensures NullFree(r)
    ensures r.None? <==> v == NullV
    ensures r.Some? ==> r.value == [v]
  {
    if v != NullV then Some([v]) else None
  }

  /** `Pair<Any?, Any?>.toParamArrayOrNull()` (Constraint.kt:12-19). */
  function PairToParamArrayOrNull(first: Value, second: Value): (r: Option<seq<Value>>)
    ensures NullFree(r)
    ensures r.None? <==> (first == NullV || second == NullV)
    ensures r.Some? ==> r.value == [first, second]
  {
    if first == NullV || second == NullV then None else Some([first, second])
  }

  /** The pair form is the two single forms side by side: it is present
      exactly when both single arrays are, and is then their concatenation. */
  lemma PairIsBothSingles(first: Value, second: Value)
    ensures PairToParamArrayOrNull(first, second)
         == if ToParamArrayOrNull(first).Some? && ToParamArrayOrNull(second).Some?
            then Some(ToParamArrayOrNull(first).value + ToParamArrayOrNull(second).value)
            else None
  {
    if first != NullV && second != NullV {
      assert [first] + [second] == [first, second];
    }
  }

  /** The four-way choice of `Size.getData`, `IntegerDigits.getData` and
      `DecimalDigits.getData`: `Int.MIN_VALUE` and `Int.MAX_VALUE` mean "no
      bound". A single given bound selects the `_min` or `_max` resource with
      that bound alone; two given bounds, or none, select the plain resource
      with both. */
  function BoundsMessage(base: string, min: Int32, max: Int32): (r: Message)
    ensures NullFree(r.params) && r.params.Some?
    ensures |r.params.value| == 1 <==> ((min != IntMin) != (max != IntMax))
    ensures |r.params.value| == 1 && min != IntMin ==> r == Message(base + "_min", Some([IntV(min)]))
    ensures |r.params.value| == 1 && max != IntMax ==> r == Message(base + "_max", Some([IntV(max)]))
    ensures |r.params.value| != 1 ==> r == Message(base, Some([IntV(min), IntV(max)]))
  {
    if min != IntMin && max != IntMax then Message(base, Some([IntV(min), IntV(max)]))
    else if min != IntMin then Message(base + "_min", Some([IntV(min)]))
    else if max != IntMax then Message(base + "_max", Some([IntV(max)]))
    else Message(base, Some([IntV(min), IntV(max)]))
  }

  /** `value?.toString().toParamArrayOrNull()`: the parameter of `Equals`
      and `NotEquals` is the value's string form. */
  function ShownParam(v: Value): (r: Option<seq<Value>>)
    ensures NullFree(r)
    ensures r.None? <==> v == NullV
  {
    ToParamArrayOrNull(if v == NullV then NullV else StrV(Show(v)))
  }

  /** The message binding of every descriptor. */
  function MessageProvider(c: Constraint): (m: Message)
    ensures NullFree(m.params)
  {
    match c
    case Null => Message("Null", None)
    case NotNull => Message("NotNull", None)
    case Equals(v) => Message("Equals", ShownParam(v))
    case NotEquals(v) => Message("NotEquals", ShownParam(v))
    case In(vs) => Message("Equals", ToParamArrayOrNull(ListV(vs.elems)))
    case NotIn(vs) => Message("NotIn", ToParamArrayOrNull(ListV(vs.elems)))
    case Valid => Message("Valid", None)
    case True => Message("True", None)
    case False => Message("False", None)
    case IsNotNull => Message("NotNull", None)
    case Less(v) => Message("Less", ToParamArrayOrNull(v))
    case LessOrEqual(v) => Message("LessOrEqual", ToParamArrayOrNull(v))
    case Greater(v) => Message("Greater", ToParamArrayOrNull(v))
    case GreaterOrEqual(v) => Message("GreaterOrEqual", ToParamArrayOrNull(v))
    case Between(s, e) => Message("Between", PairToParamArrayOrNull(s, e))
    case NotBetween(s, e) => Message("NotBetween", PairToParamArrayOrNull(s, e))
    case Empty => Message("Empty", None)
    case NotEmpty => Message("NotEmpty", None)
    case Contains(v) => Message("Contains", ToParamArrayOrNull(v))
    case ContainsAll(vs) => Message("ContainsAll", ToParamArrayOrNull(ListV(vs.elems)))
    case ContainsAny(vs) => Message("ContainsAny", ToParamArrayOrNull(ListV(vs.elems)))
    case NotContain(v) => Message("NotContain", ToParamArrayOrNull(v))
    case NotContainAll(vs) => Message("NotContainAll", ToParamArrayOrNull(ListV(vs.elems)))
    case NotContainAny(vs) => Message("NotContainAny", ToParamArrayOrNull(ListV(vs.elems)))
    case Size(min, max) => BoundsMessage("Size", min, max)
    case IntegerDigits(min, max) => BoundsMessage("IntegerDigits", min, max)
    case DecimalDigits(min, max) => BoundsMessage("DecimalDigits", min, max)
    case Blank => Message("Blank", None)
    case NotBlank => Message("NotBlank", None)
    case Letter => Message("Letter", None)
    case NotLetter => Message("NotLetter", None)
    case Digit => Message("Digit", None)
    case NotDigit => Message("NotDigit", None)
    case LetterOrDigit => Message("LetterOrDigit", None)
    case NotLetterOrDigit => Message("NotLetterOrDigit", None)
    case UpperCase => Message("UpperCase", None)
    case LowerCase => Message("LowerCase", None)
    case Matches(p) => Message("Matches", Some([StrV(p)]))
    case NotMatch(p) => Message("NotMatch", Some([StrV(p)]))
    case ContainsRegex(p) => Message("ContainsRegex", Some([StrV(p)]))
    case NotContainRegex(p) => Message("NotContainRegex", Some([StrV(p)]))
    case StartsWith(p) => Message("StartsWith", Some([StrV(p)]))
    case NotStartWith(p) => Message("NotStartWith", Some([StrV(p)]))
    case EndsWith(s) => Message("EndsWith", Some([StrV(s)]))
    case NotEndWith(s) => Message("NotEndWith", Some([StrV(s)]))
    case Email => Message("Email", None)
    case Website => Message("Website", None)
  }

  /** The message binding of `IsNotNull` as NullabilityConstraint.kt
      writes it: the resource of `True`. `MessageProvider` binds it to the
      resource of `NotNull` instead, the message of the null check it
      reports. */
  function IsNotNullMessageAsWritten(): (m: Message)
    ensures m.resource == "True" && m.params.None?
  {
    MessageProvider(True)
  }

  /** As written, a failed nullability `isNotNull` reports the message of a
      failed `isTrue`, while the corrected binding reports the message of
      the other `isNotNull`. */
  lemma IsNotNullMessageMislabels()
    ensures IsNotNullMessageAsWritten() == MessageProvider(True)
    ensures IsNotNullMessageAsWritten() != MessageProvider(IsNotNull)
    ensures MessageProvider(IsNotNull) == MessageProvider(NotNull)
  {
  }

  /** The singletons carry no parameters. */
  predicate IsSingleton(c: Constraint) {
    c.Null? || c.NotNull? || c.Valid? || c.True? || c.False? || c.IsNotNull? || c.Empty? || c.NotEmpty?
    || c.Blank? || c.NotBlank? || c.Letter? || c.NotLetter? || c.Digit? || c.NotDigit?
    || c.LetterOrDigit? || c.NotLetterOrDigit? || c.UpperCase? || c.LowerCase? || c.Email? || c.Website?
  }

  /** The singletons carry no parameters. */
  lemma SingletonsHaveNoParams(c: Constraint)
    requires IsSingleton(c)
    ensures MessageProvider(c).params.None?
  {
  }

  // ---- AnyConstraints.kt ----

  /** `Equals(v)` and `NotEquals(v)` carry `v.toString()`, or nothing when
      `v` is null; `In` borrows the `Equals` resource and `NotIn` has its
      own; both carry their whole collection as one parameter, shown as
      its elements in iteration order whether it is a set or a list. */
  lemma AnyParams(v: Value, vs: Coll<Value>)
    ensures MessageProvider(Equals(v)).params == MessageProvider(NotEquals(v)).params
    ensures v != NullV ==> MessageProvider(Equals(v)).params == Some([StrV(Show(v))])
    ensures v == NullV ==> MessageProvider(Equals(v)).params.None?
    ensures MessageProvider(In(vs)).resource == MessageProvider(Equals(v)).resource
    ensures MessageProvider(NotIn(vs)).resource != MessageProvider(In(vs)).resource
    ensures MessageProvider(In(vs)).params == MessageProvider(NotIn(vs)).params == Some([ListV(vs.elems)])
  {
  }

  // ---- ComparableConstraints.kt ----

  /** The one-bound comparisons carry their bound unless it is null; the
      ranges carry `[start, end]` only when both are non-null. */
  lemma ComparableParams(v: Value, start: Value, end: Value)
    ensures MessageProvider(Less(v)).params == MessageProvider(LessOrEqual(v)).params
         == MessageProvider(Greater(v)).params == MessageProvider(GreaterOrEqual(v)).params
         == ToParamArrayOrNull(v)
    ensures MessageProvider(Between(start, end)).params == MessageProvider(NotBetween(start, end)).params
         == PairToParamArrayOrNull(start, end)
  {
  }

  // ---- CollectionConstraints.kt and NumberConstraints.kt ----

  /** `Size`, `IntegerDigits` and `DecimalDigits` share the four-way choice:
      each selects its own resource family with the same parameters. */
  lemma BoundedParams(min: Int32, max: Int32)
    ensures MessageProvider(Size(min, max)) == BoundsMessage("Size", min, max)
    ensures MessageProvider(IntegerDigits(min, max)).params == MessageProvider(Size(min, max)).params
    ensures MessageProvider(DecimalDigits(min, max)).params == MessageProvider(Size(min, max)).params
    ensures MessageProvider(Size()).params == Some([IntV(IntMin), IntV(IntMax)])
  {
  }

  // ---- TextConstraints.kt ----

  datatype RegexOption = IgnoreCase | Multiline | Literal | UnixLines | Comments | DotMatchesAll | CanonEq

  /** `kotlin.text.Regex`: a pattern and its options. */
  datatype Regex = Regex(pattern: string, options: set<RegexOption>)

  /** The secondary constructors `Matches(regex)`, `NotMatch(regex)`,
      `ContainsRegex(regex)` and `NotContainRegex(regex)` keep `regex.pattern`
      only; `kind` selects which of the four is built. */
  datatype RegexKind = MatchesKind | NotMatchKind | ContainsRegexKind | NotContainRegexKind

  function FromRegex(kind: RegexKind, regex: Regex): (c: Constraint)
    ensures (c.Matches? || c.NotMatch? || c.ContainsRegex? || c.NotContainRegex?) && c.pattern == regex.pattern
    ensures MessageProvider(c).params == Some([StrV(regex.pattern)])
  {
    match kind
    case MatchesKind => Matches(regex.pattern)
    case NotMatchKind => NotMatch(regex.pattern)
    case ContainsRegexKind => ContainsRegex(regex.pattern)
    case NotContainRegexKind => NotContainRegex(regex.pattern)
  }

  /** Two regexes with the same pattern and different options give equal
      descriptors. */
  lemma FromRegexForgetsOptions(kind: RegexKind, r1: Regex, r2: Regex)
    requires r1.pattern == r2.pattern
    ensures FromRegex(kind, r1) == FromRegex(kind, r2)
  {
  }

  /** The prefix and suffix descriptors carry exactly their string. */
  lemma AffixParams(affix: string)
    ensures MessageProvider(StartsWith(affix)).params == MessageProvider(NotStartWith(affix)).params
         == MessageProvider(EndsWith(affix)).params == MessageProvider(NotEndWith(affix)).params
         == Some([StrV(affix)])
  {
  }
}
