/** The case-sensitive, non-regex rules of StringFunctions.kt. Each rule is
    the `validate` call it makes: the constraint it records and the
    predicate it checks on a string property. The predicates let null
    through, which `validate` never hands them. */
module StringFunctions {
  import opened Values
  import C = Constraints
  import Text
  import opened Validation

  /** A string rule's predicate: any property of type `String?`. */
  predicate IsString(v: Value) {
    v.NullV? || v.StrV?
  }

  /** `isEmpty()`: `isNullOrEmpty`. */
  function IsEmpty(): (op: Op)
    ensures forall s: string :: ChecksAs(op, StrV(s), C.Empty) && (Passes(op, StrV(s)) <==> s == [])
  {
    Check(_ => C.Empty, (v: Value) requires IsString(v) => v.NullV? || |v.s| == 0)
  }

  /** `isNotEmpty()`. */
  function IsNotEmpty(): (op: Op)
    ensures forall s: string :: ChecksAs(op, StrV(s), C.NotEmpty) && (Passes(op, StrV(s)) <==> s != [])
  {
    Check(_ => C.NotEmpty, (v: Value) requires IsString(v) => v.NullV? || |v.s| != 0)
  }

  /** `hasSize(min = Int.MIN_VALUE, max = Int.MAX_VALUE)`: the length, in
      UTF-16 code units, lies in the inclusive range. */
  function HasSize(min: Int32 := IntMin, max: Int32 := IntMax): (op: Op)
    ensures forall s: string ::
      ChecksAs(op, StrV(s), C.Size(min, max)) && (Passes(op, StrV(s)) <==> min <= Text.Length(s) <= max)
  {
    Check(_ => C.Size(min, max),
          (v: Value) requires IsString(v) => v.NullV? || (min <= Text.Length(v.s) && Text.Length(v.s) <= max))
  }

  /** `contains(value)`. */
  function Contains(value: string): (op: Op)
    ensures forall s: string ::
      ChecksAs(op, StrV(s), C.Contains(StrV(value))) && (Passes(op, StrV(s)) <==> Text.Contains(s, value))
  {
    Check(_ => C.Contains(StrV(value)), (v: Value) requires IsString(v) => v.NullV? || Text.Contains(v.s, value))
  }

  /** `doesNotContain(value)`. */
  function DoesNotContain(value: string): (op: Op)
    ensures forall s: string ::
      ChecksAs(op, StrV(s), C.NotContain(StrV(value))) && (Passes(op, StrV(s)) <==> !Text.Contains(s, value))
  {
    Check(_ => C.NotContain(StrV(value)), (v: Value) requires IsString(v) => v.NullV? || !Text.Contains(v.s, value))
  }

  /** Every argument is a substring of `s`. */
  predicate ContainsEvery(s: string, values: seq<string>) {
    forall e | e in values :: Text.Contains(s, e)
  }

  /** Some argument is a substring of `s`. */
  predicate ContainsSome(s: string, values: seq<string>) {
    exists e | e in values :: Text.Contains(s, e)
  }

  /** `containsAll(vararg values)` and `containsAll(values: Iterable)`. */
  function ContainsAll(values: Args<string>): (op: Op)
    ensures forall s: string ::
      ChecksAs(op, StrV(s), C.ContainsAll(Collected(StrArgs(values)))) &&
      (Passes(op, StrV(s)) <==> forall e | e in values.items :: Text.Contains(s, e))
  {
    Check(_ => C.ContainsAll(Collected(StrArgs(values))),
          (v: Value) requires IsString(v) => v.NullV? || ContainsEvery(v.s, values.items))
  }

  /** `containsAny(vararg values)` and `containsAny(values: Iterable)`. */
  function ContainsAny(values: Args<string>): (op: Op)
    ensures forall s: string ::
      ChecksAs(op, StrV(s), C.ContainsAny(Collected(StrArgs(values)))) &&
      (Passes(op, StrV(s)) <==> exists e | e in values.items :: Text.Contains(s, e))
  {
    Check(_ => C.ContainsAny(Collected(StrArgs(values))),
          (v: Value) requires IsString(v) => v.NullV? || ContainsSome(v.s, values.items))
  }

  /** `doesNotContainAll(vararg values)` and its `Iterable` overload: some
      argument is missing. */
  function DoesNotContainAll(values: Args<string>): (op: Op)
    ensures forall s: string ::
      ChecksAs(op, StrV(s), C.NotContainAll(Collected(StrArgs(values)))) &&
      (Passes(op, StrV(s)) <==> exists e | e in values.items :: !Text.Contains(s, e))
  {
    Check(_ => C.NotContainAll(Collected(StrArgs(values))),
          (v: Value) requires IsString(v) => v.NullV? || !ContainsEvery(v.s, values.items))
  }

  /** `doesNotContainAny(vararg values)` and its `Iterable` overload: every
      argument is missing. */
  function DoesNotContainAny(values: Args<string>): (op: Op)
    ensures forall s: string ::
      ChecksAs(op, StrV(s), C.NotContainAny(Collected(StrArgs(values)))) &&
      (Passes(op, StrV(s)) <==> forall e | e in values.items :: !Text.Contains(s, e))
  {
    Check(_ => C.NotContainAny(Collected(StrArgs(values))),
          (v: Value) requires IsString(v) => v.NullV? || !ContainsSome(v.s, values.items))
  }

  /** `startsWith(prefix)`. */
  function StartsWith(prefix: string): (op: Op)
    ensures forall s: string ::
      ChecksAs(op, StrV(s), C.StartsWith(prefix)) && (Passes(op, StrV(s)) <==> exists rest :: s == prefix + rest)
  {
    Text.AffixesSplit(prefix, prefix);
    Check(_ => C.StartsWith(prefix), (v: Value) requires IsString(v) => v.NullV? || Text.StartsWith(v.s, prefix))
  }

  /** `doesNotStartWith(prefix)`. */
  function DoesNotStartWith(prefix: string): (op: Op)
    ensures forall s: string ::
      ChecksAs(op, StrV(s), C.NotStartWith(prefix)) && (Passes(op, StrV(s)) <==> !Text.StartsWith(s, prefix))
  {
    Check(_ => C.NotStartWith(prefix), (v: Value) requires IsString(v) => v.NullV? || !Text.StartsWith(v.s, prefix))
  }

  /** `endsWith(suffix)`. */
  function EndsWith(suffix: string): (op: Op)
    ensures forall s: string ::
      ChecksAs(op, StrV(s), C.EndsWith(suffix)) && (Passes(op, StrV(s)) <==> exists front :: s == front + suffix)
  {
    Text.AffixesSplit(suffix, suffix);
    Check(_ => C.EndsWith(suffix), (v: Value) requires IsString(v) => v.NullV? || Text.EndsWith(v.s, suffix))
  }

  /** `doesNotEndWith(suffix)`. */
  function DoesNotEndWith(suffix: string): (op: Op)
    ensures forall s: string ::
      ChecksAs(op, StrV(s), C.NotEndWith(suffix)) && (Passes(op, StrV(s)) <==> !Text.EndsWith(s, suffix))
  {
    Check(_ => C.NotEndWith(suffix), (v: Value) requires IsString(v) => v.NullV? || !Text.EndsWith(v.s, suffix))
  }

  /** `contains(value)` passes exactly when `value` occurs somewhere in the
      property. */
  lemma ContainsFindsSubstrings(value: string, s: string)
    ensures Passes(Contains(value), StrV(s)) <==> exists k :: Text.OccursAt(s, value, k)
  {
    Text.ContainsIffOccurs(s, value);
  }

  /** A property that passes `startsWith(t)` or `endsWith(t)` passes
      `contains(t)`; one that passes `doesNotContain(t)` passes
      `doesNotStartWith(t)` and `doesNotEndWith(t)`. */
  lemma AffixRulesImplyContains(t: string, s: string)
    ensures Passes(StartsWith(t), StrV(s)) || Passes(EndsWith(t), StrV(s)) ==> Passes(Contains(t), StrV(s))
    ensures Passes(DoesNotContain(t), StrV(s)) ==>
      Passes(DoesNotStartWith(t), StrV(s)) && Passes(DoesNotEndWith(t), StrV(s))
  {
    if Text.StartsWith(s, t) || Text.EndsWith(s, t) {
      Text.StartsOrEndsWithImpliesContains(s, t);
    }
  }

  /** Each rule and its `doesNot...` counterpart split the strings between
      them. */
  lemma NegatedRulesComplement(t: string, xs: Args<string>, s: string)
    ensures Passes(IsEmpty(), StrV(s)) != Passes(IsNotEmpty(), StrV(s))
    ensures Passes(Contains(t), StrV(s)) != Passes(DoesNotContain(t), StrV(s))
    ensures Passes(ContainsAll(xs), StrV(s)) != Passes(DoesNotContainAll(xs), StrV(s))
    ensures Passes(ContainsAny(xs), StrV(s)) != Passes(DoesNotContainAny(xs), StrV(s))
    ensures Passes(StartsWith(t), StrV(s)) != Passes(DoesNotStartWith(t), StrV(s))
    ensures Passes(EndsWith(t), StrV(s)) != Passes(DoesNotEndWith(t), StrV(s))
  {
    Text.StartsWithIffSplit(s, t);
    Text.EndsWithIffSplit(s, t);
  }

  /** With no arguments `containsAll` and `doesNotContainAny` accept every
      string, and `containsAny` and `doesNotContainAll` reject every one. */
  lemma NoArguments(s: string)
    ensures Passes(ContainsAll(Iterable([])), StrV(s)) && Passes(DoesNotContainAny(Iterable([])), StrV(s))
    ensures !Passes(ContainsAny(Iterable([])), StrV(s)) && !Passes(DoesNotContainAll(Iterable([])), StrV(s))
  {
  }

  /** With one argument `containsAll` and `containsAny` are `contains`. */
  lemma OneArgument(e: string, s: string)
    ensures Passes(ContainsAll(Vararg([e])), StrV(s)) == Passes(Contains(e), StrV(s))
    ensures Passes(ContainsAny(Vararg([e])), StrV(s)) == Passes(Contains(e), StrV(s))
  {
  }

  /** With arguments, passing `containsAll` implies passing `containsAny`. */
  lemma AllImpliesAny(xs: Args<string>, s: string)
    requires xs.items != []
    ensures Passes(ContainsAll(xs), StrV(s)) ==> Passes(ContainsAny(xs), StrV(s))
  {
    assert xs.items[0] in xs.items;
  }

  /** Every string contains, starts with and ends with the empty string. */
  lemma EmptyStringIsEverywhere(s: string)
    ensures Passes(Contains(""), StrV(s))
    ensures Passes(StartsWith(""), StrV(s)) && Passes(EndsWith(""), StrV(s))
  {
    assert s == "" + s && s == s + "";
  }

  /** `hasSize()` with both defaults accepts every string a Kotlin `String`
      can hold, and `hasSize(max = 0)` is `isEmpty()`. */
  lemma HasSizeBounds(s: string)
    ensures Text.Length(s) <= IntMax ==> Passes(HasSize(), StrV(s))
    ensures Passes(HasSize(max := 0), StrV(s)) == Passes(IsEmpty(), StrV(s))
  {
  }

  /** `hasSize` counts characters only on strings of the Basic Multilingual
      Plane: an emoji is two code units, so `hasSize(max = 1)` rejects it. */
  lemma HasSizeCountsCodeUnits(s: string, min: Int32, max: Int32)
    ensures (forall k | 0 <= k < |s| :: s[k] < '\U{10000}') ==>
      (Passes(HasSize(min, max), StrV(s)) <==> min <= |s| <= max)
    ensures |"\U{1F600}"| == 1 && !Passes(HasSize(max := 1), StrV("\U{1F600}"))
  {
    assert Text.Length("\U{1F600}") == Text.Length([]) + Text.CodeUnits('\U{1F600}');
  }

  /** The two overloads of each list rule give the same verdict. */
  lemma VarargAndIterableAgree(items: seq<string>, s: string)
    ensures Passes(ContainsAll(Vararg(items)), StrV(s)) == Passes(ContainsAll(Iterable(items)), StrV(s))
    ensures Passes(ContainsAny(Vararg(items)), StrV(s)) == Passes(ContainsAny(Iterable(items)), StrV(s))
    ensures Passes(DoesNotContainAll(Vararg(items)), StrV(s)) == Passes(DoesNotContainAll(Iterable(items)), StrV(s))
    ensures Passes(DoesNotContainAny(Vararg(items)), StrV(s)) == Passes(DoesNotContainAny(Iterable(items)), StrV(s))
  {
  }

  /** Yet the two overloads of `containsAll` and `containsAny` never
      record equal descriptors: the vararg one records a set, the
      `Iterable` one a list. The set iterates as the list does exactly when
      the arguments have no repeats. */
  lemma OverloadsRecordSetAndList(items: seq<string>, s: string)
    ensures !C.SameConstraint(ContainsAll(Vararg(items)).builder(StrV(s)), ContainsAll(Iterable(items)).builder(StrV(s)))
    ensures !C.SameConstraint(ContainsAny(Vararg(items)).builder(StrV(s)), ContainsAny(Iterable(items)).builder(StrV(s)))
    ensures ContainsAll(Vararg(items)).builder(StrV(s)).values.elems == Strs(items) <==> NoDuplicates(items)
  {
    StrArgsCollected(items);
    C.SetNeverSameAsList(Collected(StrArgs(Vararg(items))), Collected(StrArgs(Iterable(items))));
    assert ContainsAll(Vararg(items)).builder(StrV(s)) == C.ContainsAll(Collected(StrArgs(Vararg(items))));
    assert ContainsAll(Iterable(items)).builder(StrV(s)) == C.ContainsAll(Collected(StrArgs(Iterable(items))));
    assert ContainsAny(Vararg(items)).builder(StrV(s)) == C.ContainsAny(Collected(StrArgs(Vararg(items))));
    assert ContainsAny(Iterable(items)).builder(StrV(s)) == C.ContainsAny(Collected(StrArgs(Iterable(items))));
  }

  /** Likewise for `doesNotContainAll` and `doesNotContainAny`. */
  lemma NegatedOverloadsRecordSetAndList(items: seq<string>, s: string)
    ensures !C.SameConstraint(DoesNotContainAll(Vararg(items)).builder(StrV(s)),
                              DoesNotContainAll(Iterable(items)).builder(StrV(s)))
    ensures !C.SameConstraint(DoesNotContainAny(Vararg(items)).builder(StrV(s)),
                              DoesNotContainAny(Iterable(items)).builder(StrV(s)))
  {
    StrArgsCollected(items);
    C.SetNeverSameAsList(Collected(StrArgs(Vararg(items))), Collected(StrArgs(Iterable(items))));
    assert DoesNotContainAll(Vararg(items)).builder(StrV(s)) == C.NotContainAll(Collected(StrArgs(Vararg(items))));
    assert DoesNotContainAll(Iterable(items)).builder(StrV(s)) == C.NotContainAll(Collected(StrArgs(Iterable(items))));
    assert DoesNotContainAny(Vararg(items)).builder(StrV(s)) == C.NotContainAny(Collected(StrArgs(Vararg(items))));
    assert DoesNotContainAny(Iterable(items)).builder(StrV(s)) == C.NotContainAny(Collected(StrArgs(Iterable(items))));
  }

  /** `CollectedAgree` for string arguments. */
  lemma StrArgsCollected(items: seq<string>)
    ensures !SameColl(Collected(StrArgs(Vararg(items))), Collected(StrArgs(Iterable(items))))
    ensures Collected(StrArgs(Vararg(items))).elems == Strs(items) <==> NoDuplicates(items)
  {
    CollectedAgree(Strs(items));
    StrsKeepDistinct(items);
    assert StrArgs(Vararg(items)) == Vararg(Strs(items));
    assert StrArgs(Iterable(items)) == Iterable(Strs(items));
  }

  /** Every string predicate lets null through; `validate` never hands it
      null, faulting first (`ValidateOnNullFaults`). */
  lemma NullPassesEveryPredicate(t: string, xs: Args<string>, min: Int32, max: Int32)
    ensures Passes(IsEmpty(), NullV) && Passes(IsNotEmpty(), NullV) && Passes(HasSize(min, max), NullV)
    ensures Passes(Contains(t), NullV) && Passes(DoesNotContain(t), NullV)
    ensures Passes(ContainsAll(xs), NullV) && Passes(DoesNotContainAll(xs), NullV)
    ensures Passes(ContainsAny(xs), NullV) && Passes(DoesNotContainAny(xs), NullV)
    ensures Passes(StartsWith(t), NullV) && Passes(DoesNotStartWith(t), NullV)
    ensures Passes(EndsWith(t), NullV) && Passes(DoesNotEndWith(t), NullV)
  {
  }
}
