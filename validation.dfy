/** The validation pipeline (ObjectValidation.kt) and its violation sink
    (Validator.kt).

    A pipeline pairs the sink of its run with a state: `Root` for a
    `ValueObjectValidation`, `Mapped` for `MutatedObjectValidation.Valid`,
    `Stopped` for `MutatedObjectValidation.Invalid`, the one state without a
    value. Every pipeline of a run shares one `Validator`, whose
    `violations` the pipeline methods append to in place.

    The lambdas a rule hands to the pipeline are partial functions here: a
    predicate, constraint builder or mapper may demand anything of its
    argument (its Kotlin type, or non-null for the mapper of `isNotNull`),
    and the pipeline needs that only of the values it really passes them.
    So "the predicate is never evaluated on a stopped pipeline" shows as
    "nothing is required of the predicate there". */
module Validation {
  import opened Wrappers
  import opened Values
  import opened Constraints
  import opened Violations
  import opened Results

  /** The programming errors a chain can raise, as opposed to violations. */
  datatype Fault =
    | NullDereference  // `value!!` on a pipeline that holds null
    | AccessToValue    // `Invalid.value`: `AccessToValueException`

  /** One rule application: `validate(constraintBuilder, isValid)` or
      `validateAndMap(constraintBuilder, isValid, mapperFunc)`. The
      suspending `coValidate` and `coValidateAndMap` are the same operations. */
  datatype Op =
    | Check(builder: Value --> Constraint, isValid: Value --> bool)
    | CheckAndMap(builder: Value --> Constraint, isValid: Value --> bool, mapper: Value --> Value)

  datatype State =
    | Root(value: Value, propName: Option<string>)
    | Mapped(value: Value, propName: Option<string>)
    | Stopped(propName: Option<string>)
  {
    /** `isStopped`: true only for `Invalid`. */
    predicate IsStopped() {
      Stopped?
    }

    /** Reading `value`: `Invalid` throws `AccessToValueException`, the
        others return what they hold. */
    function ReadValue(): (r: Result<Value, Fault>)
      ensures r.Failure? <==> IsStopped()
      ensures r.Failure? ==> r.error == AccessToValue
      ensures r.Success? ==> r.value == value
    {
      if Stopped? then Failure(AccessToValue) else Success(value)
    }
  }

  /** What `op` needs of its lambdas on `s`: only the calls the source makes.
      A stopped state calls nothing; `validate` dereferences the value first
      and calls nothing on null; the builder is called only when the
      predicate fails, the mapper only when it passes. */
  ghost predicate Defined(s: State, op: Op) {
    s.IsStopped() ||
    match op
    case Check(b, f) =>
      s.value == NullV || (f.requires(s.value) && (!f(s.value) ==> b.requires(s.value)))
    case CheckAndMap(b, f, m) =>
      f.requires(s.value) && (if f(s.value) then m.requires(s.value) else b.requires(s.value))
  }

  /** The result of one rule application: the next state and what it
      appended to the sink. */
  datatype Step = Step(next: State, recorded: seq<Violation>)

  /** One rule application on a state (ObjectValidation.kt:33-42 for
      `validate`, 63-76 and 120-124 for `validateAndMap`). */
  function StepOf(s: State, op: Op): (r: Result<Step, Fault>)
    requires Defined(s, op)
    ensures r.Success? ==> |r.value.recorded| <= 1 && r.value.next.propName == s.propName
    ensures r.Success? && r.value.recorded != [] ==>
      !s.IsStopped() && r.value.recorded[0].property == s.propName && r.value.recorded[0].value == s.value
    ensures r.Failure? <==> op.Check? && !s.IsStopped() && s.value == NullV
    ensures r.Failure? ==> r.error == NullDereference
    ensures s.IsStopped() ==> r == Success(Step(s, []))
    ensures op.Check? && r.Success? ==> r.value.next == s
    ensures op.CheckAndMap? && !s.IsStopped() ==>
      r.Success? && (r.value.next.IsStopped() <==> r.value.recorded != [])
  {
    if s.IsStopped() then Success(Step(s, []))
    else match op
      case Check(b, f) =>
        if s.value == NullV then Failure(NullDereference)
        else if f(s.value) then Success(Step(s, []))
        else Success(Step(s, [Violation(s.propName, s.value, b(s.value))]))
      case CheckAndMap(b, f, m) =>
        if f(s.value) then Success(Step(Mapped(m(s.value), s.propName), []))
        else Success(Step(Stopped(s.propName), [Violation(s.propName, s.value, b(s.value))]))
  }

  /** The effect of a chain of rule applications: the last state, what the
      chain appended, and the fault that ended it early, if any. */
  datatype Outcome = Outcome(last: State, recorded: seq<Violation>, fault: Option<Fault>)

  /** Every application of the chain, up to a fault, gets what it needs. */
  ghost predicate ChainDefined(s: State, ops: seq<Op>)
    decreases |ops|, 0
  {
    ops == [] ||
    (ChainDefined(s, ops[..|ops| - 1]) &&
     var o := Run(s, ops[..|ops| - 1]);
     o.fault.Some? || Defined(o.last, ops[|ops| - 1]))
  }

  /** `s.op1().op2()...`: each application runs on the state the previous
      one returned, until one faults. */
  function Run(s: State, ops: seq<Op>): Outcome
    requires ChainDefined(s, ops)
    decreases |ops|, 1
  {
    if ops == [] then Outcome(s, [], None)
    else
      var o := Run(s, ops[..|ops| - 1]);
      if o.fault.Some? then o
      else match StepOf(o.last, ops[|ops| - 1])
        case Failure(f) => Outcome(o.last, o.recorded, Some(f))
        case Success(st) => Outcome(st.next, o.recorded + st.recorded, None)
  }

  lemma {:induction false} ChainDefinedPrefix(s: State, ops: seq<Op>, i: nat)
    requires ChainDefined(s, ops) && i <= |ops|
    ensures ChainDefined(s, ops[..i])
    decreases |ops|
  {
    if i < |ops| {
      ChainDefinedPrefix(s, ops[..|ops| - 1], i);
      assert ops[..|ops| - 1][..i] == ops[..i];
    } else {
      assert ops[..i] == ops;
    }
  }

  /** Once a chain has faulted, the rest of it does nothing. */
  lemma {:induction false} RunAfterFault(s: State, ops: seq<Op>, i: nat)
    requires ChainDefined(s, ops) && i <= |ops|
    requires (ChainDefinedPrefix(s, ops, i); Run(s, ops[..i]).fault.Some?)
    ensures Run(s, ops) == Run(s, ops[..i])
    decreases |ops|
  {
    ChainDefinedPrefix(s, ops, i);
    if i < |ops| {
      assert ops[..|ops| - 1][..i] == ops[..i];
      RunAfterFault(s, ops[..|ops| - 1], i);
    } else {
      assert ops[..i] == ops;
    }
  }

  /** The predicate of `op` can be called on `v` and accepts it. */
  ghost predicate Passes(op: Op, v: Value) {
    op.isValid.requires(v) && op.isValid(v)
  }

  /** `op` is a plain `validate` whose predicate can be called on `v` and
      whose builder, when the predicate rejects `v`, describes it as `c`. */
  ghost predicate ChecksAs(op: Op, v: Value, c: Constraint) {
    op.Check? && op.isValid.requires(v) &&
    (!op.isValid(v) ==> op.builder.requires(v) && op.builder(v) == c)
  }

  /** `op` is a `validateAndMap` whose predicate can be called on `v`,
      whose mapper turns an accepted `v` into `mapped` and whose builder
      describes a rejected `v` as `c`. */
  ghost predicate MapsAs(op: Op, v: Value, c: Constraint, mapped: Value) {
    op.CheckAndMap? && op.isValid.requires(v) &&
    (op.isValid(v) ==> op.mapper.requires(v) && op.mapper(v) == mapped) &&
    (!op.isValid(v) ==> op.builder.requires(v) && op.builder(v) == c)
  }

  /** Applying a rule described by `ChecksAs` to a pipeline holding the
      non-null `v`: it stays on the same pipeline and appends the violation
      `(propName, v, c)` exactly when the predicate rejects `v`. */
  lemma StepOfCheck(s: State, op: Op, c: Constraint)
    requires !s.IsStopped() && s.value != NullV && ChecksAs(op, s.value, c)
    ensures Defined(s, op)
    ensures StepOf(s, op) ==
      Success(Step(s, if Passes(op, s.value) then [] else [Violation(s.propName, s.value, c)]))
  {
  }

  /** What the sink sees is append-only: a chain's prefix records a prefix
      of what the whole chain records. */
  lemma {:induction false} RunRecordsPrefix(s: State, ops: seq<Op>, i: nat)
    requires ChainDefined(s, ops) && i <= |ops|
    ensures (ChainDefinedPrefix(s, ops, i); Run(s, ops[..i]).recorded <= Run(s, ops).recorded)
    decreases |ops|
  {
    ChainDefinedPrefix(s, ops, i);
    if i < |ops| {
      assert ops[..|ops| - 1][..i] == ops[..i];
      RunRecordsPrefix(s, ops[..|ops| - 1], i);
    } else {
      assert ops[..i] == ops;
    }
  }

  /** A stopped pipeline absorbs any chain: no predicate, builder or mapper
      is called (nothing is required of them), nothing is appended, no fault
      is raised, and the pipeline stays the same stopped one. */
  lemma {:induction false} StoppedChainIsInert(s: State, ops: seq<Op>)
    requires s.IsStopped()
    ensures ChainDefined(s, ops) && Run(s, ops) == Outcome(s, [], None)
    decreases |ops|
  {
    if ops != [] {
      StoppedChainIsInert(s, ops[..|ops| - 1]);
    }
  }

  /** Running `xs` and then `ys` on what `xs` returned is running `xs + ys`. */
  lemma {:induction false} RunAppend(s: State, xs: seq<Op>, ys: seq<Op>)
    requires ChainDefined(s, xs) && Run(s, xs).fault.None?
    requires ChainDefined(Run(s, xs).last, ys)
    ensures ChainDefined(s, xs + ys)
    ensures Run(s, xs + ys) ==
      var o := Run(Run(s, xs).last, ys);
      Outcome(o.last, Run(s, xs).recorded + o.recorded, o.fault)
    decreases |ys|
  {
    var m := Run(s, xs).last;
    if ys == [] {
      assert xs + ys == xs;
    } else {
      var init := ys[..|ys| - 1];
      assert (xs + ys)[..|xs + ys| - 1] == xs + init;
      assert (xs + ys)[|xs + ys| - 1] == ys[|ys| - 1];
      RunAppend(s, xs, init);
    }
  }

  /** Every op is a plain `validate` whose lambdas accept `v`. */
  ghost predicate ChecksDefinedAt(v: Value, ops: seq<Op>) {
    forall k :: 0 <= k < |ops| ==>
      ops[k].Check? && ops[k].isValid.requires(v) && (!ops[k].isValid(v) ==> ops[k].builder.requires(v))
  }

  /** The violations that the failing checks among `ops` describe for `v`,
      in the order of the checks. */
  function Failing(propName: Option<string>, v: Value, ops: seq<Op>): seq<Violation>
    requires ChecksDefinedAt(v, ops)
  {
    if ops == [] then []
    else
      var last := ops[|ops| - 1];
      Failing(propName, v, ops[..|ops| - 1])
        + if last.isValid(v) then [] else [Violation(propName, v, last.builder(v))]
  }

  /** A chain of plain `validate` calls on a pipeline holding a non-null
      value never stops and never faults, and records exactly one violation
      per failing check, in the order the checks were written. */
  lemma {:induction false} ChecksRecordFailuresInOrder(s: State, ops: seq<Op>)
    requires !s.IsStopped() && s.value != NullV && ChecksDefinedAt(s.value, ops)
    ensures ChainDefined(s, ops)
    ensures Run(s, ops) == Outcome(s, Failing(s.propName, s.value, ops), None)
    decreases |ops|
  {
    if ops != [] {
      var init := ops[..|ops| - 1];
      assert ChecksDefinedAt(s.value, init) by {
        forall k | 0 <= k < |init| ensures init[k] == ops[k] { }
      }
      ChecksRecordFailuresInOrder(s, init);
    }
  }

  /** `validateAndMap` on a pipeline with a value: a passing predicate gives
      a `Valid` pipeline over `mapper(value)` and appends nothing; a failing
      one appends one violation and stops the pipeline, after which the
      rest of the chain appends nothing and calls nothing. */
  lemma ValidateAndMapThen(s: State, op: Op, rest: seq<Op>)
    requires !s.IsStopped() && op.CheckAndMap? && op.isValid.requires(s.value)
    requires op.isValid(s.value) ==> op.mapper.requires(s.value)
    requires !op.isValid(s.value) ==> op.builder.requires(s.value)
    ensures ChainDefined(s, [op])
    ensures op.isValid(s.value) ==>
      Run(s, [op]) == Outcome(Mapped(op.mapper(s.value), s.propName), [], None)
    ensures !op.isValid(s.value) ==>
      ChainDefined(s, [op] + rest) &&
      Run(s, [op] + rest) == Outcome(Stopped(s.propName), [Violation(s.propName, s.value, op.builder(s.value))], None)
  {
    assert [op][..0] == [];
    assert Defined(s, op);
    assert ChainDefined(s, [op]);
    if !op.isValid(s.value) {
      StoppedChainIsInert(Stopped(s.propName), rest);
      RunAppend(s, [op], rest);
    }
  }

  /** `validate` on a pipeline that holds null faults before its predicate
      runs, whatever the predicate and builder are. */
  lemma ValidateOnNullFaults(s: State, builder: Value --> Constraint, isValid: Value --> bool)
    requires !s.IsStopped() && s.value == NullV
    ensures Defined(s, Check(builder, isValid))
    ensures StepOf(s, Check(builder, isValid)) == Failure(NullDereference)
  {
  }

  /** `Validator`: the violation sink of one run. */
  class Validator {
    var violations: seq<Violation>

    /** A new validator has recorded nothing (Validator.kt:21). */
    constructor ()
      ensures violations == []
    {
      violations := [];
    }

    /** `validateVal(value, propName)`: a fresh, non-stopped pipeline over
        `value`, named `propName`, sharing this validator's sink. */
    function ValidateVal(value: Value, propName: string): (p: Pipeline)
      ensures p.validator == this
      ensures !p.state.IsStopped() && p.state.ReadValue() == Success(value)
      ensures p.state.propName == Some(propName)
    {
      Pipeline(this, Root(value, Some(propName)))
    }
  }

  /** `toValidated(value)`: the given value and everything the sink holds
      at this point, in append order. */
  function ToValidated<T>(validator: Validator, value: T): (r: Validated<T>)
    reads validator
    ensures r.value == value && r.violations == validator.violations
    ensures r.IsValid() <==> validator.violations == []
  {
    if validator.violations == [] then Validated(value, []) else Validated(value, validator.violations)
  }

  datatype Pipeline = Pipeline(validator: Validator, state: State) {

    /** `addNewViolation`: appends one violation under this pipeline's
        property name. */
    method AddNewViolation(value: Value, constraint: Constraint)
      modifies validator
      ensures validator.violations == old(validator.violations) + [Violation(state.propName, value, constraint)]
    {
      validator.violations := validator.violations + [Violation(state.propName, value, constraint)];
    }

    /** `validate(constraintBuilder, isValid)` and `coValidate`: appends at
        most one violation and returns this same pipeline, or faults on a
        pipeline holding null. */
    method Validate(builder: Value --> Constraint, isValid: Value --> bool) returns (r: Result<Pipeline, Fault>)
      requires Defined(state, Check(builder, isValid))
      modifies validator
      ensures r.Failure? <==> StepOf(state, Check(builder, isValid)).Failure?
      ensures r.Failure? ==> r.error == NullDereference && unchanged(validator)
      ensures r.Success? ==> (r.value == this &&
        validator.violations == old(validator.violations) + StepOf(state, Check(builder, isValid)).value.recorded)
    {
      if state.IsStopped() {
        return Success(this);
      }
      if state.value == NullV {
        return Failure(NullDereference);
      }
      if !isValid(state.value) {
        AddNewViolation(state.value, builder(state.value));
      }
      r := Success(this);
    }

    /** `validate(constraint, isValid)`: `validate({ constraint }, isValid)`. */
    method ValidateConstant(constraint: Constraint, isValid: Value --> bool) returns (r: Result<Pipeline, Fault>)
      requires Defined(state, Check(_ => constraint, isValid))
      modifies validator
      ensures r.Failure? <==> StepOf(state, Check(_ => constraint, isValid)).Failure?
      ensures r.Failure? ==> unchanged(validator)
      ensures r.Success? ==> (r.value == this &&
        validator.violations == old(validator.violations) + StepOf(state, Check(_ => constraint, isValid)).value.recorded)
    {
      r := Validate(_ => constraint, isValid);
    }

    /** `validateAndMap(constraintBuilder, isValid, mapperFunc)` and
        `coValidateAndMap`: on a stopped pipeline the same stopped pipeline;
        otherwise a pipeline over the mapped value, or a stopped one after
        appending a violation. */
    method ValidateAndMap(builder: Value --> Constraint, isValid: Value --> bool, mapper: Value --> Value)
      returns (r: Pipeline)
      requires Defined(state, CheckAndMap(builder, isValid, mapper))
      modifies validator
      ensures r.validator == validator
      ensures r.state == StepOf(state, CheckAndMap(builder, isValid, mapper)).value.next
      ensures validator.violations ==
        old(validator.violations) + StepOf(state, CheckAndMap(builder, isValid, mapper)).value.recorded
    {
      if state.IsStopped() {
        return this;
      }
      if isValid(state.value) {
        var mapped := mapper(state.value);
        r := Pipeline(validator, Mapped(mapped, state.propName));
      } else {
        AddNewViolation(state.value, builder(state.value));
        r := Pipeline(validator, Stopped(state.propName));
      }
    }

    /** One rule application of either kind. */
    method Apply(op: Op) returns (r: Result<Pipeline, Fault>)
      requires Defined(state, op)
      modifies validator
      ensures r.Failure? <==> StepOf(state, op).Failure?
      ensures r.Failure? ==> r.error == StepOf(state, op).error && unchanged(validator)
      ensures r.Success? ==> (r.value == Pipeline(validator, StepOf(state, op).value.next) &&
        validator.violations == old(validator.violations) + StepOf(state, op).value.recorded)
    {
      match op
      case Check(b, f) =>
        r := Validate(b, f);
      case CheckAndMap(b, f, m) =>
        var p := ValidateAndMap(b, f, m);
        r := Success(p);
    }

    /** A chain `this.op1().op2()...` run against the shared sink. */
    method RunChain(ops: seq<Op>) returns (r: Result<Pipeline, Fault>)
      requires ChainDefined(state, ops)
      modifies validator
      ensures validator.violations == old(validator.violations) + Run(state, ops).recorded
      ensures Run(state, ops).fault.Some? ==> r == Failure(Run(state, ops).fault.value)
      ensures Run(state, ops).fault.None? ==> r == Success(Pipeline(validator, Run(state, ops).last))
    {
      var p := this;
      var i := 0;
      while i < |ops|
        invariant 0 <= i <= |ops|
        invariant ChainDefined(state, ops[..i])
        invariant Run(state, ops[..i]).fault.None?
        invariant p == Pipeline(validator, Run(state, ops[..i]).last)
        invariant validator.violations == old(validator.violations) + Run(state, ops[..i]).recorded
      {
        ChainDefinedPrefix(state, ops, i + 1);
        assert ops[..i + 1][..i] == ops[..i];
        var next := p.Apply(ops[i]);
        if next.Failure? {
          RunAfterFault(state, ops, i + 1);
          return Failure(next.error);
        }
        p := next.value;
        i := i + 1;
      }
      assert ops[..i] == ops;
      r := Success(p);
    }
  }
}
