/** The entry points of Validator.kt: `validate(value) { ... }` and
    `value.validateSelf(propName) { ... }`. Each creates a fresh validator,
    runs the caller's body against it and collects what it recorded with
    `toValidated`.

    The body is a Kotlin lambda; here it is the list of chains it runs, in
    order, each from the pipeline it starts on. An exception a chain throws
    leaves the body, and the entry point, at once. */
module Entry {
  import opened Wrappers
  import opened Values
  import opened Violations
  import opened Results
  import opened Validation

  /** One chain of the body: `start.op1().op2()...`. */
  datatype Line = Line(start: State, ops: seq<Op>)

  /** The effect of a body: what it recorded, in order, and the fault that
      ended it early, if any. */
  datatype Effect = Effect(recorded: seq<Violation>, fault: Option<Fault>)

  /** Every chain of the body, up to a fault, gets what it needs. */
  ghost predicate ScriptDefined(lines: seq<Line>)
    decreases |lines|, 0
  {
    lines == [] ||
    (ScriptDefined(lines[..|lines| - 1]) &&
     (Script(lines[..|lines| - 1]).fault.Some? ||
      ChainDefined(lines[|lines| - 1].start, lines[|lines| - 1].ops)))
  }

  /** The chains run one after another against one sink, until one faults. */
  function Script(lines: seq<Line>): Effect
    requires ScriptDefined(lines)
    decreases |lines|, 1
  {
    if lines == [] then Effect([], None)
    else
      var e := Script(lines[..|lines| - 1]);
      if e.fault.Some? then e
      else
        var last := lines[|lines| - 1];
        var o := Run(last.start, last.ops);
        Effect(e.recorded + o.recorded, o.fault)
  }

  lemma {:induction false} ScriptDefinedPrefix(lines: seq<Line>, i: nat)
    requires ScriptDefined(lines) && i <= |lines|
    ensures ScriptDefined(lines[..i])
    decreases |lines|
  {
    if i < |lines| {
      ScriptDefinedPrefix(lines[..|lines| - 1], i);
      assert lines[..|lines| - 1][..i] == lines[..i];
    } else {
      assert lines[..i] == lines;
    }
  }

  /** Once a chain has faulted, the chains after it do nothing. */
  lemma {:induction false} ScriptAfterFault(lines: seq<Line>, i: nat)
    requires ScriptDefined(lines) && i <= |lines|
    requires (ScriptDefinedPrefix(lines, i); Script(lines[..i]).fault.Some?)
    ensures Script(lines) == Script(lines[..i])
    decreases |lines|
  {
    ScriptDefinedPrefix(lines, i);
    if i < |lines| {
      assert lines[..|lines| - 1][..i] == lines[..i];
      ScriptAfterFault(lines[..|lines| - 1], i);
    } else {
      assert lines[..i] == lines;
    }
  }

  /** `validate(value) { body }`: the value itself with what the body
      recorded, or the fault that escaped the body. */
  method Validate<T>(value: T, lines: seq<Line>) returns (r: Result<Validated<T>, Fault>)
    requires ScriptDefined(lines)
    ensures Script(lines).fault.Some? ==> r == Failure(Script(lines).fault.value)
    ensures Script(lines).fault.None? ==> r == Success(Validated(value, Script(lines).recorded))
  {
    var validator := new Validator();
    var i := 0;
    while i < |lines|
      invariant 0 <= i <= |lines|
      invariant ScriptDefined(lines[..i])
      invariant Script(lines[..i]).fault.None?
      invariant validator.violations == Script(lines[..i]).recorded
    {
      ScriptDefinedPrefix(lines, i + 1);
      assert lines[..i + 1][..i] == lines[..i];
      var p := Pipeline(validator, lines[i].start);
      var q := p.RunChain(lines[i].ops);
      if q.Failure? {
        ScriptAfterFault(lines, i + 1);
        return Failure(q.error);
      }
      i := i + 1;
    }
    assert lines[..i] == lines;
    r := Success(ToValidated(validator, value));
  }

  /** The chains of a `validateSelf` body, each on the receiver pipeline. */
  function SelfLines(self: Value, propName: Option<string>, chains: seq<seq<Op>>): (lines: seq<Line>)
    ensures |lines| == |chains|
    ensures forall k | 0 <= k < |chains| :: lines[k] == Line(Root(self, propName), chains[k])
  {
    seq(|chains|, k requires 0 <= k < |chains| => Line(Root(self, propName), chains[k]))
  }

  /** `self.validateSelf(propName = null) { body }`: `validate`, with every
      chain of the body starting on one pipeline over `self`. */
  method ValidateSelf(self: Value, chains: seq<seq<Op>>, propName: Option<string> := None)
    returns (r: Result<Validated<Value>, Fault>)
    requires ScriptDefined(SelfLines(self, propName, chains))
    ensures Script(SelfLines(self, propName, chains)).fault.Some? ==>
      r == Failure(Script(SelfLines(self, propName, chains)).fault.value)
    ensures Script(SelfLines(self, propName, chains)).fault.None? ==>
      r == Success(Validated(self, Script(SelfLines(self, propName, chains)).recorded))
  {
    r := Validate(self, SelfLines(self, propName, chains));
  }

  /** A chain never changes the property name, and every violation it
      records carries the name of the pipeline it started on. */
  lemma {:induction false} RunKeepsPropName(s: State, ops: seq<Op>)
    requires ChainDefined(s, ops)
    ensures Run(s, ops).last.propName == s.propName
    ensures forall x | x in Run(s, ops).recorded :: x.property == s.propName
    decreases |ops|
  {
    if ops != [] {
      RunKeepsPropName(s, ops[..|ops| - 1]);
    }
  }

  /** Every violation a body records names the pipeline of one of its
      chains. */
  lemma {:induction false} ScriptNamesEveryViolation(lines: seq<Line>)
    requires ScriptDefined(lines)
    ensures forall x | x in Script(lines).recorded ::
      exists k :: 0 <= k < |lines| && x.property == lines[k].start.propName
    decreases |lines|
  {
    if lines != [] {
      var init := lines[..|lines| - 1];
      ScriptNamesEveryViolation(init);
      if Script(init).fault.None? {
        var last := lines[|lines| - 1];
        RunKeepsPropName(last.start, last.ops);
        forall x | x in Script(lines).recorded
          ensures exists k :: 0 <= k < |lines| && x.property == lines[k].start.propName
        {
          if x in Script(init).recorded {
            var k :| 0 <= k < |init| && x.property == init[k].start.propName;
            assert lines[k] == init[k];
          } else {
            assert x.property == lines[|lines| - 1].start.propName;
          }
        }
      } else {
        forall x | x in Script(lines).recorded
          ensures exists k :: 0 <= k < |lines| && x.property == lines[k].start.propName
        {
          var k :| 0 <= k < |init| && x.property == init[k].start.propName;
          assert lines[k] == init[k];
        }
      }
    }
  }

  /** A faultless `validateSelf` names every violation after its
      `propName`, and is valid exactly when no chain recorded anything. */
  lemma SelfViolationsAreNamed(self: Value, propName: Option<string>, chains: seq<seq<Op>>)
    requires ScriptDefined(SelfLines(self, propName, chains))
    requires Script(SelfLines(self, propName, chains)).fault.None?
    ensures forall x | x in Script(SelfLines(self, propName, chains)).recorded :: x.property == propName
    ensures Validated(self, Script(SelfLines(self, propName, chains)).recorded).IsValid() <==>
      Script(SelfLines(self, propName, chains)).recorded == []
  {
    ScriptNamesEveryViolation(SelfLines(self, propName, chains));
  }
}
