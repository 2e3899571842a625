/** The async intersection schema: every child schema is run, in declaration order and
    on the same input, until one reports issues; the outputs of a fully successful run
    are merged by a left fold of shallow object spreads. */
module IntersectionAsync {
  import opened JsValues
  import opened Issues

  /** A child schema's parse operation. The parse info is passed through untouched and
      `await` is ordinary sequential evaluation, so a child is a function of the input. */
  type Schema = Value -> ParseResult

  /** The schema object `intersectionAsync(intersection, error)` returns. */
  datatype IntersectionSchemaAsync = IntersectionSchemaAsync(intersection: seq<Schema>, error: Option<string>)
  {
    const schema: string := "intersection"
    const async: bool := true
  }

  /** One invocation of a child's parse: which child, and on what input. */
  datatype Call = Call(child: nat, input: Value)

  /** The calls made when the first `count` children are run on `input`, in order. */
  function Calls(input: Value, count: nat): (calls: seq<Call>)
    ensures |calls| == count
    ensures forall j :: 0 <= j < count ==> calls[j] == Call(j, input)
  {
    seq(count, j requires 0 <= j => Call(j, input))
  }

  /** The index of the first child that reports issues on `input`, or the number of
      children when none does. */
  function FirstErr(intersection: seq<Schema>, input: Value): (k: nat)
    ensures k <= |intersection|
    ensures forall i :: 0 <= i < k ==> intersection[i](input).Ok?
    ensures k < |intersection| ==> intersection[k](input).Err?
    decreases |intersection|
  {
    if |intersection| == 0 then 0
    else if intersection[0](input).Err? then 0
    else 1 + FirstErr(intersection[1..], input)
  }

  /** The outputs of the first `count` children, all of which succeed, in child order. */
  function Outputs(intersection: seq<Schema>, input: Value, count: nat): (outputs: seq<Value>)
    requires count <= |intersection|
    requires forall i :: 0 <= i < count ==> intersection[i](input).Ok?
    ensures |outputs| == count
    ensures forall i :: 0 <= i < count ==> outputs[i] == intersection[i](input).output
  {
    seq(count, i requires 0 <= i < count => intersection[i](input).output)
  }

  /** The reduce callback: `typeof value === 'object' ? { ...acc, ...value } : value`.
      An object-typed value yields an object holding the keys of both sides, where the
      value's entry wins over the accumulator's; any other value replaces the accumulator. */
  function Spread(acc: Value, value: Value): (r: Value)
    ensures TypeofObject(value) ==> r.Obj?
    ensures TypeofObject(value) ==>
              forall k :: k in OwnEntries(r) <==> k in OwnEntries(acc) || k in OwnEntries(value)
    ensures TypeofObject(value) ==>
              forall k :: k in OwnEntries(value) ==> OwnEntries(r)[k] == OwnEntries(value)[k]
    ensures TypeofObject(value) ==>
              forall k :: k in OwnEntries(acc) && k !in OwnEntries(value) ==> OwnEntries(r)[k] == OwnEntries(acc)[k]
    ensures !TypeofObject(value) ==> r == value
  {
    if TypeofObject(value) then Obj(OwnEntries(acc) + OwnEntries(value)) else value
  }

  /** `outputs.reduce(Spread)`: a left fold with no seed, starting from the first output. */
  function Merge(outputs: seq<Value>): (r: Value)
    requires |outputs| >= 1
    ensures !TypeofObject(outputs[|outputs| - 1]) ==> r == outputs[|outputs| - 1]
    ensures |outputs| >= 2 && TypeofObject(outputs[|outputs| - 1]) ==> r.Obj?
    decreases |outputs|
  {
    if |outputs| == 1 then outputs[0]
    else Spread(Merge(outputs[..|outputs| - 1]), outputs[|outputs| - 1])
  }

  /** The failure message: the caller's `error` unless it is absent or empty. */
  function Message(error: Option<string>): (message: string)
    ensures |message| > 0
    ensures error.Some? && error.value != "" ==> message == error.value
    ensures error.None? || error.value == "" ==> message == "Invalid type"
  {
    if error.Some? && error.value != "" then error.value else "Invalid type"
  }

  /** The single wrapping issue the failure path reports, built as `getSchemaIssues`
      does: kind 'type', schema 'intersection', the original input, empty path and the
      given nested issues. */
  function IntersectionIssues(error: Option<string>, input: Value, nested: Option<seq<Issue>>): (issues: seq<Issue>)
    ensures |issues| == 1
    ensures issues[0].kind == "type" && issues[0].schema == "intersection"
    ensures issues[0].message == Message(error) && issues[0].input == input
    ensures issues[0].path == [] && issues[0].issues == nested
  {
    [Issue("type", "intersection", Message(error), input, [], nested)]
  }

  /** `_parse`: run the children in order on the same input, stop at the first one with
      issues and flatten those one level, otherwise buffer every output and merge them.
      `calls` records every child invocation. */
  method Parse(s: IntersectionSchemaAsync, input: Value) returns (result: ParseResult, ghost calls: seq<Call>)
    requires |s.intersection| >= 2
    ensures result.Ok? <==> forall i :: 0 <= i < |s.intersection| ==> s.intersection[i](input).Ok?
    ensures FirstErr(s.intersection, input) == |s.intersection| ==>
              calls == Calls(input, |s.intersection|) &&
              result == Ok(Merge(Outputs(s.intersection, input, |s.intersection|)))
    ensures FirstErr(s.intersection, input) < |s.intersection| ==>
              calls == Calls(input, FirstErr(s.intersection, input) + 1) &&
              result == Err(IntersectionIssues(s.error, input,
                              Some(Flatten(s.intersection[FirstErr(s.intersection, input)](input).issues))))
  {
    ghost var stop := FirstErr(s.intersection, input);
    FirstErrAllOk(s.intersection, input);
    var issues: Option<seq<Issue>> := None;
    var output: Option<seq<Value>> := None;
    calls := [];
    var i := 0;
    while i < |s.intersection|
      invariant 0 <= i <= stop
      invariant issues == None
      invariant output.None? <==> i == 0
      invariant output.Some? ==> |output.value| == i
      invariant output.Some? ==> forall j :: 0 <= j < i ==> output.value[j] == s.intersection[j](input).output
      invariant calls == Calls(input, i)
    {
      var arg := input;
      var r := s.intersection[i](arg);
      CallsExtend(input, i);
      calls := calls + [Call(i, arg)];
      if r.Err? {
        var current := r.issues;
        // the unwrap loop of the source always leaves through its break: one pass
        if |current| > 0 {
          var nested := NestedConcat(current);
          current := if |nested| > 0 then nested else current;
        }
        assert i == stop;
        issues := Some(current);
        break;
      } else {
        if output.Some? {
          output := Some(output.value + [r.output]);
        } else {
          output := Some([r.output]);
        }
      }
      i := i + 1;
    }
    if issues.None? && output.Some? {
      assert output.value == Outputs(s.intersection, input, |s.intersection|);
      result := Ok(Merge(output.value));
    } else {
      result := Err(IntersectionIssues(s.error, input, issues));
    }
  }

  /** The loop runs to the end exactly when every child succeeds. */
  lemma FirstErrAllOk(intersection: seq<Schema>, input: Value)
    ensures FirstErr(intersection, input) == |intersection| <==>
            forall i :: 0 <= i < |intersection| ==> intersection[i](input).Ok?
  {
  }

  /** Running one more child appends one call to the trace. */
  lemma CallsExtend(input: Value, count: nat)
    ensures Calls(input, count) + [Call(count, input)] == Calls(input, count + 1)
  {
  }

  /** A non-object output discards everything merged before it: the fold restarts there. */
  lemma {:induction false} MergeRestartsAtNonObject(outputs: seq<Value>, j: nat)
    requires j < |outputs|
    requires !TypeofObject(outputs[j])
    ensures Merge(outputs) == Merge(outputs[j..])
    decreases |outputs|
  {
    var n := |outputs|;
    var suffix := outputs[j..];
    if j == n - 1 {
      assert suffix == [outputs[j]];
      assert Merge(suffix) == outputs[j];
    } else {
      var prefix := outputs[..n - 1];
      assert Merge(outputs) == Spread(Merge(prefix), outputs[n - 1]);
      MergeRestartsAtNonObject(prefix, j);
      assert suffix[..|suffix| - 1] == prefix[j..];
      assert suffix[|suffix| - 1] == outputs[n - 1];
      assert Merge(suffix) == Spread(Merge(prefix[j..]), outputs[n - 1]);
    }
  }

  /** One fold step over an object output: the merged entries are the accumulated
      entries overridden by the new output's entries. */
  lemma MergeStepEntries(outputs: seq<Value>)
    requires |outputs| >= 2
    requires TypeofObject(outputs[|outputs| - 1])
    ensures OwnEntries(Merge(outputs)) ==
            OwnEntries(Merge(outputs[..|outputs| - 1])) + OwnEntries(outputs[|outputs| - 1])
  {
  }

  /** When every output after the first is an object (`typeof` 'object'), a key is in the
      merged value exactly when some output has it. The first output's type is never
      tested by the seedless fold; a primitive first output simply contributes no keys. */
  lemma {:induction false} MergeObjectKeys(outputs: seq<Value>, k: string)
    requires |outputs| >= 1
    requires forall i :: 1 <= i < |outputs| ==> TypeofObject(outputs[i])
    ensures k in OwnEntries(Merge(outputs)) <==> exists i :: 0 <= i < |outputs| && k in OwnEntries(outputs[i])
    decreases |outputs|
  {
    var n := |outputs|;
    if n > 1 {
      var prefix := outputs[..n - 1];
      MergeObjectKeys(prefix, k);
      MergeStepEntries(outputs);
      if k in OwnEntries(Merge(prefix)) {
        var i :| 0 <= i < n - 1 && k in OwnEntries(prefix[i]);
        assert k in OwnEntries(outputs[i]);
      }
      if exists i :: 0 <= i < n && k in OwnEntries(outputs[i]) {
        var i :| 0 <= i < n && k in OwnEntries(outputs[i]);
        if i < n - 1 {
          assert prefix[i] == outputs[i];
        }
      }
    }
  }

  /** When every output after the first is an object, each key of the merged value takes
      its value from the last output that has that key. */
  lemma {:induction false} MergeObjectLastWins(outputs: seq<Value>, i: nat, k: string)
    requires i < |outputs|
    requires forall j :: 1 <= j < |outputs| ==> TypeofObject(outputs[j])
    requires k in OwnEntries(outputs[i])
    requires forall j :: i < j < |outputs| ==> k !in OwnEntries(outputs[j])
    ensures k in OwnEntries(Merge(outputs))
    ensures OwnEntries(Merge(outputs))[k] == OwnEntries(outputs[i])[k]
    decreases |outputs|
  {
    var n := |outputs|;
    if n > 1 {
      var prefix := outputs[..n - 1];
      MergeStepEntries(outputs);
      if i < n - 1 {
        assert prefix[i] == outputs[i];
        assert k !in OwnEntries(outputs[n - 1]);
        MergeObjectLastWins(prefix, i, k);
      }
    }
  }

  /** Two object outputs merge to their union, the later one's keys winning:
      `{a: 1}` then `{a: 2, b: 3}` gives `{a: 2, b: 3}`. */
  lemma MergeLaterKeysWin()
    ensures Merge([Obj(map["a" := Num(1)]), Obj(map["a" := Num(2), "b" := Num(3)])])
            == Obj(map["a" := Num(2), "b" := Num(3)])
  {
  }

  /** A primitive output followed by an object gives the object, and an object followed
      by a primitive gives the primitive: `5, {x: 1}` is `{x: 1}`, `{x: 1}, 5` is `5`. */
  lemma MergePrimitiveOverride()
    ensures Merge([Num(5), Obj(map["x" := Num(1)])]) == Obj(map["x" := Num(1)])
    ensures Merge([Obj(map["x" := Num(1)]), Num(5)]) == Num(5)
  {
  }

  /** `null` is an object to `typeof` but spreads no keys: a later `null` output keeps the
      accumulated object's fields, and turns a primitive accumulator into `{}`. */
  lemma MergeNullOutput(fields: map<string, Value>)
    ensures Merge([Obj(fields), Null]) == Obj(fields)
    ensures Merge([Num(5), Null]) == Obj(map[])
  {
  }

  /** Two object outputs with disjoint fields, `{a: 1}` and `{b: "x"}`, merge to the
      object holding both fields. */
  lemma MergeDisjointFields()
    ensures Merge([Obj(map["a" := Num(1)]), Obj(map["b" := Str("x")])])
            == Obj(map["a" := Num(1), "b" := Str("x")])
  {
  }

  /** A failing child that is itself an intersection passes its nested list up unchanged:
      its single wrapper issue already holds its own failing child's flattened issues, and
      the enclosing intersection's one-step flatten returns exactly that list. So with
      nested intersections the innermost issues surface at every level. */
  lemma NestedIntersectionPassesUp(error: Option<string>, input: Value, issues: seq<Issue>)
    requires |issues| > 0
    ensures Flatten(IntersectionIssues(error, input, Some(Flatten(issues)))) == Flatten(issues)
  {
    FlattenUnwrapsWrapper(IntersectionIssues(error, input, Some(Flatten(issues)))[0]);
  }

  /** The first failing child decides the outcome: a child after it is never run, so
      its result cannot change where the loop stops. */
  lemma {:induction false} FirstErrIgnoresLaterChildren(intersection: seq<Schema>, later: seq<Schema>, input: Value)
    requires FirstErr(intersection, input) < |intersection|
    ensures FirstErr(intersection + later, input) == FirstErr(intersection, input)
    decreases |intersection|
  {
    if intersection[0](input).Ok? {
      assert (intersection + later)[1..] == intersection[1..] + later;
      FirstErrIgnoresLaterChildren(intersection[1..], later, input);
    }
  }
}
