# Intersection parsing and tuple-argument resolution, modelled in Dafny

This project models two pieces of the valibot validation engine.

1. The `_parse` operation of the async intersection schema
   (`library/src/schemas/intersection/intersectionAsync.ts`). It runs an ordered list
   of at least two child schemas on the same input. It stops at the first child that
   reports issues. It flattens that child's issues by one level of nesting and wraps
   them in one `intersection` issue. If every child succeeds, it buffers the outputs in
   child order and folds them left to right with a shallow object spread.
2. `getTupleArgs` (`library/src/schemas/tuple/utils/getTupleArgs/getTupleArgs.ts`). It
   decides from the shape of its first argument whether that argument is a rest schema.
   It then forwards the remaining arguments to `getDefaultArgs`.

Files:

- `js_values.dfy` (module `JsValues`): JavaScript values, `typeof v === 'object'`,
  `Array.isArray`, and the own entries that `{ ...v }` copies. Object fields, array
  indices and string indices are spread; `undefined`, `null`, booleans and numbers
  contribute no keys.
- `issues.dfy` (module `Issues`): the `Issue` record, the parse result (`Ok(output)` or
  `Err(issues)`, never both), and the one-level flatten step.
- `intersection_async.dfy` (module `IntersectionAsync`): the schema record, the merge
  fold, the failure issue, and `Parse`. `Parse` is an imperative loop with an early
  `break` and a growing output buffer. It returns a ghost trace of the child
  invocations, so the contract can state the call order, that every call gets the same
  input, and that no child after the first failure is run.
- `tuple_args.dfy` (module `TupleArgs`): `GetTupleArgs`, with `getDefaultArgs` passed
  in as a function.

Points where the code behaves differently from what a reader might expect:

- Issue flattening. The source comment at `intersectionAsync.ts:133` says "collect
  deeply nested issues", and the unwrap step is written as a `while` loop. But that loop
  at `intersectionAsync.ts:134-139` always leaves through its `break`, so each
  intersection unwraps at most one level, and none when every nested list is empty.
  Between nested intersections this loses nothing: an intersection's wrapper already
  holds its failing child's flattened list, and the enclosing intersection passes that
  list up unchanged
  (`IntersectionAsync.NestedIntersectionPassesUp`). The single step keeps a middle
  wrapper only when that wrapper did not flatten, that is, when it comes from another
  kind of composite. `Issues.FlattenIsOneLevel` shows such a case: the middle wrapper
  survives, not the leaf.
- Empty issue lists. One might expect an issues list never to be empty. The code tests
  `result.issues` for truthiness, and an empty array is truthy in JavaScript. So a
  child that returns an empty issues array still fails the intersection. The model
  lets `Err` carry an empty list and treats it as a failure.
- `null` values. `typeof null` is `'object'`. So a `null` child output takes the
  spread branch: it adds no keys, but it turns a primitive accumulator into `{}`
  (`IntersectionAsync.MergeNullOutput`). Likewise a `null` first argument to
  `getTupleArgs` is taken as the rest schema (`TupleArgs.RestShapes`).

## Model

| member | source | states |
|---|---|---|
| `IntersectionAsync.Parse` | library/src/schemas/intersection/intersectionAsync.ts:121-168 | The result is a success iff every child succeeds. On success, every child is called once, in order, on the original input, and the output is the fold of the children's outputs in child order. On failure, the children up to and including the first failing one are called, in order, on the original input, and no later child is called. The result is then one issue wrapping the first failing child's issues, flattened one level. |
| `IntersectionAsync.FirstErr` | library/src/schemas/intersection/intersectionAsync.ts:127-140 | The loop stops at the first child that reports issues: every earlier child succeeds, and the child at the returned index (if any) fails. |
| `IntersectionAsync.FirstErrAllOk` | library/src/schemas/intersection/intersectionAsync.ts:127-151 | The loop runs past the last child exactly when every child succeeds. |
| `IntersectionAsync.FirstErrIgnoresLaterChildren` | library/src/schemas/intersection/intersectionAsync.ts:131-140 | Short-circuit: appending children after a failing one does not change where the loop stops. |
| `IntersectionAsync.Calls` | library/src/schemas/intersection/intersectionAsync.ts:127-128 | The invocation trace of the first `count` children: call `j` is child `j`, on the original input. |
| `IntersectionAsync.Outputs` | library/src/schemas/intersection/intersectionAsync.ts:142-146 | The buffer holds exactly one output per successful child, in child order. |
| `IntersectionAsync.Spread` | library/src/schemas/intersection/intersectionAsync.ts:153-157 | The reduce callback. An object-typed later value gives an object whose keys are those of the accumulator and of the value, where a key the value has takes the value's entry and any other key keeps the accumulator's. Any other later value replaces the accumulator. |
| `IntersectionAsync.Merge` | library/src/schemas/intersection/intersectionAsync.ts:153-158 | Fold with no seed. If the last output is not object-typed, the merged output is that last output. Otherwise, with two or more outputs, the result is a plain object. |
| `IntersectionAsync.MergeRestartsAtNonObject` | library/src/schemas/intersection/intersectionAsync.ts:153-157 | A non-object output discards everything before it: the merge of the whole list equals the merge of the suffix that starts at that output. |
| `IntersectionAsync.MergeStepEntries` | library/src/schemas/intersection/intersectionAsync.ts:154-155 | Each spread step over an object-typed output overrides the accumulated entries with that output's entries. |
| `IntersectionAsync.MergeObjectKeys` | library/src/schemas/intersection/intersectionAsync.ts:153-155 | When every output after the first is object-typed (the first may be anything, e.g. `5, {x:1}, {y:2}`), a key is in the merged value iff some output has it. Together with `MergeRestartsAtNonObject`, this covers every list of outputs. |
| `IntersectionAsync.MergeObjectLastWins` | library/src/schemas/intersection/intersectionAsync.ts:153-155 | When every output after the first is object-typed, each merged key takes its value from the last output that has the key. |
| `IntersectionAsync.MergeLaterKeysWin` | library/src/schemas/intersection/intersectionAsync.ts:154-155 | `{a:1}` then `{a:2,b:3}` merges to `{a:2,b:3}`. |
| `IntersectionAsync.MergePrimitiveOverride` | library/src/schemas/intersection/intersectionAsync.ts:154-157 | `5` then `{x:1}` merges to `{x:1}`; `{x:1}` then `5` merges to `5`. |
| `IntersectionAsync.MergeNullOutput` | library/src/schemas/intersection/intersectionAsync.ts:154-155 | A later `null` output keeps an object accumulator's fields, and turns a number accumulator into `{}`. |
| `IntersectionAsync.MergeDisjointFields` | library/src/schemas/intersection/intersectionAsync.ts:151-158 | Outputs `{a:1}` and `{b:"x"}` merge to `{a:1, b:"x"}`. |
| `IntersectionAsync.Message` | library/src/schemas/intersection/intersectionAsync.ts:164 | The failure message is the caller's error when it is a non-empty string, else "Invalid type"; it is never empty. |
| `IntersectionAsync.IntersectionIssues` | library/src/schemas/intersection/intersectionAsync.ts:160-166 | The failure is exactly one issue, with kind "type", schema "intersection", the resolved message, the original input, an empty path, and the given nested issues. |
| `JsValues.TypeofObject` | library/src/schemas/intersection/intersectionAsync.ts:154 | `typeof v === 'object'` holds exactly for the values that are not primitives: `null`, arrays and objects, never `undefined`, a boolean, a number or a string. |
| `JsValues.OwnEntries` | library/src/schemas/intersection/intersectionAsync.ts:155 | Spreading an object copies its fields. Spreading an array or a string yields a key for every index. Spreading `undefined`, `null`, a boolean or a number copies nothing. |
| `Issues.NestedOf` | library/src/schemas/intersection/intersectionAsync.ts:136 | `i.issues ?? []`: an issue contributes no nested issues exactly when its nested list is absent or empty. |
| `Issues.NestedConcat` | library/src/schemas/intersection/intersectionAsync.ts:136 | The `flatMap` result starts with the first issue's nested list, and for a single issue it is that issue's nested list. |
| `Issues.Flatten` | library/src/schemas/intersection/intersectionAsync.ts:134-139 | One unwrap step. The result is either the list itself or the in-order concatenation of the nested lists, and a non-empty list never becomes empty. |
| `Issues.FlattenCases` | library/src/schemas/intersection/intersectionAsync.ts:134-139 | Flatten unwraps exactly when some issue has a non-empty nested list. Otherwise it leaves the list unchanged. |
| `Issues.FlattenUnwrapsWrapper` | library/src/schemas/intersection/intersectionAsync.ts:134-139 | A single wrapper issue with non-empty nested issues is replaced by those nested issues. |
| `IntersectionAsync.NestedIntersectionPassesUp` | library/src/schemas/intersection/intersectionAsync.ts:131-139 | A failing child that is itself an intersection passes its nested list up unchanged: flattening its single wrapper yields exactly the list it already flattened. |
| `Issues.FlattenIsOneLevel` | library/src/schemas/intersection/intersectionAsync.ts:134-139 | With a leaf wrapped twice, the middle wrapper coming from a non-intersection composite, flattening yields the middle wrapper, not the leaf. Unwrapping stops after one level. |
| `Issues.NestedConcatAppend` | library/src/schemas/intersection/intersectionAsync.ts:136 | The `flatMap` over a concatenation is the concatenation of the two `flatMap`s, so the order of issues is kept. |
| `Issues.NestedConcatEmpty` | library/src/schemas/intersection/intersectionAsync.ts:136-137 | The `flatMap` is empty iff no issue carries a non-empty nested list. That is the case where `?? issues` keeps the original list. |
| `Issues.NestedConcatMembers` | library/src/schemas/intersection/intersectionAsync.ts:136 | An issue is in the `flatMap` iff it is in the nested list of some issue. Nothing is dropped or invented. |
| `TupleArgs.GetTupleArgs` | library/src/schemas/tuple/utils/getTupleArgs/getTupleArgs.ts:19-36 | The rest is always `arg1` or undefined. When `arg1` is a non-array object, rest is `arg1`, and error and pipe are `getDefaultArgs(arg2, arg3)`. Otherwise rest is undefined, and error and pipe are `getDefaultArgs(arg1, arg2)`. |
| `TupleArgs.IsRestSchema` | library/src/schemas/tuple/utils/getTupleArgs/getTupleArgs.ts:27 | `typeof arg1 === 'object' && !Array.isArray(arg1)` accepts exactly plain objects and `null`. |
| `TupleArgs.RestDependsOnlyOnArg1` | library/src/schemas/tuple/utils/getTupleArgs/getTupleArgs.ts:27-35 | The returned rest is determined by `arg1` alone. It does not depend on the other arguments or on `getDefaultArgs`. |
| `TupleArgs.Arg3IgnoredWithoutRest` | library/src/schemas/tuple/utils/getTupleArgs/getTupleArgs.ts:31-35 | Without a rest schema, `arg3` has no influence on the result. |
| `TupleArgs.RestShapes` | library/src/schemas/tuple/utils/getTupleArgs/getTupleArgs.ts:27 | An array (a pipe), undefined, a string, a boolean or a number is never the rest. An object is, and so is `null`. |
| `TupleArgs.ResolutionExamples` | library/src/schemas/tuple/utils/getTupleArgs/getTupleArgs.ts:27-35 | With an assumed resolver shape (a string first argument is the error, otherwise it is the pipe), three calls resolve as expected. `(schema, "msg", pipe)` gives `(schema, "msg", pipe)`. `("msg", pipe)` gives `(undefined, "msg", pipe)`. `(pipe)` gives `(undefined, undefined, pipe)`. |

## Left out

- Type-level inference (`AsyncIntersectionInput`, `AsyncIntersectionOutput`, `IntersectionOptionsAsync`, intersectionAsync.ts:12-81) is compile-time only. Its one runtime consequence, at least two children, is the `requires` of `Parse`.
- Promise scheduling: each child is awaited before the next starts, so `await` is plain sequential evaluation and a child schema is a total function of the input.
- The parse `info` context is passed through untouched and is not modelled.
- The body of `getSchemaIssues` is not part of this model. `IntersectionIssues` builds one issue from the arguments it is given, with an empty path. Fields that `getSchemaIssues` may take from `info` are not represented.
- The body of `getDefaultArgs` is not part of this model. `GetTupleArgs` takes it as a function parameter. `AssumedDefaultArgs` is an assumed resolver shape that only instantiates the example lemma.
- Numbers are integers; floating point, functions, symbols and bigints are not JavaScript values of this model.
- Objects are maps, so property enumeration order, prototypes and non-enumerable or symbol keys are not represented.
- JsValues.OwnEntries: for arrays and strings it states that every index key is present, but not which value each key holds, nor that no other key is present. A string is spread here by Unicode scalar values, while JavaScript spreads it by UTF-16 code units, so a character outside the Basic Multilingual Plane gives one key here and two in JavaScript.
- The intersection schema's constructor only returns a record of its arguments. It is the datatype `IntersectionSchemaAsync`, whose `schema` and `async` members are the constants "intersection" and true.
