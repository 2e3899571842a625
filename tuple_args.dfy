/** `getTupleArgs`: the runtime shape dispatch that lets the tuple schema constructors
    take an optional rest schema, an optional error message and an optional pipe. */
module TupleArgs {
  import opened JsValues

  /** `getDefaultArgs(arg1, arg2)`, which returns `[error, pipe]`. Its body is not part of
      this model, so it is a parameter and the properties below describe forwarding only. */
  type DefaultArgs = (Value, Value) -> (Value, Value)

  /** The `[rest, error, pipe]` triple. */
  datatype TupleArgs = TupleArgs(rest: Value, error: Value, pipe: Value)

  /** The shape test on the first argument: `typeof arg1 === 'object' && !Array.isArray(arg1)`.
      It accepts exactly plain objects and `null`. */
  function IsRestSchema(arg1: Value): (r: bool)
    ensures r <==> arg1.Obj? || arg1.Null?
  {
    TypeofObject(arg1) && !IsArray(arg1)
  }

  function GetTupleArgs(getDefaultArgs: DefaultArgs, arg1: Value, arg2: Value, arg3: Value): (r: TupleArgs)
    ensures r.rest == arg1 || r.rest == Undefined
    ensures IsRestSchema(arg1) ==> r.rest == arg1 && (r.error, r.pipe) == getDefaultArgs(arg2, arg3)
    ensures !IsRestSchema(arg1) ==> r.rest == Undefined && (r.error, r.pipe) == getDefaultArgs(arg1, arg2)
  {
    if IsRestSchema(arg1) then
      var (error, pipe) := getDefaultArgs(arg2, arg3);
      TupleArgs(arg1, error, pipe)
    else
      var (error, pipe) := getDefaultArgs(arg1, arg2);
      TupleArgs(Undefined, error, pipe)
  }

  /** Which argument is the rest schema depends on the shape of `arg1` alone: not on the
      other arguments, nor on how `getDefaultArgs` resolves them. */
  lemma RestDependsOnlyOnArg1(f: DefaultArgs, g: DefaultArgs, arg1: Value, arg2: Value, arg3: Value, b2: Value, b3: Value)
    ensures GetTupleArgs(f, arg1, arg2, arg3).rest == GetTupleArgs(g, arg1, b2, b3).rest
  {
  }

  /** Without a rest schema, the third argument has no influence on the result. */
  lemma Arg3IgnoredWithoutRest(f: DefaultArgs, arg1: Value, arg2: Value, arg3: Value, other: Value)
    requires !IsRestSchema(arg1)
    ensures GetTupleArgs(f, arg1, arg2, arg3) == GetTupleArgs(f, arg1, arg2, other)
  {
  }

  /** A pipe (an array), a missing argument and an error message (a string) are never taken
      for the rest schema, and neither is a boolean or a number. An object is, and so is
      `null`, because `typeof null` is 'object'. */
  lemma RestShapes(f: DefaultArgs, arg2: Value, arg3: Value, items: seq<Value>, message: string, fields: map<string, Value>)
    ensures GetTupleArgs(f, Arr(items), arg2, arg3).rest == Undefined
    ensures GetTupleArgs(f, Undefined, arg2, arg3).rest == Undefined
    ensures GetTupleArgs(f, Str(message), arg2, arg3).rest == Undefined
    ensures forall b :: GetTupleArgs(f, Bool(b), arg2, arg3).rest == Undefined
    ensures forall n :: GetTupleArgs(f, Num(n), arg2, arg3).rest == Undefined
    ensures GetTupleArgs(f, Obj(fields), arg2, arg3).rest == Obj(fields)
    ensures GetTupleArgs(f, Null, arg2, arg3).rest == Null
  {
  }

  /** An assumed shape for `getDefaultArgs`, whose body is not part of this model: a
      string first argument is the error message and the second the pipe; otherwise the
      first argument is the pipe and there is no message. Used only to instantiate the
      examples below. */
  function AssumedDefaultArgs(arg1: Value, arg2: Value): (Value, Value)
  {
    if arg1.Str? then (arg1, arg2) else (Undefined, arg1)
  }

  /** `(schema, "msg", pipe)` resolves to rest `schema`, error "msg" and pipe `pipe`;
      `("msg", pipe)` resolves to no rest, error "msg" and pipe `pipe`; `(pipe)` resolves
      to no rest, no error and pipe `pipe`. */
  lemma ResolutionExamples(schema: map<string, Value>, pipe: seq<Value>)
    ensures GetTupleArgs(AssumedDefaultArgs, Obj(schema), Str("msg"), Arr(pipe))
            == TupleArgs(Obj(schema), Str("msg"), Arr(pipe))
    ensures GetTupleArgs(AssumedDefaultArgs, Str("msg"), Arr(pipe), Undefined)
            == TupleArgs(Undefined, Str("msg"), Arr(pipe))
    ensures GetTupleArgs(AssumedDefaultArgs, Arr(pipe), Undefined, Undefined)
            == TupleArgs(Undefined, Undefined, Arr(pipe))
  {
  }
}
