/** JavaScript values as seen by the validation engine, and the two runtime shape
    tests the core relies on: `typeof v === 'object'` and `Array.isArray(v)`.
    Also the own enumerable entries that an object spread `{ ...v }` copies. */
module JsValues {

  datatype Option<+T> = None | Some(value: T)

  /** A JavaScript value. Numbers are integers here (floating point is not modelled);
      functions, symbols and bigints are not modelled. */
  datatype Value =
    | Undefined
    | Null
    | Bool(b: bool)
    | Num(n: int)
    | Str(s: string)
    | Arr(items: seq<Value>)
    | Obj(fields: map<string, Value>)

  /** `typeof v === 'object'`: true of null, arrays and plain objects. No primitive is
      object-typed, and every value that is not a primitive is. */
  function TypeofObject(v: Value): (r: bool)
    ensures r <==> !(v.Undefined? || v.Bool? || v.Num? || v.Str?)
  {
    v.Null? || v.Arr? || v.Obj?
  }

  /** `Array.isArray(v)`. */
  predicate IsArray(v: Value) {
    v.Arr?
  }

  function Digit(d: nat): char
    requires d < 10
  {
    "0123456789"[d]
  }

  /** The property key of array or string index `n`: its decimal spelling. */
  function IndexKey(n: nat): string
  {
    if n < 10 then [Digit(n)] else IndexKey(n / 10) + [Digit(n % 10)]
  }

  /** The index entries of an array-like value, keyed by decimal index. */
  function IndexEntries(items: seq<Value>): map<string, Value>
  {
    if |items| == 0 then map[]
    else IndexEntries(items[..|items| - 1])[IndexKey(|items| - 1) := items[|items| - 1]]
  }

  /** Every index of the array-like value is a key of its entries. */
  lemma {:induction false} IndexEntriesKeys(items: seq<Value>)
    ensures forall i :: 0 <= i < |items| ==> IndexKey(i) in IndexEntries(items)
    decreases |items|
  {
    if |items| > 0 {
      IndexEntriesKeys(items[..|items| - 1]);
    }
  }

  /** The own enumerable string-keyed properties that `{ ...v }` copies: the fields of an
      object, the indices of an array or a string, and nothing for any other value
      (spreading `undefined`, `null`, a boolean or a number contributes no keys). */
  function OwnEntries(v: Value): (entries: map<string, Value>)
    ensures v.Obj? ==> entries == v.fields
    ensures v.Arr? ==> forall i :: 0 <= i < |v.items| ==> IndexKey(i) in entries
    ensures v.Str? ==> forall i :: 0 <= i < |v.s| ==> IndexKey(i) in entries
    ensures !(v.Obj? || v.Arr? || v.Str?) ==> entries == map[]
  {
    match v
    case Obj(fields) => fields
    case Arr(items) =>
      IndexEntriesKeys(items);
      IndexEntries(items)
    case Str(s) =>
      var chars := seq(|s|, i requires 0 <= i < |s| => Str([s[i]]));
      IndexEntriesKeys(chars);
      IndexEntries(chars)
    case _ => map[]
  }
}
