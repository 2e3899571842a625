/** The issue model: diagnostics, parse results, and the one-level flattening of a
    failing child's issues that the intersection schema performs. */
module Issues {
  import opened JsValues

  /** One diagnostic. `issues` is the optional nested list a wrapping schema attaches. */
  datatype Issue = Issue(
    kind: string,
    schema: string,
    message: string,
    input: Value,
    path: seq<Value>,
    issues: Option<seq<Issue>>)

  /** A parse result carries an output or issues, never both. An `Err` with an empty
      list is still a failure: an empty JavaScript array is truthy. */
  datatype ParseResult = Ok(output: Value) | Err(issues: seq<Issue>)

  /** `i.issues ?? []`: an issue contributes nothing exactly when its nested list is
      absent or empty. */
  function NestedOf(i: Issue): (r: seq<Issue>)
    ensures r == [] <==> i.issues == None || i.issues == Some([])
  {
    match i.issues
    case Some(nested) => nested
    case None => []
  }

  /** `issues.flatMap(i => i.issues ?? [])`: the nested lists, concatenated in order.
      The first issue's nested list opens the result, and a single issue's nested list is
      the whole result. */
  function NestedConcat(issues: seq<Issue>): (r: seq<Issue>)
    ensures |issues| > 0 ==> NestedOf(issues[0]) <= r
    ensures |issues| == 1 ==> r == NestedOf(issues[0])
    decreases |issues|
  {
    if |issues| == 0 then [] else NestedOf(issues[0]) + NestedConcat(issues[1..])
  }

  /** One pass of the unwrap step: the concatenated nested issues replace the list when
      that concatenation is non-empty; otherwise the list is kept as it is. */
  function Flatten(issues: seq<Issue>): (r: seq<Issue>)
    ensures |issues| > 0 ==> |r| > 0
    ensures r == issues || r == NestedConcat(issues)
  {
    var nested := NestedConcat(issues);
    if |issues| > 0 && |nested| > 0 then nested else issues
  }

  /** flatMap distributes over concatenation: order within and across issues is kept. */
  lemma {:induction false} NestedConcatAppend(a: seq<Issue>, b: seq<Issue>)
    ensures NestedConcat(a + b) == NestedConcat(a) + NestedConcat(b)
    decreases |a|
  {
    if |a| == 0 {
      assert a + b == b;
    } else {
      assert (a + b)[0] == a[0];
      assert (a + b)[1..] == a[1..] + b;
      NestedConcatAppend(a[1..], b);
      calc {
        NestedConcat(a + b);
        NestedOf(a[0]) + NestedConcat(a[1..] + b);
        NestedOf(a[0]) + (NestedConcat(a[1..]) + NestedConcat(b));
        NestedConcat(a) + NestedConcat(b);
      }
    }
  }

  /** The concatenation is empty exactly when no issue carries a non-empty nested list. */
  lemma {:induction false} NestedConcatEmpty(issues: seq<Issue>)
    ensures NestedConcat(issues) == [] <==> forall i :: 0 <= i < |issues| ==> NestedOf(issues[i]) == []
    decreases |issues|
  {
    if |issues| > 0 {
      NestedConcatEmpty(issues[1..]);
      assert forall i :: 1 <= i < |issues| ==> issues[i] == issues[1..][i - 1];
    }
  }

  /** Every issue of the concatenation comes from the nested list of some issue, and
      every nested issue appears in it: nothing is dropped, nothing invented. */
  lemma {:induction false} NestedConcatMembers(issues: seq<Issue>, x: Issue)
    ensures x in NestedConcat(issues) <==> exists i :: 0 <= i < |issues| && x in NestedOf(issues[i])
    decreases |issues|
  {
    if |issues| > 0 {
      NestedConcatMembers(issues[1..], x);
      if x in NestedConcat(issues[1..]) {
        var i :| 0 <= i < |issues[1..]| && x in NestedOf(issues[1..][i]);
        assert x in NestedOf(issues[i + 1]);
      }
      if exists i :: 0 <= i < |issues| && x in NestedOf(issues[i]) {
        var i :| 0 <= i < |issues| && x in NestedOf(issues[i]);
        if i > 0 {
          assert issues[1..][i - 1] == issues[i];
        }
      }
    }
  }

  /** Flatten unwraps exactly when some issue carries a non-empty nested list. */
  lemma FlattenCases(issues: seq<Issue>)
    ensures (exists i :: 0 <= i < |issues| && NestedOf(issues[i]) != []) ==> Flatten(issues) == NestedConcat(issues)
    ensures (forall i :: 0 <= i < |issues| ==> NestedOf(issues[i]) == []) ==> Flatten(issues) == issues
  {
    NestedConcatEmpty(issues);
  }

  /** A single wrapper issue with a non-empty nested list is replaced by that list. */
  lemma FlattenUnwrapsWrapper(w: Issue)
    requires NestedOf(w) != []
    ensures Flatten([w]) == NestedOf(w)
  {
    assert NestedConcat([w]) == NestedOf(w) + NestedConcat([]);
  }

  /** Flattening is a single step, not a descent to the deepest failure: with a leaf
      wrapped twice, the middle wrapper survives and the leaf stays nested inside it.
      The middle wrapper here comes from a composite other than an intersection, which
      attaches its child's issues without flattening them. */
  lemma FlattenIsOneLevel(leaf: Issue, input: Value)
    requires leaf.issues == None
    ensures var middle := Issue("type", "object", "Invalid type", input, [], Some([leaf]));
            var outer := Issue("type", "intersection", "Invalid type", input, [], Some([middle]));
            Flatten([outer]) == [middle] && Flatten([outer]) != [leaf]
  {
    var middle := Issue("type", "object", "Invalid type", input, [], Some([leaf]));
    var outer := Issue("type", "intersection", "Invalid type", input, [], Some([middle]));
    FlattenUnwrapsWrapper(outer);
    assert middle != leaf by {
      assert middle.issues.Some?;
    }
  }
}
