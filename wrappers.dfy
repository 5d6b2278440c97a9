/** Failure-compatible wrappers shared by every module of the model. */
module Wrappers {

  datatype Option<+T> = None | Some(value: T)

  datatype Result<+R, +E> = Success(value: R) | Failure(error: E)

  /** Concatenation is associative; stated once so that proofs can cite it. */
  lemma AppendAssoc<T>(a: seq<T>, b: seq<T>, c: seq<T>)
    ensures a + b + c == a + (b + c)
  {
  }
}

/**
 * Go `error` values as they appear in the modelled code: plain messages,
 * messages wrapped with context (`errors.Wrap`, `fmt.Errorf("...%v", err)`),
 * aggregates (`utilerrors.NewAggregate`) and the two API-server status
 * errors the controller tests for (`errors.IsNotFound`, `errors.IsConflict`).
 */
module Errors {
  import opened Wrappers

  datatype Error =
    | Message(text: string)
    | Wrapped(context: string, cause: Error)
    | Aggregate(errs: seq<Error>)
    | NotFound(text: string)
    | Conflict(text: string)

  /** `utilerrors.NewAggregate`: nil for an empty list, otherwise one error holding them all. */
  function NewAggregate(errs: seq<Error>): (r: Option<Error>)
    ensures r.None? <==> errs == []
    ensures r.Some? ==> r.value == Aggregate(errs)
  {
    if errs == [] then None else Some(Aggregate(errs))
  }

  /** The errors among a sequence of call results, in order (the `allErrors = append(...)` idiom). */
  function Collect(results: seq<Option<Error>>): (errs: seq<Error>)
    ensures |errs| <= |results|
    ensures errs == [] <==> forall i :: 0 <= i < |results| ==> results[i].None?
  {
    if results == [] then []
    else (if results[0].Some? then [results[0].value] else []) + Collect(results[1..])
  }

  lemma {:induction false} CollectAppend(a: seq<Option<Error>>, b: seq<Option<Error>>)
    ensures Collect(a + b) == Collect(a) + Collect(b)
  {
    if a == [] {
      assert a + b == b;
    } else {
      assert (a + b)[0] == a[0] && (a + b)[1..] == a[1..] + b;
      CollectAppend(a[1..], b);
      var head := if a[0].Some? then [a[0].value] else [];
      AppendAssoc(head, Collect(a[1..]), Collect(b));
    }
  }

  /** One answer contributes its error, if any. */
  lemma CollectOne(a: Option<Error>)
    ensures Collect([a]) == if a.Some? then [a.value] else []
  {
    assert [a][1..] == [];
  }
}
