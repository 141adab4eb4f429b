/** Option and Result: the value-level form of Python's `None` and of raised exceptions. */
module Wrappers {

  datatype Option<+T> = None | Some(value: T)

  /** A computation that either returned a value or raised an error. */
  datatype Result<+T, +E> = Ok(value: T) | Err(error: E)

  /** `xs` followed by whatever `rest` computed; an error stays that error. */
  function Prepend<T, E>(xs: seq<T>, rest: Result<seq<T>, E>): (r: Result<seq<T>, E>)
    ensures r.Ok? <==> rest.Ok?
    ensures r.Ok? ==> r.value == xs + rest.value
    ensures r.Err? ==> r.error == rest.error
  {
    match rest
    case Ok(ys) => Ok(xs + ys)
    case Err(e) => Err(e)
  }

  lemma PrependNothing<T, E>(rest: Result<seq<T>, E>)
    ensures Prepend([], rest) == rest
  {
    if rest.Ok? {
      assert [] + rest.value == rest.value;
    }
  }
}
