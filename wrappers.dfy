/** Option, Result and Outcome, the failure-carrying shapes used across the model. */
module Wrappers {

  datatype Option<+T> = None | Some(value: T)

  /** A Go `(value, error)` pair: either the value or the error text. */
  datatype Result<+T> = Success(value: T) | Failure(error: string)

  /** A Go `error` on its own: nil, or the error text. */
  datatype Outcome = Pass | Fail(error: string)

  /** The list holding the optional value: `[v]` for `Some(v)`, `[]` for `None`. */
  function OptionToSeq<T>(o: Option<T>): (s: seq<T>)
    ensures o.None? <==> s == []
    ensures o.Some? ==> s == [o.value]
  {
    match o
    case None => []
    case Some(v) => [v]
  }
}
