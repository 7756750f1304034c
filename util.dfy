/** Small wrapper datatypes shared by the other modules. */
module Util {

  /** A nullable pointer or an optional value. */
  datatype Option<+T> = None | Some(value: T)

  /** The outcome of an operation that can throw a C++ exception. */
  datatype Result<+T, +E> = Ok(value: T) | Err(error: E)

  /** No element occurs twice. */
  predicate Distinct<T(==)>(s: seq<T>)
  {
    forall i, j :: 0 <= i < j < |s| ==> s[i] != s[j]
  }
}
