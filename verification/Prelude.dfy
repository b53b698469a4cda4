/** Small types and notions shared by the whole project. */
module Prelude {
  datatype Option<+T> = None | Some(value: T)

  /** A value, or the exception that the Python code raises instead. */
  datatype Result<+T, +E> = Ok(value: T) | Err(error: E)

  ghost predicate Distinct<T>(s: seq<T>) {
    forall i, j :: 0 <= i < j < |s| ==> s[i] != s[j]
  }
}
