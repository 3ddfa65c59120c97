/** Datatypes shared by all the components. */
module Prelude {

  datatype Option<+T> = None | Some(value: T)

  /** No element of the sequence is repeated. */
  ghost predicate Distinct<T>(s: seq<T>) {
    forall i, j :: 0 <= i < j < |s| ==> s[i] != s[j]
  }
}
