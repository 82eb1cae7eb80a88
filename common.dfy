/** Small shared definitions: an optional value and duplicate-freedom. */
module Common {

  datatype Option<+T> = None | Some(value: T)

  /** No element occurs twice. */
  predicate Distinct<T(==)>(s: seq<T>) {
    forall i, j :: 0 <= i < j < |s| ==> s[i] != s[j]
  }
}
