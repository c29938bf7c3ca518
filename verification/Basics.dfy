/** What several modules share. */
module Basics {

  /** The largest integer up to which the host language's numbers are exact. */
  const MAX_SAFE_INTEGER := 0x1F_FFFF_FFFF_FFFF

  datatype Option<T> = None | Some(value: T)

  predicate Distinct<T(==)>(s: seq<T>) {
    forall i, j :: 0 <= i < j < |s| ==> s[i] != s[j]
  }
}
