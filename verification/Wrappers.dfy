/** What the modules share. */
module Wrappers {
  datatype Option<+T> = None | Some(value: T)

  /** No element stands in a list twice. */
  ghost predicate NoDup<T>(s: seq<T>) {
    forall j, k :: 0 <= j < k < |s| ==> s[j] != s[k]
  }
}
