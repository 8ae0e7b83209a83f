/** What the other modules share. */
module Collections {
  datatype Option<+T> = None | Some(value: T)

  ghost predicate NoDuplicates<T(!new)>(s: seq<T>) {
    forall i, j :: 0 <= i < j < |s| ==> s[i] != s[j]
  }
}
