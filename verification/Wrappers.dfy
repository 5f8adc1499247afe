// Option, used wherever the programs return a nil pointer, a NULL column or an error, and listings of sets.
module Wrappers {

  datatype Option<+T> = None | Some(value: T)

  // Each member once. A hash map yields its keys, and a statement its rows, in an order of its own.
  ghost predicate Lists<T(!new)>(order: seq<T>, members: set<T>) {
    && (forall i, j :: 0 <= i < j < |order| ==> order[i] != order[j])
    && (forall x :: x in order <==> x in members)
  }
}
