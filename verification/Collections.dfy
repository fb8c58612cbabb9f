/** Optional values, and the elements of a list. */
module Collections {

  datatype Option<T> = None | Some(value: T)

  function Elems<T(==,!new)>(xs: seq<T>): (s: set<T>)
    ensures forall x :: x in s <==> x in xs
  {
    set x | x in xs
  }

  ghost predicate Distinct<T>(xs: seq<T>) {
    forall i, j | 0 <= i < j < |xs| :: xs[i] != xs[j]
  }
}
