/** Sequence helpers shared by the models of lists and tuples. */
module Seqs {

  /** Every element occurs once, as in a list built without repeats. */
  predicate NoDup<T(==)>(s: seq<T>)
  {
    forall i, j :: 0 <= i < j < |s| ==> s[i] != s[j]
  }

  /** The set of the elements. */
  function Elems<T>(s: seq<T>): set<T>
  {
    set x | x in s
  }
}
