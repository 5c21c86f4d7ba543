/** Sizes of sets, and counting in sequences. */
module Collections {

  lemma {:induction false} SubsetSize<T>(a: set<T>, b: set<T>)
    requires a <= b
    ensures |a| <= |b|
  {
    if a != {} {
      var x :| x in a;
      SubsetSize(a - {x}, b - {x});
    }
  }

  function Count<T>(entries: seq<T>, p: T -> bool): nat {
    if entries == [] then 0
    else Count(entries[..|entries| - 1], p) + if p(entries[|entries| - 1]) then 1 else 0
  }

  lemma CountAppend<T>(entries: seq<T>, e: T, p: T -> bool)
    ensures Count(entries + [e], p) == Count(entries, p) + if p(e) then 1 else 0
  {
    assert (entries + [e])[..|entries|] == entries;
  }
}
