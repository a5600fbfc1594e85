/**
 * The positions a filter keeps, in order. Several operations of the model
 * keep "the elements that satisfy a test, in their original order" (the
 * trajectory, the drawn markers, the drawn landmarks); their contracts say
 * which positions they keep by pointing at `IndicesWhere`.
 */
module Selection {

  function IndicesWhere<T>(s: seq<T>, keep: T -> bool): (r: seq<nat>)
    ensures forall i :: 0 <= i < |r| ==> r[i] < |s| && keep(s[r[i]])
    ensures forall i, j :: 0 <= i < j < |r| ==> r[i] < r[j]
    ensures forall k :: 0 <= k < |s| && keep(s[k]) ==> k in r
    ensures |r| <= |s|
  {
    if s == [] then []
    else
      var prefix := s[..|s| - 1];
      var r0 := IndicesWhere(prefix, keep);
      assert forall i :: 0 <= i < |r0| ==> s[r0[i]] == prefix[r0[i]];
      assert forall k :: 0 <= k < |prefix| ==> s[k] == prefix[k];
      r0 + (if keep(s[|s| - 1]) then [|s| - 1] else [])
  }

  /** Keeping positions of a longer sequence extends the kept positions of its prefix. */
  lemma IndicesWhereSnoc<T>(s: seq<T>, x: T, keep: T -> bool)
    ensures IndicesWhere(s + [x], keep) == IndicesWhere(s, keep) + (if keep(x) then [|s|] else [])
  {
    assert (s + [x])[..|s + [x]| - 1] == s;
  }
}
