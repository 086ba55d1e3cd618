/** Sequences without repetition. */
module Sequences {

  ghost predicate NoDuplicates<T(!new)>(xs: seq<T>)
  {
    forall i, j :: 0 <= i < j < |xs| ==> xs[i] != xs[j]
  }

  // Taking out one item takes out all there is of it.
  lemma RemovedOne<T(!new)>(xs: seq<T>, k: nat)
    requires NoDuplicates(xs) && k < |xs|
    ensures NoDuplicates(xs[..k] + xs[k + 1..])
    ensures forall x :: x in xs[..k] + xs[k + 1..] <==> x in xs && x != xs[k]
  {
    var rest := xs[..k] + xs[k + 1..];
    assert forall m :: 0 <= m < |rest| ==> rest[m] == xs[if m < k then m else m + 1];
    forall x | x in xs && x != xs[k] ensures x in rest {
      var m :| 0 <= m < |xs| && xs[m] == x;
      assert rest[if m < k then m else m - 1] == x;
    }
  }
}
