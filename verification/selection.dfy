/**
 * Order-preserving selection of the elements of a sequence whose flag is set.
 * Both the sidebar (which checked sources to keep) and the chat page (which
 * context chunks pass the score threshold) select this way.
 */
module Selection {

  /** The elements of `xs` whose flag in `keep` is true, in their original order. */
  function Select<T>(xs: seq<T>, keep: seq<bool>): (r: seq<T>)
    requires |xs| == |keep|
    ensures |r| <= |xs|
    ensures forall x :: x in r ==> x in xs
  {
    if xs == [] then []
    else
      var n := |xs| - 1;
      Select(xs[..n], keep[..n]) + (if keep[n] then [xs[n]] else [])
  }

  /** The positions whose flag is true, in increasing order. */
  function SelectedIndices(keep: seq<bool>): (r: seq<nat>)
    ensures |r| <= |keep|
    ensures forall k :: 0 <= k < |r| ==> r[k] < |keep|
  {
    if keep == [] then []
    else
      var n := |keep| - 1;
      SelectedIndices(keep[..n]) + (if keep[n] then [n] else [])
  }

  /** `xs` has no element twice. */
  ghost predicate Distinct<T>(xs: seq<T>) {
    forall i, j :: 0 <= i < j < |xs| ==> xs[i] != xs[j]
  }

  /** Position `i` is selected exactly when its flag is set. */
  lemma {:induction false} SelectedIndicesExact(keep: seq<bool>, i: int)
    ensures i in SelectedIndices(keep) <==> 0 <= i < |keep| && keep[i]
  {
    if keep != [] {
      var n := |keep| - 1;
      SelectedIndicesExact(keep[..n], i);
    }
  }

  /** The selected positions are strictly increasing: selection keeps the original order. */
  lemma {:induction false} SelectedIndicesIncreasing(keep: seq<bool>)
    ensures forall a, b :: 0 <= a < b < |SelectedIndices(keep)| ==>
              SelectedIndices(keep)[a] < SelectedIndices(keep)[b]
  {
    if keep != [] {
      var n := |keep| - 1;
      SelectedIndicesIncreasing(keep[..n]);
    }
  }

  /** The selection is exactly the elements at the selected positions, in that order. */
  lemma {:induction false} SelectAtIndices<T>(xs: seq<T>, keep: seq<bool>)
    requires |xs| == |keep|
    ensures |Select(xs, keep)| == |SelectedIndices(keep)|
    ensures forall k :: 0 <= k < |Select(xs, keep)| ==>
              Select(xs, keep)[k] == xs[SelectedIndices(keep)[k]]
  {
    if xs != [] {
      var n := |xs| - 1;
      SelectAtIndices(xs[..n], keep[..n]);
    }
  }

  /** An element of `xs` is selected when its flag is set; a selected element had its flag set. */
  lemma SelectMembership<T>(xs: seq<T>, keep: seq<bool>, x: T)
    requires |xs| == |keep|
    ensures x in Select(xs, keep) <==> exists i :: 0 <= i < |xs| && keep[i] && xs[i] == x
  {
    var r := Select(xs, keep);
    var idx := SelectedIndices(keep);
    SelectAtIndices(xs, keep);
    if x in r {
      var k :| 0 <= k < |r| && r[k] == x;
      SelectedIndicesExact(keep, idx[k]);
      assert idx[k] in idx;
    }
    if exists i :: 0 <= i < |xs| && keep[i] && xs[i] == x {
      var i :| 0 <= i < |xs| && keep[i] && xs[i] == x;
      SelectedIndicesExact(keep, i);
      var k :| 0 <= k < |idx| && idx[k] == i;
      assert r[k] == x;
    }
  }

  /** Selecting from a sequence without repeats gives a sequence without repeats. */
  lemma SelectDistinct<T>(xs: seq<T>, keep: seq<bool>)
    requires |xs| == |keep|
    requires Distinct(xs)
    ensures Distinct(Select(xs, keep))
  {
    var r := Select(xs, keep);
    var idx := SelectedIndices(keep);
    SelectAtIndices(xs, keep);
    SelectedIndicesIncreasing(keep);
    forall a, b | 0 <= a < b < |r| ensures r[a] != r[b] {
      assert idx[a] < idx[b];
    }
  }

  /** With every flag set, nothing is dropped. */
  lemma {:induction false} SelectAll<T>(xs: seq<T>, keep: seq<bool>)
    requires |xs| == |keep|
    requires forall i :: 0 <= i < |keep| ==> keep[i]
    ensures Select(xs, keep) == xs
  {
    if xs != [] {
      var n := |xs| - 1;
      SelectAll(xs[..n], keep[..n]);
      assert xs[..n] + [xs[n]] == xs;
    }
  }

  /** With no flag set, nothing is selected. */
  lemma {:induction false} SelectNone<T>(xs: seq<T>, keep: seq<bool>)
    requires |xs| == |keep|
    requires forall i :: 0 <= i < |keep| ==> !keep[i]
    ensures Select(xs, keep) == []
  {
    if xs != [] {
      var n := |xs| - 1;
      SelectNone(xs[..n], keep[..n]);
    }
  }

  /** Extending the inputs by one element extends the selection by at most that element. */
  lemma SelectSnoc<T>(xs: seq<T>, keep: seq<bool>, i: nat)
    requires |xs| == |keep|
    requires i < |xs|
    ensures Select(xs[..i + 1], keep[..i + 1]) ==
            Select(xs[..i], keep[..i]) + (if keep[i] then [xs[i]] else [])
  {
    assert xs[..i + 1][..i] == xs[..i];
    assert keep[..i + 1][..i] == keep[..i];
  }
}
