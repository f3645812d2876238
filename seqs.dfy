/** Order-preserving filtering of a sequence, and the positions it keeps. */
module Seqs {

  /** The elements of `xs` satisfying `p`, in their original order; defined on
      the last element, the way a loop that appends builds it. */
  function Filter<T>(p: T -> bool, xs: seq<T>): (r: seq<T>)
    ensures |r| <= |xs|
    decreases |xs|
  {
    if xs == [] then []
    else Filter(p, xs[..|xs| - 1]) + (if p(xs[|xs| - 1]) then [xs[|xs| - 1]] else [])
  }

  /** The indices of `xs` whose element satisfies `p`, ascending. Its contract
      says that `Filter` keeps exactly the satisfying elements, once each, in
      input order. */
  function Positions<T>(p: T -> bool, xs: seq<T>): (idx: seq<nat>)
    ensures |idx| == |Filter(p, xs)|
    ensures forall j :: 0 <= j < |idx| ==> idx[j] < |xs| && Filter(p, xs)[j] == xs[idx[j]]
    ensures forall j, k :: 0 <= j < k < |idx| ==> idx[j] < idx[k]
    ensures forall i :: 0 <= i < |xs| ==> (p(xs[i]) <==> i in idx)
    decreases |xs|
  {
    if xs == [] then []
    else
      var n := |xs| - 1;
      var prefix := xs[..n];
      assert forall i :: 0 <= i < n ==> prefix[i] == xs[i];
      Positions(p, prefix) + (if p(xs[n]) then [n] else [])
  }

  /** Appending one element extends the filter by that element or by nothing. */
  lemma FilterSnoc<T>(p: T -> bool, xs: seq<T>, x: T)
    ensures Filter(p, xs + [x]) == Filter(p, xs) + (if p(x) then [x] else [])
  {
    assert (xs + [x])[..|xs|] == xs;
  }

  /** Appending one element extends the positions by its index or by nothing. */
  lemma PositionsSnoc<T>(p: T -> bool, xs: seq<T>, x: T)
    ensures Positions(p, xs + [x]) == Positions(p, xs) + (if p(x) then [|xs|] else [])
  {
    assert (xs + [x])[..|xs|] == xs;
  }

  /** `p` holds of no element exactly when the filter is empty. */
  lemma FilterEmpty<T>(p: T -> bool, xs: seq<T>)
    ensures Filter(p, xs) == [] <==> forall i :: 0 <= i < |xs| ==> !p(xs[i])
  {
    var idx := Positions(p, xs);
    if Filter(p, xs) != [] {
      assert p(xs[idx[0]]);
    }
  }

  /** When the elements satisfying `p` are exactly the first `m`, the
      positions are `0, 1, ..., m - 1`: the filter is the prefix of length `m`. */
  lemma {:induction false} PositionsOfLeadingRun<T>(p: T -> bool, xs: seq<T>, m: nat)
    requires m <= |xs|
    requires forall i :: 0 <= i < |xs| ==> (p(xs[i]) <==> i < m)
    ensures |Positions(p, xs)| == m
    ensures forall k :: 0 <= k < m ==> Positions(p, xs)[k] == k
    decreases |xs|
  {
    if xs != [] {
      var n := |xs| - 1;
      var prefix := xs[..n];
      assert forall i :: 0 <= i < n ==> prefix[i] == xs[i];
      PositionsOfLeadingRun(p, prefix, if m == |xs| then n else m);
    }
  }

  /** `k` is the last index at which `xs` holds `x`. */
  predicate IsLastIndex<T(==)>(xs: seq<T>, x: T, k: int) {
    0 <= k < |xs| && xs[k] == x && forall j :: k < j < |xs| ==> xs[j] != x
  }
}
