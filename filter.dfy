/**
 * Order-preserving selection from a sequence: the shape of every
 * `for _, x := range xs { if keep(x) { out = append(out, x) } }` loop in the
 * spec cache and the spec manager.
 */
module Filtering {

  /** The elements of `xs` that `keep` accepts, in their original order. */
  function Filter<T>(xs: seq<T>, keep: T -> bool): (r: seq<T>)
    ensures |r| <= |xs|
  {
    if xs == [] then []
    else
      var init := Filter(xs[..|xs| - 1], keep);
      if keep(xs[|xs| - 1]) then init + [xs[|xs| - 1]] else init
  }

  /** One more loop iteration: the filter of `xs + [x]` extends that of `xs`. */
  lemma FilterSnoc<T>(xs: seq<T>, x: T, keep: T -> bool)
    ensures Filter(xs + [x], keep) == Filter(xs, keep) + (if keep(x) then [x] else [])
  {
    assert (xs + [x])[..|xs + [x]| - 1] == xs;
  }

  /** An element is selected exactly when it occurs in `xs` and is kept. */
  lemma {:induction false} FilterMembers<T>(xs: seq<T>, keep: T -> bool, x: T)
    ensures x in Filter(xs, keep) <==> x in xs && keep(x)
  {
    if xs != [] {
      var init := xs[..|xs| - 1];
      FilterMembers(init, keep, x);
      assert xs == init + [xs[|xs| - 1]];
    }
  }

  /**
   * `ys` is the elements of `xs` at the strictly increasing `positions`:
   * `xs` with some elements removed and the rest in their original order.
   */
  ghost predicate InOrderAt<T>(ys: seq<T>, xs: seq<T>, positions: seq<nat>) {
    |positions| == |ys|
    && (forall i :: 0 <= i < |positions| ==> positions[i] < |xs| && ys[i] == xs[positions[i]])
    && (forall i, j :: 0 <= i < j < |positions| ==> positions[i] < positions[j])
  }

  /** The filter is the kept elements in their original order. */
  lemma {:induction false} FilterInOrder<T>(xs: seq<T>, keep: T -> bool) returns (positions: seq<nat>)
    ensures InOrderAt(Filter(xs, keep), xs, positions)
    ensures forall i :: 0 <= i < |positions| ==> keep(xs[positions[i]])
  {
    if xs == [] {
      positions := [];
    } else {
      var init, last := xs[..|xs| - 1], xs[|xs| - 1];
      var earlier := FilterInOrder(init, keep);
      assert xs == init + [last];
      FilterSnoc(init, last, keep);
      InOrderSnoc(Filter(init, keep), init, earlier, last);
      if keep(last) {
        positions := earlier + [|init|];
      } else {
        positions := earlier;
      }
    }
  }

  /** Appending to `xs` keeps the positions valid, and appending to both sides extends them by the new last one. */
  lemma InOrderSnoc<T>(ys: seq<T>, xs: seq<T>, positions: seq<nat>, x: T)
    requires InOrderAt(ys, xs, positions)
    ensures InOrderAt(ys, xs + [x], positions)
    ensures InOrderAt(ys + [x], xs + [x], positions + [|xs|])
    ensures forall i :: 0 <= i < |positions| ==> (xs + [x])[positions[i]] == xs[positions[i]]
  {
  }

  /** When every element is kept, the filter changes nothing. */
  lemma {:induction false} FilterAll<T>(xs: seq<T>, keep: T -> bool)
    requires forall i :: 0 <= i < |xs| ==> keep(xs[i])
    ensures Filter(xs, keep) == xs
  {
    if xs != [] {
      FilterAll(xs[..|xs| - 1], keep);
    }
  }

  /** When no element is kept, the filter is empty. */
  lemma {:induction false} FilterNone<T>(xs: seq<T>, keep: T -> bool)
    requires forall i :: 0 <= i < |xs| ==> !keep(xs[i])
    ensures Filter(xs, keep) == []
  {
    if xs != [] {
      FilterNone(xs[..|xs| - 1], keep);
    }
  }

  /** When exactly position `k` is kept, the filter is that one element. */
  lemma {:induction false} FilterUnique<T>(xs: seq<T>, keep: T -> bool, k: nat)
    requires k < |xs| && keep(xs[k])
    requires forall i :: 0 <= i < |xs| && i != k ==> !keep(xs[i])
    ensures Filter(xs, keep) == [xs[k]]
  {
    var init := xs[..|xs| - 1];
    if k == |xs| - 1 {
      FilterNone(init, keep);
    } else {
      FilterUnique(init, keep, k);
    }
  }

  /** Two kept positions make the filter hold at least two elements. */
  lemma {:induction false} FilterTwo<T>(xs: seq<T>, keep: T -> bool, i: nat, j: nat)
    requires i < j < |xs| && keep(xs[i]) && keep(xs[j])
    ensures |Filter(xs, keep)| >= 2
  {
    var init := xs[..|xs| - 1];
    if j == |xs| - 1 {
      FilterMembers(init, keep, xs[i]);
      assert xs[i] == init[i];
    } else {
      FilterTwo(init, keep, i, j);
    }
  }

  /** A filter of length one comes from exactly one kept position. */
  lemma FilterSingle<T>(xs: seq<T>, keep: T -> bool)
    requires |Filter(xs, keep)| == 1
    ensures exists k :: 0 <= k < |xs| && keep(xs[k]) && Filter(xs, keep) == [xs[k]] &&
                        forall i :: 0 <= i < |xs| && i != k ==> !keep(xs[i])
  {
    var r := Filter(xs, keep);
    FilterMembers(xs, keep, r[0]);
    var k :| 0 <= k < |xs| && xs[k] == r[0];
    assert keep(xs[k]);
    forall i | 0 <= i < |xs| && i != k
      ensures !keep(xs[i])
    {
      if keep(xs[i]) {
        if i < k { FilterTwo(xs, keep, i, k); } else { FilterTwo(xs, keep, k, i); }
      }
    }
  }
}
