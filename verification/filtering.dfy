/** Filtering a sequence and mapping what is kept. The facts are proved here
    once, for any filter and any mapping, so that proofs about a particular
    selection do not have to look inside the filter. */
module Filtering {

  /** The images under `f` of the elements `keep` accepts, in their order. */
  function FilterMap<T(!new), U>(xs: seq<T>, keep: T -> bool, f: T --> U): (r: seq<U>)
    requires forall x :: keep(x) ==> f.requires(x)
    ensures |r| <= |xs|
    decreases |xs|
  {
    if |xs| == 0 then []
    else
      var init := FilterMap(xs[..|xs| - 1], keep, f);
      if keep(xs[|xs| - 1]) then init + [f(xs[|xs| - 1])] else init
  }

  /** Appending an element adds its image exactly when it is kept. */
  lemma FilterMapSnoc<T(!new), U>(xs: seq<T>, x: T, keep: T -> bool, f: T --> U)
    requires forall y :: keep(y) ==> f.requires(y)
    ensures FilterMap(xs + [x], keep, f) == FilterMap(xs, keep, f) + (if keep(x) then [f(x)] else [])
  {
    assert (xs + [x])[..|xs|] == xs;
  }

  /** Nothing is selected exactly when no element is kept. */
  lemma {:induction false} FilterMapEmpty<T(!new), U>(xs: seq<T>, keep: T -> bool, f: T --> U)
    requires forall y :: keep(y) ==> f.requires(y)
    ensures FilterMap(xs, keep, f) == [] <==> forall i :: 0 <= i < |xs| ==> !keep(xs[i])
    decreases |xs|
  {
    if |xs| > 0 {
      var n := |xs| - 1;
      FilterMapEmpty(xs[..n], keep, f);
      assert forall i :: 0 <= i < n ==> xs[..n][i] == xs[i];
    }
  }

  /** `idx` lists, in increasing order, the positions of exactly the kept
      elements, and entry `k` of the selection is the image of the element
      at `idx[k]`. */
  ghost predicate SelectionPositions<T(!new), U>(xs: seq<T>, keep: T -> bool, f: T --> U, idx: seq<nat>)
    requires forall y :: keep(y) ==> f.requires(y)
  {
    && |idx| == |FilterMap(xs, keep, f)|
    && (forall k :: 0 <= k < |idx| ==>
          idx[k] < |xs| && keep(xs[idx[k]]) && FilterMap(xs, keep, f)[k] == f(xs[idx[k]]))
    && (forall k, l :: 0 <= k < l < |idx| ==> idx[k] < idx[l])
    && (forall i :: 0 <= i < |xs| && keep(xs[i]) ==> i in idx)
  }

  /** The selection as an increasing list of positions: entry `k` of the
      result is the image of the element at `idx[k]`, that element is kept,
      and every kept element's position is listed. */
  lemma {:induction false} FilterMapIndices<T(!new), U>(xs: seq<T>, keep: T -> bool, f: T --> U)
    returns (idx: seq<nat>)
    requires forall y :: keep(y) ==> f.requires(y)
    ensures |idx| == |FilterMap(xs, keep, f)|
    ensures forall k :: 0 <= k < |idx| ==>
              idx[k] < |xs| && keep(xs[idx[k]]) && FilterMap(xs, keep, f)[k] == f(xs[idx[k]])
    ensures forall k, l :: 0 <= k < l < |idx| ==> idx[k] < idx[l]
    ensures forall i :: 0 <= i < |xs| && keep(xs[i]) ==> i in idx
    decreases |xs|
  {
    if |xs| == 0 {
      idx := [];
    } else {
      var n := |xs| - 1;
      var prev := FilterMapIndices(xs[..n], keep, f);
      assert xs == xs[..n] + [xs[n]];
      idx := PositionsSnoc(xs[..n], xs[n], keep, f, prev);
    }
  }

  /** Appending an element extends the position list by the new position
      exactly when the element is kept. */
  lemma PositionsSnoc<T(!new), U>(xs: seq<T>, x: T, keep: T -> bool, f: T --> U, prev: seq<nat>)
    returns (idx: seq<nat>)
    requires forall y :: keep(y) ==> f.requires(y)
    requires SelectionPositions(xs, keep, f, prev)
    ensures SelectionPositions(xs + [x], keep, f, idx)
    ensures idx == prev + (if keep(x) then [|xs|] else [])
  {
    var ys := xs + [x];
    FilterMapSnoc(xs, x, keep, f);
    var before := FilterMap(xs, keep, f);
    assert forall i :: 0 <= i < |xs| ==> ys[i] == xs[i];
    if keep(x) {
      idx := prev + [|xs|];
      forall k | 0 <= k < |idx|
        ensures idx[k] < |ys| && keep(ys[idx[k]]) && FilterMap(ys, keep, f)[k] == f(ys[idx[k]])
      {
        if k < |prev| {
          assert idx[k] == prev[k] && FilterMap(ys, keep, f)[k] == before[k];
        }
      }
    } else {
      idx := prev;
    }
    forall i | 0 <= i < |ys| && keep(ys[i])
      ensures i in idx
    {
      if i < |xs| {
        assert keep(xs[i]);
        assert i in prev;
      }
    }
  }

  /** An element the filter rejects can be removed without changing the
      selection. */
  lemma {:induction false} FilterMapSkip<T(!new), U>(before: seq<T>, x: T, after: seq<T>, keep: T -> bool, f: T --> U)
    requires forall y :: keep(y) ==> f.requires(y)
    requires !keep(x)
    ensures FilterMap(before + [x] + after, keep, f) == FilterMap(before + after, keep, f)
    decreases |after|
  {
    if |after| == 0 {
      assert before + [x] + after == before + [x];
      assert before + after == before;
      FilterMapSnoc(before, x, keep, f);
    } else {
      var n := |after| - 1;
      var last := after[n];
      FilterMapSkip(before, x, after[..n], keep, f);
      assert before + [x] + after == (before + [x] + after[..n]) + [last];
      assert before + after == (before + after[..n]) + [last];
      FilterMapSnoc(before + [x] + after[..n], last, keep, f);
      FilterMapSnoc(before + after[..n], last, keep, f);
    }
  }
}
