/** `Array.prototype.filter` over an arbitrary callback, and the facts about
    it that do not depend on what the callback tests. */
module Sequences {

  /** The elements of `xs` for which `keep` holds, in their original order. */
  function Filter<T>(xs: seq<T>, keep: T -> bool): (r: seq<T>)
    ensures |r| <= |xs|
    ensures forall i :: 0 <= i < |r| ==> keep(r[i])
    decreases |xs|
  {
    if xs == [] then []
    else
      assert xs == [xs[0]] + xs[1..];
      (if keep(xs[0]) then [xs[0]] else []) + Filter(xs[1..], keep)
  }

  lemma FilterUnfold<T>(xs: seq<T>, keep: T -> bool)
    requires xs != []
    ensures Filter(xs, keep) == (if keep(xs[0]) then [xs[0]] else []) + Filter(xs[1..], keep)
  {
  }

  /** An element is kept iff it is in `xs` and the callback accepts it. */
  lemma {:induction false} FilterMembers<T>(xs: seq<T>, keep: T -> bool)
    ensures forall x :: x in Filter(xs, keep) <==> x in xs && keep(x)
    decreases |xs|
  {
    if xs != [] {
      FilterMembers(xs[1..], keep);
      assert xs == [xs[0]] + xs[1..];
    }
  }

  /** A callback that accepts every element keeps the whole sequence. */
  lemma {:induction false} FilterKeepsAll<T>(xs: seq<T>, keep: T -> bool)
    requires forall i :: 0 <= i < |xs| ==> keep(xs[i])
    ensures Filter(xs, keep) == xs
    decreases |xs|
  {
    if xs != [] {
      FilterKeepsAll(xs[1..], keep);
    }
  }

  /** Two callbacks that agree on the elements give the same result. */
  lemma {:induction false} FilterSameVerdicts<T>(xs: seq<T>, keep1: T -> bool, keep2: T -> bool)
    requires forall i :: 0 <= i < |xs| ==> keep1(xs[i]) == keep2(xs[i])
    ensures Filter(xs, keep1) == Filter(xs, keep2)
    decreases |xs|
  {
    if xs != [] {
      FilterSameVerdicts(xs[1..], keep1, keep2);
    }
  }

  /** Filtering splits over concatenation, so the relative order is kept. */
  lemma {:induction false} FilterAppend<T>(a: seq<T>, b: seq<T>, keep: T -> bool)
    ensures Filter(a + b, keep) == Filter(a, keep) + Filter(b, keep)
    decreases |a|
  {
    if a == [] {
      assert a + b == b;
    } else {
      assert (a + b)[1..] == a[1..] + b;
      FilterAppend(a[1..], b, keep);
    }
  }

  /** Nothing is duplicated: a kept element occurs as often as in `xs`,
      a rejected one not at all. */
  lemma {:induction false} FilterCount<T>(xs: seq<T>, keep: T -> bool, x: T)
    ensures multiset(Filter(xs, keep))[x] == if keep(x) then multiset(xs)[x] else 0
    decreases |xs|
  {
    if xs != [] {
      assert xs == [xs[0]] + xs[1..];
      FilterCount(xs[1..], keep, x);
    }
  }

  /** Filtering twice with the same callback is filtering once. */
  lemma {:induction false} FilterIdempotent<T>(xs: seq<T>, keep: T -> bool)
    ensures Filter(Filter(xs, keep), keep) == Filter(xs, keep)
    decreases |xs|
  {
    if xs != [] {
      var head := if keep(xs[0]) then [xs[0]] else [];
      FilterAppend(head, Filter(xs[1..], keep), keep);
      FilterIdempotent(xs[1..], keep);
      if keep(xs[0]) {
        assert Filter(head, keep) == head by {
          assert head[1..] == [];
        }
      }
    }
  }

  /** `positions` lists, in increasing order, exactly the indices of `xs`
      whose element `keep` accepts, and `r` holds those elements. */
  ghost predicate IsSelection<T>(positions: seq<int>, xs: seq<T>, keep: T -> bool, r: seq<T>) {
    && |positions| == |r|
    && (forall k :: 0 <= k < |positions| ==> 0 <= positions[k] < |xs| && r[k] == xs[positions[k]])
    && (forall k, l :: 0 <= k < l < |positions| ==> positions[k] < positions[l])
    && (forall i :: 0 <= i < |xs| ==> (keep(xs[i]) <==> i in positions))
  }

  /** Every index moved one to the right. */
  function Shift(positions: seq<int>): (r: seq<int>)
    ensures |r| == |positions|
    ensures forall k :: 0 <= k < |r| ==> r[k] == positions[k] + 1
    ensures forall i :: i in r <==> i - 1 in positions
  {
    var r := seq(|positions|, k requires 0 <= k < |positions| => positions[k] + 1);
    assert forall i :: i - 1 in positions ==> i in r by {
      forall i | i - 1 in positions ensures i in r {
        var k :| 0 <= k < |positions| && positions[k] == i - 1;
        assert r[k] == i;
      }
    }
    r
  }

  /** The accepted positions of `xs`, given those of `xs[1..]`. */
  function ConsPositions<T>(xs: seq<T>, keep: T -> bool, tail: seq<int>): (positions: seq<int>)
    requires xs != []
  {
    (if keep(xs[0]) then [0] else []) + Shift(tail)
  }

  lemma SelectionIndices<T>(xs: seq<T>, keep: T -> bool, tail: seq<int>)
    requires xs != []
    requires IsSelection(tail, xs[1..], keep, Filter(xs[1..], keep))
    ensures var positions := ConsPositions(xs, keep, tail);
      && |positions| == |Filter(xs, keep)|
      && forall k :: 0 <= k < |positions| ==> 0 <= positions[k] < |xs| && Filter(xs, keep)[k] == xs[positions[k]]
  {
    var positions := ConsPositions(xs, keep, tail);
    var r := Filter(xs, keep);
    var rt := Filter(xs[1..], keep);
    FilterUnfold(xs, keep);
    var offset := if keep(xs[0]) then 1 else 0;
    forall k | 0 <= k < |positions|
      ensures 0 <= positions[k] < |xs| && r[k] == xs[positions[k]]
    {
      if k >= offset {
        assert positions[k] == tail[k - offset] + 1;
        assert r[k] == rt[k - offset];
        assert xs[1..][tail[k - offset]] == xs[tail[k - offset] + 1];
      }
    }
  }

  lemma SelectionIncreasing<T>(xs: seq<T>, keep: T -> bool, tail: seq<int>)
    requires xs != []
    requires IsSelection(tail, xs[1..], keep, Filter(xs[1..], keep))
    ensures var positions := ConsPositions(xs, keep, tail);
      forall k, l :: 0 <= k < l < |positions| ==> positions[k] < positions[l]
  {
    var positions := ConsPositions(xs, keep, tail);
    var offset := if keep(xs[0]) then 1 else 0;
    forall k, l | 0 <= k < l < |positions|
      ensures positions[k] < positions[l]
    {
      assert positions[l] == tail[l - offset] + 1;
      if k >= offset {
        assert positions[k] == tail[k - offset] + 1;
      }
    }
  }

  lemma SelectionComplete<T>(xs: seq<T>, keep: T -> bool, tail: seq<int>)
    requires xs != []
    requires IsSelection(tail, xs[1..], keep, Filter(xs[1..], keep))
    ensures var positions := ConsPositions(xs, keep, tail);
      forall i :: 0 <= i < |xs| ==> (keep(xs[i]) <==> i in positions)
  {
    var positions := ConsPositions(xs, keep, tail);
    var shifted := Shift(tail);
    forall i | 0 <= i < |xs|
      ensures keep(xs[i]) <==> i in positions
    {
      if i > 0 {
        assert xs[i] == xs[1..][i - 1];
        assert i in positions <==> i in shifted;
      } else {
        assert -1 !in tail;
      }
    }
  }

  /** The kept indices of `xs`: the witness that `Filter(xs, keep)` is `xs`
      restricted to exactly the accepted positions, in order. */
  lemma {:induction false} KeptPositions<T>(xs: seq<T>, keep: T -> bool) returns (positions: seq<int>)
    ensures IsSelection(positions, xs, keep, Filter(xs, keep))
    decreases |xs|
  {
    if xs == [] {
      return [];
    }
    var tail := KeptPositions(xs[1..], keep);
    positions := ConsPositions(xs, keep, tail);
    SelectionIndices(xs, keep, tail);
    SelectionIncreasing(xs, keep, tail);
    SelectionComplete(xs, keep, tail);
  }

  /** `xs.filter(keep)` as a single left-to-right pass. */
  method FilterLoop<T>(xs: seq<T>, keep: T -> bool) returns (r: seq<T>)
    ensures r == Filter(xs, keep)
  {
    r := [];
    var i := 0;
    while i < |xs|
      invariant 0 <= i <= |xs|
      invariant Filter(xs, keep) == r + Filter(xs[i..], keep)
    {
      FilterUnfold(xs[i..], keep);
      assert xs[i..][1..] == xs[i + 1..];
      if keep(xs[i]) {
        r := r + [xs[i]];
      }
      i := i + 1;
    }
    assert xs[i..] == [];
  }
}
