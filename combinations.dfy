/** `itertools.combinations(xs, k)`: the k-element selections of a list that
    keep the list's order, in the order itertools produces them (those that
    take the first element, then those that skip it). */
module Combinations {
  import opened Util

  function Combinations<T>(xs: seq<T>, k: nat): (r: seq<seq<T>>)
    ensures forall i :: 0 <= i < |r| ==> |r[i]| == k
    ensures k == 0 ==> r == [[]]
    ensures |xs| < k ==> r == []
    decreases |xs|, k
  {
    if k == 0 then [[]]
    else if |xs| < k then []
    else
      var firsts := WithHead(xs[0], Combinations(xs[1..], k - 1));
      firsts + Combinations(xs[1..], k)
  }

  /** Each selection with `x` put in front. */
  function WithHead<T>(x: T, cs: seq<seq<T>>): (r: seq<seq<T>>)
    ensures |r| == |cs|
    ensures forall i :: 0 <= i < |r| ==> r[i] == [x] + cs[i]
  {
    seq(|cs|, i requires 0 <= i < |cs| => [x] + cs[i])
  }

  /** Strictly increasing positions into a list of length `n`. */
  predicate Increasing(idx: seq<int>, n: int) {
    (forall i :: 0 <= i < |idx| ==> 0 <= idx[i] < n)
    && (forall i, j :: 0 <= i < j < |idx| ==> idx[i] < idx[j])
  }

  /** The elements of `xs` at the positions `idx`. */
  function Pick<T>(xs: seq<T>, idx: seq<int>): (r: seq<T>)
    requires Increasing(idx, |xs|)
    ensures |r| == |idx| && forall i :: 0 <= i < |idx| ==> r[i] == xs[idx[i]]
  {
    seq(|idx|, i requires 0 <= i < |idx| => xs[idx[i]])
  }

  /** Every element of `c` is an element of `xs`. */
  predicate Drawn<T(==)>(c: seq<T>, xs: seq<T>) {
    forall x :: x in c ==> x in xs
  }

  /** The recursive case of `Combinations`, as an equation. */
  lemma CombinationsStep<T>(xs: seq<T>, k: nat)
    requires 0 < k <= |xs|
    ensures Combinations(xs, k) == WithHead(xs[0], Combinations(xs[1..], k - 1)) + Combinations(xs[1..], k)
  {
  }

  /** Every selection is drawn from the list, and from a duplicate-free list
      it has no duplicates. */
  lemma {:induction false} CombinationsSound<T>(xs: seq<T>, k: nat)
    ensures forall i :: 0 <= i < |Combinations(xs, k)| ==> Drawn(Combinations(xs, k)[i], xs)
    ensures Distinct(xs) ==> forall i :: 0 <= i < |Combinations(xs, k)| ==> Distinct(Combinations(xs, k)[i])
    decreases |xs|, k
  {
    if k != 0 && |xs| >= k {
      var tail := xs[1..];
      var with, without := Combinations(tail, k - 1), Combinations(tail, k);
      CombinationsSound(tail, k - 1);
      CombinationsSound(tail, k);
      CombinationsStep(xs, k);
      var all := Combinations(xs, k);
      forall i | 0 <= i < |all|
        ensures Drawn(all[i], xs)
        ensures Distinct(xs) ==> Distinct(all[i])
      {
        if i < |with| {
          HeadSound(xs, with[i]);
        } else {
          assert all[i] == without[i - |with|];
          TailDrawn(xs, without[i - |with|]);
        }
      }
    }
  }

  /** `CombinationsSound` for one selection. */
  lemma CombinationMember<T>(xs: seq<T>, k: nat, i: int)
    requires 0 <= i < |Combinations(xs, k)|
    ensures Drawn(Combinations(xs, k)[i], xs)
    ensures Distinct(xs) ==> Distinct(Combinations(xs, k)[i])
  {
    CombinationsSound(xs, k);
  }

  lemma HeadSound<T>(xs: seq<T>, rest: seq<T>)
    requires xs != [] && Drawn(rest, xs[1..]) && (Distinct(xs) ==> Distinct(rest))
    ensures Drawn([xs[0]] + rest, xs)
    ensures Distinct(xs) ==> Distinct([xs[0]] + rest)
  {
    TailDrawn(xs, rest);
    if Distinct(xs) {
      DistinctTail(xs);
      var c := [xs[0]] + rest;
      forall a, b | 0 <= a < b < |c| ensures c[a] != c[b] {
        assert c[b] == rest[b - 1];
      }
    }
  }

  lemma TailDrawn<T>(xs: seq<T>, c: seq<T>)
    requires xs != [] && Drawn(c, xs[1..])
    ensures Drawn(c, xs)
  {
    assert forall x :: x in xs[1..] ==> x in xs;
  }

  /** Every order-keeping selection of `k` elements appears among the
      combinations. */
  lemma {:induction false} CombinationsComplete<T>(xs: seq<T>, k: nat, idx: seq<int>)
    requires Increasing(idx, |xs|) && |idx| == k
    ensures Pick(xs, idx) in Combinations(xs, k)
    decreases |xs|, k, 1
  {
    if k == 0 {
      assert Pick(xs, idx) == [];
    } else {
      IncreasingBound(idx, |xs|);
      CombinationsStep(xs, k);
      if idx[0] == 0 {
        CompleteTakingFirst(xs, k, idx);
      } else {
        CompleteSkippingFirst(xs, k, idx);
      }
    }
  }

  lemma {:induction false} CompleteTakingFirst<T>(xs: seq<T>, k: nat, idx: seq<int>)
    requires Increasing(idx, |xs|) && |idx| == k && 0 < k <= |xs| && idx[0] == 0
    ensures Pick(xs, idx) in WithHead(xs[0], Combinations(xs[1..], k - 1))
    decreases |xs|, k, 0
  {
    var shifted := DropFirst(idx, |xs|);
    CombinationsComplete(xs[1..], k - 1, shifted);
    var with := Combinations(xs[1..], k - 1);
    var j :| 0 <= j < |with| && with[j] == Pick(xs[1..], shifted);
    PickDropFirst(xs, idx);
    assert WithHead(xs[0], with)[j] == Pick(xs, idx);
  }

  lemma {:induction false} CompleteSkippingFirst<T>(xs: seq<T>, k: nat, idx: seq<int>)
    requires Increasing(idx, |xs|) && |idx| == k && 0 < k <= |xs| && idx[0] != 0
    ensures Pick(xs, idx) in Combinations(xs[1..], k)
    decreases |xs|, k, 0
  {
    var shifted := ShiftAll(idx, |xs|);
    CombinationsComplete(xs[1..], k, shifted);
    PickShiftAll(xs, idx);
  }

  lemma PickDropFirst<T>(xs: seq<T>, idx: seq<int>)
    requires Increasing(idx, |xs|) && |idx| > 0 && idx[0] == 0
    ensures Pick(xs, idx) == [xs[0]] + Pick(xs[1..], DropFirst(idx, |xs|))
  {
    var a, b := Pick(xs, idx), [xs[0]] + Pick(xs[1..], DropFirst(idx, |xs|));
    assert |a| == |b|;
    forall i | 0 <= i < |a| ensures a[i] == b[i] {
      if i > 0 {
        assert b[i] == Pick(xs[1..], DropFirst(idx, |xs|))[i - 1];
      }
    }
  }

  lemma PickShiftAll<T>(xs: seq<T>, idx: seq<int>)
    requires Increasing(idx, |xs|) && |idx| > 0 && idx[0] != 0
    ensures Pick(xs, idx) == Pick(xs[1..], ShiftAll(idx, |xs|))
  {
    var a, b := Pick(xs, idx), Pick(xs[1..], ShiftAll(idx, |xs|));
    assert |a| == |b|;
    forall i | 0 <= i < |a| ensures a[i] == b[i] {
    }
  }

  /** The positions after the first, as positions into the tail. */
  function DropFirst(idx: seq<int>, n: int): (r: seq<int>)
    requires Increasing(idx, n) && |idx| > 0 && idx[0] == 0
    ensures Increasing(r, n - 1) && |r| == |idx| - 1
    ensures forall i :: 0 <= i < |r| ==> r[i] == idx[i + 1] - 1
  {
    var r := seq(|idx| - 1, i requires 0 <= i < |idx| - 1 => idx[i + 1] - 1);
    assert forall i :: 0 < i < |idx| ==> idx[0] < idx[i];
    r
  }

  /** All positions, as positions into the tail (none of them is 0). */
  function ShiftAll(idx: seq<int>, n: int): (r: seq<int>)
    requires Increasing(idx, n) && |idx| > 0 && idx[0] != 0
    ensures Increasing(r, n - 1) && |r| == |idx|
    ensures forall i :: 0 <= i < |r| ==> r[i] == idx[i] - 1
  {
    var r := seq(|idx|, i requires 0 <= i < |idx| => idx[i] - 1);
    assert forall i :: 0 < i < |r| ==> idx[0] < idx[i];
    r
  }

  /** `k` increasing positions below `n` need `k <= n`. */
  lemma {:induction false} IncreasingBound(idx: seq<int>, n: nat)
    requires Increasing(idx, n)
    ensures |idx| <= n
  {
    if |idx| > 0 {
      IncreasingFloor(idx, n, |idx| - 1);
      assert idx[|idx| - 1] < n;
    }
  }

  lemma {:induction false} IncreasingFloor(idx: seq<int>, n: int, i: int)
    requires Increasing(idx, n) && 0 <= i < |idx|
    ensures idx[i] >= i
    decreases i
  {
    if i > 0 {
      IncreasingFloor(idx, n, i - 1);
    }
  }
}
