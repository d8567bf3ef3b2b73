/** Sums and filters over the rows of a column. */
module Rows {
  import opened Common

  function Sum(xs: seq<int>): int {
    if xs == [] then 0 else Sum(xs[..|xs| - 1]) + xs[|xs| - 1]
  }

  lemma {:induction false} SumConcat(xs: seq<int>, ys: seq<int>)
    ensures Sum(xs + ys) == Sum(xs) + Sum(ys)
  {
    if ys == [] {
      assert xs + ys == xs;
    } else {
      SumConcat(xs, ys[..|ys| - 1]);
      assert (xs + ys)[..|xs + ys| - 1] == xs + ys[..|ys| - 1];
    }
  }

  /** A sum of `n` values between `lo` and `hi` lies between `n * lo` and `n * hi`. */
  lemma {:induction false} SumBounds(xs: seq<int>, lo: int, hi: int)
    requires forall i :: 0 <= i < |xs| ==> lo <= xs[i] <= hi
    ensures |xs| * lo <= Sum(xs) <= |xs| * hi
  {
    if xs != [] {
      SumBounds(xs[..|xs| - 1], lo, hi);
    }
  }

  /** Prefixes of non-negative values have smaller sums. */
  lemma SumPrefix(xs: seq<int>, i: nat, j: nat)
    requires i <= j <= |xs| && forall k :: 0 <= k < |xs| ==> xs[k] >= 0
    ensures 0 <= Sum(xs[..i]) <= Sum(xs[..j]) <= Sum(xs)
    ensures Sum(xs[..j]) == Sum(xs[..i]) + Sum(xs[i..j])
  {
    SumConcat(xs[..i], xs[i..j]);
    assert xs[..j] == xs[..i] + xs[i..j];
    SumConcat(xs[..j], xs[j..]);
    assert xs == xs[..j] + xs[j..];
    SumNonNegative(xs[..i]);
    SumNonNegative(xs[i..j]);
    SumNonNegative(xs[j..]);
  }

  lemma {:induction false} SumNonNegative(xs: seq<int>)
    requires forall k :: 0 <= k < |xs| ==> xs[k] >= 0
    ensures Sum(xs) >= 0
  {
    if xs != [] {
      SumNonNegative(xs[..|xs| - 1]);
    }
  }

  /** The rows of `xs` the mask keeps, in order. */
  function Filter<T>(xs: seq<T>, mask: seq<bool>): (r: seq<T>)
    requires |mask| == |xs|
    ensures |r| <= |xs|
  {
    if xs == [] then []
    else
      var n := |xs| - 1;
      var rest := Filter(xs[..n], mask[..n]);
      if mask[n] then rest + [xs[n]] else rest
  }

  function Bits(mask: seq<bool>): (r: seq<int>)
    ensures |r| == |mask| && forall i :: 0 <= i < |r| ==> r[i] == if mask[i] then 1 else 0
  {
    seq(|mask|, i requires 0 <= i < |mask| => if mask[i] then 1 else 0)
  }

  /** A kept row lands at the number of kept rows before it. */
  lemma {:induction false} FilterPlaces<T>(xs: seq<T>, mask: seq<bool>, i: nat)
    requires |mask| == |xs| && i < |xs| && mask[i]
    ensures 0 <= Sum(Bits(mask)[..i]) < |Filter(xs, mask)|
    ensures Filter(xs, mask)[Sum(Bits(mask)[..i])] == xs[i]
  {
    hide Sum, Bits;
    var n := |xs| - 1;
    FilterLength(xs[..n], mask[..n]);
    assert Bits(mask[..n]) == Bits(mask)[..n];
    if i < n {
      FilterPlaces(xs[..n], mask[..n], i);
      assert Bits(mask)[..i] == Bits(mask[..n])[..i];
    }
  }

  lemma {:induction false} FilterLength<T>(xs: seq<T>, mask: seq<bool>)
    requires |mask| == |xs|
    ensures |Filter(xs, mask)| == Sum(Bits(mask))
  {
    if xs != [] {
      var n := |xs| - 1;
      FilterLength(xs[..n], mask[..n]);
      assert Bits(mask)[..n] == Bits(mask[..n]);
    }
  }

  /** Every slot of the result comes from a kept row. */
  lemma {:induction false} FilterCovered<T>(xs: seq<T>, mask: seq<bool>, k: nat) returns (i: nat)
    requires |mask| == |xs| && k < |Filter(xs, mask)|
    ensures i < |xs| && mask[i] && Sum(Bits(mask)[..i]) == k
  {
    var n := |xs| - 1;
    FilterLength(xs[..n], mask[..n]);
    assert Bits(mask[..n]) == Bits(mask)[..n];
    if k < |Filter(xs[..n], mask[..n])| {
      i := FilterCovered(xs[..n], mask[..n], k);
      assert Bits(mask)[..i] == Bits(mask[..n])[..i];
    } else {
      i := n;
    }
  }
}
