/**
 Scalar aggregates over a pre-stage (`src/exec/agg_with_pre.rs`): the host path
 with masks and validity, and the resident path that stays on the device.

 The pre kernel and the predicate kernel are represented by what they produce:
 one column per output and an optional keep-mask.
 */
module Aggregate {
  import opened Common
  import opened Rows
  import opened Compaction
  import opened Reduce

  /** A column on the host; `validity[i] == 0` marks a NULL row. */
  datatype HostCol = HostCol(dtype: DataType, values: seq<int>, validity: Option<seq<nat>>)

  predicate WellFormed(c: HostCol) {
    Reduce.AllFit(c.dtype, c.values) && (c.validity.Some? ==> |c.validity.value| == |c.values|)
  }

  // ---- Masks and validity ---------------------------------------------------

  function ValidRows(c: HostCol): (r: seq<bool>)
    requires WellFormed(c)
    ensures |r| == |c.values|
    ensures forall i :: 0 <= i < |r| ==> r[i] == (c.validity.None? || c.validity.value[i] != 0)
  {
    seq(|c.values|, i requires 0 <= i < |c.values| => c.validity.None? || c.validity.value[i] != 0)
  }

  function AllTrue(n: nat): (r: seq<bool>)
    ensures |r| == n && forall i :: 0 <= i < n ==> r[i]
  {
    seq(n, _ => true)
  }

  /** `HostCol::compact`. */
  function Compact(c: HostCol, mask: seq<bool>): Result<HostCol, AggError>
    requires WellFormed(c)
  {
    if |mask| != |c.values| then Err(MaskLength)
    else Ok(HostCol(c.dtype, Filter(c.values, mask),
                    if c.validity.None? then None else Some(Filter(c.validity.value, mask))))
  }

  /** `strip_nulls_borrowed`. */
  function StripNulls(c: HostCol): HostCol
    requires WellFormed(c)
  {
    if c.validity.None? then c else HostCol(c.dtype, Filter(c.values, ValidRows(c)), None)
  }

  function Both(a: seq<bool>, b: seq<bool>): (r: seq<bool>)
    requires |a| == |b|
    ensures |r| == |a| && forall i :: 0 <= i < |r| ==> r[i] == (a[i] && b[i])
  {
    seq(|a|, i requires 0 <= i < |a| => a[i] && b[i])
  }

  /** The rows that are both kept and valid: what every aggregate is about. */
  function KeptValid(c: HostCol, mask: seq<bool>): (r: seq<int>)
    requires WellFormed(c) && |mask| == |c.values|
  {
    Filter(c.values, Both(mask, ValidRows(c)))
  }

  lemma {:induction false} FilterAll<T>(xs: seq<T>)
    ensures Filter(xs, AllTrue(|xs|)) == xs
  {
    if xs != [] {
      var n := |xs| - 1;
      FilterAll(xs[..n]);
      assert AllTrue(|xs|)[..n] == AllTrue(n);
    }
  }

  /** Filtering by one mask and then by the surviving part of another is one joint filter. */
  lemma {:induction false} FilterTwice<T>(xs: seq<T>, a: seq<bool>, b: seq<bool>)
    requires |a| == |b| == |xs|
    ensures |Filter(b, a)| == |Filter(xs, a)|
    ensures Filter(Filter(xs, a), Filter(b, a)) == Filter(xs, Both(a, b))
  {
    if xs != [] {
      hide Filter;
      var n := |xs| - 1;
      FilterTwice(xs[..n], a[..n], b[..n]);
      assert Both(a, b)[..n] == Both(a[..n], b[..n]);
      FilterLast(xs, a);
      FilterLast(b, a);
      FilterLast(xs, Both(a, b));
      if a[n] {
        var fx, fb := Filter(xs[..n], a[..n]), Filter(b[..n], a[..n]);
        assert (fx + [xs[n]])[..|fx|] == fx && (fb + [b[n]])[..|fb|] == fb;
        FilterLast(fx + [xs[n]], fb + [b[n]]);
      }
    } else {
      assert Filter(b, a) == [];
    }
  }

  lemma FilterLast<T>(xs: seq<T>, mask: seq<bool>)
    requires xs != [] && |mask| == |xs|
    ensures var n := |xs| - 1;
      Filter(xs, mask) == if mask[n] then Filter(xs[..n], mask[..n]) + [xs[n]] else Filter(xs[..n], mask[..n])
  {
  }

  lemma {:induction false} FilterFits(d: DataType, xs: seq<int>, mask: seq<bool>)
    requires Reduce.AllFit(d, xs) && |mask| == |xs|
    ensures Reduce.AllFit(d, Filter(xs, mask))
  {
    if xs != [] {
      FilterFits(d, xs[..|xs| - 1], mask[..|xs| - 1]);
    }
  }

  /** Validity is compacted in lockstep with the values. */
  lemma {:induction false} CompactValidity(v: seq<nat>, mask: seq<bool>)
    requires |mask| == |v|
    ensures |Filter(v, mask)| == |Filter(seq(|v|, i requires 0 <= i < |v| => v[i] != 0), mask)|
    ensures forall i :: 0 <= i < |Filter(v, mask)| ==>
      Filter(seq(|v|, i requires 0 <= i < |v| => v[i] != 0), mask)[i] == (Filter(v, mask)[i] != 0)
  {
    var nz := seq(|v|, i requires 0 <= i < |v| => v[i] != 0);
    if v != [] {
      var n := |v| - 1;
      CompactValidity(v[..n], mask[..n]);
      assert nz[..n] == seq(|v[..n]|, i requires 0 <= i < |v[..n]| => v[..n][i] != 0);
    }
  }

  lemma CompactWellFormed(c: HostCol, mask: seq<bool>)
    requires WellFormed(c) && |mask| == |c.values|
    ensures WellFormed(Compact(c, mask).value)
    ensures ValidRows(Compact(c, mask).value) == Filter(ValidRows(c), mask)
  {
    FilterFits(c.dtype, c.values, mask);
    FilterLength(c.values, mask);
    FilterLength(ValidRows(c), mask);
    if c.validity.Some? {
      var v := c.validity.value;
      FilterLength(v, mask);
      CompactValidity(v, mask);
      assert ValidRows(c) == seq(|v|, i requires 0 <= i < |v| => v[i] != 0);
    } else {
      AllKept(ValidRows(c), mask);
    }
  }

  lemma {:induction false} AllKept(v: seq<bool>, mask: seq<bool>)
    requires |v| == |mask| && forall i :: 0 <= i < |v| ==> v[i]
    ensures forall i :: 0 <= i < |Filter(v, mask)| ==> Filter(v, mask)[i]
  {
    if v != [] {
      AllKept(v[..|v| - 1], mask[..|v| - 1]);
    }
  }

  /** Compacting by the mask and then stripping NULLs leaves exactly the kept and valid rows, in order. */
  lemma MaskThenStrip(c: HostCol, mask: seq<bool>)
    requires WellFormed(c) && |mask| == |c.values|
    ensures WellFormed(Compact(c, mask).value)
    ensures StripNulls(Compact(c, mask).value).values == KeptValid(c, mask)
  {
    CompactWellFormed(c, mask);
    FilterTwice(c.values, mask, ValidRows(c));
    if c.validity.None? {
      assert Both(mask, ValidRows(c)) == mask;
    }
  }

  // ---- Optional values ------------------------------------------------------

  /** `to_expr_host`. */
  function Lift(c: HostCol): (r: seq<Option<int>>)
    requires WellFormed(c)
    ensures |r| == |c.values|
  {
    seq(|c.values|, i requires 0 <= i < |c.values| =>
      if c.validity.None? || c.validity.value[i] != 0 then Some(c.values[i]) else None)
  }

  /** A validity vector is present only if needed, holds ones and zeros, and NULL slots hold zero. */
  predicate Canonical(c: HostCol)
    requires WellFormed(c)
  {
    c.validity.Some? ==>
      && (exists i :: 0 <= i < |c.values| && c.validity.value[i] == 0)
      && (forall i :: 0 <= i < |c.values| ==> c.validity.value[i] <= 1)
      && (forall i :: 0 <= i < |c.values| && c.validity.value[i] == 0 ==> c.values[i] == 0)
  }

  /** `from_expr_host`: inverts `to_expr_host`, with the canonical validity vector. */
  method Split(d: DataType, v: seq<Option<int>>) returns (c: HostCol)
    requires forall i :: 0 <= i < |v| && v[i].Some? ==> Reduce.Fits(d, v[i].value)
    ensures WellFormed(c) && c.dtype == d && Canonical(c)
    ensures Lift(c) == v
  {
    var values: seq<int>, validity: seq<nat>, anyNull := [], [], false;
    for i := 0 to |v|
      invariant |values| == |validity| == i && Reduce.AllFit(d, values)
      invariant forall k :: 0 <= k < i ==> validity[k] == (if v[k].Some? then 1 else 0)
      invariant forall k :: 0 <= k < i ==> values[k] == (if v[k].Some? then v[k].value else 0)
      invariant anyNull <==> exists k :: 0 <= k < i && v[k].None?
    {
      match v[i]
      case Some(x) =>
        values, validity := values + [x], validity + [1];
      case None =>
        values, validity, anyNull := values + [0], validity + [0], true;
    }
    c := HostCol(d, values, if anyNull then Some(validity) else None);
  }

  /** A column is determined by its optional values exactly up to its canonical form. */
  lemma LiftIsInjective(a: HostCol, b: HostCol)
    requires WellFormed(a) && WellFormed(b) && a.dtype == b.dtype && Canonical(a) && Canonical(b)
    ensures Lift(a) == Lift(b) <==> a == b
  {
    if Lift(a) == Lift(b) {
      forall i | 0 <= i < |a.values|
        ensures a.values[i] == b.values[i]
        ensures (a.validity.None? || a.validity.value[i] != 0) <==> (b.validity.None? || b.validity.value[i] != 0)
      {
        assert Lift(a)[i] == Lift(b)[i];
      }
      assert |a.values| == |Lift(a)| == |b.values|;
      assert a.values == b.values;
      if a.validity.Some? && b.validity.Some? {
        assert a.validity.value == b.validity.value;
      }
    }
  }

  /** Lifting a column and splitting it again keeps the rows every aggregate is about. */
  lemma {:induction false} LiftKeepsRows(a: HostCol, b: HostCol)
    requires WellFormed(a) && WellFormed(b) && Lift(a) == Lift(b)
    ensures StripNulls(a).values == StripNulls(b).values
  {
    StripIsFilter(a);
    StripIsFilter(b);
    forall i | 0 <= i < |a.values|
      ensures ValidRows(a)[i] == ValidRows(b)[i] && (ValidRows(a)[i] ==> a.values[i] == b.values[i])
    {
      assert Lift(a)[i] == Lift(b)[i];
    }
    assert |a.values| == |Lift(a)| == |b.values|;
    SameFilter(a.values, b.values, ValidRows(a));
    assert ValidRows(a) == ValidRows(b);
  }

  lemma StripIsFilter(c: HostCol)
    requires WellFormed(c)
    ensures StripNulls(c).values == Filter(c.values, ValidRows(c))
  {
    if c.validity.None? {
      FilterAll(c.values);
      assert ValidRows(c) == AllTrue(|c.values|);
    }
  }

  lemma {:induction false} SameFilter(a: seq<int>, b: seq<int>, mask: seq<bool>)
    requires |a| == |b| == |mask| && forall i :: 0 <= i < |a| && mask[i] ==> a[i] == b[i]
    ensures Filter(a, mask) == Filter(b, mask)
  {
    if a != [] {
      var n := |a| - 1;
      SameFilter(a[..n], b[..n], mask[..n]);
    }
  }
}
