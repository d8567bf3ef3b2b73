/** The host executor and the resident executor of scalar aggregates, and when they agree. */
module AggregatePaths {
  import opened Common
  import opened Rows
  import opened Compaction
  import opened Reduce
  import opened Aggregate

  datatype AggregateExpr =
    | SumOf(name: string)
    | MinOf(name: string)
    | MaxOf(name: string)
    | CountOf(name: string)
    | CountRows

  /** The pre-stage outputs by name and type, the aggregates, and the types of their result fields. */
  datatype Plan = Plan(names: seq<string>, dtypes: seq<DataType>, aggs: seq<AggregateExpr>, fields: seq<DataType>)

  /** What the pre kernel wrote for `n` rows, and the keep-mask of the predicate, if there is one. */
  datatype Stage = Stage(n: nat, cols: seq<HostCol>, mask: Option<seq<bool>>)

  predicate Runs(p: Plan, s: Stage) {
    && |p.names| == |p.dtypes| == |s.cols|
    && (s.mask.Some? ==> |s.mask.value| == s.n)
    && (forall j :: 0 <= j < |s.cols| ==>
          WellFormed(s.cols[j]) && |s.cols[j].values| == s.n && s.cols[j].dtype == p.dtypes[j])
  }

  /** The rows the predicate keeps. */
  function Kept(s: Stage): (r: seq<bool>)
    requires s.mask.Some? ==> |s.mask.value| == s.n
    ensures |r| == s.n
  {
    if s.mask.Some? then s.mask.value else AllTrue(s.n)
  }

  function Position(names: seq<string>, name: string): (r: Option<nat>)
    ensures r.Some? ==> r.value < |names| && names[r.value] == name && name !in names[..r.value]
    ensures r.None? ==> name !in names
  {
    if names == [] then None
    else
      var before := Position(names[..|names| - 1], name);
      if before.Some? then assert names[..|names| - 1][..before.value] == names[..before.value]; before
      else if names[|names| - 1] == name then Some(|names| - 1) else None
  }

  /** `scalar_to_array` on integers. */
  function Pack(s: Scalar, field: DataType): Result<Scalar, AggError> {
    if s.dtype == field then Ok(s)
    else if s.dtype.Int32? then Ok(Scalar(Int64, s.value))
    else Err(CannotPack)
  }

  function PackResult(r: Result<Scalar, AggError>, field: DataType): Result<Scalar, AggError> {
    match r
    case Ok(s) => Pack(s, field)
    case Err(e) => Err(e)
  }

  function OpOf(agg: AggregateExpr): ReduceOp
    requires agg.SumOf? || agg.MinOf? || agg.MaxOf?
  {
    match agg
    case SumOf(_) => OpSum
    case MinOf(_) => OpMin
    case MaxOf(_) => OpMax
  }

  // ---- The host path --------------------------------------------------------

  lemma KeptValidFits(c: HostCol, mask: seq<bool>)
    requires WellFormed(c) && |mask| == |c.values|
    ensures Reduce.AllFit(c.dtype, KeptValid(c, mask)) && Reduce.AllFit(Int64, KeptValid(c, mask))
  {
    FilterFits(c.dtype, c.values, Both(mask, ValidRows(c)));
  }

  /** The reference answer for one aggregate over the rows it is about. */
  ghost function Reference(agg: AggregateExpr, d: DataType, field: DataType, rows: seq<int>): Result<Scalar, AggError>
    requires Reduce.AllFit(d, rows) && Reduce.AllFit(Int64, rows)
  {
    match agg
    case SumOf(_) => PackResult(Reduced(OpSum, Int64, rows), field)
    case MinOf(_) => PackResult(Reduced(OpMin, d, rows), field)
    case MaxOf(_) => PackResult(Reduced(OpMax, d, rows), field)
    case CountOf(_) => Pack(Scalar(Int64, |rows|), field)
    case CountRows => Pack(Scalar(Int64, |rows|), field)
  }

  /** What the host path answers for one aggregate. */
  ghost function HostOne(p: Plan, s: Stage, agg: AggregateExpr, field: DataType): Result<Scalar, AggError>
    requires Runs(p, s)
  {
    if agg.CountRows? then
      Pack(Scalar(Int64, if s.cols == [] then 0 else |Filter(s.cols[0].values, Kept(s))|), field)
    else
      match Position(p.names, agg.name)
      case None => Err(UnknownColumn)
      case Some(j) =>
        KeptValidFits(s.cols[j], Kept(s));
        Reference(agg, p.dtypes[j], field, KeptValid(s.cols[j], Kept(s)))
  }

  // ---- What an aggregate means ----------------------------------------------

  /** Output `j` is the first with this name. */
  predicate Names(p: Plan, name: string, j: nat) {
    j < |p.names| && p.names[j] == name && name !in p.names[..j]
  }

  /** The value of an aggregate over the rows of an output of type `d`. */
  ghost predicate ColumnMeans(agg: AggregateExpr, d: DataType, field: DataType, rows: seq<int>, x: int) {
    match agg
    case CountRows => false
    case CountOf(_) => field.Int64? && x == |rows|
    case MinOf(_) =>
      && (field == d || field.Int64?)
      && (rows == [] ==> x == if d.Int32? then 0x7fff_ffff else 0x7fff_ffff_ffff_ffff)
      && (rows != [] ==> x in rows && forall i :: 0 <= i < |rows| ==> x <= rows[i])
    case MaxOf(_) =>
      && (field == d || field.Int64?)
      && (rows == [] ==> x == if d.Int32? then -0x8000_0000 else -0x8000_0000_0000_0000)
      && (rows != [] ==> x in rows && forall i :: 0 <= i < |rows| ==> rows[i] <= x)
    case SumOf(_) =>
      field.Int64? && RunningSumFits(rows) && x == Sum(rows) - TWO_64 * Carries(rows, BlockCount(|rows|))
  }

  /** The host path's value of one aggregate: COUNT(*) counts kept rows, the others are about kept and valid rows. */
  ghost predicate Means(p: Plan, s: Stage, agg: AggregateExpr, field: DataType, v: Scalar)
    requires Runs(p, s)
  {
    && v.dtype == field
    && if agg.CountRows? then field.Int64? && v.value == if s.cols == [] then 0 else Sum(Bits(Kept(s)))
       else exists j: nat :: Names(p, agg.name, j)
              && ColumnMeans(agg, p.dtypes[j], field, KeptValid(s.cols[j], Kept(s)), v.value)
  }

  /** The host path's error for one aggregate. */
  ghost predicate Fails(p: Plan, s: Stage, agg: AggregateExpr, field: DataType, e: AggError)
    requires Runs(p, s)
  {
    if agg.CountRows? then field.Int32? && e == CannotPack
    else if agg.name !in p.names then e == UnknownColumn
    else exists j: nat :: Names(p, agg.name, j) &&
           if agg.SumOf? && !RunningSumFits(KeptValid(s.cols[j], Kept(s))) then e == SumOverflow
           else field.Int32? && (agg.SumOf? || agg.CountOf? || p.dtypes[j].Int64?) && e == CannotPack
  }

  lemma NamesIsPosition(p: Plan, name: string)
    ensures name in p.names <==> Position(p.names, name).Some?
    ensures forall j: nat :: Names(p, name, j) <==> Position(p.names, name) == Some(j)
  {
    var at := Position(p.names, name);
    forall j: nat
      ensures Names(p, name, j) <==> at == Some(j)
    {
      assert Names(p, name, j) ==> at.Some? && at.value <= j && j <= at.value;
    }
  }

  lemma SumMeaning(rows: seq<int>)
    requires Reduce.AllFit(Int64, rows) && |rows| <= U32_MAX
    ensures RunningSumFits(rows) ==>
              Reduced(OpSum, Int64, rows) == Ok(Scalar(Int64, Sum(rows) - TWO_64 * Carries(rows, BlockCount(|rows|))))
    ensures !RunningSumFits(rows) ==> Reduced(OpSum, Int64, rows) == Err(SumOverflow)
  {
    hide RunningSumFits, Partials, PrefixesFit, Sum, Carries, BlockCount;
    Int64SumExact(rows);
    if rows == [] {
      EmptyRunningSum();
    } else {
      PartialsTotal(rows);
      PrefixesAreRunningSums(rows);
    }
  }

  lemma ReferenceMeaning(agg: AggregateExpr, d: DataType, field: DataType, rows: seq<int>)
    requires Reduce.AllFit(d, rows) && Reduce.AllFit(Int64, rows) && |rows| <= U32_MAX && !agg.CountRows?
    ensures var r := Reference(agg, d, field, rows);
      && (r.Ok? ==> r.value.dtype == field && ColumnMeans(agg, d, field, rows, r.value.value))
      && (r.Err? ==> r.error == if agg.SumOf? && !RunningSumFits(rows) then SumOverflow else CannotPack)
      && (r == Err(CannotPack) ==> field.Int32? && (agg.SumOf? || agg.CountOf? || d.Int64?))
  {
    hide RunningSumFits, Partials, PrefixesFit, Sum, Carries, BlockCount, Fold;
    if agg.SumOf? {
      SumMeaning(rows);
    } else if agg.MinOf? {
      FoldExtremum(OpMin, d, rows);
    } else if agg.MaxOf? {
      FoldExtremum(OpMax, d, rows);
    }
  }

  /** What the host path answers for one aggregate, value or error. */
  lemma HostMeaning(p: Plan, s: Stage, agg: AggregateExpr, field: DataType)
    requires Runs(p, s) && s.n <= U32_MAX
    ensures var r := HostOne(p, s, agg, field);
      if r.Ok? then Means(p, s, agg, field, r.value) else Fails(p, s, agg, field, r.error)
  {
    if agg.CountRows? {
      if s.cols != [] {
        FilterLength(s.cols[0].values, Kept(s));
      }
    } else {
      hide Reference, ColumnMeans, RunningSumFits;
      NamesIsPosition(p, agg.name);
      var at := Position(p.names, agg.name);
      if at.Some? {
        var j := at.value;
        assert Names(p, agg.name, j);
        KeptValidFits(s.cols[j], Kept(s));
        ReferenceMeaning(agg, p.dtypes[j], field, KeptValid(s.cols[j], Kept(s)));
      }
    }
  }

  /** `reduce_host_col`: strips NULLs, widens Int32 sums, reduces. */
  method ReduceHostCol(op: ReduceOp, c: HostCol) returns (r: Result<Scalar, AggError>)
    requires WellFormed(c)
    ensures Reduce.AllFit(c.dtype, StripNulls(c).values) && Reduce.AllFit(Int64, StripNulls(c).values)
    ensures r == Reduced(op, if op.OpSum? then Int64 else c.dtype, StripNulls(c).values)
  {
    var stripped := StripNulls(c);
    StripIsFilter(c);
    FilterFits(c.dtype, c.values, ValidRows(c));
    if c.dtype.Int32? && op.OpSum? {
      r := ReduceGpuVec(op, Int64, stripped.values);
    } else {
      r := ReduceGpuVec(op, c.dtype, stripped.values);
    }
  }

  /** Number of rows that are not NULL. */
  method NonNullCount(c: HostCol) returns (n: nat)
    requires WellFormed(c)
    ensures n == |StripNulls(c).values|
  {
    if c.validity.None? {
      return |c.values|;
    }
    n := 0;
    var v := c.validity.value;
    for i := 0 to |v|
      invariant n == |Filter(c.values[..i], ValidRows(c)[..i])|
    {
      assert c.values[..i + 1][..i] == c.values[..i] && ValidRows(c)[..i + 1][..i] == ValidRows(c)[..i];
      if v[i] != 0 {
        n := n + 1;
      }
    }
    assert c.values[..|v|] == c.values && ValidRows(c)[..|v|] == ValidRows(c);
  }

  /** `run_pre_stage` after the launches: every output compacted by the mask. */
  method CompactOutputs(s: Stage) returns (r: Result<seq<HostCol>, AggError>)
    requires s.mask.Some? ==> |s.mask.value| == s.n
    requires forall j :: 0 <= j < |s.cols| ==> WellFormed(s.cols[j]) && |s.cols[j].values| == s.n
    ensures r.Ok? <==> s.n <= U32_MAX
    ensures r.Err? ==> r.error == AggError.TooManyRows
    ensures r.Ok? ==> |r.value| == |s.cols|
    ensures r.Ok? ==> forall j :: 0 <= j < |s.cols| ==> r.value[j] == Compact(s.cols[j], Kept(s)).value
  {
    if s.n > U32_MAX {
      return Err(AggError.TooManyRows);
    }
    var cols: seq<HostCol> := [];
    for j := 0 to |s.cols|
      invariant |cols| == j
      invariant forall k :: 0 <= k < j ==> cols[k] == Compact(s.cols[k], Kept(s)).value
    {
      if s.mask.Some? {
        cols := cols + [Compact(s.cols[j], s.mask.value).value];
      } else {
        FilterAll(s.cols[j].values);
        if s.cols[j].validity.Some? {
          FilterAll(s.cols[j].validity.value);
        }
        cols := cols + [s.cols[j]];
      }
    }
    r := Ok(cols);
  }

  /** `build_one_aggregate`. */
  method BuildOneAggregate(p: Plan, ghost s: Stage, agg: AggregateExpr, field: DataType, compacted: seq<HostCol>)
    returns (r: Result<Scalar, AggError>)
    requires Runs(p, s) && |compacted| == |s.cols|
    requires forall j :: 0 <= j < |s.cols| ==> compacted[j] == Compact(s.cols[j], Kept(s)).value
    ensures r == HostOne(p, s, agg, field)
  {
    if agg.CountRows? {
      var n := if compacted == [] then 0 else |compacted[0].values|;
      return Pack(Scalar(Int64, n), field);
    }
    var at := Position(p.names, agg.name);
    if at.None? {
      return Err(UnknownColumn);
    }
    var col := compacted[at.value];
    MaskThenStrip(s.cols[at.value], Kept(s));
    if agg.CountOf? {
      var n := NonNullCount(col);
      return Pack(Scalar(Int64, n), field);
    }
    var scalar := ReduceHostCol(OpOf(agg), col);
    r := PackResult(scalar, field);
  }

  /** All values, or the first error. */
  function Collect(rs: seq<Result<Scalar, AggError>>): (r: Result<seq<Scalar>, AggError>)
    ensures r.Ok? ==> |r.value| == |rs| && forall i :: 0 <= i < |rs| ==> rs[i] == Ok(r.value[i])
    ensures r.Err? ==> exists i :: 0 <= i < |rs| && rs[i] == Err(r.error) && forall k :: 0 <= k < i ==> rs[k].Ok?
  {
    if rs == [] then Ok([])
    else
      match Collect(rs[..|rs| - 1])
      case Err(e) =>
        assert forall i :: 0 <= i < |rs| - 1 ==> rs[..|rs| - 1][i] == rs[i];
        Err(e)
      case Ok(before) =>
        match rs[|rs| - 1]
        case Ok(s) => Ok(before + [s])
        case Err(e) => Err(e)
  }

  ghost function HostAll(p: Plan, s: Stage): (r: seq<Result<Scalar, AggError>>)
    requires Runs(p, s) && |p.fields| == |p.aggs|
    ensures |r| == |p.aggs|
  {
    seq(|p.aggs|, i requires 0 <= i < |p.aggs| => HostOne(p, s, p.aggs[i], p.fields[i]))
  }

  /** What `execute_aggregate_with_pre` answers. */
  ghost function HostAnswer(p: Plan, s: Stage): Result<seq<Scalar>, AggError>
    requires Runs(p, s)
  {
    if s.n > U32_MAX then Err(AggError.TooManyRows)
    else if |p.fields| != |p.aggs| then Err(BadSchema)
    else Collect(HostAll(p, s))
  }

  lemma {:induction false} CollectStops(rs: seq<Result<Scalar, AggError>>, k: nat)
    requires k < |rs| && rs[k].Err? && Collect(rs[..k]).Ok?
    ensures Collect(rs) == Err(rs[k].error)
    decreases |rs|
  {
    var init := rs[..|rs| - 1];
    if k < |rs| - 1 {
      assert init[..k] == rs[..k];
      CollectStops(init, k);
    }
  }

  /** An aggregate has one value or one error, never both. */
  lemma OneOutcome(p: Plan, s: Stage, agg: AggregateExpr, field: DataType, v: Scalar, w: Scalar, e: AggError)
    requires Runs(p, s) && Means(p, s, agg, field, v)
    ensures Means(p, s, agg, field, w) ==> w == v
    ensures !Fails(p, s, agg, field, e)
  {
    if !agg.CountRows? {
      NamesIsPosition(p, agg.name);
      hide RunningSumFits, KeptValid;
    }
  }

  ghost predicate HasValue(p: Plan, s: Stage, i: nat)
    requires Runs(p, s) && i < |p.aggs| == |p.fields|
  {
    exists v :: Means(p, s, p.aggs[i], p.fields[i], v)
  }

  /** Aggregate `i` fails with `e`, and every one before it has a value. */
  ghost predicate FirstFails(p: Plan, s: Stage, i: nat, e: AggError)
    requires Runs(p, s)
  {
    && i < |p.aggs| == |p.fields| && Fails(p, s, p.aggs[i], p.fields[i], e)
    && forall k :: 0 <= k < i ==> HasValue(p, s, k)
  }

  /** `execute_aggregate_with_pre`: every aggregate's value in order, or the error of the first that has one. */
  method ExecuteHost(p: Plan, s: Stage) returns (r: Result<seq<Scalar>, AggError>)
    requires Runs(p, s)
    ensures r == HostAnswer(p, s)
    ensures s.n > U32_MAX ==> r == Err(AggError.TooManyRows)
    ensures s.n <= U32_MAX && |p.fields| != |p.aggs| ==> r == Err(BadSchema)
    ensures s.n <= U32_MAX && |p.fields| == |p.aggs| ==>
              if r.Ok? then
                && |r.value| == |p.aggs|
                && forall i :: 0 <= i < |p.aggs| ==> Means(p, s, p.aggs[i], p.fields[i], r.value[i])
              else
                exists i: nat :: FirstFails(p, s, i, r.error)
  {
    hide HostOne, Compact, Means, Fails;
    var compacted := CompactOutputs(s);
    if compacted.Err? {
      return Err(compacted.error);
    }
    if |p.fields| != |p.aggs| {
      return Err(BadSchema);
    }
    var out: seq<Scalar> := [];
    ghost var all := HostAll(p, s);
    for i := 0 to |p.aggs|
      invariant Collect(all[..i]) == Ok(out)
      invariant |out| == i && forall k :: 0 <= k < i ==> Means(p, s, p.aggs[k], p.fields[k], out[k])
    {
      assert all[i] == HostOne(p, s, p.aggs[i], p.fields[i]);
      HostMeaning(p, s, p.aggs[i], p.fields[i]);
      var one := BuildOneAggregate(p, s, p.aggs[i], p.fields[i], compacted.value);
      if one.Err? {
        CollectStops(all, i);
        forall k | 0 <= k < i
          ensures HasValue(p, s, k)
        {
          assert Means(p, s, p.aggs[k], p.fields[k], out[k]);
        }
        assert FirstFails(p, s, i, one.error);
        return Err(one.error);
      }
      assert all[..i + 1][..i] == all[..i];
      out := out + [one.value];
    }
    assert all[..|all|] == all;
    r := Ok(out);
  }

  // ---- The resident path ----------------------------------------------------

  /** No input carries NULLs, so no output carries validity. */
  predicate NullFree(s: Stage) { forall j :: 0 <= j < |s.cols| ==> s.cols[j].validity.None? }

  /** The aggregate is one the resident path takes. */
  predicate Accelerated(p: Plan, agg: AggregateExpr, field: DataType)
    requires |p.names| == |p.dtypes|
  {
    if agg.CountRows? then true
    else
      var at := Position(p.names, agg.name);
      at.Some? && (agg.CountOf? || p.dtypes[at.value] == field)
  }

  predicate AllAccelerated(p: Plan)
    requires |p.names| == |p.dtypes|
  {
    |p.fields| == |p.aggs| && forall i :: 0 <= i < |p.aggs| ==> Accelerated(p, p.aggs[i], p.fields[i])
  }

  lemma KeptFits(p: Plan, s: Stage, j: nat)
    requires Runs(p, s) && j < |s.cols|
    ensures Reduce.AllFit(p.dtypes[j], Filter(s.cols[j].values, Kept(s)))
  {
    FilterFits(p.dtypes[j], s.cols[j].values, Kept(s));
  }

  /** What the resident path answers for one aggregate. */
  ghost function ResidentOne(p: Plan, s: Stage, agg: AggregateExpr, field: DataType): Result<Scalar, AggError>
    requires Runs(p, s) && Accelerated(p, agg, field)
  {
    if agg.CountRows? || agg.CountOf? then Pack(Scalar(Int64, Sum(Bits(Kept(s)))), field)
    else
      var j := Position(p.names, agg.name).value;
      KeptFits(p, s, j);
      PackResult(Reduced(OpOf(agg), p.dtypes[j], Filter(s.cols[j].values, Kept(s))), field)
  }

  ghost function ResidentAll(p: Plan, s: Stage): (r: seq<Result<Scalar, AggError>>)
    requires Runs(p, s) && AllAccelerated(p)
    ensures |r| == |p.aggs|
  {
    seq(|p.aggs|, i requires 0 <= i < |p.aggs| => ResidentOne(p, s, p.aggs[i], p.fields[i]))
  }

  /** The resident path's value of one aggregate it takes; its rows carry no NULLs. */
  ghost predicate ResidentMeans(p: Plan, s: Stage, agg: AggregateExpr, field: DataType, v: Scalar)
    requires Runs(p, s)
  {
    && v.dtype == field
    && if agg.CountRows? || agg.CountOf? then field.Int64? && v.value == Sum(Bits(Kept(s)))
       else exists j: nat :: Names(p, agg.name, j) &&
              var rows := Filter(s.cols[j].values, Kept(s));
              if agg.SumOf? && field.Int32? then rows == [] && v.value == 0
              else ColumnMeans(agg, p.dtypes[j], field, rows, v.value)
  }

  /** The resident path's error for one aggregate: a sum over Int32 rows is left to the host path's widening. */
  ghost predicate ResidentFails(p: Plan, s: Stage, agg: AggregateExpr, field: DataType, e: AggError)
    requires Runs(p, s)
  {
    if agg.CountRows? || agg.CountOf? then field.Int32? && e == CannotPack
    else
      && agg.SumOf?
      && exists j: nat :: Names(p, agg.name, j) &&
           var rows := Filter(s.cols[j].values, Kept(s));
           if field.Int32? then rows != [] && e == NeedsWidening else !RunningSumFits(rows) && e == SumOverflow
  }

  ghost predicate ResidentHasValue(p: Plan, s: Stage, i: nat)
    requires Runs(p, s) && i < |p.aggs| == |p.fields|
  {
    exists v :: ResidentMeans(p, s, p.aggs[i], p.fields[i], v)
  }

  ghost predicate ResidentFirstFails(p: Plan, s: Stage, i: nat, e: AggError)
    requires Runs(p, s)
  {
    && i < |p.aggs| == |p.fields| && ResidentFails(p, s, p.aggs[i], p.fields[i], e)
    && forall k :: 0 <= k < i ==> ResidentHasValue(p, s, k)
  }

  lemma ResidentMeaning(p: Plan, s: Stage, agg: AggregateExpr, field: DataType)
    requires Runs(p, s) && s.n <= U32_MAX && Accelerated(p, agg, field)
    ensures var r := ResidentOne(p, s, agg, field);
      if r.Ok? then ResidentMeans(p, s, agg, field, r.value) else ResidentFails(p, s, agg, field, r.error)
  {
    hide RunningSumFits, Partials, PrefixesFit, Sum, Carries, BlockCount, Fold;
    if !agg.CountRows? && !agg.CountOf? {
      NamesIsPosition(p, agg.name);
      var j := Position(p.names, agg.name).value;
      assert Names(p, agg.name, j);
      var rows := Filter(s.cols[j].values, Kept(s));
      KeptFits(p, s, j);
      if agg.MinOf? {
        FoldExtremum(OpMin, p.dtypes[j], rows);
      } else if agg.MaxOf? {
        FoldExtremum(OpMax, p.dtypes[j], rows);
      } else if field.Int64? {
        SumMeaning(rows);
      }
    }
  }

  /** What `try_execute_resident` answers; `None` sends the query to the host path. */
  ghost function ResidentAnswer(p: Plan, s: Stage): Result<Option<seq<Scalar>>, AggError>
    requires Runs(p, s)
  {
    if !NullFree(s) || s.n == 0 || !AllAccelerated(p) then Ok(None)
    else if s.n > U32_MAX then Err(AggError.TooManyRows)
    else
      match Collect(ResidentAll(p, s))
      case Ok(batch) => Ok(Some(batch))
      case Err(e) => Err(e)
  }

  /**
   The resident path declines exactly if an output carries NULLs, there are no
   rows, the schema has another number of fields, or an aggregate other than
   COUNT(*) names no output, or is no COUNT and its field has another type.
   */
  lemma DeclinesExactly(p: Plan, s: Stage)
    requires Runs(p, s)
    ensures ResidentAnswer(p, s) == Ok(None) <==>
            || (exists j :: 0 <= j < |s.cols| && s.cols[j].validity.Some?)
            || s.n == 0 || |p.fields| != |p.aggs|
            || (exists i :: 0 <= i < |p.aggs| && !p.aggs[i].CountRows?
                  && (|| p.aggs[i].name !in p.names
                      || (!p.aggs[i].CountOf?
                          && exists j: nat :: Names(p, p.aggs[i].name, j) && p.dtypes[j] != p.fields[i])))
  {
    forall i | 0 <= i < |p.aggs| && |p.fields| == |p.aggs| && !p.aggs[i].CountRows?
      ensures Accelerated(p, p.aggs[i], p.fields[i]) <==>
              p.aggs[i].name in p.names && (p.aggs[i].CountOf? ||
              forall j: nat :: Names(p, p.aggs[i].name, j) ==> p.dtypes[j] == p.fields[i])
    {
      NamesIsPosition(p, p.aggs[i].name);
    }
  }

  /** The survivors of one output: gathered on the device, or the buffer itself. */
  method Survivors(values: seq<int>, s: Stage, scan: Option<ScanResult>) returns (xs: seq<int>)
    requires |values| == s.n && (s.mask.Some? ==> |s.mask.value| == s.n) && scan.Some? == s.mask.Some?
    requires scan.Some? ==> ScanOf(s.mask.value, scan.value)
    ensures xs == Filter(values, Kept(s))
  {
    if scan.Some? {
      var gathered := GatherOne(values, s.mask.value, scan.value);
      xs := gathered[..];
    } else {
      FilterAll(values);
      xs := values;
    }
  }

  method ResidentAggregate(p: Plan, s: Stage, agg: AggregateExpr, field: DataType, scan: Option<ScanResult>)
    returns (r: Result<Scalar, AggError>)
    requires Runs(p, s) && Accelerated(p, agg, field) && scan.Some? == s.mask.Some?
    requires scan.Some? ==> ScanOf(s.mask.value, scan.value)
    ensures r == ResidentOne(p, s, agg, field)
  {
    if agg.CountRows? || agg.CountOf? {
      CountAll(s.n);
      var n := if scan.Some? then scan.value.totalCount else s.n;
      return Pack(Scalar(Int64, n), field);
    }
    var j := Position(p.names, agg.name).value;
    var xs := Survivors(s.cols[j].values, s, scan);
    KeptFits(p, s, j);
    var scalar := ReduceGpuVec(OpOf(agg), p.dtypes[j], xs);
    r := PackResult(scalar, field);
  }

  lemma CountAll(n: nat)
    ensures Sum(Bits(AllTrue(n))) == n
  {
    FilterAll(AllTrue(n));
    FilterLength(AllTrue(n), AllTrue(n));
  }

  /** Resolves every aggregate before any launch. */
  method ResolveAll(p: Plan) returns (ok: bool)
    requires |p.names| == |p.dtypes|
    ensures ok == AllAccelerated(p)
  {
    if |p.fields| != |p.aggs| {
      return false;
    }
    for i := 0 to |p.aggs|
      invariant forall k :: 0 <= k < i ==> Accelerated(p, p.aggs[k], p.fields[k])
    {
      if !Accelerated(p, p.aggs[i], p.fields[i]) {
        return false;
      }
    }
    ok := true;
  }

  /** `try_execute_resident`: declines, or answers every aggregate in order, or fails with the first error. */
  method TryExecuteResident(p: Plan, s: Stage) returns (r: Result<Option<seq<Scalar>>, AggError>)
    requires Runs(p, s)
    ensures r == ResidentAnswer(p, s)
    ensures r.Ok? && r.value.Some? ==>
              && s.n <= U32_MAX && |r.value.value| == |p.aggs| == |p.fields|
              && forall i :: 0 <= i < |p.aggs| ==> ResidentMeans(p, s, p.aggs[i], p.fields[i], r.value.value[i])
    ensures r.Err? && s.n > U32_MAX ==> r.error == AggError.TooManyRows
    ensures r.Err? && s.n <= U32_MAX ==>
              exists i: nat :: ResidentFirstFails(p, s, i, r.error)
  {
    hide ResidentMeans, ResidentFails, ResidentOne;
    var resolved := ResolveAll(p);
    if !NullFree(s) || s.n == 0 || !resolved {
      return Ok(None);
    }
    if s.n > U32_MAX {
      return Err(AggError.TooManyRows);
    }
    var scan: Option<ScanResult> := None;
    if s.mask.Some? {
      var scanned := PrefixScanMask(s.mask.value);
      scan := Some(scanned.value);
    }
    var out: seq<Scalar> := [];
    ghost var all := ResidentAll(p, s);
    for i := 0 to |p.aggs|
      invariant Collect(all[..i]) == Ok(out)
      invariant |out| == i && forall k :: 0 <= k < i ==> ResidentMeans(p, s, p.aggs[k], p.fields[k], out[k])
    {
      assert all[i] == ResidentOne(p, s, p.aggs[i], p.fields[i]);
      ResidentMeaning(p, s, p.aggs[i], p.fields[i]);
      var one := ResidentAggregate(p, s, p.aggs[i], p.fields[i], scan);
      if one.Err? {
        CollectStops(all, i);
        forall k | 0 <= k < i
          ensures ResidentHasValue(p, s, k)
        {
          assert ResidentMeans(p, s, p.aggs[k], p.fields[k], out[k]);
        }
        assert ResidentFirstFails(p, s, i, one.error);
        return Err(one.error);
      }
      assert all[..i + 1][..i] == all[..i];
      out := out + [one.value];
    }
    assert all[..|all|] == all;
    r := Ok(Some(out));
  }

  // ---- When the two paths agree ---------------------------------------------

  /** SUM over an Int32 output. Its result field would have to be Int32 for the resident path to take it. */
  predicate NarrowSum(p: Plan, agg: AggregateExpr)
    requires |p.names| == |p.dtypes|
  {
    agg.SumOf? && var at := Position(p.names, agg.name); at.Some? && p.dtypes[at.value].Int32?
  }

  lemma NullFreeRows(c: HostCol, mask: seq<bool>)
    requires WellFormed(c) && |mask| == |c.values| && c.validity.None?
    ensures KeptValid(c, mask) == Filter(c.values, mask)
    ensures |KeptValid(c, mask)| == Sum(Bits(mask))
  {
    assert Both(mask, ValidRows(c)) == mask;
    FilterLength(c.values, mask);
  }

  /** One aggregate: both paths give the same answer, value or error, exactly if it is not a narrow sum. */
  lemma AggregateAgrees(p: Plan, s: Stage, agg: AggregateExpr, field: DataType)
    requires Runs(p, s) && NullFree(s) && p.names != [] && 0 < s.n <= U32_MAX && Accelerated(p, agg, field)
    ensures ResidentOne(p, s, agg, field) == HostOne(p, s, agg, field) <==> !NarrowSum(p, agg)
    ensures NarrowSum(p, agg) ==> HostOne(p, s, agg, field) == Err(CannotPack)
  {
    if agg.CountRows? {
      FilterLength(s.cols[0].values, Kept(s));
    } else {
      var j := Position(p.names, agg.name).value;
      NullFreeRows(s.cols[j], Kept(s));
      KeptValidFits(s.cols[j], Kept(s));
      if p.dtypes[j].Int32? {
        Int32SumExact(KeptValid(s.cols[j], Kept(s)));
      }
    }
  }

  lemma {:induction false} CollectOk(rs: seq<Result<Scalar, AggError>>, batch: seq<Scalar>)
    requires |batch| == |rs| && forall i :: 0 <= i < |rs| ==> rs[i] == Ok(batch[i])
    ensures Collect(rs) == Ok(batch)
  {
    if rs != [] {
      CollectOk(rs[..|rs| - 1], batch[..|rs| - 1]);
      assert batch == batch[..|rs| - 1] + [batch[|rs| - 1]];
    }
  }

  /**
   Whenever the resident path returns a batch, the host path returns the same batch
   exactly if no aggregate is a narrow sum; without narrow sums they also agree on errors.
   */
  lemma PathsAgree(p: Plan, s: Stage)
    requires Runs(p, s) && p.names != [] && ResidentAnswer(p, s) != Ok(None)
    ensures (forall i :: 0 <= i < |p.aggs| ==> !NarrowSum(p, p.aggs[i])) ==>
      ResidentAnswer(p, s) == match HostAnswer(p, s) case Ok(batch) => Ok(Some(batch)) case Err(e) => Err(e)
    ensures ResidentAnswer(p, s).Ok? ==>
      (HostAnswer(p, s) == Ok(ResidentAnswer(p, s).value.value) <==>
       forall i :: 0 <= i < |p.aggs| ==> !NarrowSum(p, p.aggs[i]))
  {
    hide HostOne, ResidentOne, NarrowSum;
    if s.n <= U32_MAX {
      forall i | 0 <= i < |p.aggs|
        ensures ResidentAll(p, s)[i] == HostAll(p, s)[i] <==> !NarrowSum(p, p.aggs[i])
        ensures NarrowSum(p, p.aggs[i]) ==> HostAll(p, s)[i].Err?
      {
        AggregateAgrees(p, s, p.aggs[i], p.fields[i]);
      }
      if forall i :: 0 <= i < |p.aggs| ==> !NarrowSum(p, p.aggs[i]) {
        assert ResidentAll(p, s) == HostAll(p, s);
      } else {
        var i :| 0 <= i < |p.aggs| && NarrowSum(p, p.aggs[i]);
        assert HostAll(p, s)[i].Err?;
      }
    }
  }

  /** With an Int32 result field and no surviving row, the resident path answers 0 and the host path fails. */
  lemma NarrowSumDiffers()
    ensures var p := Plan(["x"], [Int32], [SumOf("x")], [Int32]);
      var s := Stage(1, [HostCol(Int32, [7], None)], Some([false]));
      && Runs(p, s)
      && ResidentAnswer(p, s) == Ok(Some([Scalar(Int32, 0)]))
      && HostAnswer(p, s) == Err(CannotPack)
  {
    var p := Plan(["x"], [Int32], [SumOf("x")], [Int32]);
    var s := Stage(1, [HostCol(Int32, [7], None)], Some([false]));
    assert Runs(p, s);
    assert Position(p.names, "x") == Some(0);
    assert Kept(s) == [false] && Filter([7], [false]) == [];
    assert ResidentOne(p, s, SumOf("x"), Int32) == Ok(Scalar(Int32, 0));
    AggregateAgrees(p, s, SumOf("x"), Int32);
    assert ResidentAll(p, s)[0] == Ok(Scalar(Int32, 0));
    CollectOk(ResidentAll(p, s), [Scalar(Int32, 0)]);
    assert HostAll(p, s)[0] == Err(CannotPack);
    CollectStops(HostAll(p, s), 0);
  }
}
