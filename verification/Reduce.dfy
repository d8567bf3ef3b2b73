/**
 Integer reductions: the per-block kernel of `src/jit/agg_kernels.rs` and the
 host finalize of `src/exec/agg_with_pre.rs`.
 */
module Reduce {
  import opened Common
  import opened Rows
  import opened Compaction

  datatype ReduceOp = OpSum | OpMin | OpMax

  /** The integer column types; floating point is not modelled. */
  datatype DataType = Int32 | Int64

  function Lowest(d: DataType): int { if d.Int32? then I32_MIN else I64_MIN }
  function Highest(d: DataType): int { if d.Int32? then I32_MAX else I64_MAX }

  predicate Fits(d: DataType, x: int) { Lowest(d) <= x <= Highest(d) }

  predicate AllFit(d: DataType, xs: seq<int>) { forall i :: 0 <= i < |xs| ==> Fits(d, xs[i]) }

  /** Two's complement wrap-around, as `add.s32` and `add.s64` wrap. */
  function Wrap(d: DataType, x: int): (r: int)
    ensures Fits(d, r)
    ensures Fits(d, x) ==> r == x
  {
    if d.Int32? then (x - I32_MIN) % U32 + I32_MIN else (x - I64_MIN) % TWO_64 + I64_MIN
  }

  /** How often `x` leaves the `i64` range on its way around. */
  function Carry(x: int): int { (x - I64_MIN) / TWO_64 }

  lemma WrapCarry(x: int)
    ensures Wrap(Int64, x) == x - TWO_64 * Carry(x)
    ensures Carry(x) == 0 <==> Fits(Int64, x)
  {
  }

  lemma WrapAdd(d: DataType, a: int, b: int)
    ensures Wrap(d, Wrap(d, a) + b) == Wrap(d, a + b)
  {
    if d.Int32? {
      Shift32(a + b - I32_MIN, (a - I32_MIN) / U32);
    } else {
      Shift64(a + b - I64_MIN, (a - I64_MIN) / TWO_64);
    }
  }

  lemma Shift32(x: int, q: int)
    ensures (x - q * U32) % U32 == x % U32
  {
  }

  lemma Shift64(x: int, q: int)
    ensures (x - q * TWO_64) % TWO_64 == x % TWO_64
  {
  }

  // ---- Folding --------------------------------------------------------------

  function Identity(op: ReduceOp, d: DataType): (r: int)
    ensures Fits(d, r)
  {
    match op
    case OpSum => 0
    case OpMin => Highest(d)
    case OpMax => Lowest(d)
  }

  /** The kernel's combine instruction. */
  function Combine(op: ReduceOp, d: DataType, a: int, b: int): (r: int)
    requires Fits(d, a) && Fits(d, b)
    ensures Fits(d, r)
  {
    match op
    case OpSum => Wrap(d, a + b)
    case OpMin => if b < a then b else a
    case OpMax => if b > a then b else a
  }

  lemma WrapFits(d: DataType, a: int)
    requires Fits(d, a)
    ensures Wrap(d, a) == a
  {
  }

  lemma CombineLaws(op: ReduceOp, d: DataType, a: int, b: int, c: int)
    requires Fits(d, a) && Fits(d, b) && Fits(d, c)
    ensures Combine(op, d, a, b) == Combine(op, d, b, a)
    ensures Combine(op, d, Combine(op, d, a, b), c) == Combine(op, d, a, Combine(op, d, b, c))
    ensures Combine(op, d, a, Identity(op, d)) == a
  {
    hide Wrap;
    if op.OpSum? {
      WrapAdd(d, a + b, c);
      WrapAdd(d, b + c, a);
      WrapFits(d, a);
    }
  }

  /** The reference reduction, from the operator's identity. */
  function Fold(op: ReduceOp, d: DataType, xs: seq<int>): (r: int)
    requires AllFit(d, xs)
    ensures Fits(d, r)
  {
    if xs == [] then Identity(op, d)
    else Combine(op, d, Fold(op, d, xs[..|xs| - 1]), xs[|xs| - 1])
  }

  lemma {:induction false} FoldConcat(op: ReduceOp, d: DataType, xs: seq<int>, ys: seq<int>)
    requires AllFit(d, xs) && AllFit(d, ys)
    ensures Fold(op, d, xs + ys) == Combine(op, d, Fold(op, d, xs), Fold(op, d, ys))
  {
    if ys == [] {
      assert xs + ys == xs;
      CombineLaws(op, d, Fold(op, d, xs), 0, 0);
    } else {
      var init, last := ys[..|ys| - 1], ys[|ys| - 1];
      FoldConcat(op, d, xs, init);
      assert (xs + ys)[..|xs + ys| - 1] == xs + init;
      CombineLaws(op, d, Fold(op, d, xs), Fold(op, d, init), last);
    }
  }

  /** A minimum or maximum is attained, or the identity; every value is on its right side. */
  lemma {:induction false} FoldExtremum(op: ReduceOp, d: DataType, xs: seq<int>)
    requires AllFit(d, xs) && !op.OpSum?
    ensures forall i :: 0 <= i < |xs| ==> if op.OpMin? then Fold(op, d, xs) <= xs[i] else Fold(op, d, xs) >= xs[i]
    ensures xs != [] ==> Fold(op, d, xs) in xs
    ensures xs == [] ==> Fold(op, d, xs) == Identity(op, d)
  {
    if xs != [] {
      FoldExtremum(op, d, xs[..|xs| - 1]);
    }
  }

  /** A wrapping sum is the exact sum, wrapped once. */
  lemma {:induction false} FoldSum(d: DataType, xs: seq<int>)
    requires AllFit(d, xs)
    ensures Fold(OpSum, d, xs) == Wrap(d, Sum(xs))
  {
    if xs != [] {
      FoldSum(d, xs[..|xs| - 1]);
      WrapAdd(d, Sum(xs[..|xs| - 1]), xs[|xs| - 1]);
    }
  }

  // ---- The block kernel -----------------------------------------------------

  /** Shared-memory round: thread `i` below the stride takes in slot `i + stride`. */
  function SharedRound(op: ReduceOp, d: DataType, xs: seq<int>, stride: nat): (r: seq<int>)
    requires AllFit(d, xs) && 2 * stride <= |xs|
    ensures |r| == |xs| && AllFit(d, r)
  {
    seq(|xs|, i requires 0 <= i < |xs| => if i < stride then Combine(op, d, xs[i], xs[i + stride]) else xs[i])
  }

  /** Warp shuffle round: a lane past the end of the warp gets its own value back. */
  function ShuffleRound(op: ReduceOp, d: DataType, xs: seq<int>, stride: nat): (r: seq<int>)
    requires AllFit(d, xs)
    ensures |r| == |xs| && AllFit(d, r)
  {
    seq(|xs|, i requires 0 <= i < |xs| =>
      Combine(op, d, xs[i], if i + stride < |xs| then xs[i + stride] else xs[i]))
  }

  /** Combining two halves slot by slot keeps the total. */
  lemma {:induction false} ZipFold(op: ReduceOp, d: DataType, a: seq<int>, b: seq<int>, ab: seq<int>)
    requires AllFit(d, a) && AllFit(d, b) && AllFit(d, ab) && |a| == |b| == |ab|
    requires forall i :: 0 <= i < |a| ==> ab[i] == Combine(op, d, a[i], b[i])
    ensures Fold(op, d, ab) == Combine(op, d, Fold(op, d, a), Fold(op, d, b))
  {
    if a == [] {
      CombineLaws(op, d, Identity(op, d), 0, 0);
    } else {
      var n := |a| - 1;
      ZipFold(op, d, a[..n], b[..n], ab[..n]);
      Exchange(op, d, Fold(op, d, a[..n]), Fold(op, d, b[..n]), a[n], b[n]);
    }
  }

  lemma Exchange(op: ReduceOp, d: DataType, a: int, b: int, x: int, y: int)
    requires Fits(d, a) && Fits(d, b) && Fits(d, x) && Fits(d, y)
    ensures Combine(op, d, Combine(op, d, a, b), Combine(op, d, x, y))
         == Combine(op, d, Combine(op, d, a, x), Combine(op, d, b, y))
  {
    var xy, yb := Combine(op, d, x, y), Combine(op, d, b, y);
    CombineLaws(op, d, a, b, xy);
    CombineLaws(op, d, b, x, y);
    CombineLaws(op, d, x, b, y);
    CombineLaws(op, d, a, x, yb);
  }

  /** A round halves the live slots and keeps their total. */
  lemma RoundHalves(op: ReduceOp, d: DataType, xs: seq<int>, ys: seq<int>, stride: nat)
    requires AllFit(d, xs) && AllFit(d, ys) && 2 * stride <= |xs| && |ys| == |xs|
    requires forall i :: 0 <= i < stride ==> ys[i] == Combine(op, d, xs[i], xs[i + stride])
    ensures Fold(op, d, ys[..stride]) == Fold(op, d, xs[..2 * stride])
  {
    hide Combine, Fold;
    var lo, hi, sum := xs[..stride], xs[stride..2 * stride], ys[..stride];
    forall i | 0 <= i < stride
      ensures sum[i] == Combine(op, d, lo[i], hi[i])
    {
      assert hi[i] == xs[i + stride];
    }
    ZipFold(op, d, lo, hi, sum);
    FoldConcat(op, d, lo, hi);
    assert lo + hi == xs[..2 * stride];
  }

  /** Strides 128, 64, 32 in shared memory. */
  function SharedPhase(op: ReduceOp, d: DataType, xs: seq<int>, stride: nat): (r: seq<int>)
    requires AllFit(d, xs) && |xs| == BLOCK_SIZE && stride <= 128
    ensures |r| == BLOCK_SIZE && AllFit(d, r)
    decreases stride
  {
    if stride < 32 then xs else SharedPhase(op, d, SharedRound(op, d, xs, stride), stride / 2)
  }

  /** Strides 16 to 1 by warp shuffle. */
  function ShufflePhase(op: ReduceOp, d: DataType, xs: seq<int>, stride: nat): (r: seq<int>)
    requires AllFit(d, xs) && |xs| == 32
    ensures |r| == 32 && AllFit(d, r)
    decreases stride
  {
    if stride == 0 then xs else ShufflePhase(op, d, ShuffleRound(op, d, xs, stride), stride / 2)
  }

  /** What lane 0 writes for a block of loaded values. */
  function BlockReduce(op: ReduceOp, d: DataType, xs: seq<int>): (r: int)
    requires AllFit(d, xs) && |xs| == BLOCK_SIZE
    ensures Fits(d, r)
  {
    ShufflePhase(op, d, SharedPhase(op, d, xs, 128)[..32], 16)[0]
  }

  lemma SharedTotals(op: ReduceOp, d: DataType, xs: seq<int>)
    requires AllFit(d, xs) && |xs| == BLOCK_SIZE
    ensures Fold(op, d, SharedPhase(op, d, xs, 128)[..32]) == Fold(op, d, xs)
  {
    hide Combine, Fold;
    var a := SharedRound(op, d, xs, 128);
    var b := SharedRound(op, d, a, 64);
    var c := SharedRound(op, d, b, 32);
    RoundHalves(op, d, xs, a, 128);
    RoundHalves(op, d, a, b, 64);
    RoundHalves(op, d, b, c, 32);
    assert xs[..256] == xs;
    assert SharedPhase(op, d, xs, 128) == SharedPhase(op, d, a, 64) == SharedPhase(op, d, b, 32)
        == SharedPhase(op, d, c, 16) == c;
  }

  lemma {:induction false} ShuffleTotals(op: ReduceOp, d: DataType, xs: seq<int>, stride: nat)
    requires AllFit(d, xs) && |xs| == 32 && stride in {0, 1, 2, 4, 8, 16}
    ensures ShufflePhase(op, d, xs, stride)[0] == Fold(op, d, xs[..if stride == 0 then 1 else 2 * stride])
    decreases stride
  {
    hide Combine, Fold;
    if stride == 0 {
      FoldOne(op, d, xs);
    } else {
      var ys := ShuffleRound(op, d, xs, stride);
      ShuffleTotals(op, d, ys, stride / 2);
      RoundHalves(op, d, xs, ys, stride);
    }
  }

  lemma FoldOne(op: ReduceOp, d: DataType, xs: seq<int>)
    requires AllFit(d, xs) && xs != []
    ensures Fold(op, d, xs[..1]) == xs[0]
  {
    assert xs[..1][..0] == [];
    CombineLaws(op, d, xs[0], Identity(op, d), 0);
  }

  /** The two-phase tree writes the fold of the whole block, whatever the associative operator. */
  lemma BlockReduceIsFold(op: ReduceOp, d: DataType, xs: seq<int>)
    requires AllFit(d, xs) && |xs| == BLOCK_SIZE
    ensures BlockReduce(op, d, xs) == Fold(op, d, xs)
  {
    SharedTotals(op, d, xs);
    var warp := SharedPhase(op, d, xs, 128)[..32];
    ShuffleTotals(op, d, warp, 16);
    assert warp[..32] == warp;
  }

  // ---- One launch over a column ---------------------------------------------

  /** The values block `b` of the grid covers. */
  function Chunk(xs: seq<int>, b: nat): seq<int> {
    xs[BlockStart(|xs|, b)..BlockStart(|xs|, b + 1)]
  }

  /** The values block `b` loads; threads past the end load the identity. */
  function Loaded(op: ReduceOp, d: DataType, xs: seq<int>, b: nat): (r: seq<int>)
    requires AllFit(d, xs)
    ensures |r| == BLOCK_SIZE && AllFit(d, r)
  {
    var none := Identity(op, d);
    seq(BLOCK_SIZE, t requires 0 <= t < BLOCK_SIZE =>
      if b * BLOCK_SIZE + t < |xs| then xs[b * BLOCK_SIZE + t] else none)
  }

  /** One accumulator per block of the grid. */
  function Partials(op: ReduceOp, d: DataType, xs: seq<int>): (r: seq<int>)
    requires AllFit(d, xs)
    ensures |r| == BlockCount(|xs|) && AllFit(d, r)
  {
    seq(BlockCount(|xs|), b requires 0 <= b < BlockCount(|xs|) => BlockReduce(op, d, Loaded(op, d, xs, b)))
  }

  lemma {:induction false} FoldIdentities(op: ReduceOp, d: DataType, xs: seq<int>)
    requires forall i :: 0 <= i < |xs| ==> xs[i] == Identity(op, d)
    ensures AllFit(d, xs) && Fold(op, d, xs) == Identity(op, d)
  {
    if xs != [] {
      FoldIdentities(op, d, xs[..|xs| - 1]);
      CombineLaws(op, d, Identity(op, d), 0, 0);
    }
  }

  /** A block's accumulator is the fold of the values it covers; the padding adds nothing. */
  lemma PartialIsFold(op: ReduceOp, d: DataType, xs: seq<int>, b: nat)
    requires AllFit(d, xs) && b < BlockCount(|xs|)
    ensures Partials(op, d, xs)[b] == Fold(op, d, Chunk(xs, b))
  {
    hide Combine, Fold, BlockReduce;
    var loaded, chunk := Loaded(op, d, xs, b), Chunk(xs, b);
    var rest := loaded[|chunk|..];
    assert loaded[..|chunk|] == chunk;
    BlockReduceIsFold(op, d, loaded);
    FoldIdentities(op, d, rest);
    FoldConcat(op, d, chunk, rest);
    assert chunk + rest == loaded;
    CombineLaws(op, d, Fold(op, d, chunk), 0, 0);
  }

  /** Folding the accumulators of the first `b` blocks folds the values they cover. */
  lemma {:induction false} PartialsFold(op: ReduceOp, d: DataType, xs: seq<int>, b: nat)
    requires AllFit(d, xs) && b <= BlockCount(|xs|)
    ensures Fold(op, d, Partials(op, d, xs)[..b]) == Fold(op, d, xs[..BlockStart(|xs|, b)])
  {
    hide Combine, Partials;
    if b > 0 {
      var c := b - 1;
      PartialsFold(op, d, xs, c);
      PartialIsFold(op, d, xs, c);
      var ps := Partials(op, d, xs);
      assert ps[..b][..c] == ps[..c];
      FoldConcat(op, d, xs[..BlockStart(|xs|, c)], Chunk(xs, c));
      assert xs[..BlockStart(|xs|, c)] + Chunk(xs, c) == xs[..BlockStart(|xs|, b)];
    }
  }

  lemma PartialsFoldAll(op: ReduceOp, d: DataType, xs: seq<int>)
    requires AllFit(d, xs)
    ensures Fold(op, d, Partials(op, d, xs)) == Fold(op, d, xs)
  {
    hide Combine, Fold, Partials;
    var n := BlockCount(|xs|);
    PartialsFold(op, d, xs, n);
    assert Partials(op, d, xs)[..n] == Partials(op, d, xs) && xs[..|xs|] == xs;
  }

  // ---- The host finalize ----------------------------------------------------

  datatype AggError = SumOverflow | NeedsWidening | TooManyRows | CannotPack | MaskLength | UnknownColumn | BadSchema

  datatype Scalar = Scalar(dtype: DataType, value: int)

  /** Every prefix sum is an `i64`. */
  ghost predicate PrefixesFit(xs: seq<int>) {
    forall k :: 0 <= k <= |xs| ==> Fits(Int64, Sum(xs[..k]))
  }

  /** The checked `i64` accumulation over the partials. */
  method CheckedSum(xs: seq<int>) returns (r: Result<int, AggError>)
    ensures r.Ok? <==> PrefixesFit(xs)
    ensures r.Ok? ==> r.value == Sum(xs)
    ensures r.Err? ==> r.error == SumOverflow
  {
    var sum := 0;
    for i := 0 to |xs|
      invariant sum == Sum(xs[..i])
      invariant forall k :: 0 <= k <= i ==> Fits(Int64, Sum(xs[..k]))
    {
      assert xs[..i + 1][..i] == xs[..i];
      if !Fits(Int64, sum + xs[i]) {
        assert Sum(xs[..i + 1]) == sum + xs[i];
        return Err(SumOverflow);
      }
      sum := sum + xs[i];
    }
    assert xs[..|xs|] == xs;
    r := Ok(sum);
  }

  /** What reducing a device column answers. */
  ghost function Reduced(op: ReduceOp, d: DataType, xs: seq<int>): Result<Scalar, AggError>
    requires AllFit(d, xs)
  {
    if xs == [] then Ok(Scalar(d, Identity(op, d)))
    else if op.OpSum? && d.Int32? then Err(NeedsWidening)
    else if |xs| > U32_MAX then Err(AggError.TooManyRows)
    else if !op.OpSum? then Ok(Scalar(d, Fold(op, d, xs)))
    else if PrefixesFit(Partials(op, d, xs)) then Ok(Scalar(Int64, Sum(Partials(op, d, xs))))
    else Err(SumOverflow)
  }

  method FoldPartials(op: ReduceOp, d: DataType, xs: seq<int>) returns (acc: int)
    requires AllFit(d, xs)
    ensures acc == Fold(op, d, xs)
  {
    acc := Identity(op, d);
    for i := 0 to |xs|
      invariant Fits(d, acc) && acc == Fold(op, d, xs[..i])
    {
      assert xs[..i + 1][..i] == xs[..i];
      acc := Combine(op, d, acc, xs[i]);
    }
    assert xs[..|xs|] == xs;
  }

  /** `reduce_gpu_vec`: one kernel launch, then the finalize over the partials. */
  method ReduceGpuVec(op: ReduceOp, d: DataType, xs: seq<int>) returns (r: Result<Scalar, AggError>)
    requires AllFit(d, xs)
    ensures r == Reduced(op, d, xs)
  {
    if |xs| == 0 {
      return Ok(Scalar(d, Identity(op, d)));
    }
    if op.OpSum? && d.Int32? {
      return Err(NeedsWidening);
    }
    if |xs| > U32_MAX {
      return Err(AggError.TooManyRows);
    }
    var partials := Partials(op, d, xs);
    if op.OpSum? {
      var sum := CheckedSum(partials);
      match sum
      case Ok(s) => r := Ok(Scalar(Int64, s));
      case Err(e) => r := Err(e);
    } else {
      PartialsFoldAll(op, d, xs);
      var acc := FoldPartials(op, d, partials);
      r := Ok(Scalar(d, acc));
    }
  }

  // ---- When a sum is exact --------------------------------------------------

  /** Total carry of the blocks' accumulators. */
  ghost function Carries(xs: seq<int>, b: nat): int {
    if b == 0 then 0 else Carries(xs, b - 1) + Carry(Sum(Chunk(xs, b - 1)))
  }

  lemma {:induction false} PartialSums(xs: seq<int>, b: nat)
    requires AllFit(Int64, xs) && b <= BlockCount(|xs|)
    ensures Sum(Partials(OpSum, Int64, xs)[..b]) == Sum(xs[..BlockStart(|xs|, b)]) - TWO_64 * Carries(xs, b)
  {
    hide Partials, Carry, Wrap;
    if b > 0 {
      var c, ps := b - 1, Partials(OpSum, Int64, xs);
      PartialSums(xs, c);
      PartialIsFold(OpSum, Int64, xs, c);
      FoldSum(Int64, Chunk(xs, c));
      WrapCarry(Sum(Chunk(xs, c)));
      assert ps[..b][..c] == ps[..c];
      SumConcat(xs[..BlockStart(|xs|, c)], Chunk(xs, c));
      assert xs[..BlockStart(|xs|, c)] + Chunk(xs, c) == xs[..BlockStart(|xs|, b)];
    }
  }

  lemma PartialsTotal(xs: seq<int>)
    requires AllFit(Int64, xs)
    ensures Sum(Partials(OpSum, Int64, xs)) == Sum(xs) - TWO_64 * Carries(xs, BlockCount(|xs|))
  {
    hide Partials, Sum, Carries;
    var n, ps := BlockCount(|xs|), Partials(OpSum, Int64, xs);
    PartialSums(xs, n);
    assert ps[..n] == ps && xs[..|xs|] == xs;
  }

  /**
   After every block, the sum of the rows read so far, less the carries their
   blocks lost, fits `i64`.
   */
  ghost predicate RunningSumFits(xs: seq<int>) {
    forall b: nat :: b <= BlockCount(|xs|) ==>
      Fits(Int64, Sum(xs[..BlockStart(|xs|, b)]) - TWO_64 * Carries(xs, b))
  }

  lemma PrefixesAreRunningSums(xs: seq<int>)
    requires AllFit(Int64, xs)
    ensures PrefixesFit(Partials(OpSum, Int64, xs)) <==> RunningSumFits(xs)
  {
    hide Partials, Sum, Carries, Fits, BlockCount, BlockStart;
    var ps := Partials(OpSum, Int64, xs);
    forall b: nat | b <= BlockCount(|xs|)
      ensures Sum(ps[..b]) == Sum(xs[..BlockStart(|xs|, b)]) - TWO_64 * Carries(xs, b)
    {
      PartialSums(xs, b);
    }
  }

  lemma EmptyRunningSum()
    ensures RunningSumFits([]) && Sum([]) == 0 && Carries([], BlockCount(0)) == 0
  {
    assert BlockCount(0) == 0;
  }

  /**
   SUM over an Int64 column answers its exact sum if and only if the running sum
   fits after every block and the blocks' own wrap-arounds cancel. It reports an
   overflow if and only if the running sum leaves the range after some block.
   */
  lemma Int64SumExact(xs: seq<int>)
    requires AllFit(Int64, xs) && |xs| <= U32_MAX
    ensures Reduced(OpSum, Int64, xs) == Ok(Scalar(Int64, Sum(xs))) <==>
            RunningSumFits(xs) && Carries(xs, BlockCount(|xs|)) == 0
    ensures Reduced(OpSum, Int64, xs) == Err(SumOverflow) <==> !RunningSumFits(xs)
  {
    hide Partials, Fold, Sum, Carries, PrefixesFit, RunningSumFits, BlockCount, BlockStart;
    if xs == [] {
      EmptyRunningSum();
    } else {
      PartialsTotal(xs);
      PrefixesAreRunningSums(xs);
    }
  }

  /** A column of one block never reports an overflow: its sum just wraps. */
  lemma OneBlockWraps(xs: seq<int>)
    requires AllFit(Int64, xs) && 0 < |xs| <= BLOCK_SIZE
    ensures Reduced(OpSum, Int64, xs) == Ok(Scalar(Int64, Wrap(Int64, Sum(xs))))
  {
    hide Partials, Wrap;
    var ps := Partials(OpSum, Int64, xs);
    PartialIsFold(OpSum, Int64, xs, 0);
    assert Chunk(xs, 0) == xs;
    FoldSum(Int64, xs);
    assert ps[..0] == [] && ps[..1] == ps && ps == [ps[0]];
    assert Sum(ps) == ps[0];
    assert PrefixesFit(ps);
  }

  /** Two rows whose sum exceeds `i64` are answered with the smallest `i64`, not with an error. */
  lemma SilentWrap()
    ensures Reduced(OpSum, Int64, [I64_MAX, 1]) == Ok(Scalar(Int64, I64_MIN))
    ensures Sum([I64_MAX, 1]) > I64_MAX
  {
    var xs := [I64_MAX, 1];
    assert xs[..1] == [I64_MAX];
    assert Sum([I64_MAX]) == Sum([I64_MAX][..0]) + I64_MAX;
    assert Sum(xs) == I64_MAX + 1;
    OneBlockWraps(xs);
  }

  /**
   SUM over Int32 values, widened to `i64`, is always exact for a row count that
   fits `u32`: no block accumulator wraps and no prefix overflows.
   */
  lemma Int32SumExact(xs: seq<int>)
    requires AllFit(Int32, xs) && |xs| <= U32_MAX
    ensures AllFit(Int64, xs) && Reduced(OpSum, Int64, xs) == Ok(Scalar(Int64, Sum(xs)))
  {
    forall b: nat | b <= BlockCount(|xs|)
      ensures Carries(xs, b) == 0 && Fits(Int64, Sum(xs[..BlockStart(|xs|, b)]))
    {
      NoCarries(xs, b);
      SmallSum(xs[..BlockStart(|xs|, b)]);
    }
    Int64SumExact(xs);
  }

  /** Up to `u32::MAX` Int32 values sum to far less than `i64` holds. */
  lemma SmallSum(xs: seq<int>)
    requires AllFit(Int32, xs) && |xs| <= U32_MAX
    ensures Fits(Int64, Sum(xs))
  {
    SumBounds(xs, I32_MIN, I32_MAX);
    assert |xs| * I32_MIN >= U32_MAX * I32_MIN >= I64_MIN;
    assert |xs| * I32_MAX <= U32_MAX * I32_MAX <= I64_MAX;
  }

  lemma {:induction false} NoCarries(xs: seq<int>, b: nat)
    requires AllFit(Int32, xs) && |xs| <= U32_MAX
    ensures Carries(xs, b) == 0
  {
    if b > 0 {
      NoCarries(xs, b - 1);
      SmallSum(Chunk(xs, b - 1));
      WrapCarry(Sum(Chunk(xs, b - 1)));
    }
  }
}
