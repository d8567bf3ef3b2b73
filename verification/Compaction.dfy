/**
 Stream compaction on the device (`src/exec/gpu_compact.rs`,
 `src/exec/gpu_compact_multipass.rs`, `src/jit/prefix_scan.rs`): a prefix scan
 of the keep-mask, block by block, then a gather of the kept rows.
 */
module Compaction {
  import opened Common
  import opened Rows

  const BLOCK_SIZE := 256
  const U32_MAX := U32 - 1
  const MAX_RECURSION_DEPTH := 4

  datatype ScanError = TooManyRows | BaseOverflow | TooDeep

  // ---- The Hillis-Steele kernel ---------------------------------------------

  lemma ModAdd(a: int, b: int)
    ensures (a % U32 + b % U32) % U32 == (a + b) % U32
  {
    var qa, qb := a / U32, b / U32;
    assert a + b == (a % U32 + b % U32) + (qa + qb) * U32;
  }

  /** One round: every thread adds the value `off` slots behind it, between two barriers. */
  function Round(xs: seq<int>, off: nat): (r: seq<int>)
    ensures |r| == |xs|
  {
    seq(|xs|, i requires 0 <= i < |xs| => (xs[i] + if i >= off then xs[i - off] else 0) % U32)
  }

  /** Rounds with offsets `off`, `2 * off`, ... below the block size. */
  function Rounds(xs: seq<int>, off: nat): (r: seq<int>)
    requires off > 0
    ensures |r| == |xs|
    decreases BLOCK_SIZE - off
  {
    if off >= BLOCK_SIZE then xs else Rounds(Round(xs, off), 2 * off)
  }

  /** First slot of the window of `off` slots that ends at `i`. */
  function WindowStart(i: nat, off: nat): (r: nat)
    ensures r <= i + 1
  {
    if i + 1 >= off then i + 1 - off else 0
  }

  /** `ws[i]` holds the sum of the `off` values up to and including slot `i`. */
  ghost predicate Windowed(xs: seq<int>, ws: seq<int>, off: nat) {
    |ws| == |xs| && forall i :: 0 <= i < |xs| ==> ws[i] == Sum(xs[WindowStart(i, off)..i + 1]) % U32
  }

  lemma RoundDoubles(xs: seq<int>, ws: seq<int>, off: nat)
    requires off > 0 && Windowed(xs, ws, off)
    ensures Windowed(xs, Round(ws, off), 2 * off)
  {
    forall i | 0 <= i < |xs|
      ensures Round(ws, off)[i] == Sum(xs[WindowStart(i, 2 * off)..i + 1]) % U32
    {
      RoundDoublesAt(xs, ws, off, i);
    }
  }

  lemma RoundDoublesAt(xs: seq<int>, ws: seq<int>, off: nat, i: nat)
    requires off > 0 && Windowed(xs, ws, off) && i < |xs|
    ensures Round(ws, off)[i] == Sum(xs[WindowStart(i, 2 * off)..i + 1]) % U32
  {
    hide Sum;
    var mid, start := WindowStart(i, off), WindowStart(i, 2 * off);
    if i >= off {
      SumConcat(xs[start..mid], xs[mid..i + 1]);
      assert xs[start..mid] + xs[mid..i + 1] == xs[start..i + 1];
      assert ws[i - off] == Sum(xs[start..mid]) % U32;
      ModAdd(Sum(xs[mid..i + 1]), Sum(xs[start..mid]));
    } else {
      assert mid == 0 && start == 0;
      ModAdd(Sum(xs[..i + 1]), 0);
    }
  }

  lemma {:induction false} RoundsScan(xs: seq<int>, ws: seq<int>, off: nat)
    requires off > 0 && |xs| <= BLOCK_SIZE && Windowed(xs, ws, off)
    ensures forall i :: 0 <= i < |xs| ==> Rounds(ws, off)[i] == Sum(xs[..i + 1]) % U32
    decreases BLOCK_SIZE - off
  {
    if off >= BLOCK_SIZE {
      forall i | 0 <= i < |xs|
        ensures ws[i] == Sum(xs[..i + 1]) % U32
      {
        assert WindowStart(i, off) == 0;
        assert xs[0..i + 1] == xs[..i + 1];
      }
    } else {
      RoundDoubles(xs, ws, off);
      RoundsScan(xs, Round(ws, off), 2 * off);
    }
  }

  /** The kernel's eight rounds leave the inclusive prefix sum of the block in every slot. */
  lemma KernelScans(xs: seq<int>)
    requires |xs| <= BLOCK_SIZE && forall i :: 0 <= i < |xs| ==> 0 <= xs[i] < U32
    ensures forall i :: 0 <= i < |xs| ==> Rounds(xs, 1)[i] == Sum(xs[..i + 1]) % U32
  {
    forall i | 0 <= i < |xs|
      ensures xs[i] == Sum(xs[WindowStart(i, 1)..i + 1]) % U32
    {
      assert xs[i..i + 1] == [xs[i]];
    }
    RoundsScan(xs, xs, 1);
  }

  // ---- One launch over an array ---------------------------------------------

  function BlockCount(n: nat): nat { (n + BLOCK_SIZE - 1) / BLOCK_SIZE }

  /** The values of block `b`; threads past the end load zero. */
  function Block(vals: seq<int>, b: nat): (r: seq<int>)
    ensures |r| == BLOCK_SIZE
  {
    seq(BLOCK_SIZE, t requires 0 <= t < BLOCK_SIZE =>
      if b * BLOCK_SIZE + t < |vals| then vals[b * BLOCK_SIZE + t] else 0)
  }

  /** `local_indices`: the exclusive prefix sum inside each block. */
  function LocalIndices(vals: seq<int>): (r: seq<int>)
    ensures |r| == |vals|
  {
    seq(|vals|, i requires 0 <= i < |vals| =>
      (Rounds(Block(vals, i / BLOCK_SIZE), 1)[i % BLOCK_SIZE] - vals[i]) % U32)
  }

  /** `block_sums`: the last thread's inclusive sum. */
  function BlockSums(vals: seq<int>): (r: seq<int>)
    ensures |r| == BlockCount(|vals|)
  {
    seq(BlockCount(|vals|), b requires 0 <= b < BlockCount(|vals|) => Rounds(Block(vals, b), 1)[BLOCK_SIZE - 1])
  }

  /** Values fit `u32` and so does their sum. */
  ghost predicate Counts(vals: seq<int>) {
    (forall i :: 0 <= i < |vals| ==> 0 <= vals[i] < U32) && Sum(vals) <= U32_MAX
  }

  function BlockStart(n: nat, b: nat): (r: nat)
    ensures r <= n
  {
    if b * BLOCK_SIZE <= n then b * BLOCK_SIZE else n
  }

  /** The sum of a prefix of a padded block is the sum of the values it covers. */
  lemma {:induction false} BlockPrefix(vals: seq<int>, b: nat, t: nat)
    requires t <= BLOCK_SIZE && b * BLOCK_SIZE <= |vals|
    ensures var hi := if b * BLOCK_SIZE + t <= |vals| then b * BLOCK_SIZE + t else |vals|;
      Sum(Block(vals, b)[..t]) == Sum(vals[b * BLOCK_SIZE..hi])
  {
    var lo := b * BLOCK_SIZE;
    if t > 0 {
      BlockPrefix(vals, b, t - 1);
      assert Block(vals, b)[..t] == Block(vals, b)[..t - 1] + [Block(vals, b)[t - 1]];
      if lo + t <= |vals| {
        assert vals[lo..lo + t] == vals[lo..lo + t - 1] + [vals[lo + t - 1]];
      }
    }
  }

  lemma KernelAt(vals: seq<int>, b: nat, t: nat)
    requires Counts(vals) && b * BLOCK_SIZE <= |vals| && t < BLOCK_SIZE
    ensures var hi := if b * BLOCK_SIZE + t < |vals| then b * BLOCK_SIZE + t + 1 else |vals|;
      Rounds(Block(vals, b), 1)[t] == Sum(vals[b * BLOCK_SIZE..hi])
  {
    hide Rounds, Sum;
    KernelScans(Block(vals, b));
    BlockPrefix(vals, b, t + 1);
    var hi := if b * BLOCK_SIZE + t < |vals| then b * BLOCK_SIZE + t + 1 else |vals|;
    SumPrefix(vals, b * BLOCK_SIZE, hi);
  }

  lemma SumLast(vals: seq<int>, lo: nat, i: nat)
    requires lo <= i < |vals|
    ensures Sum(vals[lo..i + 1]) == Sum(vals[lo..i]) + vals[i]
  {
    assert vals[lo..i + 1][..i - lo] == vals[lo..i];
  }

  /** A row's local index plus the sum of all earlier blocks is its global prefix sum. */
  lemma LocalIsPrefix(vals: seq<int>, i: nat)
    requires Counts(vals) && i < |vals|
    ensures LocalIndices(vals)[i] == Sum(vals[..i]) - Sum(vals[..i / BLOCK_SIZE * BLOCK_SIZE])
    ensures 0 <= LocalIndices(vals)[i]
  {
    hide Rounds, Block, Sum;
    var b, t := i / BLOCK_SIZE, i % BLOCK_SIZE;
    var lo := b * BLOCK_SIZE;
    assert i == lo + t;
    KernelAt(vals, b, t);
    SumLast(vals, lo, i);
    SumPrefix(vals, lo, i);
    SumPrefix(vals, i, |vals|);
    assert vals[..|vals|] == vals;
  }

  /** Block sums add up to prefix sums at block boundaries. */
  lemma {:induction false} BlockSumsPrefix(vals: seq<int>, b: nat)
    requires Counts(vals) && b <= BlockCount(|vals|)
    ensures Sum(BlockSums(vals)[..b]) == Sum(vals[..BlockStart(|vals|, b)])
  {
    if b > 0 {
      var c := b - 1;
      BlockSumsPrefix(vals, c);
      assert BlockSums(vals)[..b] == BlockSums(vals)[..c] + [BlockSums(vals)[c]];
      KernelAt(vals, c, BLOCK_SIZE - 1);
      SumPrefix(vals, BlockStart(|vals|, c), BlockStart(|vals|, b));
    }
  }

  lemma BlockSumsCount(vals: seq<int>)
    requires Counts(vals)
    ensures Counts(BlockSums(vals)) && Sum(BlockSums(vals)) == Sum(vals)
  {
    var n := BlockCount(|vals|);
    BlockSumsPrefix(vals, n);
    assert BlockSums(vals)[..n] == BlockSums(vals) && vals[..|vals|] == vals;
    forall b | 0 <= b < n
      ensures 0 <= BlockSums(vals)[b] < U32
    {
      KernelAt(vals, b, BLOCK_SIZE - 1);
      SumPrefix(vals, BlockStart(|vals|, b), BlockStart(|vals|, b + 1));
    }
  }

  // ---- Scanning the block sums ----------------------------------------------

  /** The exclusive prefix sums of `vals`. */
  ghost predicate IsExclusiveScan(vals: seq<int>, bases: seq<int>) {
    |bases| == |vals| && forall k :: 0 <= k < |vals| ==> bases[k] == Sum(vals[..k])
  }

  /** `host_exclusive_scan`: exact, or an error exactly when a base does not fit `u32`. */
  method HostExclusiveScan(sums: seq<int>) returns (r: Result<(seq<int>, int), ScanError>)
    requires forall i :: 0 <= i < |sums| ==> 0 <= sums[i] < U32
    ensures r.Ok? ==> IsExclusiveScan(sums, r.value.0) && r.value.1 == Sum(sums)
    ensures r.Ok? <==> forall k :: 0 <= k < |sums| ==> Sum(sums[..k]) <= U32_MAX
  {
    var bases: seq<int>, running := [], 0;
    for i := 0 to |sums|
      invariant running == Sum(sums[..i]) && |bases| == i
      invariant forall k :: 0 <= k < i ==> bases[k] == Sum(sums[..k]) && bases[k] <= U32_MAX
    {
      if running > U32_MAX {
        return Err(BaseOverflow);
      }
      bases := bases + [running];
      assert sums[..i + 1][..i] == sums[..i];
      running := running + sums[i];
    }
    assert sums[..|sums|] == sums;
    r := Ok((bases, running));
  }

  /** `bolt_add_block_bases`: every entry takes its block's base. */
  function AddBlockBases(local: seq<int>, bases: seq<int>): (r: seq<int>)
    requires |bases| == BlockCount(|local|)
    ensures |r| == |local|
  {
    seq(|local|, i requires 0 <= i < |local| => (local[i] + bases[i / BLOCK_SIZE]) % U32)
  }

  /** Local indices plus scanned block sums are the exclusive scan of the whole array. */
  lemma AddBasesScans(vals: seq<int>, bases: seq<int>, i: nat)
    requires Counts(vals) && IsExclusiveScan(BlockSums(vals), bases) && i < |vals|
    ensures LocalIndices(vals)[i] + bases[i / BLOCK_SIZE] == Sum(vals[..i])
    ensures 0 <= Sum(vals[..i]) < U32
  {
    LocalIsPrefix(vals, i);
    BlockSumsPrefix(vals, i / BLOCK_SIZE);
    SumPrefix(vals, 0, i);
  }

  /** `scan_block_sums` and `recursive_scan_u32`: small arrays on the host, large ones block by block. */
  method ScanBlockSums(vals: seq<int>) returns (r: Result<(seq<int>, int), ScanError>)
    requires Counts(vals)
    ensures r.Ok? && IsExclusiveScan(vals, r.value.0) && r.value.1 == Sum(vals)
    decreases |vals|
  {
    if |vals| <= BLOCK_SIZE {
      forall k | 0 <= k < |vals|
        ensures Sum(vals[..k]) <= U32_MAX
      {
        SumPrefix(vals, 0, k);
      }
      r := HostExclusiveScan(vals);
    } else {
      BlockSumsCount(vals);
      var parent := ScanBlockSums(BlockSums(vals));
      var bases := AddBlockBases(LocalIndices(vals), parent.value.0);
      forall i | 0 <= i < |vals|
        ensures bases[i] == Sum(vals[..i])
      {
        AddBasesScans(vals, parent.value.0, i);
      }
      r := Ok((bases, parent.value.1));
    }
  }

  // ---- prefix_scan_mask -----------------------------------------------------

  /** Levels the multi-pass scan needs for `n` rows. */
  function ExtraLevels(n: nat): (r: nat)
    decreases n
  {
    if n <= BLOCK_SIZE then 0 else 1 + ExtraLevels(BlockCount(n))
  }

  function RecursionDepth(n: nat): nat {
    if n == 0 then 0 else 2 + ExtraLevels(BlockCount(n))
  }

  /** The documented depth bound covers exactly the row counts up to `2^32`. */
  lemma DepthBound(n: nat)
    ensures RecursionDepth(n) <= MAX_RECURSION_DEPTH <==> n <= U32
  {
    if n > 0 {
      var n1 := BlockCount(n);
      var n2 := BlockCount(n1);
      var n3 := BlockCount(n2);
      assert n <= U32 <==> n3 <= BLOCK_SIZE;
      assert n2 <= n1 && n3 <= n2;
      assert n1 > BLOCK_SIZE ==> ExtraLevels(n1) == 1 + ExtraLevels(n2);
      assert n2 > BLOCK_SIZE ==> ExtraLevels(n2) == 1 + ExtraLevels(n3);
      assert n3 > BLOCK_SIZE ==> ExtraLevels(n3) >= 1;
    }
  }

  datatype ScanResult = ScanResult(localIndices: seq<int>, blockBases: seq<int>, totalCount: int)

  /** Local index plus block base of a row is the number of kept rows before it. */
  ghost predicate ScanOf(mask: seq<bool>, scan: ScanResult) {
    && |scan.localIndices| == |mask| && |scan.blockBases| == BlockCount(|mask|)
    && scan.totalCount == Sum(Bits(mask))
    && forall i :: 0 <= i < |mask| ==>
         scan.blockBases[i / BLOCK_SIZE] + scan.localIndices[i] == Sum(Bits(mask)[..i])
  }

  lemma BitsCount(mask: seq<bool>)
    requires |mask| <= U32_MAX
    ensures Counts(Bits(mask))
  {
    SumBounds(Bits(mask), 0, 1);
  }

  /** `prefix_scan_mask`: succeeds exactly for row counts that fit `u32`, in one pass or in several. */
  method PrefixScanMask(mask: seq<bool>) returns (r: Result<ScanResult, ScanError>)
    ensures r.Ok? <==> |mask| <= U32_MAX
    ensures r.Ok? ==> ScanOf(mask, r.value)
  {
    if |mask| == 0 {
      return Ok(ScanResult([], [], 0));
    }
    if |mask| > U32_MAX / BLOCK_SIZE {
      DepthBound(|mask|);
      if RecursionDepth(|mask|) > MAX_RECURSION_DEPTH {
        return Err(TooDeep);
      }
      if |mask| > U32_MAX {
        return Err(TooManyRows);
      }
    }
    BitsCount(mask);
    var bits := Bits(mask);
    BlockSumsCount(bits);
    var scanned: Result<(seq<int>, int), ScanError>;
    if |mask| <= U32_MAX / BLOCK_SIZE {
      forall k | 0 <= k < |BlockSums(bits)|
        ensures Sum(BlockSums(bits)[..k]) <= U32_MAX
      {
        SumPrefix(BlockSums(bits), 0, k);
      }
      scanned := HostExclusiveScan(BlockSums(bits));
    } else {
      scanned := ScanBlockSums(BlockSums(bits));
    }
    var (bases, total) := scanned.value;
    forall i | 0 <= i < |mask|
      ensures bases[i / BLOCK_SIZE] + LocalIndices(bits)[i] == Sum(bits[..i])
    {
      AddBasesScans(bits, bases, i);
    }
    r := Ok(ScanResult(LocalIndices(bits), bases, total));
  }

  // ---- gather_one -----------------------------------------------------------

  /** The thread ids of a launch over `n` rows. */
  function Threads(n: nat): (r: set<nat>)
    ensures forall i :: i in r <==> 0 <= i < n
  {
    if n == 0 then {} else Threads(n - 1) + {n - 1}
  }

  /**
   `gather_one`: one thread per row stores a kept row at its scanned position.
   Whatever order the threads run in, the output is the kept rows in order.
   */
  method GatherOne(input: seq<int>, mask: seq<bool>, scan: ScanResult) returns (out: array<int>)
    requires |input| == |mask| && ScanOf(mask, scan)
    ensures fresh(out) && out[..] == Filter(input, mask)
  {
    hide Filter, Sum, Bits, Gathered;
    FilterLength(input, mask);
    out := new int[scan.totalCount];
    var todo := Threads(|input|);
    while todo != {}
      invariant todo <= Threads(|input|)
      invariant forall i :: 0 <= i < |input| && i !in todo && mask[i] ==> Gathered(out[..], input, mask, i)
      decreases |todo|
    {
      var i :| i in todo;
      if mask[i] {
        FilterPlaces(input, mask, i);
        var slot := scan.blockBases[i / BLOCK_SIZE] + scan.localIndices[i];
        ghost var before := out[..];
        out[slot] := input[i];
        forall j | 0 <= j < |input| && (j !in todo || j == i) && mask[j]
          ensures Gathered(out[..], input, mask, j)
        {
          StoreGathers(before, input, mask, i, j);
        }
      }
      todo := todo - {i};
    }
    forall k | 0 <= k < out.Length
      ensures out[k] == Filter(input, mask)[k]
    {
      var i := FilterCovered(input, mask, k);
      GatheredAt(out[..], input, mask, i);
    }
  }

  /** The slot of kept row `i` holds what it should. */
  ghost predicate Gathered(out: seq<int>, input: seq<int>, mask: seq<bool>, i: nat)
    requires |input| == |mask| && i < |input|
  {
    var slot := Sum(Bits(mask)[..i]);
    0 <= slot < |out| && slot < |Filter(input, mask)| && out[slot] == Filter(input, mask)[slot]
  }

  lemma GatheredAt(out: seq<int>, input: seq<int>, mask: seq<bool>, i: nat)
    requires |input| == |mask| && i < |input| && Gathered(out, input, mask, i)
    ensures var slot := Sum(Bits(mask)[..i]);
      0 <= slot < |out| && slot < |Filter(input, mask)| && out[slot] == Filter(input, mask)[slot]
  {
  }

  /** Storing row `i` fills its slot and leaves every filled slot right. */
  lemma StoreGathers(out: seq<int>, input: seq<int>, mask: seq<bool>, i: nat, j: nat)
    requires |input| == |mask| && |out| == |Filter(input, mask)| && i < |input| && j < |input| && mask[i]
    requires j == i || Gathered(out, input, mask, j)
    ensures 0 <= Sum(Bits(mask)[..i]) < |out|
    ensures Gathered(out[Sum(Bits(mask)[..i]) := input[i]], input, mask, j)
  {
    hide Filter, Sum, Bits;
    FilterPlaces(input, mask, i);
  }
}
