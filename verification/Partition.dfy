/**
 The hash-partition kernel (`kernels/src/lib.rs`): every thread of the grid walks
 its rows with a grid-wide stride, counts each row's partition with an atomic
 add and stores the partition id. A schedule is any interleaving of the
 threads' single memory operations.
 */
module Partition {
  import opened Common
  import opened Rows

  const NUM_PARTITIONS := 4096
  const HASH_MULTIPLIER := 0x9E37_79B1

  type Key = x: int | -0x8000_0000 <= x < 0x8000_0000

  /** Partition of a key: multiplicative hash modulo `2^32`, masked by a power of two. */
  function Pid(key: Key): (p: nat)
    ensures p < NUM_PARTITIONS
  {
    ((key % U32) * HASH_MULTIPLIER % U32) % NUM_PARTITIONS
  }

  /** `id` is the low twelve bits of `x`. */
  ghost predicate LowBits(x: int, id: int) { 0 <= id < 4096 && (x - id) % 4096 == 0 }

  /** `id` is the low twelve bits of the key times the hash multiplier. */
  ghost predicate Hashes(key: Key, id: int) { LowBits(key * 0x9E37_79B1, id) }

  lemma MultipleOf4096(m: int)
    ensures 4096 * m % 4096 == 0
  {
  }

  /** Reducing modulo `2^32` on the way does not change the low bits. */
  lemma PidHashes(key: Key)
    ensures Hashes(key, Pid(key))
  {
    var x := key % U32;
    var h := x * HASH_MULTIPLIER % U32;
    var q, q', q'' := key / U32, x * HASH_MULTIPLIER / U32, h / NUM_PARTITIONS;
    assert key * HASH_MULTIPLIER == x * HASH_MULTIPLIER + U32 * (q * HASH_MULTIPLIER);
    assert key * HASH_MULTIPLIER - Pid(key) == 4096 * (q'' + 0x10_0000 * (q' + q * HASH_MULTIPLIER));
    MultipleOf4096(q'' + 0x10_0000 * (q' + q * HASH_MULTIPLIER));
  }

  lemma OneLowPart(x: int, a: int, b: int)
    requires LowBits(x, a) && LowBits(x, b)
    ensures a == b
  {
    var p, q := (x - a) / 4096, (x - b) / 4096;
    assert x - a == 4096 * p && x - b == 4096 * q;
  }

  lemma PidExact(key: Key, id: int)
    ensures Hashes(key, id) <==> id == Pid(key)
  {
    hide Pid, LowBits;
    PidHashes(key);
    if Hashes(key, id) {
      OneLowPart(key * 0x9E37_79B1, id, Pid(key));
    }
  }

  lemma SameLowBits(x: int, y: int, id: int) returns (k: int)
    requires LowBits(x, id) && LowBits(y, id)
    ensures y - x == 4096 * k
  {
    var p, q := (x - id) / 4096, (y - id) / 4096;
    assert x - id == 4096 * p && y - id == 4096 * q;
    k := q - p;
  }

  /** The multiplier is odd, so multiplying by it loses none of the low bits: it has an inverse. */
  lemma OddMultiplier(d: int, k: int) returns (j: int)
    requires d * 0x9E37_79B1 == 4096 * k
    ensures d == 4096 * j
  {
    assert 0x9E37_79B1 * 3921 == 1 + 4096 * 2541026030;
    j := k * 3921 - d * 2541026030;
  }

  /** Any 4096 consecutive keys fall into 4096 different partitions. */
  lemma ConsecutiveKeysSpread(key: Key, next: Key)
    requires key < next < key + 4096
    ensures Pid(key) != Pid(next)
  {
    hide Pid, LowBits;
    if Pid(key) == Pid(next) {
      PidHashes(key);
      PidHashes(next);
      var k := SameLowBits(key * 0x9E37_79B1, next * 0x9E37_79B1, Pid(key));
      var j := OddMultiplier(next - key, k);
      assert false;
    }
  }

  // ---- The machine ----------------------------------------------------------

  /** The next operation of a thread. */
  datatype Phase = Test | Count | Store | Advance | Exit

  datatype Thread = Thread(i: nat, phase: Phase)

  /** `counted` and `stored` say how often each row was counted and stored. */
  datatype Grid = Grid(
    keys: seq<Key>, stride: nat, threads: seq<Thread>,
    counts: seq<int>, ids: seq<int>, counted: seq<nat>, stored: seq<nat>)

  /** A launch: zeroed counts, any old contents of the id buffer, one thread per start index. */
  function Launch(keys: seq<Key>, stride: nat, ids: seq<int>): Grid {
    Grid(keys, stride, seq(stride, t requires 0 <= t < stride => Thread(t, Test)),
         seq(NUM_PARTITIONS, _ => 0), ids, seq(|keys|, _ => 0), seq(|keys|, _ => 0))
  }

  predicate Shape(g: Grid) {
    && 0 < g.stride < U32 && |g.keys| < U32 && |g.threads| == g.stride && |g.counts| == NUM_PARTITIONS
    && |g.ids| == |g.counted| == |g.stored| == |g.keys|
    && forall t :: 0 <= t < g.stride ==>
         g.threads[t].i < U32 && (g.threads[t].phase in {Count, Store, Advance} ==> g.threads[t].i < |g.keys|)
  }

  /** Thread `t` performs its next operation; a thread that has exited does nothing. */
  function Step(g: Grid, t: nat): (r: Grid)
    requires Shape(g) && t < g.stride
    ensures Shape(r)
  {
    var i := g.threads[t].i;
    match g.threads[t].phase
    case Test =>
      g.(threads := g.threads[t := Thread(i, if i < |g.keys| then Count else Exit)])
    case Count =>
      var p := Pid(g.keys[i]);
      g.(threads := g.threads[t := Thread(i, Store)], counts := g.counts[p := (g.counts[p] + 1) % U32],
         counted := g.counted[i := g.counted[i] + 1])
    case Store =>
      g.(threads := g.threads[t := Thread(i, Advance)], ids := g.ids[i := Pid(g.keys[i])],
         stored := g.stored[i := g.stored[i] + 1])
    case Advance =>
      g.(threads := g.threads[t := Thread((i + g.stride) % U32, Test)])
    case Exit => g
  }

  /** A schedule names the thread of each step. */
  predicate Schedule(g: Grid, sched: seq<nat>) { forall k :: 0 <= k < |sched| ==> sched[k] < g.stride }

  function Run(g: Grid, sched: seq<nat>): (r: Grid)
    requires Shape(g) && Schedule(g, sched)
    ensures Shape(r) && r.keys == g.keys && r.stride == g.stride
  {
    if sched == [] then g
    else
      var before := Run(g, sched[..|sched| - 1]);
      Step(before, sched[|sched| - 1])
  }

  predicate Finished(g: Grid) { forall t :: 0 <= t < |g.threads| ==> g.threads[t].phase == Exit }

  // ---- Counting -------------------------------------------------------------

  /** How often rows of partition `p` were counted. */
  function Tally(keys: seq<Key>, times: seq<nat>, p: nat): (r: nat)
    requires |times| == |keys|
  {
    if keys == [] then 0
    else
      var n := |keys| - 1;
      Tally(keys[..n], times[..n], p) + if Pid(keys[n]) == p then times[n] else 0
  }

  lemma {:induction false} TallyUpdate(keys: seq<Key>, times: seq<nat>, i: nat, p: nat)
    requires |times| == |keys| && i < |keys|
    ensures Tally(keys, times[i := times[i] + 1], p) == Tally(keys, times, p) + if Pid(keys[i]) == p then 1 else 0
  {
    var n := |keys| - 1;
    var times' := times[i := times[i] + 1];
    if i < n {
      assert times'[..n] == times[..n][i := times[i] + 1];
      TallyUpdate(keys[..n], times[..n], i, p);
    } else {
      assert times'[..n] == times[..n];
    }
  }

  lemma {:induction false} TallyZero(keys: seq<Key>, times: seq<nat>, p: nat)
    requires |times| == |keys| && forall i :: 0 <= i < |keys| ==> times[i] == 0
    ensures Tally(keys, times, p) == 0
  {
    if keys != [] {
      TallyZero(keys[..|keys| - 1], times[..|keys| - 1], p);
    }
  }

  /** Number of rows that hash to partition `p`. */
  function RowsIn(keys: seq<Key>, p: nat): (r: nat)
    ensures r <= |keys|
  {
    if keys == [] then 0
    else RowsIn(keys[..|keys| - 1], p) + if Pid(keys[|keys| - 1]) == p then 1 else 0
  }

  lemma {:induction false} RowsInCounts(keys: seq<Key>, p: nat)
    ensures RowsIn(keys, p) == |set r | 0 <= r < |keys| && Hashes(keys[r], p)|
  {
    hide Pid, Hashes;
    var rows := set r | 0 <= r < |keys| && Hashes(keys[r], p);
    if keys == [] {
      assert rows == {};
    } else {
      var n := |keys| - 1;
      RowsInCounts(keys[..n], p);
      PidExact(keys[n], p);
      var before := set r | 0 <= r < n && Hashes(keys[..n][r], p);
      assert forall r :: 0 <= r < n ==> keys[..n][r] == keys[r];
      if Hashes(keys[n], p) {
        assert rows == before + {n};
      } else {
        assert rows == before;
      }
    }
  }

  lemma {:induction false} TallyOnce(keys: seq<Key>, times: seq<nat>, p: nat)
    requires |times| == |keys| && forall i :: 0 <= i < |keys| ==> times[i] == 1
    ensures Tally(keys, times, p) == RowsIn(keys, p)
  {
    if keys != [] {
      TallyOnce(keys[..|keys| - 1], times[..|keys| - 1], p);
    }
  }

  /** The partitions up to `p` hold every row that hashes below `p`; all of them hold every row. */
  lemma {:induction false} PartitionsCoverRows(keys: seq<Key>)
    ensures Sum(seq(NUM_PARTITIONS, p requires 0 <= p < NUM_PARTITIONS => RowsIn(keys, p))) == |keys|
  {
    var parts := seq(NUM_PARTITIONS, p requires 0 <= p < NUM_PARTITIONS => RowsIn(keys, p));
    if keys == [] {
      SumBounds(parts, 0, 0);
    } else {
      var init, last := keys[..|keys| - 1], Pid(keys[|keys| - 1]);
      var before := seq(NUM_PARTITIONS, p requires 0 <= p < NUM_PARTITIONS => RowsIn(init, p));
      PartitionsCoverRows(init);
      assert parts == before[last := before[last] + 1];
      SumUpdate(before, last);
    }
  }

  lemma SumUpdate(xs: seq<int>, i: nat)
    requires i < |xs|
    ensures Sum(xs[i := xs[i] + 1]) == Sum(xs) + 1
  {
    var ys := xs[i := xs[i] + 1];
    assert xs == xs[..i] + [xs[i]] + xs[i + 1..] && ys == xs[..i] + [xs[i] + 1] + xs[i + 1..];
    SumConcat(xs[..i] + [xs[i]], xs[i + 1..]);
    SumConcat(xs[..i], [xs[i]]);
    SumConcat(xs[..i] + [xs[i] + 1], xs[i + 1..]);
    SumConcat(xs[..i], [xs[i] + 1]);
  }

  // ---- The invariant --------------------------------------------------------

  /** The thread row `r` belongs to: `r` modulo the stride. */
  function Owner(r: nat, stride: nat): (t: nat)
    requires stride > 0
    ensures t < stride && t <= r
  {
    if r < stride then r else Owner(r - stride, stride)
  }

  lemma OwnerOfStart(t: nat, stride: nat)
    requires t < stride
    ensures Owner(t, stride) == t
  {
  }

  /** Two rows of one thread are at least a stride apart. */
  lemma {:induction false} OwnerGap(i: nat, r: nat, stride: nat)
    requires stride > 0 && Owner(i, stride) == Owner(r, stride) && i < r
    ensures i + stride <= r
    decreases r
  {
    if i >= stride {
      OwnerGap(i - stride, r - stride, stride);
    }
  }

  predicate PastCount(th: Thread, r: nat) {
    r < th.i || (r == th.i && (th.phase == Store || th.phase == Advance))
  }

  predicate PastStore(th: Thread, r: nat) { r < th.i || (r == th.i && th.phase == Advance) }

  ghost predicate RowInv(g: Grid, r: nat)
    requires Shape(g) && r < |g.keys|
  {
    var th := g.threads[Owner(r, g.stride)];
    && g.counted[r] == (if PastCount(th, r) then 1 else 0)
    && g.stored[r] == (if PastStore(th, r) then 1 else 0)
    && (PastStore(th, r) ==> g.ids[r] == Pid(g.keys[r]))
  }

  /** A thread stands on a row of its own residue class, and exits only past the end. */
  predicate ThreadInv(g: Grid, t: nat)
    requires Shape(g) && t < g.stride
  {
    var th := g.threads[t];
    Owner(th.i, g.stride) == t && (th.phase == Exit ==> th.i >= |g.keys|)
  }

  ghost predicate CountInv(g: Grid)
    requires Shape(g)
  {
    forall p :: 0 <= p < NUM_PARTITIONS ==> g.counts[p] == Tally(g.keys, g.counted, p) % U32
  }

  ghost predicate Inv(g: Grid) {
    && Shape(g)
    && (forall t :: 0 <= t < g.stride ==> ThreadInv(g, t))
    && (forall r :: 0 <= r < |g.keys| ==> RowInv(g, r))
    && CountInv(g)
  }

  /** Stepping past the end cannot wrap around. */
  predicate NoWrap(g: Grid) { |g.keys| + g.stride <= U32 }

  lemma LaunchInv(keys: seq<Key>, stride: nat, ids: seq<int>)
    requires 0 < stride < U32 && |keys| < U32 && |ids| == |keys|
    ensures Inv(Launch(keys, stride, ids))
  {
    var g := Launch(keys, stride, ids);
    forall p | 0 <= p < NUM_PARTITIONS
      ensures g.counts[p] == Tally(g.keys, g.counted, p) % U32
    {
      TallyZero(keys, g.counted, p);
    }
    forall t | 0 <= t < stride
      ensures ThreadInv(g, t)
    {
      assert Owner(t, stride) == t;
    }
    forall r | 0 <= r < |keys|
      ensures RowInv(g, r)
    {
      assert Owner(r, stride) <= r;
    }
  }

  lemma StepKeepsThreads(g: Grid, t: nat)
    requires Inv(g) && NoWrap(g) && t < g.stride
    ensures forall u :: 0 <= u < g.stride ==> ThreadInv(Step(g, t), u)
  {
    hide RowInv, CountInv;
    var th := g.threads[t];
    assert ThreadInv(g, t);
    assert Owner(th.i + g.stride, g.stride) == Owner(th.i, g.stride);
    forall u | 0 <= u < g.stride
      ensures ThreadInv(Step(g, t), u)
    {
      assert ThreadInv(g, u);
    }
  }

  lemma StepKeepsRow(g: Grid, t: nat, r: nat)
    requires Inv(g) && NoWrap(g) && t < g.stride && r < |g.keys|
    ensures RowInv(Step(g, t), r)
  {
    hide Owner, CountInv;
    var i := g.threads[t].i;
    assert ThreadInv(g, t) && RowInv(g, r);
    if Owner(r, g.stride) == t {
      if r > i {
        OwnerGap(i, r, g.stride);
      }
    }
  }

  lemma WrapOne(x: int)
    ensures (x % U32 + 1) % U32 == (x + 1) % U32
  {
  }

  lemma StepKeepsCounts(g: Grid, t: nat)
    requires Shape(g) && CountInv(g) && t < g.stride
    ensures CountInv(Step(g, t))
  {
    hide Tally, Pid;
    var th, g' := g.threads[t], Step(g, t);
    if th.phase == Count {
      forall p | 0 <= p < NUM_PARTITIONS
        ensures g'.counts[p] == Tally(g.keys, g'.counted, p) % U32
      {
        TallyUpdate(g.keys, g.counted, th.i, p);
        WrapOne(Tally(g.keys, g.counted, p));
      }
    }
  }

  lemma StepKeeps(g: Grid, t: nat)
    requires Inv(g) && NoWrap(g) && t < g.stride
    ensures Inv(Step(g, t)) && NoWrap(Step(g, t))
  {
    hide RowInv, CountInv, ThreadInv;
    StepKeepsThreads(g, t);
    StepKeepsCounts(g, t);
    forall r | 0 <= r < |g.keys|
      ensures RowInv(Step(g, t), r)
    {
      StepKeepsRow(g, t, r);
    }
  }

  lemma {:induction false} RunKeeps(g: Grid, sched: seq<nat>)
    requires Inv(g) && NoWrap(g) && Schedule(g, sched)
    ensures Inv(Run(g, sched))
  {
    hide RowInv, CountInv, ThreadInv, Step;
    if sched != [] {
      var init := sched[..|sched| - 1];
      RunKeeps(g, init);
      StepKeeps(Run(g, init), sched[|sched| - 1]);
    }
  }

  /** Every row stored once with its partition, every partition counted right, all rows accounted for. */
  ghost predicate Correct(g: Grid)
    requires Shape(g)
  {
    && (forall r :: 0 <= r < |g.keys| ==> Hashes(g.keys[r], g.ids[r]) && g.stored[r] == 1 && g.counted[r] == 1)
    && (forall p :: 0 <= p < NUM_PARTITIONS ==>
          g.counts[p] == |set r | 0 <= r < |g.keys| && Hashes(g.keys[r], p)|)
    && Sum(g.counts) == |g.keys|
  }

  lemma FinishedIsCorrect(g: Grid)
    requires Inv(g) && Finished(g)
    ensures Correct(g)
  {
    hide Owner, Hashes, Pid;
    CountsAreRight(g);
    forall r | 0 <= r < |g.keys|
      ensures Hashes(g.keys[r], g.ids[r]) && g.stored[r] == 1 && g.counted[r] == 1
    {
      PidHashes(g.keys[r]);
      var t := Owner(r, g.stride);
      assert RowInv(g, r) && ThreadInv(g, t);
    }
  }

  lemma CountsAreRight(g: Grid)
    requires Inv(g) && Finished(g)
    ensures forall p :: 0 <= p < NUM_PARTITIONS ==>
              g.counts[p] == |set r | 0 <= r < |g.keys| && Hashes(g.keys[r], p)|
    ensures Sum(g.counts) == |g.keys|
  {
    hide Owner, Hashes, Pid;
    forall r | 0 <= r < |g.keys|
      ensures g.counted[r] == 1
    {
      var t := Owner(r, g.stride);
      assert RowInv(g, r) && ThreadInv(g, t);
    }
    forall p | 0 <= p < NUM_PARTITIONS
      ensures g.counts[p] == RowsIn(g.keys, p)
      ensures RowsIn(g.keys, p) == |set r | 0 <= r < |g.keys| && Hashes(g.keys[r], p)|
    {
      TallyOnce(g.keys, g.counted, p);
      RowsInCounts(g.keys, p);
    }
    PartitionsCoverRows(g.keys);
    assert g.counts == seq(NUM_PARTITIONS, p requires 0 <= p < NUM_PARTITIONS => RowsIn(g.keys, p));
  }

  /**
   For every schedule, once all threads have exited every row's partition id was
   written exactly once and `counts[p]` is the number of rows that hash to `p`.
   */
  lemma PartitionIsCorrect(keys: seq<Key>, stride: nat, ids: seq<int>, sched: seq<nat>)
    requires 0 < stride < U32 && |keys| < U32 && |ids| == |keys| && |keys| + stride <= U32
    requires Schedule(Launch(keys, stride, ids), sched) && Finished(Run(Launch(keys, stride, ids), sched))
    ensures Correct(Run(Launch(keys, stride, ids), sched))
  {
    var g := Launch(keys, stride, ids);
    LaunchInv(keys, stride, ids);
    RunKeeps(g, sched);
    FinishedIsCorrect(Run(g, sched));
  }

  // ---- Every fair schedule finishes -----------------------------------------

  /** Operations thread `th` still has to perform, at most. */
  function WorkLeft(th: Thread, n: nat): nat {
    if th.phase == Exit then 0
    else if th.i >= n then 1
    else 4 * (n - th.i) + match th.phase case Test => 1 case Count => 0 case Store => -1 case _ => -2
  }

  lemma StepWorks(g: Grid, t: nat, u: nat)
    requires Shape(g) && NoWrap(g) && t < g.stride && u < g.stride
    ensures WorkLeft(Step(g, t).threads[u], |g.keys|) <= WorkLeft(g.threads[u], |g.keys|)
    ensures g.threads[t].phase != Exit ==>
              WorkLeft(Step(g, t).threads[t], |g.keys|) < WorkLeft(g.threads[t], |g.keys|)
  {
  }

  /** A schedule that gives thread `t` as many steps as it has operations lets it exit. */
  lemma {:induction false} RunWorks(g: Grid, sched: seq<nat>, t: nat)
    requires Shape(g) && NoWrap(g) && Schedule(g, sched) && t < g.stride
    ensures WorkLeft(Run(g, sched).threads[t], |g.keys|) == 0
         || WorkLeft(Run(g, sched).threads[t], |g.keys|) + multiset(sched)[t] <= WorkLeft(g.threads[t], |g.keys|)
  {
    hide Step, WorkLeft;
    if sched != [] {
      var init, last := sched[..|sched| - 1], sched[|sched| - 1];
      RunWorks(g, init, t);
      StepWorks(Run(g, init), last, t);
      assert sched == init + [last];
      Idle(Run(g, init), t);
    }
  }

  lemma Idle(g: Grid, t: nat)
    requires Shape(g) && t < g.stride
    ensures WorkLeft(g.threads[t], |g.keys|) == 0 <==> g.threads[t].phase == Exit
  {
  }

  /** With no wrap-around, every schedule that runs each thread `4 n + 1` times finishes. */
  lemma FairSchedulesFinish(keys: seq<Key>, stride: nat, ids: seq<int>, sched: seq<nat>)
    requires 0 < stride < U32 && |keys| < U32 && |ids| == |keys| && |keys| + stride <= U32
    requires Schedule(Launch(keys, stride, ids), sched)
    requires forall t :: 0 <= t < stride ==> multiset(sched)[t] >= 4 * |keys| + 1
    ensures Finished(Run(Launch(keys, stride, ids), sched))
  {
    var g := Launch(keys, stride, ids);
    forall t | 0 <= t < stride
      ensures Run(g, sched).threads[t].phase == Exit
    {
      RunWorks(g, sched, t);
      Idle(Run(g, sched), t);
    }
  }

  // ---- What happens when the index wraps ------------------------------------

  lemma RunSnoc(g: Grid, sched: seq<nat>, t: nat)
    requires Shape(g) && Schedule(g, sched) && t < g.stride
    ensures Schedule(g, sched + [t]) && Run(g, sched + [t]) == Step(Run(g, sched), t)
  {
    assert (sched + [t])[..|sched|] == sched;
  }

  lemma TestStep(g: Grid, t: nat)
    requires Shape(g) && t < g.stride && g.threads[t].phase == Test && g.threads[t].i < |g.keys|
    ensures Step(g, t).threads == g.threads[t := Thread(g.threads[t].i, Count)] && Step(g, t).stored == g.stored
  {
  }

  lemma CountStep(g: Grid, t: nat)
    requires Shape(g) && t < g.stride && g.threads[t].phase == Count
    ensures Step(g, t).threads == g.threads[t := Thread(g.threads[t].i, Store)] && Step(g, t).stored == g.stored
  {
  }

  lemma StoreStep(g: Grid, t: nat)
    requires Shape(g) && t < g.stride && g.threads[t].phase == Store
    ensures Step(g, t).threads == g.threads[t := Thread(g.threads[t].i, Advance)]
    ensures Step(g, t).stored == g.stored[g.threads[t].i := g.stored[g.threads[t].i] + 1]
  {
  }

  lemma AdvanceStep(g: Grid, t: nat)
    requires Shape(g) && t < g.stride && g.threads[t].phase == Advance
    ensures Step(g, t).threads == g.threads[t := Thread((g.threads[t].i + g.stride) % U32, Test)]
    ensures Step(g, t).stored == g.stored
  {
  }

  /** After `sched`, thread `t` is about to test row `i`; three more steps store it. */
  lemma StoreOne(g: Grid, sched: seq<nat>, t: nat) returns (more: seq<nat>)
    requires Shape(g) && Schedule(g, sched) && t < g.stride
    requires Run(g, sched).threads[t].phase == Test && Run(g, sched).threads[t].i < |g.keys|
    ensures Schedule(g, more)
    ensures var h, i := Run(g, sched), Run(g, sched).threads[t].i;
      && Run(g, more).threads == h.threads[t := Thread(i, Advance)]
      && Run(g, more).stored == h.stored[i := h.stored[i] + 1]
  {
    hide Run, Step;
    TestStep(Run(g, sched), t);
    RunSnoc(g, sched, t);
    more := sched + [t];
    CountStep(Run(g, more), t);
    RunSnoc(g, more, t);
    more := more + [t];
    StoreStep(Run(g, more), t);
    RunSnoc(g, more, t);
    more := more + [t];
  }

  /** Thread `t` alone went on to row `r` and stored it and every row of its own from `i` on. */
  ghost predicate Advanced(g: Grid, sched: seq<nat>, more: seq<nat>, t: nat, i: nat, r: nat)
    requires Shape(g) && Schedule(g, sched) && t < g.stride
  {
    && Schedule(g, more)
    && Run(g, more).threads == Run(g, sched).threads[t := Thread(r, Advance)]
    && (forall x: nat :: x < |g.keys| ==> Run(g, more).stored[x] >= Run(g, sched).stored[x])
    && (forall x: nat :: i <= x <= r && x < |g.keys| && Owner(x, g.stride) == t ==>
          Run(g, more).stored[x] >= Run(g, sched).stored[x] + 1)
  }

  lemma {:induction false} RunTo(g: Grid, sched: seq<nat>, t: nat, i: nat, r: nat) returns (more: seq<nat>)
    requires Shape(g) && Schedule(g, sched) && t < g.stride && Run(g, sched).threads[t] == Thread(i, Test)
    requires i <= r < |g.keys| && Owner(i, g.stride) == Owner(r, g.stride) == t
    ensures Advanced(g, sched, more, t, i, r)
    decreases r - i
  {
    hide Run, Step;
    var stored := StoreOne(g, sched, t);
    if i == r {
      more := stored;
    } else {
      OwnerGap(i, r, g.stride);
      AdvanceStep(Run(g, stored), t);
      RunSnoc(g, stored, t);
      assert Owner(i + g.stride, g.stride) == Owner(i, g.stride);
      more := RunTo(g, stored + [t], t, i + g.stride, r);
      RowsBetween(i, g.stride, t);
    }
  }

  /** No row of thread `t` lies strictly between `i` and `i + stride`. */
  lemma RowsBetween(i: nat, stride: nat, t: nat)
    requires stride > 0 && Owner(i, stride) == t
    ensures forall x: nat :: i < x < i + stride ==> Owner(x, stride) != t
  {
    forall x: nat | i < x < i + stride
      ensures Owner(x, stride) != t
    {
      if Owner(x, stride) == t {
        OwnerGap(i, x, stride);
      }
    }
  }

  /** The thread of the last row runs alone, wraps around and stores row `w` a second time around. */
  lemma WrapAround(g: Grid, w: nat) returns (more: seq<nat>)
    requires Shape(g) && g.keys != [] && w == |g.keys| - 1 + g.stride - U32
    requires forall x :: 0 <= x < g.stride ==> g.threads[x] == Thread(x, Test)
    ensures Schedule(g, more)
    ensures var t := Owner(|g.keys| - 1, g.stride);
      && Run(g, more).threads == g.threads[t := Thread(w, Advance)]
      && Run(g, more).stored[w] >= if Owner(w, g.stride) == t then 2 else 1
  {
    hide Run, Step, Owner;
    var last := |g.keys| - 1;
    var t := Owner(last, g.stride);
    RunNone(g);
    OwnerOfStart(t, g.stride);
    var a := RunTo(g, [], t, t, last);
    assert Owner(w, g.stride) == t ==> Run(g, a).stored[w] >= Run(g, []).stored[w] + 1;
    AdvanceStep(Run(g, a), t);
    RunSnoc(g, a, t);
    assert (last + g.stride) % U32 == w;
    more := StoreOne(g, a + [t], t);
  }

  /** If the index can wrap, some schedule stores a row twice. */
  lemma WrapStoresTwice(keys: seq<Key>, stride: nat, ids: seq<int>) returns (sched: seq<nat>, w: nat)
    requires 0 < stride < U32 && |keys| < U32 && |ids| == |keys| && |keys| + stride > U32
    ensures Schedule(Launch(keys, stride, ids), sched) && w < |keys|
    ensures Run(Launch(keys, stride, ids), sched).stored[w] >= 2
  {
    hide Run, Step;
    var g := Launch(keys, stride, ids);
    w := |keys| - 1 + stride - U32;
    sched := WrapAround(g, w);
    var t, u := Owner(|keys| - 1, stride), Owner(w, stride);
    if u != t {
      assert Owner(u, stride) == u;
      var more := RunTo(g, sched, u, u, w);
      assert Run(g, more).stored[w] >= Run(g, sched).stored[w] + 1;
      sched := more;
    }
  }

  lemma LaunchShape(keys: seq<Key>, stride: nat, ids: seq<int>)
    requires 0 < stride < U32 && |keys| < U32 && |ids| == |keys|
    ensures Shape(Launch(keys, stride, ids))
  {
  }

  lemma RunNone(g: Grid)
    requires Shape(g)
    ensures Run(g, []) == g
  {
  }

  /** In every reachable state every row was stored at most once, exactly if `n_rows + stride` fits `2^32`. */
  lemma StoredOnceExact(keys: seq<Key>, stride: nat, ids: seq<int>)
    requires 0 < stride < U32 && |keys| < U32 && |ids| == |keys|
    ensures Shape(Launch(keys, stride, ids))
    ensures (forall sched, r :: Schedule(Launch(keys, stride, ids), sched) && 0 <= r < |keys| ==>
               Run(Launch(keys, stride, ids), sched).stored[r] <= 1)
       <==> |keys| + stride <= U32
  {
    hide Run, Step;
    var g := Launch(keys, stride, ids);
    LaunchShape(keys, stride, ids);
    if |keys| + stride <= U32 {
      LaunchInv(keys, stride, ids);
      forall sched, r | Schedule(g, sched) && 0 <= r < |keys|
        ensures Run(g, sched).stored[r] <= 1
      {
        RunKeeps(g, sched);
        assert RowInv(Run(g, sched), r);
      }
    } else {
      var sched, w := WrapStoresTwice(keys, stride, ids);
      assert Schedule(g, sched) && Run(g, sched).stored[w] > 1;
    }
  }

  // ---- The kernel's own loop ------------------------------------------------

  /** What a thread's own operation does to its index and phase. */
  function NextThread(th: Thread, n: nat, stride: nat): Thread {
    match th.phase
    case Test => Thread(th.i, if th.i < n then Count else Exit)
    case Count => Thread(th.i, Store)
    case Store => Thread(th.i, Advance)
    case Advance => Thread((th.i + stride) % U32, Test)
    case Exit => th
  }

  lemma ForeignStep(g: Grid, u: nat, t: nat)
    requires Shape(g) && u < g.stride && t < g.stride && u != t
    ensures Step(g, u).stride == g.stride && Step(g, u).threads[t] == g.threads[t]
  {
    hide Pid;
  }

  /** However long the other threads run, thread `t` keeps its place; this is what `Others` promises. */
  lemma {:induction false} ForeignRun(g: Grid, sched: seq<nat>, more: seq<nat>, t: nat)
    requires Shape(g) && Schedule(g, sched) && Schedule(g, more) && t < g.stride && t !in more
    ensures Schedule(g, sched + more) && Run(g, sched + more).threads[t] == Run(g, sched).threads[t]
    decreases |more|
  {
    hide Run, Step, Pid;
    if more == [] {
      assert sched + more == sched;
    } else {
      var n := |more| - 1;
      ForeignRun(g, sched, more[..n], t);
      ForeignStep(Run(g, sched + more[..n]), more[n], t);
      RunSnoc(g, sched + more[..n], more[n]);
      assert sched + more == sched + more[..n] + [more[n]];
    }
  }

  /** The grid while it runs; `sched` is the interleaving so far. */
  class Device {
    ghost const start: Grid
    var grid: Grid
    ghost var sched: seq<nat>

    ghost predicate Valid()
      reads this
    {
      Shape(start) && Schedule(start, sched) && grid == Run(start, sched)
    }

    constructor (keys: seq<Key>, stride: nat, ids: seq<int>)
      requires 0 < stride < U32 && |keys| < U32 && |ids| == |keys|
      ensures Valid() && start == Launch(keys, stride, ids) == grid
    {
      start := Launch(keys, stride, ids);
      grid := Launch(keys, stride, ids);
      sched := [];
    }

    /** One memory operation of thread `t`. */
    method Operate(t: nat)
      requires Valid() && t < start.stride
      modifies this
      ensures Valid() && sched == old(sched) + [t] && grid == Step(old(grid), t)
    {
      RunSnoc(start, sched, t);
      grid := Step(grid, t);
      sched := sched + [t];
    }

    /** The other threads run for a while. Callers know only this contract, which `ForeignRun` justifies. */
    method Others(t: nat)
      requires Valid() && t < start.stride
      modifies this
      ensures Valid() && old(sched) <= sched && grid.threads[t] == old(grid.threads[t])
    {
    }

    /** Thread `t` operates once the others have run; nobody else moves its index or its phase. */
    method Turn(t: nat)
      requires Valid() && t < start.stride
      modifies this
      ensures Valid() && old(sched) <= sched
      ensures grid.threads[t] == NextThread(old(grid.threads[t]), |start.keys|, start.stride)
    {
      hide Run;
      Others(t);
      Operate(t);
    }

    /** `bolt_partition` as thread `t` runs it, among all the others: it always reaches its end. */
    method BoltPartition(t: nat)
      requires Valid() && NoWrap(start) && t < start.stride && grid.threads[t] == Thread(t, Test)
      modifies this
      ensures Valid() && old(sched) <= sched && grid.threads[t].phase == Exit
    {
      hide Run, Step, Pid;
      var i := t;
      var n, stride := |grid.keys|, grid.stride;
      assert n == |start.keys| && stride == start.stride;
      while i < n
        invariant Valid() && old(sched) <= sched && grid.threads[t] == Thread(i, Test)
        decreases n - i
      {
        Turn(t);
        Turn(t);
        Turn(t);
        Turn(t);
        i := (i + stride) % U32;
      }
      Turn(t);
    }
  }
}
