/**
 The latency histogram (`src/metrics.rs`): power-of-two buckets updated by
 concurrent observers, and the cumulative series rendered from them.
 */
module Histogram {
  import opened Common
  import opened Rows

  const HISTOGRAM_BUCKETS := 24

  type U64 = x: int | 0 <= x < TWO_64

  // ---- Buckets --------------------------------------------------------------

  /** Bits needed to write `x`: 64 minus the leading zeros of the `u64`. */
  function BitLength(x: nat): nat {
    if x == 0 then 0 else 1 + BitLength(x / 2)
  }

  /** `bucket_index`. */
  function BucketIndex(micros: nat): (r: nat)
    ensures r < HISTOGRAM_BUCKETS
  {
    if micros <= 1 then 0
    else
      var ceilLog2 := BitLength(micros - 1);
      if ceilLog2 < HISTOGRAM_BUCKETS - 1 then ceilLog2 else HISTOGRAM_BUCKETS - 1
  }

  /** `bucket_upper_micros`. */
  function BucketUpper(i: nat): nat { if i == 0 then 1 else Pow2(i) }

  lemma {:induction false} BitLengthBound(x: nat, i: nat)
    ensures BitLength(x) <= i <==> x < Pow2(i)
  {
    if i == 0 {
    } else if x > 0 {
      BitLengthBound(x / 2, i - 1);
    }
  }

  /** Bounds are inclusive: an observation is in bucket `i` or below exactly if it is at most `2^i`. */
  lemma BucketIndexExact(micros: nat, i: nat)
    requires i < HISTOGRAM_BUCKETS - 1
    ensures BucketIndex(micros) <= i <==> micros <= Pow2(i)
  {
    if micros > 1 {
      BitLengthBound(micros - 1, i);
    } else {
      assert Pow2(i) >= 1;
    }
  }

  /** The last bucket takes everything above `2^22`, the bound itself not included. */
  lemma OverflowBucketExact(micros: nat)
    ensures BucketIndex(micros) == 23 <==> micros > 0x40_0000
  {
    BucketIndexExact(micros, 22);
    PowersAtEnd();
  }

  lemma PowersAtEnd()
    ensures Pow2(22) == 0x40_0000 && Pow2(23) == 0x80_0000
  {
    assert Pow2(8) == 0x100;
    assert Pow2(16) == 0x1_0000;
  }

  /** Every bound is the power of two of its bucket, the last one included. */
  lemma BucketUpperExact(i: nat)
    ensures BucketUpper(i) == Pow2(i)
  {
  }

  // ---- Concurrent observers -------------------------------------------------

  /** The next atomic add of an observer. */
  datatype Phase = AddBucket | AddCount | AddSum | Done

  datatype Observer = Observer(micros: U64, phase: Phase)

  datatype State = State(observers: seq<Observer>, buckets: seq<int>, count: int, sum: int)

  predicate Shape(s: State) { |s.buckets| == HISTOGRAM_BUCKETS }

  function Start(values: seq<U64>): State {
    State(seq(|values|, o requires 0 <= o < |values| => Observer(values[o], AddBucket)),
          seq(HISTOGRAM_BUCKETS, _ => 0), 0, 0)
  }

  /** Observer `o` performs its next atomic add. */
  function Step(s: State, o: nat): (r: State)
    requires Shape(s) && o < |s.observers|
    ensures Shape(r) && |r.observers| == |s.observers|
  {
    var ob := s.observers[o];
    match ob.phase
    case AddBucket =>
      var i := BucketIndex(ob.micros);
      State(s.observers[o := Observer(ob.micros, AddCount)], s.buckets[i := (s.buckets[i] + 1) % TWO_64],
            s.count, s.sum)
    case AddCount =>
      State(s.observers[o := Observer(ob.micros, AddSum)], s.buckets, (s.count + 1) % TWO_64, s.sum)
    case AddSum =>
      State(s.observers[o := Observer(ob.micros, Done)], s.buckets, s.count, (s.sum + ob.micros) % TWO_64)
    case Done => s
  }

  predicate Schedule(s: State, sched: seq<nat>) { forall k :: 0 <= k < |sched| ==> sched[k] < |s.observers| }

  function Run(s: State, sched: seq<nat>): (r: State)
    requires Shape(s) && Schedule(s, sched)
    ensures Shape(r) && |r.observers| == |s.observers|
  {
    if sched == [] then s else Step(Run(s, sched[..|sched| - 1]), sched[|sched| - 1])
  }

  // ---- Counting observers ---------------------------------------------------

  /** Number of observers that satisfy `f`. */
  function Tally(obs: seq<Observer>, f: Observer -> bool): (r: nat)
    ensures r <= |obs|
  {
    if obs == [] then 0 else Tally(obs[..|obs| - 1], f) + if f(obs[|obs| - 1]) then 1 else 0
  }

  lemma {:induction false} TallyUpdate(obs: seq<Observer>, o: nat, x: Observer, f: Observer -> bool)
    requires o < |obs|
    ensures Tally(obs[o := x], f) == Tally(obs, f) - (if f(obs[o]) then 1 else 0) + if f(x) then 1 else 0
  {
    var n := |obs| - 1;
    if o < n {
      assert obs[o := x][..n] == obs[..n][o := x];
      TallyUpdate(obs[..n], o, x, f);
    } else {
      assert obs[o := x][..n] == obs[..n];
    }
  }

  lemma {:induction false} TallySame(obs: seq<Observer>, f: Observer -> bool, g: Observer -> bool)
    requires forall o :: 0 <= o < |obs| ==> f(obs[o]) == g(obs[o])
    ensures Tally(obs, f) == Tally(obs, g)
  {
    if obs != [] {
      TallySame(obs[..|obs| - 1], f, g);
    }
  }

  lemma {:induction false} TallyDisjoint(
      obs: seq<Observer>, f: Observer -> bool, g: Observer -> bool, h: Observer -> bool)
    requires forall o :: 0 <= o < |obs| ==> !(f(obs[o]) && g(obs[o])) && h(obs[o]) == (f(obs[o]) || g(obs[o]))
    ensures Tally(obs, h) == Tally(obs, f) + Tally(obs, g)
  {
    if obs != [] {
      TallyDisjoint(obs[..|obs| - 1], f, g, h);
    }
  }

  predicate InBucket(ob: Observer, i: nat) { ob.phase != AddBucket && BucketIndex(ob.micros) == i }

  predicate UpToBucket(ob: Observer, i: nat) { ob.phase != AddBucket && BucketIndex(ob.micros) <= i }

  predicate IsCounted(ob: Observer) { ob.phase == AddSum || ob.phase == Done }

  /** The observer has counted its bucket but not yet the total. */
  predicate IsBetween(ob: Observer) { ob.phase == AddCount }

  function FinishedMicros(obs: seq<Observer>): (r: nat) {
    if obs == [] then 0
    else FinishedMicros(obs[..|obs| - 1]) + if obs[|obs| - 1].phase == Done then obs[|obs| - 1].micros else 0
  }

  lemma {:induction false} FinishedUpdate(obs: seq<Observer>, o: nat, x: Observer)
    requires o < |obs|
    ensures FinishedMicros(obs[o := x]) == FinishedMicros(obs)
              - (if obs[o].phase == Done then obs[o].micros else 0) + if x.phase == Done then x.micros else 0
  {
    var n := |obs| - 1;
    if o < n {
      assert obs[o := x][..n] == obs[..n][o := x];
      FinishedUpdate(obs[..n], o, x);
    } else {
      assert obs[o := x][..n] == obs[..n];
    }
  }

  // ---- The invariant --------------------------------------------------------

  ghost predicate Inv(s: State) {
    && Shape(s)
    && (forall i :: 0 <= i < HISTOGRAM_BUCKETS ==> s.buckets[i] == Tally(s.observers, ob => InBucket(ob, i)) % TWO_64)
    && s.count == Tally(s.observers, IsCounted) % TWO_64
    && s.sum == FinishedMicros(s.observers) % TWO_64
  }

  lemma {:induction false} TallyNone(obs: seq<Observer>, f: Observer -> bool)
    requires forall o :: 0 <= o < |obs| ==> !f(obs[o])
    ensures Tally(obs, f) == 0
  {
    if obs != [] {
      TallyNone(obs[..|obs| - 1], f);
    }
  }

  lemma {:induction false} FinishedNone(obs: seq<Observer>)
    requires forall o :: 0 <= o < |obs| ==> obs[o].phase != Done
    ensures FinishedMicros(obs) == 0
  {
    if obs != [] {
      FinishedNone(obs[..|obs| - 1]);
    }
  }

  lemma StartInv(values: seq<U64>)
    ensures Inv(Start(values))
  {
    var s := Start(values);
    forall i | 0 <= i < HISTOGRAM_BUCKETS
      ensures s.buckets[i] == Tally(s.observers, ob => InBucket(ob, i)) % TWO_64
    {
      TallyNone(s.observers, ob => InBucket(ob, i));
    }
    TallyNone(s.observers, IsCounted);
    FinishedNone(s.observers);
  }

  lemma WrapAdd(x: int, y: int)
    ensures (x % TWO_64 + y) % TWO_64 == (x + y) % TWO_64
  {
    assert x + y == (x % TWO_64 + y) + x / TWO_64 * TWO_64;
  }

  lemma StepKeepsBucket(s: State, o: nat, i: nat)
    requires Inv(s) && o < |s.observers| && i < HISTOGRAM_BUCKETS
    ensures Step(s, o).buckets[i] == Tally(Step(s, o).observers, ob => InBucket(ob, i)) % TWO_64
  {
    hide BucketIndex, Tally;
    var s' := Step(s, o);
    TallyUpdate(s.observers, o, s'.observers[o], ob => InBucket(ob, i));
    assert s'.observers == s.observers[o := s'.observers[o]];
    WrapAdd(Tally(s.observers, ob => InBucket(ob, i)), 1);
  }

  lemma StepKeeps(s: State, o: nat)
    requires Inv(s) && o < |s.observers|
    ensures Inv(Step(s, o))
  {
    hide BucketIndex, Tally, FinishedMicros;
    var s' := Step(s, o);
    forall i | 0 <= i < HISTOGRAM_BUCKETS
      ensures s'.buckets[i] == Tally(s'.observers, ob => InBucket(ob, i)) % TWO_64
    {
      StepKeepsBucket(s, o, i);
    }
    assert s'.observers == s.observers[o := s'.observers[o]];
    TallyUpdate(s.observers, o, s'.observers[o], IsCounted);
    FinishedUpdate(s.observers, o, s'.observers[o]);
    WrapAdd(Tally(s.observers, IsCounted), 1);
    WrapAdd(FinishedMicros(s.observers), s.observers[o].micros);
  }

  lemma {:induction false} RunKeeps(s: State, sched: seq<nat>)
    requires Inv(s) && Schedule(s, sched)
    ensures Inv(Run(s, sched))
  {
    hide Inv, Step;
    if sched != [] {
      ShapeOf(s);
      RunKeeps(s, sched[..|sched| - 1]);
      StepKeeps(Run(s, sched[..|sched| - 1]), sched[|sched| - 1]);
    }
  }

  lemma ShapeOf(s: State)
    requires Inv(s)
    ensures Shape(s)
  {
  }

  // ---- What a reader sees ---------------------------------------------------

  lemma BucketValue(s: State, i: nat)
    requires Inv(s) && i < HISTOGRAM_BUCKETS && |s.observers| < TWO_64
    ensures Shape(s) && s.buckets[i] == Tally(s.observers, ob => InBucket(ob, i))
  {
    hide BucketIndex;
  }

  /** The buckets up to `i` hold the observers recorded there. */
  lemma {:induction false} PrefixOfBuckets(s: State, i: nat)
    requires Inv(s) && i < HISTOGRAM_BUCKETS && |s.observers| < TWO_64
    ensures Sum(s.buckets[..i + 1]) == Tally(s.observers, ob => UpToBucket(ob, i))
  {
    hide BucketIndex, Tally, Inv;
    BucketValue(s, i);
    assert s.buckets[..i + 1][..i] == s.buckets[..i];
    if i == 0 {
      assert s.buckets[..0] == [];
      TallySame(s.observers, ob => InBucket(ob, 0), ob => UpToBucket(ob, 0));
    } else {
      PrefixOfBuckets(s, i - 1);
      TallyDisjoint(s.observers, ob => UpToBucket(ob, i - 1), ob => InBucket(ob, i), ob => UpToBucket(ob, i));
    }
  }

  /**
   At every moment of every interleaving, the bucket total exceeds the count by
   exactly the observers that stand between their first two adds.
   */
  lemma BucketsLeadCount(values: seq<U64>, sched: seq<nat>)
    requires |values| < TWO_64 && Schedule(Start(values), sched)
    ensures var s := Run(Start(values), sched);
      Sum(s.buckets) - s.count == Tally(s.observers, IsBetween)
  {
    hide BucketIndex, Tally, Run, Step;
    var s := Run(Start(values), sched);
    StartInv(values);
    RunKeeps(Start(values), sched);
    PrefixOfBuckets(s, HISTOGRAM_BUCKETS - 1);
    assert s.buckets[..HISTOGRAM_BUCKETS] == s.buckets;
    TallyDisjoint(s.observers, IsCounted, IsBetween, ob => UpToBucket(ob, HISTOGRAM_BUCKETS - 1));
  }

  // ---- Quiescence -----------------------------------------------------------

  /** Every observer has finished. */
  predicate Quiet(s: State) { forall o :: 0 <= o < |s.observers| ==> s.observers[o].phase == Done }

  /** The observers are those of `values`. */
  predicate Observes(s: State, values: seq<U64>) {
    |s.observers| == |values| && forall o :: 0 <= o < |values| ==> s.observers[o].micros == values[o]
  }

  lemma {:induction false} RunObserves(values: seq<U64>, sched: seq<nat>)
    requires Schedule(Start(values), sched)
    ensures Observes(Run(Start(values), sched), values)
  {
    if sched != [] {
      RunObserves(values, sched[..|sched| - 1]);
    }
  }

  /** Number of values up to `bound`. */
  function AtMost(values: seq<U64>, bound: nat): (r: nat)
    ensures r <= |values|
  {
    if values == [] then 0
    else AtMost(values[..|values| - 1], bound) + if values[|values| - 1] <= bound then 1 else 0
  }

  lemma {:induction false} TallyAtMost(obs: seq<Observer>, values: seq<U64>, f: Observer -> bool, bound: nat)
    requires |obs| == |values|
    requires forall o :: 0 <= o < |obs| ==> (f(obs[o]) <==> values[o] <= bound)
    ensures Tally(obs, f) == AtMost(values, bound)
  {
    if obs != [] {
      TallyAtMost(obs[..|obs| - 1], values[..|obs| - 1], f, bound);
    }
  }

  lemma {:induction false} TallyAll(obs: seq<Observer>, f: Observer -> bool)
    requires forall o :: 0 <= o < |obs| ==> f(obs[o])
    ensures Tally(obs, f) == |obs|
  {
    if obs != [] {
      TallyAll(obs[..|obs| - 1], f);
    }
  }

  lemma {:induction false} FinishedAll(obs: seq<Observer>, values: seq<U64>)
    requires |obs| == |values| && forall o :: 0 <= o < |obs| ==> obs[o] == Observer(values[o], Done)
    ensures FinishedMicros(obs) == Sum(values)
  {
    if obs != [] {
      FinishedAll(obs[..|obs| - 1], values[..|obs| - 1]);
    }
  }

  /** Once quiet, the count and the bucket total are the number of observations and the sum is theirs, modulo `2^64`. */
  lemma QuietTotals(values: seq<U64>, sched: seq<nat>)
    requires |values| < TWO_64 && Schedule(Start(values), sched) && Quiet(Run(Start(values), sched))
    ensures var s := Run(Start(values), sched);
      s.count == |values| && Sum(s.buckets) == |values| && s.sum == Sum(values) % TWO_64
  {
    hide Run, Step, BucketIndex;
    var s := Run(Start(values), sched);
    StartInv(values);
    RunKeeps(Start(values), sched);
    RunObserves(values, sched);
    TallyAll(s.observers, IsCounted);
    FinishedAll(s.observers, values);
    BucketsLeadCount(values, sched);
    TallyNone(s.observers, IsBetween);
  }

  /** Once quiet, the cumulative count at bound `2^i` is the number of observations up to `2^i`. */
  lemma QuietCumulative(values: seq<U64>, sched: seq<nat>, i: nat)
    requires |values| < TWO_64 && Schedule(Start(values), sched) && Quiet(Run(Start(values), sched))
    requires i < HISTOGRAM_BUCKETS - 1
    ensures Sum(Run(Start(values), sched).buckets[..i + 1]) == AtMost(values, Pow2(i))
  {
    hide Run, Step, BucketIndex;
    var s := Run(Start(values), sched);
    StartInv(values);
    RunKeeps(Start(values), sched);
    RunObserves(values, sched);
    PrefixOfBuckets(s, i);
    forall o | 0 <= o < |values|
      ensures UpToBucket(s.observers[o], i) <==> values[o] <= Pow2(i)
    {
      BucketIndexExact(values[o], i);
    }
    TallyAtMost(s.observers, values, ob => UpToBucket(ob, i), Pow2(i));
  }

  lemma {:induction false} AllAtMost(values: seq<U64>, bound: nat)
    ensures AtMost(values, bound) == |values| <==> forall o :: 0 <= o < |values| ==> values[o] <= bound
  {
    if values != [] {
      AllAtMost(values[..|values| - 1], bound);
      assert forall o :: 0 <= o < |values| - 1 ==> values[..|values| - 1][o] == values[o];
    }
  }

  /** The last finite bound is right exactly while nothing larger was observed: its bucket is the overflow bucket. */
  lemma LastBoundExact(values: seq<U64>, sched: seq<nat>)
    requires |values| < TWO_64 && Schedule(Start(values), sched) && Quiet(Run(Start(values), sched))
    ensures Sum(Run(Start(values), sched).buckets) == AtMost(values, 0x80_0000) <==>
            forall o :: 0 <= o < |values| ==> values[o] <= 0x80_0000
  {
    hide Run, Step, BucketIndex;
    QuietTotals(values, sched);
    AllAtMost(values, 0x80_0000);
  }

  // ---- The code's own loop and object ---------------------------------------

  /** The cumulative loop of `render_prometheus`: one line per bound, then `+Inf`. */
  method RenderBuckets(buckets: seq<int>, count: int) returns (lines: seq<(nat, int)>, inf: int)
    requires |buckets| == HISTOGRAM_BUCKETS
    ensures |lines| == HISTOGRAM_BUCKETS && inf == count
    ensures forall i :: 0 <= i < HISTOGRAM_BUCKETS ==> lines[i] == (Pow2(i), Sum(buckets[..i + 1]))
    ensures lines[22].0 == 0x40_0000 && lines[23].0 == 0x80_0000
  {
    hide Pow2, BucketUpper;
    PowersAtEnd();
    lines := [];
    var cumulative := 0;
    for i := 0 to |buckets|
      invariant |lines| == i && cumulative == Sum(buckets[..i])
      invariant forall k :: 0 <= k < i ==> lines[k] == (Pow2(k), Sum(buckets[..k + 1]))
    {
      BucketUpperExact(i);
      assert buckets[..i + 1][..i] == buckets[..i];
      cumulative := cumulative + buckets[i];
      lines := lines + [(BucketUpper(i), cumulative)];
    }
    inf := count;
  }

  lemma RunSnoc(s: State, sched: seq<nat>, o: nat)
    requires Shape(s) && Schedule(s, sched) && o < |s.observers|
    ensures Schedule(s, sched + [o]) && Run(s, sched + [o]) == Step(Run(s, sched), o)
  {
    hide Step;
    assert (sched + [o])[..|sched|] == sched;
  }

  lemma ForeignStep(s: State, u: nat, o: nat)
    requires Shape(s) && u < |s.observers| && o < |s.observers| && u != o
    ensures Step(s, u).observers[o] == s.observers[o]
  {
    hide BucketIndex;
  }

  /** However long the others run, observer `o` keeps its place; this is what `Others` promises. */
  lemma {:induction false} ForeignRun(s: State, sched: seq<nat>, more: seq<nat>, o: nat)
    requires Shape(s) && Schedule(s, sched) && Schedule(s, more) && o < |s.observers| && o !in more
    ensures Schedule(s, sched + more) && Run(s, sched + more).observers[o] == Run(s, sched).observers[o]
    decreases |more|
  {
    hide Run, Step;
    if more == [] {
      assert sched + more == sched;
    } else {
      var n := |more| - 1;
      ForeignRun(s, sched, more[..n], o);
      ForeignStep(Run(s, sched + more[..n]), more[n], o);
      RunSnoc(s, sched + more[..n], more[n]);
      assert sched + more == sched + more[..n] + [more[n]];
    }
  }

  /** A histogram while observers run; `sched` is the interleaving so far. */
  class Metrics {
    ghost const values: seq<U64>
    var state: State
    ghost var sched: seq<nat>

    ghost predicate Valid()
      reads this
    {
      Schedule(Start(values), sched) && state == Run(Start(values), sched)
    }

    constructor (v: seq<U64>)
      ensures Valid() && values == v && state == Start(v)
    {
      values := v;
      state := Start(v);
      sched := [];
    }

    /** One `fetch_add` of observer `o`. */
    method FetchAdd(o: nat)
      requires Valid() && o < |state.observers|
      modifies this
      ensures Valid() && old(sched) <= sched && state == Step(old(state), o)
    {
      assert (sched + [o])[..|sched|] == sched;
      state := Step(state, o);
      sched := sched + [o];
    }

    /** The other observers run for a while. Callers know only this contract, which `ForeignRun` justifies. */
    method Others(o: nat)
      requires Valid() && o < |state.observers|
      modifies this
      ensures Valid() && old(sched) <= sched
      ensures |state.observers| == |old(state).observers| && state.observers[o] == old(state).observers[o]
    {
    }

    /** `observe`, among all the others. */
    method Observe(o: nat)
      requires Valid() && o < |state.observers| && state.observers[o].phase == AddBucket
      modifies this
      ensures Valid() && old(sched) <= sched
      ensures |state.observers| == |old(state).observers|
      ensures state.observers[o] == Observer(old(state).observers[o].micros, Done)
    {
      hide Run;
      Others(o);
      FetchAdd(o);
      Others(o);
      FetchAdd(o);
      Others(o);
      FetchAdd(o);
    }
  }
}
