/**
 When the stream pool is bounded by use: the streams minted for a context were
 once all in use there at the same time, exactly if none was minted while a
 stream of the context lay in the pool under the unknown tag.
 */
module StreamPeak {
  import opened Common
  import opened StreamPool
  import opened Reclaim
  import opened ReclaimInvariant
  import opened ReclaimRuns

  /** Streams ever minted for context `c`. */
  function Minted(s: State, c: Ctx): set<Stream> {
    set t | t in s.streams && s.streams[t].owner == c && !s.streams[t].isNull
  }

  /** Streams of context `c` in use. */
  function InUse(s: State, c: Ctx): set<Stream> {
    set t | t in s.streams && s.streams[t].owner == c && !s.streams[t].isNull && s.streams[t].held
  }

  /** A stream is minted only when `acquire` fails. */
  predicate Thrifty(s: State, step: Step) {
    match step
    case OnStreams(Mint(c, _)) => !HasPooled(s, c)
    case _ => true
  }

  /** A run in which every mint follows a failed `acquire`; a release may carry its owner's tag or none. */
  ghost predicate ThriftyRun(s: State, steps: seq<Step>, s': State)
    decreases |steps|
  {
    if steps == [] then s' == s
    else
      && Enabled(s, steps[0]) && Thrifty(s, steps[0])
      && ThriftyRun(Apply(s, steps[0]), steps[1..], s')
  }

  /** The pool holds a stream of `c` under the unknown tag. */
  ghost predicate Lost(s: State, c: Ctx) {
    exists t :: PooledStream(t, 0) in s.pool && t in s.streams && s.streams[t].owner == c
  }

  predicate Mints(step: Step, c: Ctx) { step.OnStreams? && step.st.Mint? && step.st.c == c }

  /** Some step of the run mints a stream for `c` while another one of `c` is lost. */
  ghost predicate MintsPastLost(s: State, steps: seq<Step>, c: Ctx)
    decreases |steps|
  {
    && steps != [] && Enabled(s, steps[0])
    && ((Mints(steps[0], c) && Lost(s, c)) || MintsPastLost(Apply(s, steps[0]), steps[1..], c))
  }

  /** While its context runs, a stream is in use or waits in the pool, under its owner's tag or the unknown one. */
  ghost predicate PoolTagged(s: State) {
    forall t {:trigger s.streams[t]} :: t in s.streams && !s.streams[t].isNull && !s.streams[t].held
      && s.streams[t].owner in s.ctxs && s.ctxs[s.streams[t].owner] == Running
      ==> PooledStream(t, s.streams[t].owner) in s.pool || PooledStream(t, 0) in s.pool
  }

  lemma {:induction false} LastOwnedFinds(pool: seq<PooledStream>, e: PooledStream)
    requires e in pool
    ensures LastOwned(pool, e.ctx).Some?
  {
    if pool[|pool| - 1].ctx != e.ctx {
      LastOwnedFinds(pool[..|pool| - 1], e);
    }
  }

  /** When `acquire` fails, every stream of the context is in use exactly if none is lost. */
  lemma AcquireFailsAtPeak(s: State, c: Ctx)
    requires PoolInv(s) && PoolTagged(s) && IsRunning(s, c) && !HasPooled(s, c)
    ensures Minted(s, c) == InUse(s, c) <==> !Lost(s, c)
  {
    if Lost(s, c) {
      var t :| PooledStream(t, 0) in s.pool && t in s.streams && s.streams[t].owner == c;
      assert t in Minted(s, c) && t !in InUse(s, c);
    } else {
      forall t | t in Minted(s, c)
        ensures t in InUse(s, c)
      {
        if !s.streams[t].held {
          assert PooledStream(t, c) in s.pool;
          LastOwnedFinds(s.pool, PooledStream(t, c));
          assert false;
        }
      }
    }
  }

  // ---- Every step keeps the tags --------------------------------------------

  /** Taking one entry out keeps every other entry. */
  lemma SwapRemoveKeeps(pool: seq<PooledStream>, pos: nat, e: PooledStream)
    requires pos < |pool| && e in pool && e != pool[pos]
    ensures e in SwapRemove(pool, pos)
  {
    var k :| 0 <= k < |pool| && pool[k] == e;
    var r := SwapRemove(pool, pos);
    if k == |pool| - 1 {
      assert r[pos] == e;
    } else {
      assert r[k] == e;
    }
  }

  lemma PooledStays(pool: seq<PooledStream>, pos: nat, t: Stream, owner: Ctx)
    requires pos < |pool| && t != pool[pos].raw
    requires PooledStream(t, owner) in pool || PooledStream(t, 0) in pool
    ensures PooledStream(t, owner) in SwapRemove(pool, pos) || PooledStream(t, 0) in SwapRemove(pool, pos)
  {
    SwapRemoveKeeps(pool, pos, if PooledStream(t, owner) in pool then PooledStream(t, owner) else PooledStream(t, 0));
  }

  lemma AcquireKeepsTags(s: State, c: Ctx)
    requires PoolTagged(s) && CanAcquire(s, c)
    ensures PoolTagged(DoAcquire(s, c))
  {
    var s' := DoAcquire(s, c);
    var pos := LastOwned(s.pool, c).value;
    forall t | t in s'.streams && !s'.streams[t].isNull && !s'.streams[t].held
               && s'.streams[t].owner in s'.ctxs && s'.ctxs[s'.streams[t].owner] == Running
      ensures PooledStream(t, s'.streams[t].owner) in s'.pool || PooledStream(t, 0) in s'.pool
    {
      assert t != s.pool[pos].raw && s'.streams[t] == s.streams[t];
      PooledStays(s.pool, pos, t, s.streams[t].owner);
    }
  }

  lemma DestroyKeepsTags(s: State, c: Ctx)
    requires PoolInv(s) && PoolTagged(s) && CanDestroyStream(s, c)
    ensures PoolTagged(DoDestroyStream(s, c))
  {
    var s' := DoDestroyStream(s, c);
    var pos := LastOwned(s.pool, c).value;
    forall t | t in s'.streams && !s'.streams[t].isNull && !s'.streams[t].held
               && s'.streams[t].owner in s'.ctxs && s'.ctxs[s'.streams[t].owner] == Running
      ensures PooledStream(t, s'.streams[t].owner) in s'.pool || PooledStream(t, 0) in s'.pool
    {
      assert s.pool[pos].ctx == c && s.streams[s.pool[pos].raw].owner == c;
      assert t != s.pool[pos].raw && s'.streams[t] == s.streams[t];
      PooledStays(s.pool, pos, t, s.streams[t].owner);
    }
  }

  lemma StreamStepKeepsTags(s: State, st: StreamStep)
    requires StreamInv(s) && PoolInv(s) && PoolTagged(s)
    requires StreamEnabled(s, st)
    ensures PoolTagged(StreamApply(s, st))
  {
    match st
    case AcquireStream(c) => AcquireKeepsTags(s, c);
    case DestroyStream(c) => DestroyKeepsTags(s, c);
    case ReleaseStream(t, tag) =>
      var s' := DoRelease(s, t, tag);
      assert s'.pool[|s.pool|] == PooledStream(t, tag);
      assert forall e :: e in s.pool ==> e in s'.pool;
    case _ =>
  }

  lemma EnqueueKeepsTags(s: State, bu: BufferStep)
    requires PoolTagged(s) && BufferEnabled(s, bu)
    ensures PoolTagged(BufferApply(s, bu))
  {
    match bu
    case Enqueue(t, touched) =>
    case _ =>
  }

  lemma StepKeepsTags(s: State, step: Step)
    requires StreamInv(s) && PoolInv(s) && PoolTagged(s) && Enabled(s, step)
    ensures PoolTagged(Apply(s, step))
  {
    hide StreamEnabled, BufferEnabled, EventEnabled, WaitEnabled, StreamApply, BufferApply, EventApply, WaitApply;
    match step
    case OnStreams(st) => StreamStepKeepsTags(s, st);
    case OnBuffers(bu) => EnqueueKeepsTags(s, bu);
    case OnEvents(ev) => EventEffect(s, ev);
    case OnWaits(wa) => WaitEffect(s, wa);
  }

  // ---- Minting --------------------------------------------------------------

  lemma StreamStepMints(s: State, st: StreamStep, c: Ctx)
    requires StreamEnabled(s, st)
    ensures Minted(StreamApply(s, st), c) ==
              Minted(s, c) + if Mints(OnStreams(st), c) then {st.t} else {}
    ensures Mints(OnStreams(st), c) ==> st.t !in Minted(s, c)
    ensures Mints(OnStreams(st), c) ==> InUse(StreamApply(s, st), c) == InUse(s, c) + {st.t}
  {
    match st
    case NewContext(_, _) =>
    case Mint(_, _) =>
    case DestroyContext(_) =>
    case _ =>
  }

  lemma EnqueueMints(s: State, bu: BufferStep, c: Ctx)
    requires BufferEnabled(s, bu)
    ensures Minted(BufferApply(s, bu), c) == Minted(s, c)
  {
    match bu
    case Enqueue(t, touched) =>
    case _ =>
  }

  /** Only `Mint` adds a stream, and it adds one that is in use. */
  lemma StepMints(s: State, step: Step, c: Ctx)
    requires Enabled(s, step)
    ensures Minted(Apply(s, step), c) == Minted(s, c) + if Mints(step, c) then {step.st.t} else {}
    ensures Mints(step, c) ==> step.st.t !in Minted(s, c)
    ensures Mints(step, c) ==> InUse(Apply(s, step), c) == InUse(s, c) + {step.st.t}
  {
    hide StreamEnabled, BufferEnabled, EventEnabled, WaitEnabled, StreamApply, BufferApply, EventApply, WaitApply;
    match step
    case OnStreams(st) => StreamStepMints(s, st, c);
    case OnBuffers(bu) => EnqueueMints(s, bu, c);
    case OnEvents(ev) => EventEffect(s, ev);
    case OnWaits(wa) => WaitEffect(s, wa);
  }

  function MintCount(steps: seq<Step>, c: Ctx): nat {
    if steps == [] then 0
    else (if Mints(steps[0], c) then 1 else 0) + MintCount(steps[1..], c)
  }

  // ---- The bound ------------------------------------------------------------

  /** Some state of the run, reached by its first `k` steps, has all of `ts` in use in `c`. */
  ghost predicate OnceInUse(s: State, steps: seq<Step>, c: Ctx, ts: set<Stream>) {
    exists k: nat, mid: State :: k <= |steps| && Reaches(s, steps[..k], mid) && InUse(mid, c) == ts
  }

  lemma OnceInUseLater(s: State, steps: seq<Step>, c: Ctx, ts: set<Stream>)
    requires steps != [] && Enabled(s, steps[0])
    requires OnceInUse(Apply(s, steps[0]), steps[1..], c, ts)
    ensures OnceInUse(s, steps, c, ts)
  {
    hide Enabled, Apply, InUse;
    var k: nat, mid: State :|
      k <= |steps[1..]| && Reaches(Apply(s, steps[0]), steps[1..][..k], mid) && InUse(mid, c) == ts;
    assert steps[..k + 1][1..] == steps[1..][..k];
    assert Reaches(s, steps[..k + 1], mid);
  }

  lemma OnceInUseNow(s: State, steps: seq<Step>, c: Ctx)
    ensures OnceInUse(s, steps, c, InUse(s, c))
  {
    assert Reaches(s, steps[..0], s);
  }

  /** The streams minted by the end were all minted already, or all in use at one moment of the rest of the run. */
  lemma {:induction false} PeakFrom(s: State, steps: seq<Step>, s': State, c: Ctx)
    requires Inv(s) && PoolTagged(s) && ThriftyRun(s, steps, s') && !MintsPastLost(s, steps, c)
    ensures Minted(s', c) == Minted(s, c) || OnceInUse(s, steps, c, Minted(s', c))
    decreases |steps|
  {
    hide Enabled, Apply, Inv, PoolTagged, Minted, InUse, Lost;
    if steps != [] {
      var s1 := Apply(s, steps[0]);
      ReclaimSteps.StepKeeps(s, steps[0]);
      TagsAfter(s, steps[0]);
      PeakFrom(s1, steps[1..], s', c);
      StepMints(s, steps[0], c);
      if OnceInUse(s1, steps[1..], c, Minted(s', c)) {
        OnceInUseLater(s, steps, c, Minted(s', c));
      } else if Mints(steps[0], c) {
        MintAtPeak(s, steps[0], c);
        OnceInUseNow(s1, steps[1..], c);
        OnceInUseLater(s, steps, c, Minted(s', c));
      }
    }
  }

  lemma TagsAfter(s: State, step: Step)
    requires Inv(s) && PoolTagged(s) && Enabled(s, step)
    ensures PoolTagged(Apply(s, step))
  {
    hide Enabled, Apply, PoolTagged, StreamInv, PoolInv, BlockInv;
    StepKeepsTags(s, step);
  }

  lemma MintAtPeak(s: State, step: Step, c: Ctx)
    requires Inv(s) && PoolTagged(s) && Enabled(s, step) && Thrifty(s, step) && Mints(step, c) && !Lost(s, c)
    ensures Minted(Apply(s, step), c) == InUse(Apply(s, step), c)
  {
    hide BlockInv, PoolTagged, Minted, InUse, Lost;
    AcquireFailsAtPeak(s, c);
    StepMints(s, step, c);
  }

  // ---- A lost stream stays lost ---------------------------------------------

  lemma StreamStepKeepsLost(s: State, st: StreamStep, t: Stream)
    requires StreamInv(s) && StreamEnabled(s, st) && PooledStream(t, 0) in s.pool
    ensures PooledStream(t, 0) in StreamApply(s, st).pool
  {
    match st
    case AcquireStream(c) => SwapRemoveKeeps(s.pool, LastOwned(s.pool, c).value, PooledStream(t, 0));
    case DestroyStream(c) => SwapRemoveKeeps(s.pool, LastOwned(s.pool, c).value, PooledStream(t, 0));
    case _ =>
  }

  lemma BufferStepKeepsPool(s: State, bu: BufferStep)
    requires BufferEnabled(s, bu)
    ensures BufferApply(s, bu).pool == s.pool
  {
    match bu
    case _ =>
  }

  /** Neither `acquire` nor a drain takes an entry under the unknown tag. */
  lemma StepKeepsLost(s: State, step: Step, t: Stream)
    requires StreamInv(s) && Enabled(s, step) && PooledStream(t, 0) in s.pool
    ensures PooledStream(t, 0) in Apply(s, step).pool
  {
    hide StreamEnabled, BufferEnabled, EventEnabled, WaitEnabled, StreamApply, BufferApply, EventApply, WaitApply;
    match step
    case OnStreams(st) => StreamStepKeepsLost(s, st, t);
    case OnBuffers(bu) => BufferStepKeepsPool(s, bu);
    case OnEvents(ev) => EventEffect(s, ev);
    case OnWaits(wa) => WaitEffect(s, wa);
  }

  lemma {:induction false} LostForever(s: State, steps: seq<Step>, s': State, t: Stream)
    requires Inv(s) && Reaches(s, steps, s') && PooledStream(t, 0) in s.pool
    ensures Inv(s') && PooledStream(t, 0) in s'.pool
    decreases |steps|
  {
    hide Enabled, Apply, StreamInv, PoolInv, BlockInv;
    if steps != [] {
      ReclaimSteps.StepKeeps(s, steps[0]);
      StepKeepsLost(s, steps[0], t);
      LostForever(Apply(s, steps[0]), steps[1..], s', t);
    }
  }

  /** A lost stream is never in use again. */
  lemma LostIsUnused(s: State, steps: seq<Step>, s': State, t: Stream, c: Ctx)
    requires Inv(s) && Reaches(s, steps, s') && PooledStream(t, 0) in s.pool
    ensures t !in InUse(s', c)
  {
    hide Reaches, StreamInv, BlockInv;
    LostForever(s, steps, s', t);
    var k :| 0 <= k < |s'.pool| && s'.pool[k] == PooledStream(t, 0);
    assert !s'.streams[s'.pool[k].raw].held;
  }

  /** Minted streams stay minted, and every mint adds one. */
  lemma {:induction false} MintedGrows(s: State, steps: seq<Step>, s': State, c: Ctx)
    requires Reaches(s, steps, s')
    ensures Minted(s, c) <= Minted(s', c) && |Minted(s', c)| == |Minted(s, c)| + MintCount(steps, c)
    decreases |steps|
  {
    hide Enabled, Apply, Minted, InUse;
    if steps != [] {
      StepMints(s, steps[0], c);
      MintedGrows(Apply(s, steps[0]), steps[1..], s', c);
    }
  }

  lemma {:induction false} PastLostMints(s: State, steps: seq<Step>, c: Ctx)
    requires MintsPastLost(s, steps, c)
    ensures MintCount(steps, c) > 0
    decreases |steps|
  {
    hide Enabled, Apply, Lost;
    if !Mints(steps[0], c) {
      PastLostMints(Apply(s, steps[0]), steps[1..], c);
    }
  }

  /** At no moment before a mint are all the streams minted by the end in use. */
  lemma NotYetMinted(s: State, steps: seq<Step>, s': State, c: Ctx)
    requires Reaches(s, steps, s') && MintCount(steps, c) > 0
    ensures InUse(s, c) != Minted(s', c)
  {
    hide Reaches;
    MintedGrows(s, steps, s', c);
    assert InUse(s, c) <= Minted(s, c);
  }

  /** A mint past a lost stream: before it the new stream does not exist, after it the lost one is not in use. */
  lemma PastLostNow(s: State, steps: seq<Step>, s': State, c: Ctx, k: nat, mid: State)
    requires Inv(s) && Reaches(s, steps, s') && steps != [] && Mints(steps[0], c) && Lost(s, c)
    requires k <= |steps| && Reaches(s, steps[..k], mid)
    ensures InUse(mid, c) != Minted(s', c)
  {
    var t :| PooledStream(t, 0) in s.pool && t in s.streams && s.streams[t].owner == c;
    assert t in Minted(s, c) by {
      var i :| 0 <= i < |s.pool| && s.pool[i] == PooledStream(t, 0);
      assert !s.streams[s.pool[i].raw].isNull;
    }
    MintedGrows(s, steps, s', c);
    LostIsUnused(s, steps[..k], mid, t, c);
  }

  lemma {:induction false} PastLostFrom(s: State, steps: seq<Step>, s': State, c: Ctx)
    requires Inv(s) && Reaches(s, steps, s') && MintsPastLost(s, steps, c)
    ensures !OnceInUse(s, steps, c, Minted(s', c))
    decreases |steps|
  {
    hide Enabled, Apply, Inv, Minted, InUse, Lost;
    forall k: nat, mid: State | k <= |steps| && Reaches(s, steps[..k], mid)
      ensures InUse(mid, c) != Minted(s', c)
    {
      if Mints(steps[0], c) && Lost(s, c) {
        PastLostNow(s, steps, s', c, k, mid);
      } else if k == 0 {
        PastLostMints(s, steps, c);
        NotYetMinted(s, steps, s', c);
      } else {
        var s1 := Apply(s, steps[0]);
        ReclaimSteps.StepKeeps(s, steps[0]);
        PastLostFrom(s1, steps[1..], s', c);
        assert steps[..k][1..] == steps[1..][..k - 1];
        assert Reaches(s1, steps[1..][..k - 1], mid);
      }
    }
  }

  lemma {:induction false} ThriftyReaches(s: State, steps: seq<Step>, s': State)
    requires ThriftyRun(s, steps, s')
    ensures Reaches(s, steps, s')
    decreases |steps|
  {
    hide Enabled, Apply, Thrifty;
    if steps != [] {
      ThriftyReaches(Apply(s, steps[0]), steps[1..], s');
    }
  }

  /**
   At some moment of the run every stream ever minted for `c` was in use at once,
   exactly if none was minted for `c` while one of its streams lay in the pool
   under the unknown tag.
   */
  lemma PeakExact(steps: seq<Step>, s: State, c: Ctx)
    requires ThriftyRun(INIT, steps, s)
    ensures OnceInUse(INIT, steps, c, Minted(s, c)) <==> !MintsPastLost(INIT, steps, c)
    ensures MintCount(steps, c) == |Minted(s, c)|
  {
    InitInv();
    ThriftyReaches(INIT, steps, s);
    assert Minted(INIT, c) == {} == InUse(INIT, c);
    MintedGrows(INIT, steps, s, c);
    if MintsPastLost(INIT, steps, c) {
      PastLostFrom(INIT, steps, s, c);
    } else {
      PeakFrom(INIT, steps, s, c);
      OnceInUseNow(INIT, steps, c);
    }
  }

  // ---- Releases under the owner's tag ---------------------------------------

  /** The step releases a stream under its owner's tag, or releases none. */
  predicate OwnerTagged(step: Step) { step.OnStreams? && step.st.ReleaseStream? ==> step.st.tag != 0 }

  lemma StreamStepKeepsKnown(s: State, st: StreamStep)
    requires StreamEnabled(s, st) && OwnerTagged(OnStreams(st)) && forall e :: e in s.pool ==> e.ctx != 0
    ensures forall e :: e in StreamApply(s, st).pool ==> e.ctx != 0
  {
    match st
    case _ =>
  }

  lemma StepKeepsKnown(s: State, step: Step)
    requires Enabled(s, step) && OwnerTagged(step) && forall e :: e in s.pool ==> e.ctx != 0
    ensures forall e :: e in Apply(s, step).pool ==> e.ctx != 0
  {
    hide StreamEnabled, BufferEnabled, EventEnabled, WaitEnabled, StreamApply, BufferApply, EventApply, WaitApply;
    match step
    case OnStreams(st) => StreamStepKeepsKnown(s, st);
    case OnBuffers(bu) => BufferStepKeepsPool(s, bu);
    case OnEvents(ev) => EventEffect(s, ev);
    case OnWaits(wa) => WaitEffect(s, wa);
  }

  lemma {:induction false} KnownNeverLost(s: State, steps: seq<Step>, c: Ctx)
    requires forall e :: e in s.pool ==> e.ctx != 0
    requires forall k :: 0 <= k < |steps| ==> OwnerTagged(steps[k])
    ensures !MintsPastLost(s, steps, c)
    decreases |steps|
  {
    hide Enabled, Apply, OwnerTagged;
    if steps != [] && Enabled(s, steps[0]) {
      StepKeepsKnown(s, steps[0]);
      KnownNeverLost(Apply(s, steps[0]), steps[1..], c);
    }
  }

  /**
   When every release carries its owner's tag, every stream ever minted for `c`
   was in use at one moment, so the mints for `c` never exceed the peak in use.
   */
  lemma MintedAtMostPeak(steps: seq<Step>, s: State, c: Ctx)
    requires ThriftyRun(INIT, steps, s) && forall k :: 0 <= k < |steps| ==> OwnerTagged(steps[k])
    ensures OnceInUse(INIT, steps, c, Minted(s, c))
    ensures MintCount(steps, c) == |Minted(s, c)|
  {
    KnownNeverLost(INIT, steps, c);
    PeakExact(steps, s, c);
  }
}
