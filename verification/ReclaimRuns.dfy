/** Runs of the reclamation machine: any interleaving of host threads, driver outcomes and GPU progress. */
module ReclaimRuns {
  import opened Common
  import opened StreamPool
  import opened Reclaim
  import opened ReclaimInvariant
  import opened ReclaimSteps

  /** Taking `steps` one after the other leads from `s` to `s'`. */
  ghost predicate Reaches(s: State, steps: seq<Step>, s': State)
    decreases |steps|
  {
    if steps == [] then s' == s
    else Enabled(s, steps[0]) && Reaches(Apply(s, steps[0]), steps[1..], s')
  }

  /** The state before the last step of a run. */
  lemma {:induction false} SplitLast(s: State, steps: seq<Step>, s': State) returns (before: State)
    requires steps != [] && Reaches(s, steps, s')
    ensures Reaches(s, steps[..|steps| - 1], before)
    ensures Enabled(before, steps[|steps| - 1]) && s' == Apply(before, steps[|steps| - 1])
    decreases |steps|
  {
    hide Enabled, Apply;
    if |steps| == 1 {
      before := s;
    } else {
      before := SplitLast(Apply(s, steps[0]), steps[1..], s');
      var init := steps[..|steps| - 1];
      assert init[0] == steps[0] && init[1..] == steps[1..][..|steps| - 2];
    }
  }

  /** Runs compose. */
  lemma {:induction false} ReachesConcat(s: State, first: seq<Step>, mid: State, second: seq<Step>, s': State)
    requires Reaches(s, first, mid) && Reaches(mid, second, s')
    ensures Reaches(s, first + second, s')
    decreases |first|
  {
    hide Enabled, Apply;
    if first == [] {
      assert first + second == second;
    } else {
      ReachesConcat(Apply(s, first[0]), first[1..], mid, second, s');
      assert (first + second)[1..] == first[1..] + second;
    }
  }

  lemma ReachesStep(s: State, steps: seq<Step>, mid: State, step: Step)
    requires Reaches(s, steps, mid) && Enabled(mid, step)
    ensures Reaches(s, steps + [step], Apply(mid, step))
  {
    hide Enabled, Apply;
    assert Reaches(Apply(mid, step), [], Apply(mid, step));
    assert [step][1..] == [];
    ReachesConcat(s, steps, mid, [step], Apply(mid, step));
  }

  /** Every state of every run satisfies the invariant. */
  lemma {:induction false} RunKeepsInv(s: State, steps: seq<Step>, s': State)
    requires Inv(s) && Reaches(s, steps, s')
    ensures Inv(s')
    decreases |steps|
  {
    hide Enabled, Apply, Inv;
    if steps != [] {
      StepKeeps(s, steps[0]);
      RunKeepsInv(Apply(s, steps[0]), steps[1..], s');
    }
  }

  // ---- What one step can change ---------------------------------------------

  lemma StreamEffect(s: State, st: StreamStep)
    requires StreamEnabled(s, st)
    ensures var s' := StreamApply(s, st);
      && s'.blocks == s.blocks && s'.events == s.events && s'.nextEvent == s.nextEvent
      && s'.ctxSyncFailed == s.ctxSyncFailed
      && (forall t :: t in s.streams ==> t in s'.streams && s'.streams[t].issued == s.streams[t].issued)
      && (forall t :: t in s'.streams && t !in s.streams ==> s'.streams[t].issued == 0)
  {
  }

  lemma BufferEffect(s: State, bu: BufferStep)
    requires BufferEnabled(s, bu)
    ensures var s' := BufferApply(s, bu);
      && s'.ctxs == s.ctxs && s'.pool == s.pool && s'.events == s.events && s'.nextEvent == s.nextEvent
      && s'.ctxSyncFailed == s.ctxSyncFailed && s'.streams.Keys == s.streams.Keys
      && (bu.Enqueue? ==> bu.t in s.streams)
      && (forall t :: t in s.streams ==> s'.streams[t].issued ==
                                           s.streams[t].issued + if bu.Enqueue? && bu.t == t then 1 else 0)
  {
    match bu
    case Enqueue(t, touched) =>
    case Drop(b) =>
    case _ =>
  }

  /** A buffer step remembers every earlier operation of every block; only an enqueue adds one. */
  lemma BufferUse(s: State, bu: BufferStep, b: Block)
    requires BufferEnabled(s, bu) && b in s.blocks
    ensures b in BufferApply(s, bu).blocks && BufferApply(s, bu).blocks[b].escaped == s.blocks[b].escaped
    ensures BufferApply(s, bu).blocks[b].use ==
              if bu.Enqueue? && b in bu.touched then s.blocks[b].use[bu.t := s.streams[bu.t].issued + 1]
              else s.blocks[b].use
  {
    match bu
    case Enqueue(t, touched) => assert b in touched ==> IsLive(s, b);
    case _ =>
  }

  lemma BufferNew(s: State, bu: BufferStep, b: Block)
    requires BufferEnabled(s, bu) && b !in s.blocks && b in BufferApply(s, bu).blocks
    ensures !BufferApply(s, bu).blocks[b].escaped
  {
  }

  lemma EventEffect(s: State, ev: EventStep)
    requires EventEnabled(s, ev)
    ensures var s' := EventApply(s, ev);
      && s'.ctxs == s.ctxs && s'.pool == s.pool && s'.streams == s.streams
      && s'.ctxSyncFailed == s.ctxSyncFailed && s'.blocks.Keys == s.blocks.Keys
      && ev.b in s.blocks && (forall o :: o in s.blocks && o != ev.b ==> s'.blocks[o] == s.blocks[o])
      && s'.blocks[ev.b].use == s.blocks[ev.b].use
      && s'.blocks[ev.b].escaped == (s.blocks[ev.b].escaped || (ev.ForceSync? && !ev.ok))
  {
    match ev
    case EventCreate(b, ok) =>
    case EventRecord(b, ok) =>
    case EventQuery(b, ok) =>
    case EventDestroy(b) =>
    case ForceSync(b, ok) =>
  }

  lemma WaitEffect(s: State, wa: WaitStep)
    requires WaitEnabled(s, wa)
    ensures var s' := WaitApply(s, wa);
      && s'.ctxs == s.ctxs && s'.pool == s.pool && s'.streams == s.streams && s'.events == s.events
      && s'.nextEvent == s.nextEvent
      && s'.ctxSyncFailed == (s.ctxSyncFailed || (wa.CtxFenceReturn? && !wa.ok))
      && s'.blocks.Keys == s.blocks.Keys
      && (forall b :: b in s.blocks ==>
            && s'.blocks[b].use == s.blocks[b].use
            && (s'.blocks[b].escaped ==> s.blocks[b].escaped || (wa.CtxFenceReturn? && !wa.ok)))
  {
    match wa
    case SweepTake(bs) => assert forall b :: b in bs ==> IsListed(s, b);
    case _ =>
  }

  /** The step's effect on one stream, one block and the failure flag, whatever the step is. */
  lemma StepEffect(s: State, step: Step)
    requires Enabled(s, step)
    ensures var s' := Apply(s, step);
      && s'.ctxSyncFailed == (s.ctxSyncFailed || FailedCtxSync(step))
      && (IsEnqueue(step) ==> step.bu.t in s.streams)
      && (forall t :: t in s.streams ==>
            && t in s'.streams
            && s'.streams[t].issued == s.streams[t].issued + if IsEnqueue(step) && step.bu.t == t then 1 else 0)
      && (forall t :: t in s'.streams && t !in s.streams ==> s'.streams[t].issued == 0)
  {
    hide StreamEnabled, BufferEnabled, EventEnabled, WaitEnabled, StreamApply, BufferApply, EventApply, WaitApply;
    match step
    case OnStreams(st) => StreamEffect(s, st);
    case OnBuffers(bu) => BufferEffect(s, bu);
    case OnEvents(ev) => EventEffect(s, ev);
    case OnWaits(wa) => WaitEffect(s, wa);
  }

  lemma StepBlock(s: State, step: Step, b: Block)
    requires Enabled(s, step) && b in s.blocks
    ensures var s' := Apply(s, step);
      && b in s'.blocks
      && (s'.blocks[b].escaped ==> s.blocks[b].escaped || FailedCtxSync(step) || FailedForce(step))
      && (IsEnqueue(step) ==> step.bu.t in s.streams)
      && s'.blocks[b].use ==
         if IsEnqueue(step) && b in step.bu.touched then s.blocks[b].use[step.bu.t := s.streams[step.bu.t].issued + 1]
         else s.blocks[b].use
  {
    hide StreamEnabled, BufferEnabled, EventEnabled, WaitEnabled, StreamApply, BufferApply, EventApply, WaitApply;
    match step
    case OnStreams(st) => StreamEffect(s, st);
    case OnBuffers(bu) =>
      BufferEffect(s, bu);
      BufferUse(s, bu, b);
    case OnEvents(ev) => EventEffect(s, ev);
    case OnWaits(wa) => WaitEffect(s, wa);
  }

  lemma StepNew(s: State, step: Step, b: Block)
    requires Enabled(s, step) && b !in s.blocks && b in Apply(s, step).blocks
    ensures !Apply(s, step).blocks[b].escaped
  {
    hide StreamEnabled, BufferEnabled, EventEnabled, WaitEnabled, StreamApply, BufferApply, EventApply, WaitApply;
    match step
    case OnStreams(st) => StreamEffect(s, st);
    case OnBuffers(bu) => BufferNew(s, bu, b);
    case OnEvents(ev) => EventEffect(s, ev);
    case OnWaits(wa) => WaitEffect(s, wa);
  }

  // ---- Driver failures ------------------------------------------------------

  /** A device-wide synchronisation that failed; the code only warns and goes on. */
  predicate FailedCtxSync(step: Step) {
    step.OnWaits? && step.wa.CtxFenceReturn? && !step.wa.ok
  }

  /** An `event_synchronize` of a forced reclamation that failed; the code ignores the error. */
  predicate FailedForce(step: Step) {
    step.OnEvents? && step.ev.ForceSync? && !step.ev.ok
  }

  lemma {:induction false} NoFailureFlag(s: State, steps: seq<Step>, s': State)
    requires Reaches(s, steps, s') && !s.ctxSyncFailed
    requires forall k :: 0 <= k < |steps| ==> !FailedCtxSync(steps[k])
    ensures !s'.ctxSyncFailed
    decreases |steps|
  {
    hide Enabled, Apply, FailedCtxSync;
    if steps != [] {
      StepEffect(s, steps[0]);
      NoFailureFlag(Apply(s, steps[0]), steps[1..], s');
    }
  }

  /** No block went back without its wait. */
  ghost predicate NoneEscaped(s: State) {
    forall b :: b in s.blocks ==> !s.blocks[b].escaped
  }

  lemma StepEscapes(s: State, step: Step)
    requires NoneEscaped(s) && Enabled(s, step)
    requires !FailedCtxSync(step) && !FailedForce(step)
    ensures NoneEscaped(Apply(s, step))
  {
    hide Enabled, Apply;
    forall b | b in Apply(s, step).blocks
      ensures !Apply(s, step).blocks[b].escaped
    {
      if b in s.blocks {
        StepBlock(s, step, b);
      } else {
        StepNew(s, step, b);
      }
    }
  }

  lemma {:induction false} RunEscapes(s: State, steps: seq<Step>, s': State)
    requires NoneEscaped(s) && Reaches(s, steps, s')
    requires forall k :: 0 <= k < |steps| ==> !FailedCtxSync(steps[k]) && !FailedForce(steps[k])
    ensures NoneEscaped(s')
    decreases |steps|
  {
    hide Enabled, Apply, FailedCtxSync, FailedForce, NoneEscaped;
    if steps != [] {
      StepEscapes(s, steps[0]);
      RunEscapes(Apply(s, steps[0]), steps[1..], s');
    }
  }

  // ---- What a run issued, read off its steps --------------------------------

  /** Operations enqueued on stream `t`. */
  function Issued(steps: seq<Step>, t: Stream): nat {
    if steps == [] then 0
    else
      var last := steps[|steps| - 1];
      Issued(steps[..|steps| - 1], t) + if IsEnqueue(last) && last.bu.t == t then 1 else 0
  }

  predicate IsEnqueue(step: Step) { step.OnBuffers? && step.bu.Enqueue? }

  /** Step `k` of the run enqueues an operation that touches block `b`. */
  predicate Touches(steps: seq<Step>, k: nat, b: Block) {
    k < |steps| && IsEnqueue(steps[k]) && b in steps[k].bu.touched
  }

  /** The model's counters say what the steps did to stream `t`. */
  ghost predicate CountsIssued(steps: seq<Step>, s: State, t: Stream) {
    if t in s.streams then s.streams[t].issued == Issued(steps, t) else Issued(steps, t) == 0
  }

  lemma {:induction false} IssuedIsCounted(steps: seq<Step>, s: State, t: Stream)
    requires Reaches(INIT, steps, s)
    ensures CountsIssued(steps, s, t)
    decreases |steps|
  {
    hide Enabled, Apply, IsEnqueue;
    if steps != [] {
      var before := SplitLast(INIT, steps, s);
      IssuedIsCounted(steps[..|steps| - 1], before, t);
      StepEffect(before, steps[|steps| - 1]);
    }
  }

  lemma TouchedIsKnown(s: State, step: Step, b: Block)
    requires Enabled(s, step) && IsEnqueue(step) && b in step.bu.touched
    ensures b in s.blocks
  {
    assert IsLive(s, b);
  }

  lemma UseBounded(s: State, t: Stream)
    requires Inv(s)
    ensures forall o :: o in s.blocks && t in s.blocks[o].use ==>
              t in s.streams && s.blocks[o].use[t] <= s.streams[t].issued
  {
    forall o | o in s.blocks && t in s.blocks[o].use
      ensures t in s.streams && s.blocks[o].use[t] <= s.streams[t].issued
    {
      assert BlockInv(s, o);
    }
  }

  /** `use` remembers every operation the run ever issued against the block, across all its lives. */
  lemma {:induction false} UseRemembers(steps: seq<Step>, s: State, k: nat, b: Block)
    requires Reaches(INIT, steps, s) && Touches(steps, k, b)
    ensures b in s.blocks && steps[k].bu.t in s.blocks[b].use
    ensures Issued(steps[..k + 1], steps[k].bu.t) <= s.blocks[b].use[steps[k].bu.t]
    decreases |steps|
  {
    hide Enabled, Apply, Inv;
    var n := |steps| - 1;
    var t := steps[k].bu.t;
    var before := SplitLast(INIT, steps, s);
    var init := steps[..n];
    if k == n {
      assert steps[..k + 1] == steps;
      IssuedIsCounted(init, before, t);
      TouchedIsKnown(before, steps[n], b);
      StepBlock(before, steps[n], b);
    } else {
      assert init[k] == steps[k] && init[..k + 1] == steps[..k + 1];
      UseRemembers(init, before, k, b);
      InitInv();
      RunKeepsInv(INIT, init, before);
      UseBounded(before, t);
      StepBlock(before, steps[n], b);
    }
  }

  lemma InitInv()
    ensures Inv(INIT) && NoneEscaped(INIT)
  {
  }

  // ---- Reclamation safety ---------------------------------------------------

  /** Every operation step `k` of the run issued against `b` has completed in `s`. */
  ghost predicate Completed(steps: seq<Step>, s: State, b: Block) {
    forall k: nat {:trigger Touches(steps, k, b)} :: Touches(steps, k, b) ==>
      && steps[k].bu.t in s.streams
      && Issued(steps[..k + 1], steps[k].bu.t) <= s.streams[steps[k].bu.t].done
  }

  lemma QuietIsCompleted(steps: seq<Step>, s: State, b: Block)
    requires Reaches(INIT, steps, s) && b in s.blocks && Quiet(s, b)
    ensures Completed(steps, s, b)
  {
    forall k: nat | Touches(steps, k, b)
      ensures && steps[k].bu.t in s.streams
              && Issued(steps[..k + 1], steps[k].bu.t) <= s.streams[steps[k].bu.t].done
    {
      UseRemembers(steps, s, k, b);
      assert Past(s, s.blocks[b], steps[k].bu.t);
    }
  }

  /**
   A block is in the free pool only if every operation ever issued against it,
   on every stream, has completed. Every driver call may fail, as long as the
   device-wide synchronisation succeeds whenever it is needed.
   */
  lemma FreeIsCompleted(steps: seq<Step>, s: State, b: Block)
    requires Reaches(INIT, steps, s)
    requires forall k :: 0 <= k < |steps| ==> !FailedCtxSync(steps[k])
    requires b in s.blocks && s.blocks[b].st.Free?
    ensures Completed(steps, s, b)
  {
    hide Enabled, Apply, PoolInv, EventInv, StreamInv, Completed;
    InitInv();
    RunKeepsInv(INIT, steps, s);
    NoFailureFlag(INIT, steps, s);
    assert BlockInv(s, b);
    assert Quiet(s, b);
    QuietIsCompleted(steps, s, b);
  }

  /** The same for memory handed back to the driver, if no forced wait failed either. */
  lemma ReleasedIsCompleted(steps: seq<Step>, s: State, b: Block)
    requires Reaches(INIT, steps, s)
    requires forall k :: 0 <= k < |steps| ==> !FailedCtxSync(steps[k]) && !FailedForce(steps[k])
    requires b in s.blocks && s.blocks[b].st.Released?
    ensures Completed(steps, s, b)
  {
    hide Enabled, Apply, PoolInv, EventInv, StreamInv, Completed;
    InitInv();
    RunKeepsInv(INIT, steps, s);
    RunEscapes(INIT, steps, s);
    assert BlockInv(s, b);
    assert Quiet(s, b);
    QuietIsCompleted(steps, s, b);
  }

  /** A buffer just allocated starts on a block no earlier operation can still write. */
  lemma AllocIsExclusive(steps: seq<Step>, s: State, step: Step)
    requires Reaches(INIT, steps, s) && Enabled(s, step)
    requires forall k :: 0 <= k < |steps| ==> !FailedCtxSync(steps[k])
    requires step.OnBuffers? && (step.bu.AllocPooled? || step.bu.AllocFresh?)
    ensures Completed(steps, s, step.bu.b)
    ensures Apply(s, step).blocks[step.bu.b].st == Live([], {})
  {
    var b := step.bu.b;
    if step.bu.AllocPooled? {
      FreeIsCompleted(steps, s, b);
    } else {
      forall k: nat | Touches(steps, k, b)
        ensures false
      {
        UseRemembers(steps, s, k, b);
      }
    }
  }

  // ---- Streams stay alive while they are named ------------------------------

  /** `t` exists, belongs to context `c` and was not destroyed. */
  predicate Alive(s: State, t: Stream, c: Ctx) {
    t in s.streams && s.streams[t].owner == c && !s.streams[t].destroyed
  }

  /** No stream named by a buffer's set, or still to be tagged on it, was destroyed. */
  lemma NamedStreamsAlive(steps: seq<Step>, s: State, b: Block, t: Stream)
    requires Reaches(INIT, steps, s) && b in s.blocks && InBuffer(s.blocks[b].st)
    requires t in s.blocks[b].st.used || (s.blocks[b].st.Live? && t in s.blocks[b].st.untagged)
    ensures Alive(s, t, s.blocks[b].ctx)
  {
    hide Enabled, Apply, PoolInv, EventInv, Protected;
    InitInv();
    RunKeepsInv(INIT, steps, s);
    assert BlockInv(s, b);
    assert OwnedStream(s, s.blocks[b], t);
  }

  /** No stream behind a recorded event, parked or not, was destroyed. */
  lemma ParkedStreamsAlive(steps: seq<Step>, s: State, b: Block, e: EventId)
    requires Reaches(INIT, steps, s) && b in s.blocks && s.blocks[b].st.Parked? && e in s.blocks[b].st.events
    ensures e in s.events && s.events[e].owner == b && Alive(s, s.events[e].stream, s.blocks[b].ctx)
  {
    hide Enabled, Apply, PoolInv, EventInv, Protected;
    InitInv();
    RunKeepsInv(INIT, steps, s);
    assert BlockInv(s, b);
    assert Located(s, s.blocks[b], e);
    assert e in OwnEvents(s.blocks[b].st);
  }

  /** The handle the next `acquire` under context `c` returns. */
  function NextHandle(s: State, c: Ctx): Stream
    requires HasPooled(s, c)
  {
    s.pool[LastOwned(s.pool, c).value].raw
  }

  /** `acquire` never hands out a foreign, used or destroyed stream, and hands it out once. */
  lemma AcquireIsExclusive(steps: seq<Step>, s: State, c: Ctx)
    requires Reaches(INIT, steps, s) && CanAcquire(s, c)
    ensures var t := NextHandle(s, c);
      && Alive(s, t, c) && !s.streams[t].held && !s.streams[t].isNull
      && DoAcquire(s, c).streams[t].held
      && forall e :: e in DoAcquire(s, c).pool ==> e.raw != t
  {
    InitInv();
    RunKeepsInv(INIT, steps, s);
    var pos := LastOwned(s.pool, c).value;
    var p' := SwapRemove(s.pool, pos);
    forall j | 0 <= j < |p'|
      ensures p'[j].raw != s.pool[pos].raw
    {
      assert p'[j] == if j == pos then s.pool[|s.pool| - 1] else s.pool[j];
    }
  }
}
