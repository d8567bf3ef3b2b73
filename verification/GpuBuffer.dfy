/**
 `GpuBuffer` and the pending-free list as the host code runs them: loops over
 streams and events, one driver call at a time, with the rest of the process
 taking steps in between.
 */
module GpuBuffer {
  import opened Common
  import opened StreamPool
  import opened Reclaim
  import opened ReclaimInvariant
  import opened ReclaimRuns

  // ---- What other threads can do --------------------------------------------

  /** The step is taken on behalf of block `b`, by the thread that owns it. */
  predicate Concerns(step: Step, b: Block) {
    match step
    case OnStreams(_) => false
    case OnBuffers(Enqueue(_, touched)) => b in touched
    case OnBuffers(bu) => bu.b == b
    case OnEvents(ev) => ev.b == b
    case OnWaits(SweepTake(bs)) => b in bs
    case OnWaits(wa) => wa.b == b
  }

  lemma ForeignBuffer(s: State, bu: BufferStep, b: Block)
    requires BufferEnabled(s, bu) && b in s.blocks && !Concerns(OnBuffers(bu), b)
    ensures b in BufferApply(s, bu).blocks && BufferApply(s, bu).blocks[b] == s.blocks[b]
  {
  }

  lemma ForeignWait(s: State, wa: WaitStep, b: Block)
    requires WaitEnabled(s, wa) && b in s.blocks && !Concerns(OnWaits(wa), b)
    ensures b in WaitApply(s, wa).blocks && WaitApply(s, wa).blocks[b] == s.blocks[b]
  {
  }

  lemma ForeignStep(s: State, step: Step, b: Block)
    requires Enabled(s, step) && b in s.blocks && !Concerns(step, b)
    ensures b in Apply(s, step).blocks && Apply(s, step).blocks[b] == s.blocks[b]
  {
    hide StreamEnabled, BufferEnabled, EventEnabled, WaitEnabled, StreamApply, BufferApply, EventApply, WaitApply;
    match step
    case OnStreams(st) => StreamEffect(s, st);
    case OnBuffers(bu) => ForeignBuffer(s, bu, b);
    case OnEvents(ev) => EventEffect(s, ev);
    case OnWaits(wa) => ForeignWait(s, wa, b);
  }

  /** The steps of a run that concern `b`, in order. */
  function Trace(log: seq<Step>, b: Block): seq<Step> {
    if log == [] then []
    else Trace(log[..|log| - 1], b) + if Concerns(log[|log| - 1], b) then [log[|log| - 1]] else []
  }

  lemma TraceStep(log: seq<Step>, step: Step, b: Block)
    ensures Trace(log + [step], b) == Trace(log, b) + if Concerns(step, b) then [step] else []
  {
    hide Concerns;
    assert (log + [step])[..|log|] == log;
  }

  /** However long the other threads run, they leave the block alone; this is what `Others` promises. */
  lemma {:induction false} ForeignRun(s: State, log: seq<Step>, steps: seq<Step>, s': State, b: Block)
    requires Reaches(s, steps, s') && b in s.blocks
    requires forall k :: 0 <= k < |steps| ==> !Concerns(steps[k], b)
    ensures b in s'.blocks && s'.blocks[b] == s.blocks[b]
    ensures Trace(log + steps, b) == Trace(log, b)
    decreases |steps|
  {
    hide Enabled, Apply, Concerns;
    if steps == [] {
      assert log + steps == log;
    } else {
      ForeignStep(s, steps[0], b);
      TraceStep(log, steps[0], b);
      ForeignRun(Apply(s, steps[0]), log + [steps[0]], steps[1..], s', b);
      assert log + steps == log + [steps[0]] + steps[1..];
    }
  }

  // ---- The calls a block makes ----------------------------------------------

  function Created(b: Block, ok: bool): Step { OnEvents(EventStep.EventCreate(b, ok)) }
  function Recorded(b: Block, ok: bool): Step { OnEvents(EventStep.EventRecord(b, ok)) }
  function Queried(b: Block, ready: bool): Step { OnEvents(EventStep.EventQuery(b, ready)) }
  function Destroyed(b: Block): Step { OnEvents(EventStep.EventDestroy(b)) }
  function Forced(b: Block, ok: bool): Step { OnEvents(ForceSync(b, ok)) }
  function Returned(b: Block, pooled: bool): Step { OnBuffers(ReturnToPool(b, pooled)) }

  function Repeat(step: Step, n: nat): (r: seq<Step>)
    ensures |r| == n && forall k :: 0 <= k < n ==> r[k] == step
  {
    if n == 0 then [] else Repeat(step, n - 1) + [step]
  }

  /** Creating and recording `n` events, without a failure. */
  function Recordings(b: Block, n: nat): (r: seq<Step>)
    ensures forall k :: 0 <= k < |r| ==> r[k] == Created(b, true) || r[k] == Recorded(b, true)
  {
    if n == 0 then [] else Recordings(b, n - 1) + [Created(b, true), Recorded(b, true)]
  }

  /** Recording up to `n` events, stopped by the first call that fails; every event made so far is destroyed. */
  ghost predicate FailedAttempt(b: Block, n: nat, t: seq<Step>) {
    exists k: nat :: k < n &&
      (|| t == Recordings(b, k) + [Created(b, false)] + Repeat(Destroyed(b), k)
       || t == Recordings(b, k) + [Created(b, true), Recorded(b, false)] + Repeat(Destroyed(b), k + 1))
  }

  /** Fencing one stream after the other, with the driver's answers. */
  function Fences(b: Block, oks: seq<bool>): (r: seq<Step>)
    ensures forall k :: 0 <= k < |r| ==> r[k].OnWaits? && (r[k].wa.FenceCall? || r[k].wa.FenceReturn?)
    ensures OnWaits(FenceCall(b)) in r <==> oks != []
    ensures OnWaits(FenceReturn(b, false)) in r <==> false in oks
  {
    if oks == [] then []
    else
      var last := oks[|oks| - 1];
      assert oks == oks[..|oks| - 1] + [last];
      Fences(b, oks[..|oks| - 1]) + [OnWaits(FenceCall(b)), OnWaits(FenceReturn(b, last))]
  }

  function CtxWait(b: Block, ctx: Option<bool>): seq<Step> {
    if ctx.None? then [] else [OnWaits(CtxFenceCall(b)), OnWaits(CtxFenceReturn(b, ctx.value))]
  }

  function Forcings(b: Block, oks: seq<bool>): seq<Step> {
    if oks == [] then [] else Forcings(b, oks[..|oks| - 1]) + [Forced(b, oks[|oks| - 1])]
  }

  /** The step takes a block out of the pending list, or waits for one of its events. */
  predicate Reclaims(step: Step) {
    (step.OnWaits? && (step.wa.DrainTake? || step.wa.SweepTake?)) || (step.OnEvents? && step.ev.ForceSync?)
  }

  /** An event could not be created or recorded. */
  predicate Failed(t: seq<Step>, b: Block) { Created(b, false) in t || Recorded(b, false) in t }

  predicate EndsReturned(t: seq<Step>, b: Block) {
    t != [] && (t[|t| - 1] == Returned(b, true) || t[|t| - 1] == Returned(b, false))
  }

  /**
   The route of a dropped block with recorded streams, told from its own steps
   `t` and the state it ends in: it fences exactly if an event failed, it is
   parked exactly if none failed and the last query was not ready, and otherwise
   it goes back to the pool. `Drop` itself never waits for an event.
   */
  predicate Routed(b: Block, t: seq<Step>, st: BlockState) {
    && (forall k :: 0 <= k < |t| ==> !Reclaims(t[k]))
    && (OnWaits(FenceCall(b)) in t <==> Failed(t, b))
    && (OnWaits(CtxFenceCall(b)) in t <==> OnWaits(FenceReturn(b, false)) in t)
    && (st.Parked? <==> !Failed(t, b) && t != [] && t[|t| - 1] == Queried(b, false))
    && (!st.Parked? ==> EndsReturned(t, b) && (st.Free? || st.Released?))
  }

  lemma NoRecordings(b: Block)
    ensures Recordings(b, 0) == []
  {
  }

  lemma OneMoreRecording(b: Block, k: nat)
    ensures Recordings(b, k + 1) == Recordings(b, k) + [Created(b, true), Recorded(b, true)]
  {
  }

  lemma CreateFails(b: Block, n: nat, k: nat)
    requires k < n
    ensures FailedAttempt(b, n, Recordings(b, k) + [Created(b, false)] + Repeat(Destroyed(b), k))
  {
  }

  lemma RecordFails(b: Block, n: nat, k: nat)
    requires k < n
    ensures FailedAttempt(b, n,
              Recordings(b, k) + [Created(b, true), Recorded(b, false)] + Repeat(Destroyed(b), k + 1))
  {
  }

  lemma NoFences(b: Block)
    ensures Fences(b, []) == []
  {
  }

  lemma OneMoreFence(b: Block, oks: seq<bool>, ok: bool)
    ensures Fences(b, oks + [ok]) == Fences(b, oks) + [OnWaits(FenceCall(b)), OnWaits(FenceReturn(b, ok))]
  {
    assert (oks + [ok])[..|oks|] == oks;
  }

  lemma Joined(was: seq<Step>, a: seq<Step>, b: seq<Step>, c: seq<Step>, d: seq<Step>)
    ensures was + a + (b + []) + c + d == was + (a + b + c + d)
    ensures was + a + b == was + (a + b) && was + a + b + c == was + (a + b + c)
  {
    assert b + [] == b;
  }

  lemma RoutedPool(b: Block, n: nat, pooled: bool, st: BlockState)
    requires st.Free? || st.Released?
    ensures Routed(b, Recordings(b, n) + Repeat(Queried(b, true), n) + Repeat(Destroyed(b), n) + [Returned(b, pooled)], st)
  {
    hide Recordings, Repeat;
  }

  lemma RoutedPark(b: Block, n: nat, at: nat, st: BlockState)
    requires st.Parked?
    ensures Routed(b, Recordings(b, n) + (Repeat(Queried(b, true), at) + [Queried(b, false)]), st)
  {
  }

  lemma AttemptSteps(b: Block, n: nat, t: seq<Step>)
    requires FailedAttempt(b, n, t)
    ensures Failed(t, b) && forall k :: 0 <= k < |t| ==> t[k].OnEvents? && !t[k].ev.ForceSync?
  {
    hide Recordings, Repeat;
    var k: nat :| k < n &&
      (|| t == Recordings(b, k) + [Created(b, false)] + Repeat(Destroyed(b), k)
       || t == Recordings(b, k) + [Created(b, true), Recorded(b, false)] + Repeat(Destroyed(b), k + 1));
    if t == Recordings(b, k) + [Created(b, false)] + Repeat(Destroyed(b), k) {
      AttemptParts(b, Recordings(b, k), [Created(b, false)], Repeat(Destroyed(b), k));
    } else {
      AttemptParts(b, Recordings(b, k), [Created(b, true), Recorded(b, false)], Repeat(Destroyed(b), k + 1));
    }
  }

  lemma AttemptParts(b: Block, made: seq<Step>, last: seq<Step>, unmade: seq<Step>)
    requires forall k :: 0 <= k < |made| ==> made[k] == Created(b, true) || made[k] == Recorded(b, true)
    requires last == [Created(b, false)] || last == [Created(b, true), Recorded(b, false)]
    requires forall k :: 0 <= k < |unmade| ==> unmade[k] == Destroyed(b)
    ensures var t := made + last + unmade;
      Failed(t, b) && forall k :: 0 <= k < |t| ==> t[k].OnEvents? && !t[k].ev.ForceSync?
  {
    var t := made + last + unmade;
    assert last[|last| - 1] == t[|made| + |last| - 1];
  }

  lemma RoutedFence(b: Block, n: nat, a: seq<Step>, oks: seq<bool>, ctx: Option<bool>, pooled: bool, st: BlockState)
    requires FailedAttempt(b, n, a) && oks != [] && (ctx.Some? <==> false in oks) && (st.Free? || st.Released?)
    ensures Routed(b, a + (Fences(b, oks) + CtxWait(b, ctx)) + [Returned(b, pooled)], st)
  {
    hide FailedAttempt, Fences;
    AttemptSteps(b, n, a);
  }

  // ---- The device -----------------------------------------------------------

  /** The driver, the GPU and every other host thread. `log` is the run so far. */
  class Device {
    var st: State
    ghost var log: seq<Step>

    ghost predicate Valid()
      reads this
    {
      Reaches(INIT, log, st)
    }

    constructor ()
      ensures Valid() && st == INIT
    {
      st := INIT;
      log := [];
    }

    /** One step of the calling thread. */
    method Take(step: Step)
      requires Valid() && Enabled(st, step)
      modifies this
      ensures Valid() && log == old(log) + [step] && st == Apply(old(st), step)
      ensures forall b :: Trace(log, b) == old(Trace(log, b)) + if Concerns(step, b) then [step] else []
    {
      hide Enabled, Apply, Trace, Concerns;
      ReachesStep(INIT, log, st, step);
      forall b {
        TraceStep(log, step, b);
      }
      st := Apply(st, step);
      log := log + [step];
    }

    /**
     Other threads and the GPU run for a while. They take any steps, but never
     one on the blocks in `mine`, which the calling thread owns. Callers know
     only this contract, which `ForeignRun` shows to hold of every such run.
     */
    method Others(ghost mine: set<Block>)
      requires Valid() && mine <= st.blocks.Keys
      modifies this
      ensures Valid() && Inv(st) && old(log) <= log
      ensures mine <= st.blocks.Keys && forall b :: b in mine ==> st.blocks[b] == old(st.blocks[b])
      ensures forall b :: b in mine ==> Trace(log, b) == old(Trace(log, b))
    {
      InitInv();
      RunKeepsInv(INIT, log, st);
    }

    /** `cuda_sys::event_create`; the driver may refuse. */
    method EventCreate(b: Block) returns (r: Option<EventId>)
      requires Valid() && CanCreate(st, b)
      modifies this
      ensures Valid() && old(log) < log && b in st.blocks
      ensures Trace(log, b) == old(Trace(log, b)) + [Created(b, r.Some?)]
      ensures var was := old(st.blocks[b].st);
        if r.Some? then st.blocks[b].st == Recording(was.used, was.events, r)
        else st.blocks[b].st ==
             if was.events == [] then Fencing(was.used, 0, false, None) else Unwinding(was.used, was.events)
    {
      hide Inv;
      Others({b});
      r := None;
      if * {
        r := Some(st.nextEvent);
      }
      Take(OnEvents(EventStep.EventCreate(b, r.Some?)));
    }

    /** `cuda_sys::event_record` of the event just created on the next stream of the set. */
    method EventRecord(b: Block) returns (ok: bool)
      requires Valid() && b in st.blocks && st.blocks[b].st.Recording? && st.blocks[b].st.made.Some?
      modifies this
      ensures Valid() && old(log) < log && b in st.blocks
      ensures Trace(log, b) == old(Trace(log, b)) + [Recorded(b, ok)]
      ensures var was := old(st.blocks[b].st);
        st.blocks[b].st ==
          if !ok then Unwinding(was.used, [was.made.value] + was.events)
          else if |was.events| + 1 == |was.used| then Querying(was.used, was.events + [was.made.value], 0)
          else Recording(was.used, was.events + [was.made.value], None)
    {
      hide Inv;
      Others({b});
      CanRecordNext(st, b);
      ok := *;
      Take(OnEvents(EventStep.EventRecord(b, ok)));
    }

    /** `cuda_sys::event_query`: `true` only for an event the GPU has passed; an error reads as not ready. */
    method EventQuery(b: Block, ghost mine: set<Block>) returns (ready: bool)
      requires Valid() && CanQuery(st, b) && b in mine && mine <= st.blocks.Keys
      modifies this
      ensures Valid() && old(log) < log && b in st.blocks
      ensures forall o :: o in mine && o != b ==> o in st.blocks && st.blocks[o] == old(st.blocks[o])
      ensures st.blocks[b].st == AfterQuery(old(st.blocks[b].st), ready)
      ensures Trace(log, b) == old(Trace(log, b)) + [Queried(b, ready)]
    {
      hide Inv;
      Others(mine);
      ready := *;
      ready := ready && EventDone(st, st.blocks[b].st.events[st.blocks[b].st.ready]);
      Take(OnEvents(EventStep.EventQuery(b, ready)));
    }

    /** `cuda_sys::event_destroy` of the first event left. */
    method EventDestroy(b: Block, ghost mine: set<Block>)
      requires Valid() && CanDestroyEvent(st, b) && b in mine && mine <= st.blocks.Keys
      modifies this
      ensures Valid() && old(log) < log && b in st.blocks
      ensures forall o :: o in mine && o != b ==> o in st.blocks && st.blocks[o] == old(st.blocks[o])
      ensures st.blocks[b].st == AfterDestroy(old(st.blocks[b].st))
      ensures Trace(log, b) == old(Trace(log, b)) + [Destroyed(b)]
    {
      hide Inv;
      Others(mine);
      Take(OnEvents(EventStep.EventDestroy(b)));
    }

    /** `cuStreamSynchronize` on the stream the fence loop has reached. */
    method StreamSynchronize(b: Block) returns (ok: bool)
      requires Valid() && b in st.blocks && st.blocks[b].st.Fencing? && st.blocks[b].st.target.None?
      modifies this
      ensures Valid() && old(log) < log && b in st.blocks
      ensures old(st.blocks[b].st.next) < |old(st.blocks[b].st.used)|
      ensures st.blocks[b].st == AfterFence(old(st.blocks[b].st), ok)
      ensures Trace(log, b) == old(Trace(log, b)) + [OnWaits(FenceCall(b)), OnWaits(FenceReturn(b, ok))]
    {
      hide Inv;
      Others({b});
      CanFenceNext(st, b);
      Take(OnWaits(FenceCall(b)));
      Others({b});
      CanFenceNext(st, b);
      ok := *;
      var i := st.blocks[b].st;
      ok := ok && i.target.value <= st.streams[i.used[i.next]].done;
      Take(OnWaits(FenceReturn(b, ok)));
    }

    /** `cuCtxSynchronize` of the fallback. */
    method CtxSynchronize(b: Block) returns (ok: bool)
      requires Valid() && CanCtxFenceCall(st, b)
      modifies this
      ensures Valid() && old(log) < log && b in st.blocks && st.blocks[b].st == Returning
      ensures !ok ==> exists k :: |old(log)| <= k < |log| && FailedCtxSync(log[k])
      ensures Trace(log, b) == old(Trace(log, b)) + CtxWait(b, Some(ok))
    {
      hide Inv;
      Others({b});
      Take(OnWaits(CtxFenceCall(b)));
      Others({b});
      ok := *;
      ok := ok && forall t :: t in st.blocks[b].st.targets.value ==>
                    t in st.streams && st.blocks[b].st.targets.value[t] <= st.streams[t].done;
      Take(OnWaits(CtxFenceReturn(b, ok)));
      assert !ok ==> FailedCtxSync(log[|log| - 1]);
    }

    /** `POOL.free`: pooled, or handed to the driver by the pool's caps. */
    method PoolFree(b: Block, ghost mine: set<Block>) returns (ghost pooled: bool)
      requires Valid() && CanReturn(st, b) && b in mine && mine <= st.blocks.Keys
      modifies this
      ensures Valid() && old(log) < log && b in st.blocks && (st.blocks[b].st.Free? || st.blocks[b].st.Released?)
      ensures GivesUp(log[|log| - 1], b)
      ensures Trace(log, b) == old(Trace(log, b)) + [Returned(b, pooled)]
      ensures forall o :: o in mine && o != b ==> o in st.blocks && st.blocks[o] == old(st.blocks[o])
    {
      hide Inv;
      Others(mine);
      var kept: bool := *;
      pooled := kept;
      Take(OnBuffers(ReturnToPool(b, kept)));
    }

    /** `event_synchronize` then `event_destroy` of the first event left; an error is ignored. */
    method EventForce(b: Block, ghost mine: set<Block>) returns (ghost waited: bool)
      requires Valid() && CanForce(st, b, false) && b in mine && mine <= st.blocks.Keys
      modifies this
      ensures Valid() && old(log) < log && b in st.blocks
      ensures st.blocks[b].st == AfterForce(old(st.blocks[b].st))
      ensures Trace(log, b) == old(Trace(log, b)) + [Forced(b, waited)]
      ensures GivesUp(log[|log| - 1], b)
      ensures forall o :: o in mine && o != b ==> o in st.blocks && st.blocks[o] == old(st.blocks[o])
    {
      hide Inv;
      Others(mine);
      var ok: bool := *;
      ok := ok && EventDone(st, st.blocks[b].st.events[0]);
      waited := ok;
      Take(OnEvents(ForceSync(b, ok)));
    }
  }

  /** The step hands the block to the pool or settles one of its events on the way to the driver. */
  predicate GivesUp(step: Step, b: Block) {
    step == OnBuffers(ReturnToPool(b, true)) || step == OnBuffers(ReturnToPool(b, false))
    || step == OnEvents(ForceSync(b, true)) || step == OnEvents(ForceSync(b, false))
  }

  function AfterForce(st: BlockState): BlockState
    requires st.Forcing? && st.events != []
  {
    if |st.events| == 1 then Released else Forcing(st.events[1..])
  }

  lemma CanRecordNext(s: State, b: Block)
    requires Inv(s) && b in s.blocks && s.blocks[b].st.Recording? && s.blocks[b].st.made.Some?
    ensures CanRecord(s, b)
  {
    assert BlockInv(s, b);
    assert OwnedStream(s, s.blocks[b], s.blocks[b].st.used[|s.blocks[b].st.events|]);
  }

  lemma CanFenceNext(s: State, b: Block)
    requires Inv(s) && b in s.blocks && s.blocks[b].st.Fencing?
    ensures s.blocks[b].st.next < |s.blocks[b].st.used| && s.blocks[b].st.used[s.blocks[b].st.next] in s.streams
  {
    assert BlockInv(s, b);
    assert OwnedStream(s, s.blocks[b], s.blocks[b].st.used[s.blocks[b].st.next]);
  }

  /** Destroys the events a failed `record_defer_events` leaves behind. */
  method DestroyPartial(d: Device, b: Block, used: seq<Stream>, events: seq<EventId>)
    requires d.Valid() && b in d.st.blocks && used != []
    requires d.st.blocks[b].st == if events == [] then Fencing(used, 0, false, None) else Unwinding(used, events)
    modifies d
    ensures d.Valid() && old(d.log) <= d.log && b in d.st.blocks
    ensures d.st.blocks[b].st == Fencing(used, 0, false, None)
    ensures Trace(d.log, b) == old(Trace(d.log, b)) + Repeat(Destroyed(b), |events|)
  {
    hide Trace;
    for k := 0 to |events|
      invariant d.Valid() && old(d.log) <= d.log && b in d.st.blocks
      invariant Trace(d.log, b) == old(Trace(d.log, b)) + Repeat(Destroyed(b), k)
      invariant d.st.blocks[b].st ==
                if k == |events| then Fencing(used, 0, false, None) else Unwinding(used, events[k..])
    {
      d.EventDestroy(b, {b});
    }
  }

  /** `record_defer_events`: one recorded event per stream, in set order, or none at all. */
  method RecordDeferEvents(d: Device, b: Block, used: seq<Stream>) 
    returns (r: Option<seq<EventId>>, ghost t: seq<Step>)
    requires d.Valid() && b in d.st.blocks && used != []
    requires d.st.blocks[b].st == Recording(used, [], None)
    modifies d
    ensures d.Valid() && old(d.log) <= d.log && b in d.st.blocks
    ensures r.Some? ==> |r.value| == |used| && d.st.blocks[b].st == Querying(used, r.value, 0)
    ensures r.None? ==> d.st.blocks[b].st == Fencing(used, 0, false, None)
    ensures Trace(d.log, b) == old(Trace(d.log, b)) + t
    ensures if r.Some? then t == Recordings(b, |used|) else FailedAttempt(b, |used|, t)
  {
    hide Trace, Reaches, Recordings, Repeat, FailedAttempt;
    NoRecordings(b);
    var events: seq<EventId> := [];
    for k := 0 to |used|
      invariant Trace(d.log, b) == old(Trace(d.log, b)) + Recordings(b, k)
      invariant d.Valid() && old(d.log) <= d.log && b in d.st.blocks && |events| == k
      invariant d.st.blocks[b].st == if k < |used| then Recording(used, events, None) else Querying(used, events, 0)
    {
      var ev := d.EventCreate(b);
      if ev.None? {
        DestroyPartial(d, b, used, events);
        t := Recordings(b, k) + [Created(b, false)] + Repeat(Destroyed(b), k);
        CreateFails(b, |used|, k);
        r := None;
        return;
      }
      var ok := d.EventRecord(b);
      if !ok {
        DestroyPartial(d, b, used, [ev.value] + events);
        t := Recordings(b, k) + [Created(b, true), Recorded(b, false)] + Repeat(Destroyed(b), k + 1);
        RecordFails(b, |used|, k);
        r := None;
        return;
      }
      events := events + [ev.value];
      OneMoreRecording(b, k);
    }
    r, t := Some(events), Recordings(b, |used|);
  }

  /**
   `fence_all_streams`: every stream once, then one device-wide wait if any fence
   failed. `oks` and `ctx` are the driver's answers.
   */
  method FenceAllStreams(d: Device, b: Block, used: seq<Stream>)
    returns (ghost oks: seq<bool>, ghost ctx: Option<bool>)
    requires d.Valid() && b in d.st.blocks && used != []
    requires d.st.blocks[b].st == Fencing(used, 0, false, None)
    modifies d
    ensures d.Valid() && old(d.log) <= d.log && b in d.st.blocks && d.st.blocks[b].st == Returning
    ensures |oks| == |used| && (ctx.Some? <==> false in oks)
    ensures Trace(d.log, b) == old(Trace(d.log, b)) + (Fences(b, oks) + CtxWait(b, ctx))
    ensures ctx == Some(false) ==> exists k :: |old(d.log)| <= k < |d.log| && FailedCtxSync(d.log[k])
  {
    hide Trace, Reaches, Fences;
    NoFences(b);
    var anyFailed := false;
    oks, ctx := [], None;
    for k := 0 to |used|
      invariant Trace(d.log, b) == old(Trace(d.log, b)) + Fences(b, oks)
      invariant d.Valid() && old(d.log) <= d.log && b in d.st.blocks
      invariant |oks| == k && (anyFailed <==> false in oks)
      invariant d.st.blocks[b].st ==
                if k < |used| then Fencing(used, k, anyFailed, None)
                else if anyFailed then CtxFencing(used, None) else Returning
    {
      var ok := d.StreamSynchronize(b);
      anyFailed := anyFailed || !ok;
      OneMoreFence(b, oks, ok);
      oks := oks + [ok];
    }
    if anyFailed {
      var ok := d.CtxSynchronize(b);
      ctx := Some(ok);
    }
  }

  /** Whether all events of a block are complete, stopping at the first that is not. */
  method AllReady(d: Device, b: Block, events: seq<EventId>, ghost mine: set<Block>)
    returns (ready: bool, ghost at: nat)
    requires d.Valid() && b in mine && mine <= d.st.blocks.Keys
    requires CanQuery(d.st, b) && d.st.blocks[b].st.ready == 0 && d.st.blocks[b].st.events == events
    modifies d
    ensures d.Valid() && old(d.log) < d.log && b in d.st.blocks
    ensures forall o :: o in mine && o != b ==> o in d.st.blocks && d.st.blocks[o] == old(d.st.blocks[o])
    ensures ready ==> d.st.blocks[b].st == Cleaning(events) && at == |events|
    ensures !ready ==>
              at < |events| && d.st.blocks[b].st == AfterQuery(ReadyUpTo(old(d.st.blocks[b].st), at), false)
    ensures Trace(d.log, b) ==
              old(Trace(d.log, b)) + (Repeat(Queried(b, true), at) + if ready then [] else [Queried(b, false)])
  {
    hide Trace;
    ghost var was := d.st.blocks[b].st;
    for k := 0 to |events|
      invariant d.Valid() && old(d.log) <= d.log && b in d.st.blocks && (k > 0 ==> old(d.log) < d.log)
      invariant forall o :: o in mine && o != b ==> o in d.st.blocks && d.st.blocks[o] == old(d.st.blocks[o])
      invariant d.st.blocks[b].st == if k < |events| then ReadyUpTo(was, k) else Cleaning(events)
      invariant Trace(d.log, b) == old(Trace(d.log, b)) + Repeat(Queried(b, true), k)
    {
      at := k;
      ready := d.EventQuery(b, mine);
      if !ready {
        return;
      }
    }
    ready, at := true, |events|;
  }

  /** The same list of events with the first `k` seen complete. */
  function ReadyUpTo(st: BlockState, k: nat): (r: BlockState)
    requires st.Querying? || st.Parked?
  {
    if st.Querying? then Querying(st.used, st.events, k) else Parked(st.events, k, st.sweeps, st.taken)
  }

  /** Destroys the events of a block whose wait is over. */
  method DestroyAll(d: Device, b: Block, events: seq<EventId>, ghost mine: set<Block>)
    requires d.Valid() && b in mine && mine <= d.st.blocks.Keys && events != [] && d.st.blocks[b].st == Cleaning(events)
    modifies d
    ensures d.Valid() && old(d.log) <= d.log && b in d.st.blocks && d.st.blocks[b].st == Returning
    ensures forall o :: o in mine && o != b ==> o in d.st.blocks && d.st.blocks[o] == old(d.st.blocks[o])
    ensures Trace(d.log, b) == old(Trace(d.log, b)) + Repeat(Destroyed(b), |events|)
  {
    hide Trace;
    for k := 0 to |events|
      invariant d.Valid() && old(d.log) <= d.log && b in d.st.blocks
      invariant forall o :: o in mine && o != b ==> o in d.st.blocks && d.st.blocks[o] == old(d.st.blocks[o])
      invariant d.st.blocks[b].st == if k < |events| then Cleaning(events[k..]) else Returning
      invariant Trace(d.log, b) == old(Trace(d.log, b)) + Repeat(Destroyed(b), k)
    {
      d.EventDestroy(b, mine);
    }
  }

  /** `real_drop_reclaim`: free inline, park behind the events, or fence and free. */
  method RealDropReclaim(d: Device, b: Block, used: seq<Stream>) returns (ghost t: seq<Step>)
    requires d.Valid() && b in d.st.blocks && used != []
    requires d.st.blocks[b].st == Recording(used, [], None)
    modifies d
    ensures d.Valid() && old(d.log) <= d.log && b in d.st.blocks
    ensures Trace(d.log, b) == old(Trace(d.log, b)) + t && Routed(b, t, d.st.blocks[b].st)
    ensures d.st.blocks[b].st.Parked? ==>
              exists events :: |events| == |used| && d.st.blocks[b].st == Parked(events, 0, 0, false)
  {
    hide Trace, Routed, FailedAttempt, Recordings, Repeat, Fences, CtxWait, Reaches;
    ghost var n, was := |used|, Trace(d.log, b);
    var recorded, a := RecordDeferEvents(d, b, used);
    match recorded
    case Some(events) =>
      var ready, at := AllReady(d, b, events, {b});
      if ready {
        DestroyAll(d, b, events, {b});
        var pooled := d.PoolFree(b, {b});
        t := Recordings(b, n) + Repeat(Queried(b, true), n) + Repeat(Destroyed(b), n) + [Returned(b, pooled)];
        Joined(was, a, Repeat(Queried(b, true), n), Repeat(Destroyed(b), n), [Returned(b, pooled)]);
        RoutedPool(b, n, pooled, d.st.blocks[b].st);
      } else {
        assert d.st.blocks[b].st == Parked(events, 0, 0, false);
        t := a + (Repeat(Queried(b, true), at) + [Queried(b, false)]);
        Joined(was, a, Repeat(Queried(b, true), at) + [Queried(b, false)], [], []);
        RoutedPark(b, n, at, d.st.blocks[b].st);
      }
    case None =>
      var oks, ctx := FenceAllStreams(d, b, used);
      var pooled := d.PoolFree(b, {b});
      t := a + (Fences(b, oks) + CtxWait(b, ctx)) + [Returned(b, pooled)];
      Joined(was, a, Fences(b, oks) + CtxWait(b, ctx), [Returned(b, pooled)], []);
      RoutedFence(b, n, a, oks, ctx, pooled, d.st.blocks[b].st);
  }

  /** A device buffer: `ptr` is `None` for the empty buffer, `used` the streams that touched it. */
  class Buffer {
    const dev: Device
    var ptr: Option<Block>
    var used: seq<Stream>

    constructor (d: Device, p: Option<Block>)
      ensures dev == d && ptr == p && used == []
    {
      dev := d;
      ptr := p;
      used := [];
    }

    ghost predicate Valid()
      reads this, dev
    {
      && dev.Valid()
      && (ptr.Some? ==> IsLive(dev.st, ptr.value) && dev.st.blocks[ptr.value].st.used == used)
    }

    /** `mark_stream_use`: remembers the stream once; the launch that used it is no longer untagged. */
    method MarkStreamUse(t: Stream)
      requires Valid() && ptr.Some? && CanTag(dev.st, ptr.value, t)
      modifies this, dev
      ensures Valid() && ptr == old(ptr) && old(dev.log) < dev.log
      ensures used == Insert(old(used), t)
      ensures dev.st.blocks[ptr.value].st.untagged == old(dev.st.blocks[ptr.value].st.untagged) - {t}
    {
      used := if t in used then used else used + [t];
      dev.Take(OnBuffers(Tag(ptr.value, t)));
    }

    /**
     `Drop`: the block takes the route its events call for and ends in the pool,
     with the driver, or parked behind one event per stream; it is pooled only
     once nothing can still touch it. `t` are the steps of the block.
     */
    method Drop() returns (ghost t: seq<Step>)
      requires Valid() && (ptr.Some? ==> dev.st.blocks[ptr.value].st.untagged == {})
      modifies dev
      ensures dev.Valid() && old(dev.log) <= dev.log
      ensures ptr.None? ==> dev.log == old(dev.log) && dev.st == old(dev.st)
      ensures ptr.Some? ==>
                && ptr.value in dev.st.blocks
                && Trace(dev.log, ptr.value) == old(Trace(dev.log, ptr.value)) + t
                && Disposed(ptr.value, used, t, dev.st.blocks[ptr.value].st)
      ensures ptr.Some? && dev.st.blocks[ptr.value].st.Free?
              && (forall k :: 0 <= k < |dev.log| ==> !FailedCtxSync(dev.log[k]))
              ==> Completed(dev.log, dev.st, ptr.value)
    {
      t := [];
      if ptr.None? {
        return;
      }
      var b := ptr.value;
      t := Dispose(dev, b, used);
      if dev.st.blocks[b].st.Free? && forall k :: 0 <= k < |dev.log| ==> !FailedCtxSync(dev.log[k]) {
        FreeIsCompleted(dev.log, dev.st, b);
      }
    }
  }

  /** A buffer without recorded streams is freed at once; any other takes the route of its events. */
  ghost predicate Disposed(b: Block, used: seq<Stream>, t: seq<Step>, st: BlockState) {
    && t != [] && t[0] == OnBuffers(BufferStep.Drop(b)) && Routed(b, t, st)
    && (used == [] ==> |t| == 2)
    && (st.Parked? ==> exists events :: |events| == |used| && st == Parked(events, 0, 0, false))
  }

  lemma RoutedAfterDrop(b: Block, t: seq<Step>, st: BlockState)
    requires Routed(b, t, st)
    ensures Routed(b, [OnBuffers(BufferStep.Drop(b))] + t, st)
  {
  }

  method Dispose(d: Device, b: Block, used: seq<Stream>) returns (ghost t: seq<Step>)
    requires d.Valid() && b in d.st.blocks && d.st.blocks[b].st == Live(used, {})
    modifies d
    ensures d.Valid() && old(d.log) <= d.log && b in d.st.blocks
    ensures Trace(d.log, b) == old(Trace(d.log, b)) + t && Disposed(b, used, t, d.st.blocks[b].st)
  {
    hide Trace, Reaches;
    d.Take(OnBuffers(BufferStep.Drop(b)));
    ghost var rest;
    if used == [] {
      var pooled := d.PoolFree(b, {b});
      rest := [Returned(b, pooled)];
    } else {
      rest := RealDropReclaim(d, b, used);
    }
    RoutedAfterDrop(b, rest, d.st.blocks[b].st);
    t := [OnBuffers(BufferStep.Drop(b))] + rest;
  }

  // ---- The pending-free list ------------------------------------------------

  /** `force_reclaim_pending`: waits out and destroys every event, then frees to the driver. */
  method ForceReclaim(d: Device, b: Block, events: seq<EventId>, ghost mine: set<Block>)
    returns (ghost oks: seq<bool>)
    requires d.Valid() && b in mine && mine <= d.st.blocks.Keys && events != [] && d.st.blocks[b].st == Forcing(events)
    modifies d
    ensures d.Valid() && old(d.log) < d.log && b in d.st.blocks && d.st.blocks[b].st == Released
    ensures GivesUp(d.log[|d.log| - 1], b)
    ensures |oks| == |events| && Trace(d.log, b) == old(Trace(d.log, b)) + Forcings(b, oks)
    ensures forall o :: o in mine && o != b ==> o in d.st.blocks && d.st.blocks[o] == old(d.st.blocks[o])
  {
    hide Trace;
    oks := [];
    for k := 0 to |events|
      invariant |oks| == k && Trace(d.log, b) == old(Trace(d.log, b)) + Forcings(b, oks)
      invariant d.Valid() && old(d.log) <= d.log && b in d.st.blocks
      invariant k > 0 ==> old(d.log) < d.log && GivesUp(d.log[|d.log| - 1], b)
      invariant forall o :: o in mine && o != b ==> o in d.st.blocks && d.st.blocks[o] == old(d.st.blocks[o])
      invariant d.st.blocks[b].st == if k < |events| then Forcing(events[k..]) else Released
    {
      var waited := d.EventForce(b, mine);
      assert (oks + [waited])[..k] == oks;
      oks := oks + [waited];
    }
  }

  /** An entry a sweep has taken out of the list. */
  predicate Entry(s: State, b: Block) {
    && b in s.blocks && s.blocks[b].st.Parked? && s.blocks[b].st.taken
    && s.blocks[b].st.ready == 0 && s.blocks[b].st.events != []
  }

  /** The entry waits for events exactly if `spent`; it never fences a stream. */
  predicate SweepRoute(b: Block, t: seq<Step>, spent: bool) {
    && ((exists ok :: Forced(b, ok) in t) <==> Queried(b, false) in t && spent)
    && (Queried(b, false) !in t ==> EndsReturned(t, b))
    && forall k :: 0 <= k < |t| ==> t[k].OnEvents? || t[k].OnBuffers?
  }

  lemma {:induction false} ForcingsSteps(b: Block, oks: seq<bool>)
    ensures forall k :: 0 <= k < |Forcings(b, oks)| ==>
              Forcings(b, oks)[k] == Forced(b, true) || Forcings(b, oks)[k] == Forced(b, false)
    ensures oks != [] ==> Forced(b, oks[|oks| - 1]) in Forcings(b, oks)
  {
    if oks != [] {
      ForcingsSteps(b, oks[..|oks| - 1]);
    }
  }

  lemma RouteFreed(b: Block, n: nat, pooled: bool, spent: bool)
    ensures SweepRoute(b, Repeat(Queried(b, true), n) + Repeat(Destroyed(b), n) + [Returned(b, pooled)], spent)
  {
  }

  lemma RouteForced(b: Block, at: nat, oks: seq<bool>)
    requires oks != []
    ensures SweepRoute(b, Repeat(Queried(b, true), at) + [Queried(b, false)] + Forcings(b, oks), true)
    ensures Queried(b, false) in Repeat(Queried(b, true), at) + [Queried(b, false)] + Forcings(b, oks)
  {
    ForcingsSteps(b, oks);
  }

  lemma RouteParked(b: Block, at: nat)
    ensures SweepRoute(b, Repeat(Queried(b, true), at) + [Queried(b, false)], false)
    ensures Queried(b, false) in Repeat(Queried(b, true), at) + [Queried(b, false)]
  {
  }

  /**
   One entry of a sweep: freed if every query was ready, forced exactly if one
   was not and the budget is spent, else to be parked again. `t` are its steps.
   */
  method SweepEntry(d: Device, b: Block, ghost mine: set<Block>) returns (parked: bool, ghost t: seq<Step>)
    requires d.Valid() && b in mine && mine <= d.st.blocks.Keys && Entry(d.st, b)
    modifies d
    ensures d.Valid() && old(d.log) < d.log && b in d.st.blocks
    ensures parked ==> Entry(d.st, b) && d.st.blocks[b].st.sweeps == old(d.st.blocks[b].st.sweeps) + 1
    ensures Trace(d.log, b) == old(Trace(d.log, b)) + t
    ensures SweepRoute(b, t, old(d.st.blocks[b].st.sweeps) + 1 >= MAX_PENDING_SWEEPS)
    ensures parked <==> Queried(b, false) in t && old(d.st.blocks[b].st.sweeps) + 1 < MAX_PENDING_SWEEPS
    ensures !parked ==> GivesUp(d.log[|d.log| - 1], b)
    ensures !parked ==> d.st.blocks[b].st.Free? || d.st.blocks[b].st.Released?
    ensures forall o :: o in mine && o != b ==> o in d.st.blocks && d.st.blocks[o] == old(d.st.blocks[o])
  {
    hide Trace, Reaches, SweepRoute, Forcings;
    var entry := d.st.blocks[b].st;
    ghost var n := |entry.events|;
    var ready, at := AllReady(d, b, entry.events, mine);
    parked := false;
    if ready {
      DestroyAll(d, b, entry.events, mine);
      var pooled := d.PoolFree(b, mine);
      t := Repeat(Queried(b, true), n) + Repeat(Destroyed(b), n) + [Returned(b, pooled)];
      RouteFreed(b, n, pooled, entry.sweeps + 1 >= MAX_PENDING_SWEEPS);
    } else if entry.sweeps + 1 >= MAX_PENDING_SWEEPS {
      var oks := ForceReclaim(d, b, entry.events, mine);
      t := Repeat(Queried(b, true), at) + [Queried(b, false)] + Forcings(b, oks);
      RouteForced(b, at, oks);
    } else {
      t := Repeat(Queried(b, true), at) + [Queried(b, false)];
      RouteParked(b, at);
      parked := true;
    }
  }

  /** A step from `from` on gave the block up. */
  ghost predicate GaveUp(log: seq<Step>, from: nat, b: Block) {
    exists k :: from <= k < |log| && GivesUp(log[k], b)
  }

  lemma GaveUpLater(log: seq<Step>, log': seq<Step>, from: nat, b: Block)
    requires log <= log' && GaveUp(log, from, b)
    ensures GaveUp(log', from, b)
  {
    var k :| from <= k < |log| && GivesUp(log[k], b);
    assert log'[k] == log[k];
  }

  lemma TakenAreEntries(s: State, bs: set<Block>)
    requires Inv(s) && forall b :: b in bs ==> IsListed(s, b)
    ensures forall b :: b in bs ==> Entry(DoSweepTake(s, bs), b)
  {
    forall b | b in bs
      ensures Entry(DoSweepTake(s, bs), b)
    {
      assert IsListed(s, b) && BlockInv(s, b);
    }
  }

  /** Moves the whole list out, as the sweep does under the lock. */
  method TakeList(d: Device) returns (taken: set<Block>)
    requires d.Valid()
    modifies d
    ensures d.Valid() && old(d.log) < d.log
    ensures taken == (set b | b in old(d.st.blocks) && IsListed(old(d.st), b))
    ensures forall b :: b in taken ==> Entry(d.st, b)
  {
    taken := set b | b in d.st.blocks && IsListed(d.st, b);
    InitInv();
    RunKeepsInv(INIT, d.log, d.st);
    hide Inv;
    TakenAreEntries(d.st, taken);
    d.Take(OnWaits(SweepTake(taken)));
  }

  method GiveBackOne(d: Device, b: Block)
    requires d.Valid() && Entry(d.st, b)
    modifies d
    ensures d.Valid() && old(d.log) < d.log && IsListed(d.st, b)
    ensures forall o :: o in old(d.st.blocks) && o != b ==> o in d.st.blocks && d.st.blocks[o] == old(d.st.blocks[o])
  {
    d.Take(OnWaits(SweepGiveBack(b)));
  }

  /** Puts the entries that are not ready back on the list, under one lock. */
  method GiveBack(d: Device, entries: set<Block>)
    requires d.Valid() && forall b :: b in entries ==> Entry(d.st, b)
    modifies d
    ensures d.Valid() && old(d.log) <= d.log
    ensures forall b :: b in entries ==> IsListed(d.st, b)
  {
    hide Reaches;
    var rest := entries;
    while rest != {}
      invariant d.Valid() && old(d.log) <= d.log && rest <= entries
      invariant forall b :: b in rest ==> Entry(d.st, b)
      invariant forall b :: b in entries && b !in rest ==> IsListed(d.st, b)
      decreases |rest|
    {
      var b :| b in rest;
      GiveBackOne(d, b);
      rest := rest - {b};
    }
  }

  lemma EntryFrame(s: State, s': State, b: Block)
    requires Entry(s, b) && b in s'.blocks && s'.blocks[b] == s.blocks[b]
    ensures Entry(s', b)
  {
  }

  lemma EntriesKnown(s: State, bs: set<Block>)
    requires forall b :: b in bs ==> Entry(s, b)
    ensures bs <= s.blocks.Keys
  {
  }

  /** Decides the fate of every entry taken; the rest stays with the sweep. */
  method SweepEntries(d: Device, taken: set<Block>) returns (parked: set<Block>)
    requires d.Valid() && forall b :: b in taken ==> Entry(d.st, b)
    modifies d
    ensures d.Valid() && old(d.log) <= d.log
    ensures parked <= taken && forall b :: b in parked ==> Entry(d.st, b)
    ensures forall b :: b in taken - parked ==> GaveUp(d.log, |old(d.log)|, b)
  {
    hide Reaches, GivesUp, Entry;
    parked := {};
    var pending := taken;
    while pending != {}
      invariant d.Valid() && old(d.log) <= d.log
      invariant pending <= taken && parked <= taken && pending !! parked
      invariant forall b :: b in pending + parked ==> Entry(d.st, b)
      invariant forall b :: b in taken && b !in pending && b !in parked ==> GaveUp(d.log, |old(d.log)|, b)
      decreases |pending|
    {
      var b :| b in pending;
      ghost var before, was := d.log, d.st;
      EntriesKnown(d.st, pending + parked);
      var again, _ := SweepEntry(d, b, pending + parked);
      forall o | o in taken && o !in pending && o !in parked
        ensures GaveUp(d.log, |old(d.log)|, o)
      {
        GaveUpLater(before, d.log, |old(d.log)|, o);
      }
      forall o | o in pending + parked && o != b
        ensures Entry(d.st, o)
      {
        EntryFrame(was, d.st, o);
      }
      pending := pending - {b};
      if again {
        parked := parked + {b};
      }
    }
  }

  /**
   `sweep_pending_frees`: takes the whole list, and every entry it took is
   given up or back on the list when it returns.
   */
  method SweepPendingFrees(d: Device) returns (taken: set<Block>, parked: set<Block>)
    requires d.Valid()
    modifies d
    ensures d.Valid() && old(d.log) <= d.log
    ensures taken == (set b | b in old(d.st.blocks) && IsListed(old(d.st), b))
    ensures parked <= taken && forall b :: b in parked ==> IsListed(d.st, b)
    ensures forall b :: b in taken - parked ==> GaveUp(d.log, |old(d.log)|, b)
  {
    hide Reaches, GivesUp;
    taken := TakeList(d);
    ghost var start := |d.log|;
    parked := SweepEntries(d, taken);
    ghost var before := d.log;
    GiveBack(d, parked);
    forall o | o in taken - parked
      ensures GaveUp(d.log, |old(d.log)|, o)
    {
      GaveUpLater(before, d.log, start, o);
    }
  }
}
