/**
 Stream-ordered reclamation of device memory as a state machine.

 `src/cuda/buffer.rs` records every stream that touched a buffer and, on
 `Drop`, frees the block, parks it behind one event per stream, or fences.
 `src/cuda/mem_pool.rs` sweeps the parked blocks, `src/cuda/stream_pool.rs`
 recycles stream handles and `src/cuda/cuda_sys.rs` tears contexts down.
 One step is one driver call, one list operation or one tag, so a run is any
 interleaving of all host threads with the GPU. A step that can fail in the
 driver carries the outcome as a parameter.

 A stream is a FIFO: `issued` operations were enqueued, the first `done` of
 them have completed. An event is a position in a stream.
 */
module Reclaim {
  import opened Common
  import opened StreamPool

  type Stream = nat
  type Ctx = nat
  type Block = nat
  type EventId = nat

  /** Budget of not-ready sweeps before a parked block is reclaimed by blocking. */
  const MAX_PENDING_SWEEPS := 1024

  datatype Phase = Running | Draining | DrainingStreams | Dead

  datatype StreamInfo = StreamInfo(owner: Ctx, isNull: bool, held: bool, destroyed: bool, issued: nat, done: nat)

  datatype EventInfo = EventInfo(owner: Block, recorded: bool, stream: Stream, pos: nat)

  /** Where a device block is. The states between `Live` and `Free` are the program points of `Drop`. */
  datatype BlockState =
    | Live(used: seq<Stream>, untagged: set<Stream>)
    | Recording(used: seq<Stream>, events: seq<EventId>, made: Option<EventId>)
    | Unwinding(used: seq<Stream>, events: seq<EventId>)
    | Querying(used: seq<Stream>, events: seq<EventId>, ready: nat)
    | Fencing(used: seq<Stream>, next: nat, failed: bool, target: Option<nat>)
    | CtxFencing(used: seq<Stream>, targets: Option<map<Stream, nat>>)
    | Parked(events: seq<EventId>, ready: nat, sweeps: nat, taken: bool)
    | Forcing(events: seq<EventId>)
    | Cleaning(events: seq<EventId>)
    | Returning
    | Free
    | Released

  /**
   `use[t]` is the position of the last operation on `t` that touches the block,
   over every life of the block. `escaped` marks a block that went back although
   the blocking wait for it failed.
   */
  datatype BlockInfo = BlockInfo(ctx: Ctx, st: BlockState, use: map<Stream, nat>, escaped: bool)

  datatype State = State(
    ctxs: map<Ctx, Phase>,
    streams: map<Stream, StreamInfo>,
    pool: seq<PooledStream>,
    blocks: map<Block, BlockInfo>,
    events: map<EventId, EventInfo>,
    nextEvent: EventId,
    ctxSyncFailed: bool)

  const INIT := State(map[], map[], [], map[], map[], 0, false)

  /** Contexts, stream handles and GPU progress. */
  datatype StreamStep =
    | NewContext(c: Ctx, ns: Stream)
    | Mint(c: Ctx, t: Stream)
    | AcquireStream(c: Ctx)
    | ReleaseStream(t: Stream, tag: Ctx)
    | Progress(t: Stream, upTo: nat)
    | TeardownStart(c: Ctx)
    | TeardownStreams(c: Ctx)
    | DestroyStream(c: Ctx)
    | DestroyContext(c: Ctx)

  /** Allocation, launches, tags and the free pool. */
  datatype BufferStep =
    | AllocFresh(b: Block, c: Ctx)
    | AllocPooled(b: Block, c: Ctx)
    | Enqueue(t: Stream, touched: set<Block>)
    | Tag(b: Block, t: Stream)
    | Drop(b: Block)
    | ReturnToPool(b: Block, pooled: bool)
    | Evict(b: Block)

  /** Driver calls on events. */
  datatype EventStep =
    | EventCreate(b: Block, ok: bool)
    | EventRecord(b: Block, ok: bool)
    | EventQuery(b: Block, ok: bool)
    | EventDestroy(b: Block)
    | ForceSync(b: Block, ok: bool)

  /** The blocking fallback of `Drop` and the pending-free list. */
  datatype WaitStep =
    | FenceCall(b: Block)
    | FenceReturn(b: Block, ok: bool)
    | CtxFenceCall(b: Block)
    | CtxFenceReturn(b: Block, ok: bool)
    | SweepTake(bs: set<Block>)
    | SweepGiveBack(b: Block)
    | DrainTake(b: Block)

  datatype Step =
    | OnStreams(st: StreamStep)
    | OnBuffers(bu: BufferStep)
    | OnEvents(ev: EventStep)
    | OnWaits(wa: WaitStep)

  // ---- Step semantics -------------------------------------------------------

  predicate IsRunning(s: State, c: Ctx) { c in s.ctxs && s.ctxs[c] == Running }

  predicate IsLive(s: State, b: Block) { b in s.blocks && s.blocks[b].st.Live? }

  /** The pool holds a stream tagged with `c`. */
  predicate HasPooled(s: State, c: Ctx) {
    var pos := LastOwned(s.pool, c);
    pos.Some? && s.pool[pos.value].raw in s.streams
  }

  /** `StreamSet::insert`. */
  function Insert(used: seq<Stream>, t: Stream): (r: seq<Stream>)
    ensures forall u :: u in r <==> u in used || u == t
    ensures Distinct(used) ==> Distinct(r)
  {
    if t in used then used else used + [t]
  }

  /** The events a block's state owns. */
  function OwnEvents(st: BlockState): seq<EventId> {
    match st
    case Recording(_, events, made) => if made.Some? then events + [made.value] else events
    case Unwinding(_, events) => events
    case Querying(_, events, _) => events
    case Parked(events, _, _, _) => events
    case Forcing(events) => events
    case Cleaning(events) => events
    case _ => []
  }

  /** A buffer owns the block, or its `Drop` still runs. */
  predicate InBuffer(st: BlockState) {
    st.Live? || st.Recording? || st.Unwinding? || st.Querying? || st.Fencing? || st.CtxFencing?
  }

  function WithState(s: State, b: Block, st: BlockState): State
    requires b in s.blocks
  {
    s.(blocks := s.blocks[b := s.blocks[b].(st := st)])
  }

  predicate EventDone(s: State, e: EventId) {
    && e in s.events && s.events[e].recorded
    && s.events[e].stream in s.streams && s.events[e].pos <= s.streams[s.events[e].stream].done
  }

  // ---- Contexts and streams -------------------------------------------------

  predicate CanNewContext(s: State, c: Ctx, ns: Stream) { c != 0 && c !in s.ctxs && ns !in s.streams }

  function DoNewContext(s: State, c: Ctx, ns: Stream): State {
    s.(ctxs := s.ctxs[c := Running],
       streams := s.streams[ns := StreamInfo(c, true, false, false, 0, 0)])
  }

  predicate CanMint(s: State, c: Ctx, t: Stream) { IsRunning(s, c) && t != 0 && t !in s.streams }

  function DoMint(s: State, c: Ctx, t: Stream): State {
    s.(streams := s.streams[t := StreamInfo(c, false, true, false, 0, 0)])
  }

  predicate CanAcquire(s: State, c: Ctx) { IsRunning(s, c) && HasPooled(s, c) }

  function DoAcquire(s: State, c: Ctx): State
    requires CanAcquire(s, c)
  {
    var pos := LastOwned(s.pool, c).value;
    var t := s.pool[pos].raw;
    s.(pool := SwapRemove(s.pool, pos), streams := s.streams[t := s.streams[t].(held := true)])
  }

  /** `CudaStream::Drop`: the owning context is current, or the driver cannot tell which one is. */
  predicate CanRelease(s: State, t: Stream, tag: Ctx) {
    t in s.streams && s.streams[t].held && (tag == 0 || tag == s.streams[t].owner)
  }

  function DoRelease(s: State, t: Stream, tag: Ctx): State
    requires t in s.streams
  {
    s.(pool := s.pool + [PooledStream(t, tag)], streams := s.streams[t := s.streams[t].(held := false)])
  }

  predicate CanProgress(s: State, t: Stream, upTo: nat) {
    t in s.streams && s.streams[t].done <= upTo <= s.streams[t].issued
  }

  function DoProgress(s: State, t: Stream, upTo: nat): State
    requires t in s.streams
  {
    s.(streams := s.streams[t := s.streams[t].(done := upTo)])
  }

  /** `CudaContext::drop` begins: its buffers have dropped and its streams are back in the pool. */
  predicate CanTeardownStart(s: State, c: Ctx) {
    && IsRunning(s, c)
    && (forall t :: t in s.streams && s.streams[t].owner == c ==> !s.streams[t].held)
    && (forall b :: b in s.blocks && s.blocks[b].ctx == c ==> !InBuffer(s.blocks[b].st))
  }

  function DoTeardownStart(s: State, c: Ctx): State { s.(ctxs := s.ctxs[c := Draining]) }

  /** `POOL.drain` has returned and no other thread is inside a sweep that holds a block of `c`. */
  predicate CanTeardownStreams(s: State, c: Ctx) {
    && c in s.ctxs && s.ctxs[c] == Draining
    && forall b :: b in s.blocks && s.blocks[b].ctx == c ==> OwnEvents(s.blocks[b].st) == []
  }

  function DoTeardownStreams(s: State, c: Ctx): State { s.(ctxs := s.ctxs[c := DrainingStreams]) }

  predicate CanDestroyStream(s: State, c: Ctx) {
    c in s.ctxs && s.ctxs[c] == DrainingStreams && c != 0 && HasPooled(s, c)
  }

  function DoDestroyStream(s: State, c: Ctx): State
    requires CanDestroyStream(s, c)
  {
    var pos := LastOwned(s.pool, c).value;
    var t := s.pool[pos].raw;
    s.(pool := SwapRemove(s.pool, pos), streams := s.streams[t := s.streams[t].(destroyed := true)])
  }

  predicate CanDestroyContext(s: State, c: Ctx) { c in s.ctxs && s.ctxs[c] == DrainingStreams }

  function DoDestroyContext(s: State, c: Ctx): State {
    s.(ctxs := s.ctxs[c := Dead],
       streams := map t | t in s.streams ::
         if s.streams[t].owner == c then s.streams[t].(destroyed := true) else s.streams[t])
  }

  // ---- A buffer's life ------------------------------------------------------

  predicate CanAllocFresh(s: State, b: Block, c: Ctx) { IsRunning(s, c) && b !in s.blocks }

  function DoAllocFresh(s: State, b: Block, c: Ctx): State {
    s.(blocks := s.blocks[b := BlockInfo(c, Live([], {}), map[], false)])
  }

  predicate CanAllocPooled(s: State, b: Block, c: Ctx) {
    IsRunning(s, c) && b in s.blocks && s.blocks[b].st.Free?
  }

  function DoAllocPooled(s: State, b: Block, c: Ctx): State
    requires b in s.blocks
  {
    s.(blocks := s.blocks[b := s.blocks[b].(ctx := c, st := Live([], {}))])
  }

  /** An accepted launch or asynchronous copy; the launch glue still has to tag the buffers. */
  predicate CanEnqueue(s: State, t: Stream, touched: set<Block>) {
    && t in s.streams && !s.streams[t].destroyed && (s.streams[t].held || s.streams[t].isNull)
    && forall b :: b in touched ==> IsLive(s, b) && s.blocks[b].ctx == s.streams[t].owner
  }

  function Touch(i: BlockInfo, t: Stream, pos: nat): BlockInfo
    requires i.st.Live?
  {
    i.(use := i.use[t := pos], st := Live(i.st.used, i.st.untagged + {t}))
  }

  function DoEnqueue(s: State, t: Stream, touched: set<Block>): State
    requires CanEnqueue(s, t, touched)
  {
    var pos := s.streams[t].issued + 1;
    s.(streams := s.streams[t := s.streams[t].(issued := pos)],
       blocks := map b | b in s.blocks :: if b in touched then Touch(s.blocks[b], t, pos) else s.blocks[b])
  }

  /** `mark_stream_use` and the view back-reference. */
  predicate CanTag(s: State, b: Block, t: Stream) {
    IsLive(s, b) && t in s.streams && s.streams[t].owner == s.blocks[b].ctx
  }

  function DoTag(s: State, b: Block, t: Stream): State
    requires CanTag(s, b, t)
  {
    var st := s.blocks[b].st;
    WithState(s, b, Live(Insert(st.used, t), st.untagged - {t}))
  }

  /** `Drop` has exclusive ownership: no launch that borrowed the buffer is still tagging it. */
  predicate CanDrop(s: State, b: Block) { IsLive(s, b) && s.blocks[b].st.untagged == {} }

  function DoDrop(s: State, b: Block): State
    requires CanDrop(s, b)
  {
    var used := s.blocks[b].st.used;
    WithState(s, b, if used == [] then Returning else Recording(used, [], None))
  }

  // ---- record_defer_events --------------------------------------------------

  predicate CanCreate(s: State, b: Block) {
    && b in s.blocks && s.blocks[b].st.Recording?
    && s.blocks[b].st.made.None? && |s.blocks[b].st.events| < |s.blocks[b].st.used|
  }

  function DoCreate(s: State, b: Block, ok: bool): State
    requires CanCreate(s, b)
  {
    var st := s.blocks[b].st;
    if ok then
      WithState(s, b, Recording(st.used, st.events, Some(s.nextEvent)))
      .(events := s.events[s.nextEvent := EventInfo(b, false, 0, 0)], nextEvent := s.nextEvent + 1)
    else
      WithState(s, b, if st.events == [] then Fencing(st.used, 0, false, None) else Unwinding(st.used, st.events))
  }

  predicate CanRecord(s: State, b: Block) {
    && b in s.blocks && s.blocks[b].st.Recording? && s.blocks[b].st.made.Some?
    && |s.blocks[b].st.events| < |s.blocks[b].st.used|
    && s.blocks[b].st.used[|s.blocks[b].st.events|] in s.streams
  }

  function DoRecord(s: State, b: Block, ok: bool): State
    requires CanRecord(s, b)
  {
    var st := s.blocks[b].st;
    var e := st.made.value;
    var t := st.used[|st.events|];
    if ok then
      var events := st.events + [e];
      WithState(s, b, if |events| == |st.used| then Querying(st.used, events, 0) else Recording(st.used, events, None))
      .(events := s.events[e := EventInfo(b, true, t, s.streams[t].issued)])
    else
      WithState(s, b, Unwinding(st.used, [e] + st.events))
  }

  predicate CanDestroyEvent(s: State, b: Block) {
    && b in s.blocks && (s.blocks[b].st.Unwinding? || s.blocks[b].st.Cleaning?)
    && s.blocks[b].st.events != []
  }

  /** The state after one more event of a list was settled. */
  function AfterDestroy(st: BlockState): BlockState
    requires (st.Unwinding? || st.Cleaning?) && st.events != []
  {
    if st.Unwinding? then
      if |st.events| == 1 then Fencing(st.used, 0, false, None) else Unwinding(st.used, st.events[1..])
    else
      if |st.events| == 1 then Returning else Cleaning(st.events[1..])
  }

  /** The state after all events of a list were seen ready, or the first that was not. */
  function AfterQuery(st: BlockState, isReady: bool): BlockState
    requires (st.Querying? || st.Parked?) && st.ready < |st.events|
  {
    if isReady && st.ready + 1 == |st.events| then Cleaning(st.events)
    else if st.Querying? then
      if isReady then Querying(st.used, st.events, st.ready + 1) else Parked(st.events, 0, 0, false)
    else
      if isReady then Parked(st.events, st.ready + 1, st.sweeps, st.taken)
      else if st.sweeps + 1 >= MAX_PENDING_SWEEPS then Forcing(st.events)
      else Parked(st.events, 0, st.sweeps + 1, true)
  }

  /** The state after the fence of stream `next` came back. */
  function AfterFence(st: BlockState, ok: bool): BlockState
    requires st.Fencing? && st.next < |st.used|
  {
    var failed := st.failed || !ok;
    if st.next + 1 < |st.used| then Fencing(st.used, st.next + 1, failed, None)
    else if failed then CtxFencing(st.used, None)
    else Returning
  }

  function DoDestroyEvent(s: State, b: Block): State
    requires CanDestroyEvent(s, b)
  {
    var st := s.blocks[b].st;
    WithState(s, b, AfterDestroy(st)).(events := s.events - {st.events[0]})
  }

  // ---- real_drop_reclaim and fence_all_streams ------------------------------

  predicate CanQuery(s: State, b: Block) {
    && b in s.blocks
    && (s.blocks[b].st.Querying? || (s.blocks[b].st.Parked? && s.blocks[b].st.taken))
    && s.blocks[b].st.ready < |s.blocks[b].st.events|
  }

  function DoQuery(s: State, b: Block, ok: bool): State
    requires CanQuery(s, b)
  {
    var st := s.blocks[b].st;
    WithState(s, b, AfterQuery(st, ok && EventDone(s, st.events[st.ready])))
  }

  predicate CanFenceCall(s: State, b: Block) {
    && b in s.blocks && s.blocks[b].st.Fencing? && s.blocks[b].st.target.None?
    && s.blocks[b].st.next < |s.blocks[b].st.used|
    && s.blocks[b].st.used[s.blocks[b].st.next] in s.streams
  }

  function DoFenceCall(s: State, b: Block): State
    requires CanFenceCall(s, b)
  {
    var st := s.blocks[b].st;
    WithState(s, b, Fencing(st.used, st.next, st.failed, Some(s.streams[st.used[st.next]].issued)))
  }

  /** `cuStreamSynchronize` succeeds only once everything issued before the call has completed. */
  predicate CanFenceReturn(s: State, b: Block, ok: bool) {
    && b in s.blocks && s.blocks[b].st.Fencing? && s.blocks[b].st.target.Some?
    && s.blocks[b].st.next < |s.blocks[b].st.used|
    && s.blocks[b].st.used[s.blocks[b].st.next] in s.streams
    && (ok ==> s.blocks[b].st.target.value <= s.streams[s.blocks[b].st.used[s.blocks[b].st.next]].done)
  }

  function DoFenceReturn(s: State, b: Block, ok: bool): State
    requires CanFenceReturn(s, b, ok)
  {
    WithState(s, b, AfterFence(s.blocks[b].st, ok))
  }

  predicate CanCtxFenceCall(s: State, b: Block) {
    b in s.blocks && s.blocks[b].st.CtxFencing? && s.blocks[b].st.targets.None?
  }

  function DoCtxFenceCall(s: State, b: Block): State
    requires CanCtxFenceCall(s, b)
  {
    var targets := map t | t in s.streams && s.streams[t].owner == s.blocks[b].ctx :: s.streams[t].issued;
    WithState(s, b, CtxFencing(s.blocks[b].st.used, Some(targets)))
  }

  predicate CanCtxFenceReturn(s: State, b: Block, ok: bool) {
    && b in s.blocks && s.blocks[b].st.CtxFencing? && s.blocks[b].st.targets.Some?
    && (ok ==> forall t :: t in s.blocks[b].st.targets.value ==>
                   t in s.streams && s.blocks[b].st.targets.value[t] <= s.streams[t].done)
  }

  function DoCtxFenceReturn(s: State, b: Block, ok: bool): State
    requires b in s.blocks
  {
    s.(blocks := s.blocks[b := s.blocks[b].(st := Returning, escaped := s.blocks[b].escaped || !ok)],
       ctxSyncFailed := s.ctxSyncFailed || !ok)
  }

  /** `POOL.free`: the block is pooled, or the caps send it to the driver. */
  predicate CanReturn(s: State, b: Block) { b in s.blocks && s.blocks[b].st.Returning? }

  function DoReturn(s: State, b: Block, pooled: bool): State
    requires CanReturn(s, b)
  {
    WithState(s, b, if pooled then Free else Released)
  }

  predicate CanEvict(s: State, b: Block) { b in s.blocks && s.blocks[b].st.Free? }

  // ---- The pending-free list ------------------------------------------------

  predicate IsListed(s: State, b: Block) { b in s.blocks && s.blocks[b].st.Parked? && !s.blocks[b].st.taken }

  function Taken(i: BlockInfo): BlockInfo
    requires i.st.Parked?
  {
    i.(st := Parked(i.st.events, 0, i.st.sweeps, true))
  }

  /** A sweep moves entries out of the list before it queries them. */
  function DoSweepTake(s: State, bs: set<Block>): State
    requires forall b :: b in bs ==> IsListed(s, b)
  {
    s.(blocks := map b | b in s.blocks :: if b in bs then assert IsListed(s, b); Taken(s.blocks[b]) else s.blocks[b])
  }

  predicate CanGiveBack(s: State, b: Block) { b in s.blocks && s.blocks[b].st.Parked? && s.blocks[b].st.taken }

  function DoGiveBack(s: State, b: Block): State
    requires CanGiveBack(s, b)
  {
    WithState(s, b, Parked(s.blocks[b].st.events, 0, s.blocks[b].st.sweeps, false))
  }

  function DoDrainTake(s: State, b: Block): State
    requires IsListed(s, b)
  {
    WithState(s, b, Forcing(s.blocks[b].st.events))
  }

  /** `force_reclaim_pending`: a failed `event_synchronize` is swallowed. */
  predicate CanForce(s: State, b: Block, ok: bool) {
    && b in s.blocks && s.blocks[b].st.Forcing? && s.blocks[b].st.events != []
    && (ok ==> EventDone(s, s.blocks[b].st.events[0]))
  }

  function DoForce(s: State, b: Block, ok: bool): State
    requires CanForce(s, b, ok)
  {
    var i := s.blocks[b];
    var st := if |i.st.events| == 1 then Released else Forcing(i.st.events[1..]);
    s.(blocks := s.blocks[b := i.(st := st, escaped := i.escaped || !ok)],
       events := s.events - {i.st.events[0]})
  }

  // ---- The machine ----------------------------------------------------------

  predicate StreamEnabled(s: State, step: StreamStep) {
    match step
    case NewContext(c, ns) => CanNewContext(s, c, ns)
    case Mint(c, t) => CanMint(s, c, t)
    case AcquireStream(c) => CanAcquire(s, c)
    case ReleaseStream(t, tag) => CanRelease(s, t, tag)
    case Progress(t, upTo) => CanProgress(s, t, upTo)
    case TeardownStart(c) => CanTeardownStart(s, c)
    case TeardownStreams(c) => CanTeardownStreams(s, c)
    case DestroyStream(c) => CanDestroyStream(s, c)
    case DestroyContext(c) => CanDestroyContext(s, c)
  }

  function StreamApply(s: State, step: StreamStep): State
    requires StreamEnabled(s, step)
  {
    match step
    case NewContext(c, ns) => DoNewContext(s, c, ns)
    case Mint(c, t) => DoMint(s, c, t)
    case AcquireStream(c) => DoAcquire(s, c)
    case ReleaseStream(t, tag) => DoRelease(s, t, tag)
    case Progress(t, upTo) => DoProgress(s, t, upTo)
    case TeardownStart(c) => DoTeardownStart(s, c)
    case TeardownStreams(c) => DoTeardownStreams(s, c)
    case DestroyStream(c) => DoDestroyStream(s, c)
    case DestroyContext(c) => DoDestroyContext(s, c)
  }

  predicate BufferEnabled(s: State, step: BufferStep) {
    match step
    case AllocFresh(b, c) => CanAllocFresh(s, b, c)
    case AllocPooled(b, c) => CanAllocPooled(s, b, c)
    case Enqueue(t, touched) => CanEnqueue(s, t, touched)
    case Tag(b, t) => CanTag(s, b, t)
    case Drop(b) => CanDrop(s, b)
    case ReturnToPool(b, _) => CanReturn(s, b)
    case Evict(b) => CanEvict(s, b)
  }

  function BufferApply(s: State, step: BufferStep): State
    requires BufferEnabled(s, step)
  {
    match step
    case AllocFresh(b, c) => DoAllocFresh(s, b, c)
    case AllocPooled(b, c) => DoAllocPooled(s, b, c)
    case Enqueue(t, touched) => DoEnqueue(s, t, touched)
    case Tag(b, t) => DoTag(s, b, t)
    case Drop(b) => DoDrop(s, b)
    case ReturnToPool(b, pooled) => DoReturn(s, b, pooled)
    case Evict(b) => WithState(s, b, Released)
  }

  predicate EventEnabled(s: State, step: EventStep) {
    match step
    case EventCreate(b, _) => CanCreate(s, b)
    case EventRecord(b, _) => CanRecord(s, b)
    case EventQuery(b, _) => CanQuery(s, b)
    case EventDestroy(b) => CanDestroyEvent(s, b)
    case ForceSync(b, ok) => CanForce(s, b, ok)
  }

  function EventApply(s: State, step: EventStep): State
    requires EventEnabled(s, step)
  {
    match step
    case EventCreate(b, ok) => DoCreate(s, b, ok)
    case EventRecord(b, ok) => DoRecord(s, b, ok)
    case EventQuery(b, ok) => DoQuery(s, b, ok)
    case EventDestroy(b) => DoDestroyEvent(s, b)
    case ForceSync(b, ok) => DoForce(s, b, ok)
  }

  predicate WaitEnabled(s: State, step: WaitStep) {
    match step
    case FenceCall(b) => CanFenceCall(s, b)
    case FenceReturn(b, ok) => CanFenceReturn(s, b, ok)
    case CtxFenceCall(b) => CanCtxFenceCall(s, b)
    case CtxFenceReturn(b, ok) => CanCtxFenceReturn(s, b, ok)
    case SweepTake(bs) => forall b :: b in bs ==> IsListed(s, b)
    case SweepGiveBack(b) => CanGiveBack(s, b)
    case DrainTake(b) => IsListed(s, b)
  }

  function WaitApply(s: State, step: WaitStep): State
    requires WaitEnabled(s, step)
  {
    match step
    case FenceCall(b) => DoFenceCall(s, b)
    case FenceReturn(b, ok) => DoFenceReturn(s, b, ok)
    case CtxFenceCall(b) => DoCtxFenceCall(s, b)
    case CtxFenceReturn(b, ok) => DoCtxFenceReturn(s, b, ok)
    case SweepTake(bs) => DoSweepTake(s, bs)
    case SweepGiveBack(b) => DoGiveBack(s, b)
    case DrainTake(b) => DoDrainTake(s, b)
  }

  predicate Enabled(s: State, step: Step) {
    match step
    case OnStreams(st) => StreamEnabled(s, st)
    case OnBuffers(bu) => BufferEnabled(s, bu)
    case OnEvents(ev) => EventEnabled(s, ev)
    case OnWaits(wa) => WaitEnabled(s, wa)
  }

  function Apply(s: State, step: Step): State
    requires Enabled(s, step)
  {
    match step
    case OnStreams(st) => StreamApply(s, st)
    case OnBuffers(bu) => BufferApply(s, bu)
    case OnEvents(ev) => EventApply(s, ev)
    case OnWaits(wa) => WaitApply(s, wa)
  }
}
