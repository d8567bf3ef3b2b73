/** The inductive invariant of the reclamation machine and what leaves it untouched. */
module ReclaimInvariant {
  import opened Common
  import opened StreamPool
  import opened Reclaim

  // ---- The invariant --------------------------------------------------------

  ghost predicate StreamInv(s: State) {
    && 0 !in s.ctxs
    && forall t :: t in s.streams ==>
      var i := s.streams[t];
      && i.owner in s.ctxs
      && i.done <= i.issued
      && (i.held ==> !i.isNull && s.ctxs[i.owner] == Running)
      && (i.destroyed ==> s.ctxs[i.owner] == DrainingStreams || s.ctxs[i.owner] == Dead)
  }

  ghost predicate PoolInv(s: State) {
    && (forall i :: 0 <= i < |s.pool| ==>
          var e := s.pool[i];
          && e.raw in s.streams && !s.streams[e.raw].held && !s.streams[e.raw].isNull
          && (e.ctx == 0 || e.ctx == s.streams[e.raw].owner)
          && (s.streams[e.raw].destroyed ==>
                s.streams[e.raw].owner in s.ctxs && s.ctxs[s.streams[e.raw].owner] == Dead))
    && (forall i, j :: 0 <= i < j < |s.pool| ==> s.pool[i].raw != s.pool[j].raw)
  }

  ghost predicate EventInv(s: State) {
    forall e :: e in s.events ==>
      && e < s.nextEvent && s.events[e].owner in s.blocks
      && e in OwnEvents(s.blocks[s.events[e].owner].st)
  }

  /** Every operation on stream `t` that touches the block of `i` has completed. */
  predicate Past(s: State, i: BlockInfo, t: Stream) {
    t in i.use ==> t in s.streams && i.use[t] <= s.streams[t].done
  }

  /** Every operation ever issued against block `b` has completed. */
  ghost predicate Quiet(s: State, b: Block)
    requires b in s.blocks
  {
    forall t :: t in s.blocks[b].use ==> Past(s, s.blocks[b], t)
  }

  /** Event `e` stands on a stream of the block's own context. */
  predicate Located(s: State, i: BlockInfo, e: EventId) {
    && e in s.events && s.events[e].recorded
    && s.events[e].stream in s.streams && s.streams[s.events[e].stream].owner == i.ctx
  }

  /** Event `e` stands at or after the last operation on its stream that touches the block. */
  predicate Covers(s: State, i: BlockInfo, e: EventId, t: Stream) {
    && Located(s, i, e) && s.events[e].stream == t
    && (t in i.use ==> i.use[t] <= s.events[e].pos)
  }

  /** One of `events` stands after every operation on `t` that touches the block. */
  ghost predicate Awaited(s: State, i: BlockInfo, events: seq<EventId>, t: Stream) {
    exists e :: e in events && Covers(s, i, e, t)
  }

  ghost predicate OwnedStream(s: State, i: BlockInfo, t: Stream) {
    t in s.streams && s.streams[t].owner == i.ctx
  }

  /** A context still has its streams while one of its blocks names them. */
  ghost predicate PhaseOk(s: State, i: BlockInfo) {
    && i.ctx in s.ctxs
    && (InBuffer(i.st) ==> s.ctxs[i.ctx] == Running)
    && (OwnEvents(i.st) != [] ==> s.ctxs[i.ctx] == Running || s.ctxs[i.ctx] == Draining)
  }

  ghost predicate UseOk(s: State, i: BlockInfo) {
    forall t :: t in i.use ==> t in s.streams && i.use[t] <= s.streams[t].issued
  }

  ghost predicate EventsOk(s: State, b: Block, st: BlockState) {
    && Distinct(OwnEvents(st))
    && forall e :: e in OwnEvents(st) ==> e in s.events && s.events[e].owner == b
  }

  /** Shape of the block's own bookkeeping, whatever the GPU has completed. */
  ghost predicate ShapeOk(s: State, i: BlockInfo) {
    && (InBuffer(i.st) ==> forall t :: t in i.st.used ==> OwnedStream(s, i, t))
    && match i.st
       case Live(_, untagged) => forall t :: t in untagged ==> OwnedStream(s, i, t)
       case Recording(used, events, made) =>
         && |events| < |used|
         && (forall k :: 0 <= k < |events| ==> Covers(s, i, events[k], used[k]))
       case Unwinding(used, events) => used != [] && events != []
       case Querying(used, events, ready) =>
         && |events| == |used| && ready < |events|
         && (forall k :: 0 <= k < |events| ==> Covers(s, i, events[k], used[k]))
       case Parked(events, ready, _, _) => ready < |events| && forall e :: e in events ==> Located(s, i, e)
       case Forcing(events) => events != [] && forall e :: e in events ==> Located(s, i, e)
       case Cleaning(events) => events != []
       case Fencing(used, next, _, _) => next < |used|
       case _ => true
  }

  /** What protects each stream of `use` that may still run an operation on the block. */
  ghost predicate Protected(s: State, i: BlockInfo) {
    match i.st
    case Live(used, untagged) =>
      forall t :: t in i.use ==> Past(s, i, t) || t in used || t in untagged
    case Recording(used, _, _) => forall t :: t in i.use ==> Past(s, i, t) || t in used
    case Unwinding(used, _) => forall t :: t in i.use ==> Past(s, i, t) || t in used
    case Querying(used, events, ready) =>
      && (forall t :: t in i.use ==> Past(s, i, t) || t in used)
      && (forall k :: 0 <= k < ready <= |events| ==> EventDone(s, events[k]))
    case Fencing(used, next, failed, target) =>
      && (forall t :: t in i.use ==> Past(s, i, t) || t in used)
      && (!failed ==> forall k :: 0 <= k < next < |used| ==> Past(s, i, used[k]))
      && (target.Some? && next < |used| && used[next] in i.use ==> i.use[used[next]] <= target.value)
    case CtxFencing(used, targets) =>
      && (forall t :: t in i.use ==> Past(s, i, t) || t in used)
      && (targets.Some? ==>
            forall t :: t in i.use ==> Past(s, i, t) || (t in targets.value && i.use[t] <= targets.value[t]))
    case Parked(events, ready, _, _) =>
      && (forall t :: t in i.use ==> Past(s, i, t) || Awaited(s, i, events, t))
      && (forall k :: 0 <= k < ready <= |events| ==> EventDone(s, events[k]))
    case Forcing(events) =>
      forall t :: t in i.use ==> Past(s, i, t) || Awaited(s, i, events, t)
    case _ => forall t :: t in i.use ==> Past(s, i, t)
  }

  ghost predicate BlockInv(s: State, b: Block)
    requires b in s.blocks
  {
    var i := s.blocks[b];
    && PhaseOk(s, i) && UseOk(s, i) && EventsOk(s, b, i.st) && ShapeOk(s, i)
    && (i.escaped || Protected(s, i))
    && (i.escaped && !s.ctxSyncFailed ==> i.st.Forcing? || i.st.Released?)
  }

  ghost predicate Inv(s: State) {
    && StreamInv(s) && PoolInv(s) && EventInv(s)
    && forall b :: b in s.blocks ==> BlockInv(s, b)
  }

  // ---- Frames ---------------------------------------------------------------

  /** Streams only move forward: what completed stays completed, owners never change. */
  ghost predicate Advances(s: State, s': State) {
    && (forall t :: t in s.streams ==>
          && t in s'.streams && s'.streams[t].owner == s.streams[t].owner
          && s.streams[t].issued <= s'.streams[t].issued && s.streams[t].done <= s'.streams[t].done)
    && (s.ctxSyncFailed ==> s'.ctxSyncFailed)
  }

  /** The block's own events are the same records in both states. */
  ghost predicate SameEvents(s: State, s': State, st: BlockState) {
    forall e :: e in OwnEvents(st) ==> e in s.events && e in s'.events && s'.events[e] == s.events[e]
  }

  lemma ShapeFrame(s: State, s': State, i: BlockInfo)
    requires ShapeOk(s, i) && Advances(s, s') && SameEvents(s, s', i.st)
    ensures ShapeOk(s', i)
  {
    match i.st
    case Recording(used, events, made) =>
      assert forall k :: 0 <= k < |events| ==> events[k] in OwnEvents(i.st);
    case _ =>
  }

  lemma ProtectedFrame(s: State, s': State, i: BlockInfo)
    requires Protected(s, i) && Advances(s, s') && SameEvents(s, s', i.st)
    ensures Protected(s', i)
  {
    assert forall t :: Past(s, i, t) ==> Past(s', i, t);
    if i.st.Parked? || i.st.Forcing? {
      forall t | t in i.use && Awaited(s, i, i.st.events, t)
        ensures Awaited(s', i, i.st.events, t)
      {
        var e :| e in i.st.events && Covers(s, i, e, t);
        assert e in OwnEvents(i.st);
        assert Covers(s', i, e, t);
      }
    }
  }

  /** A block no step touches keeps its invariant while everything else moves forward. */
  lemma BlockFrame(s: State, s': State, b: Block)
    requires b in s.blocks && BlockInv(s, b) && Advances(s, s')
    requires b in s'.blocks && s'.blocks[b] == s.blocks[b]
    requires PhaseOk(s', s.blocks[b])
    requires SameEvents(s, s', s.blocks[b].st)
    ensures BlockInv(s', b)
  {
    var i := s.blocks[b];
    ShapeFrame(s, s', i);
    if !i.escaped {
      ProtectedFrame(s, s', i);
    }
  }

  /** A block keeps its invariant while only streams and other blocks move. */
  lemma UntouchedFrame(s: State, s': State, b: Block)
    requires b in s.blocks && BlockInv(s, b) && Advances(s, s')
    requires b in s'.blocks && s'.blocks[b] == s.blocks[b]
    requires s'.ctxs == s.ctxs && s'.events == s.events
    ensures BlockInv(s', b)
  {
    BlockFrame(s, s', b);
  }

  /** A step that changes only block `b`, its own events and its own streams keeps every other block. */
  lemma OthersFrame(s: State, s': State, b: Block)
    requires Inv(s) && Advances(s, s') && s'.ctxs == s.ctxs
    requires s'.blocks.Keys == s.blocks.Keys + {b}
    requires forall o :: o in s.blocks && o != b ==> s'.blocks[o] == s.blocks[o]
    requires forall e :: e in s.events && s.events[e].owner != b ==> e in s'.events && s'.events[e] == s.events[e]
    ensures forall o :: o in s'.blocks && o != b ==> BlockInv(s', o)
  {
    forall o | o in s'.blocks && o != b
      ensures BlockInv(s', o)
    {
      assert BlockInv(s, o);
      BlockFrame(s, s', o);
    }
  }
}
