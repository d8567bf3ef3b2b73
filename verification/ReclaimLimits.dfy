/** Where the guarantees of the reclamation protocol end, each with the exact condition or a concrete run. */
module ReclaimLimits {
  import opened Common
  import opened StreamPool
  import opened Reclaim
  import opened ReclaimInvariant
  import opened ReclaimRuns
  import opened StreamPeak

  // ---- Release under the wrong context --------------------------------------

  /** Whatever context acquires next gets a stream of its own that nobody uses. */
  ghost predicate AcquireSound(s: State) {
    forall c :: CanAcquire(s, c) ==> Alive(s, NextHandle(s, c), c) && !s.streams[NextHandle(s, c)].held
  }

  lemma LastOwnedAppend(pool: seq<PooledStream>, e: PooledStream, want: nat)
    ensures LastOwned(pool + [e], want) == if e.ctx == want then Some(|pool|) else LastOwned(pool, want)
  {
    assert (pool + [e])[..|pool|] == pool;
  }

  /**
   Releasing a stream keeps `acquire` sound exactly when the tag is the owner's,
   the unknown tag, or that of a context which cannot acquire any more.
   */
  lemma ReleaseTagExact(s: State, t: Stream, tag: Ctx)
    requires Inv(s) && t in s.streams && s.streams[t].held
    ensures AcquireSound(DoRelease(s, t, tag)) <==>
            (tag == 0 || tag == s.streams[t].owner || !IsRunning(s, tag))
  {
    hide BlockInv;
    var s' := DoRelease(s, t, tag);
    var e := PooledStream(t, tag);
    if tag != 0 && tag != s.streams[t].owner && IsRunning(s, tag) {
      LastOwnedAppend(s.pool, e, tag);
      assert CanAcquire(s', tag) && NextHandle(s', tag) == t;
    } else {
      forall c | CanAcquire(s', c)
        ensures Alive(s', NextHandle(s', c), c) && !s'.streams[NextHandle(s', c)].held
      {
        LastOwnedAppend(s.pool, e, c);
      }
    }
  }

  // ---- Context teardown against a sweep in another thread -------------------

  /** The block's events still have to be queried or waited for. */
  predicate Waiting(st: BlockState) { st.Parked? || st.Forcing? }

  /** Every event still to be queried or waited for stands on a stream that exists. */
  ghost predicate WaitsAlive(s: State) {
    forall b, e :: b in s.blocks && Waiting(s.blocks[b].st) && e in s.blocks[b].st.events ==>
      e in s.events && Alive(s, s.events[e].stream, s.blocks[b].ctx)
  }

  /**
   Destroying a context's streams is safe exactly when no thread still holds one
   of its blocks for a sweep or a forced reclamation.
   */
  lemma TeardownExact(s: State, c: Ctx)
    requires Inv(s) && c in s.ctxs && s.ctxs[c] == Draining
    ensures WaitsAlive(DoDestroyContext(s, c)) <==>
            (forall b :: b in s.blocks && s.blocks[b].ctx == c ==> !Waiting(s.blocks[b].st))
  {
    hide PoolInv, StreamInv, EventInv, BlockInv;
    var s' := DoDestroyContext(s, c);
    if b :| b in s.blocks && s.blocks[b].ctx == c && Waiting(s.blocks[b].st) {
      WaitsSomewhere(s, b);
      WaitIsLocated(s, b, s.blocks[b].st.events[0]);
      assert !WaitsAlive(s');
    } else {
      forall b, e | b in s'.blocks && Waiting(s'.blocks[b].st) && e in s'.blocks[b].st.events
        ensures e in s'.events && Alive(s', s'.events[e].stream, s'.blocks[b].ctx)
      {
        WaitIsLocated(s, b, e);
      }
    }
  }

  lemma WaitsSomewhere(s: State, b: Block)
    requires b in s.blocks && Inv(s) && Waiting(s.blocks[b].st)
    ensures s.blocks[b].st.events != [] && s.blocks[b].st.events[0] in s.blocks[b].st.events
  {
    hide PoolInv, StreamInv, EventInv, Protected;
    assert BlockInv(s, b);
  }

  /** Before the teardown every awaited event stands on a stream of the block's context that exists. */
  lemma WaitIsLocated(s: State, b: Block, e: EventId)
    requires Inv(s) && b in s.blocks && Waiting(s.blocks[b].st) && e in s.blocks[b].st.events
    ensures e in s.events && Alive(s, s.events[e].stream, s.blocks[b].ctx)
  {
    hide PoolInv, EventInv, Protected;
    assert BlockInv(s, b);
    assert Located(s, s.blocks[b], e);
    assert e in OwnEvents(s.blocks[b].st);
  }

  // ---- Concrete runs --------------------------------------------------------

  /** Context 1 with its NULL stream 0 and stream 5; block 7 has one operation pending on stream 5. */
  function OneBlockState(phase: Phase, inUse: bool, pool: seq<PooledStream>, st: BlockState, escaped: bool,
                         events: map<EventId, EventInfo>, failed: bool): State
  {
    State(map[1 := phase],
          map[0 := StreamInfo(1, true, false, false, 0, 0), 5 := StreamInfo(1, false, inUse, false, 1, 0)],
          pool, map[7 := BlockInfo(1, st, map[5 := 1], escaped)], events, |events|, failed)
  }

  /** The state while block 7 goes through its `Drop`, stream 5 still in use. */
  function Dropping(st: BlockState, events: map<EventId, EventInfo>): State {
    OneBlockState(Running, true, [], st, false, events, false)
  }

  const ONE_CTX :=
    State(map[1 := Running], map[0 := StreamInfo(1, true, false, false, 0, 0)], [], map[], map[], 0, false)
  const ONE_STREAM := ONE_CTX.(streams := ONE_CTX.streams[5 := StreamInfo(1, false, true, false, 0, 0)])
  const ONE_BUFFER := ONE_STREAM.(blocks := map[7 := BlockInfo(1, Live([], {}), map[], false)])

  /** The step leads from one state of a concrete run to the next. */
  ghost predicate Leads(s: State, step: Step, s': State) { Enabled(s, step) && Apply(s, step) == s' }

  /** Each step of the list leads to the next state of the list. */
  ghost predicate Chain(states: seq<State>, steps: seq<Step>) {
    && |states| == |steps| + 1
    && forall k :: 0 <= k < |steps| ==> Leads(states[k], steps[k], states[k + 1])
  }

  lemma {:induction false} ChainReaches(states: seq<State>, steps: seq<Step>)
    requires Chain(states, steps)
    ensures Reaches(states[0], steps, states[|steps|])
    decreases |steps|
  {
    hide Enabled, Apply;
    if steps != [] {
      assert Leads(states[0], steps[0], states[1]);
      assert Chain(states[1..], steps[1..]) by {
        forall k | 0 <= k < |steps[1..]|
          ensures Leads(states[1..][k], steps[1..][k], states[1..][k + 1])
        {
          assert Leads(states[k + 1], steps[k + 1], states[k + 2]);
        }
      }
      ChainReaches(states[1..], steps[1..]);
    }
  }

  lemma LaunchLeads()
    ensures Leads(INIT, OnStreams(NewContext(1, 0)), ONE_CTX)
    ensures Leads(ONE_CTX, OnStreams(Mint(1, 5)), ONE_STREAM)
    ensures Leads(ONE_STREAM, OnBuffers(AllocFresh(7, 1)), ONE_BUFFER)
  {
  }

  lemma EnqueueLeads()
    ensures Leads(ONE_BUFFER, OnBuffers(Enqueue(5, {7})), Dropping(Live([], {5}), map[]))
  {
    assert CanEnqueue(ONE_BUFFER, 5, {7});
    assert DoEnqueue(ONE_BUFFER, 5, {7}).blocks == Dropping(Live([], {5}), map[]).blocks;
  }

  lemma TagLeads()
    ensures Leads(Dropping(Live([], {5}), map[]), OnBuffers(Tag(7, 5)), Dropping(Live([5], {}), map[]))
  {
    var s := Dropping(Live([], {5}), map[]);
    assert CanTag(s, 7, 5);
    var used: seq<Stream> := [];
    var none: set<Stream> := {};
    assert s.blocks[7].st.untagged - {5} == none && Insert(used, 5) == [5];
    assert DoTag(s, 7, 5).blocks[7].st == Live([5], none);
    assert DoTag(s, 7, 5).blocks == Dropping(Live([5], none), map[]).blocks;
  }

  lemma DropLeads()
    ensures Leads(Dropping(Live([5], {}), map[]), OnBuffers(Drop(7)), Dropping(Recording([5], [], None), map[]))
  {
  }

  const LAUNCH_AND_DROP := [
    OnStreams(NewContext(1, 0)), OnStreams(Mint(1, 5)), OnBuffers(AllocFresh(7, 1)),
    OnBuffers(Enqueue(5, {7})), OnBuffers(Tag(7, 5)), OnBuffers(Drop(7))]

  /** A buffer is allocated, touched by a launch that stays pending, tagged, and dropped. */
  lemma LaunchAndDrop()
    ensures Reaches(INIT, LAUNCH_AND_DROP, Dropping(Recording([5], [], None), map[]))
  {
    hide Enabled, Apply;
    LaunchLeads();
    EnqueueLeads();
    TagLeads();
    DropLeads();
    ChainReaches(
      [INIT, ONE_CTX, ONE_STREAM, ONE_BUFFER, Dropping(Live([], {5}), map[]), Dropping(Live([5], {}), map[]),
       Dropping(Recording([5], [], None), map[])],
      LAUNCH_AND_DROP);
  }

  const FENCE_TARGETS := map[0 := 0, 5 := 1]

  lemma FenceLeads()
    ensures Leads(Dropping(Recording([5], [], None), map[]), OnEvents(EventCreate(7, false)),
                  Dropping(Fencing([5], 0, false, None), map[]))
    ensures Leads(Dropping(Fencing([5], 0, false, None), map[]), OnWaits(FenceCall(7)),
                  Dropping(Fencing([5], 0, false, Some(1)), map[]))
    ensures Leads(Dropping(Fencing([5], 0, false, Some(1)), map[]), OnWaits(FenceReturn(7, false)),
                  Dropping(CtxFencing([5], None), map[]))
  {
  }

  lemma CtxFenceTargets(s: State)
    requires s == Dropping(CtxFencing([5], None), map[])
    ensures CanCtxFenceCall(s, 7) && DoCtxFenceCall(s, 7) == WithState(s, 7, CtxFencing([5], Some(FENCE_TARGETS)))
  {
    assert DoCtxFenceCall(s, 7).blocks[7].st.targets.value == FENCE_TARGETS;
  }

  lemma CtxFenceLeads()
    ensures Leads(Dropping(CtxFencing([5], None), map[]), OnWaits(CtxFenceCall(7)),
                  Dropping(CtxFencing([5], Some(FENCE_TARGETS)), map[]))
  {
    hide CanCtxFenceCall, DoCtxFenceCall;
    CtxFenceTargets(Dropping(CtxFencing([5], None), map[]));
  }

  lemma CtxFenceFailsLeads()
    ensures Leads(Dropping(CtxFencing([5], Some(FENCE_TARGETS)), map[]), OnWaits(CtxFenceReturn(7, false)),
                  OneBlockState(Running, true, [], Returning, true, map[], true))
    ensures Leads(OneBlockState(Running, true, [], Returning, true, map[], true), OnBuffers(ReturnToPool(7, true)),
                  OneBlockState(Running, true, [], Free, true, map[], true))
  {
  }

  const FAIL_EVERYTHING := [
    OnEvents(EventCreate(7, false)), OnWaits(FenceCall(7)), OnWaits(FenceReturn(7, false)),
    OnWaits(CtxFenceCall(7)), OnWaits(CtxFenceReturn(7, false)), OnBuffers(ReturnToPool(7, true))]

  /** When the fence and the device-wide synchronisation both fail, a block is pooled with work pending. */
  lemma BothSyncsFail()
    ensures Reaches(INIT, LAUNCH_AND_DROP + FAIL_EVERYTHING, OneBlockState(Running, true, [], Free, true, map[], true))
    ensures !Completed(LAUNCH_AND_DROP + FAIL_EVERYTHING, OneBlockState(Running, true, [], Free, true, map[], true), 7)
  {
    hide Enabled, Apply;
    LaunchAndDrop();
    FenceLeads();
    CtxFenceLeads();
    CtxFenceFailsLeads();
    var states := [
      Dropping(Recording([5], [], None), map[]), Dropping(Fencing([5], 0, false, None), map[]),
      Dropping(Fencing([5], 0, false, Some(1)), map[]), Dropping(CtxFencing([5], None), map[]),
      Dropping(CtxFencing([5], Some(FENCE_TARGETS)), map[]),
      OneBlockState(Running, true, [], Returning, true, map[], true),
      OneBlockState(Running, true, [], Free, true, map[], true)];
    ChainReaches(states, FAIL_EVERYTHING);
    ReachesConcat(INIT, LAUNCH_AND_DROP, states[0], FAIL_EVERYTHING, states[6]);
    var steps := LAUNCH_AND_DROP + FAIL_EVERYTHING;
    assert Touches(steps, 3, 7);
    assert steps[..4][3] == OnBuffers(Enqueue(5, {7}));
    assert Issued(steps[..4], 5) >= 1;
  }

  const UNRECORDED := map[0 := EventInfo(7, false, 0, 0)]
  const RECORDED := map[0 := EventInfo(7, true, 5, 1)]

  lemma CreateLeads()
    ensures Leads(Dropping(Recording([5], [], None), map[]), OnEvents(EventCreate(7, true)),
                  Dropping(Recording([5], [], Some(0)), UNRECORDED))
  {
  }

  lemma RecordLeads()
    ensures Leads(Dropping(Recording([5], [], Some(0)), UNRECORDED), OnEvents(EventRecord(7, true)),
                  Dropping(Querying([5], [0], 0), RECORDED))
  {
    var s := Dropping(Recording([5], [], Some(0)), UNRECORDED);
    assert CanRecord(s, 7);
    assert s.blocks[7].st.events + [0] == [0];
    assert DoRecord(s, 7, true).events == RECORDED;
    assert DoRecord(s, 7, true).blocks == Dropping(Querying([5], [0], 0), RECORDED).blocks;
  }

  lemma ParkLeads()
    ensures Leads(Dropping(Querying([5], [0], 0), RECORDED), OnEvents(EventQuery(7, true)),
                  Dropping(Parked([0], 0, 0, false), RECORDED))
  {
    var s := Dropping(Querying([5], [0], 0), RECORDED);
    assert CanQuery(s, 7) && !EventDone(s, 0);
  }

  lemma SweepLeads()
    ensures Leads(Dropping(Parked([0], 0, 0, false), RECORDED), OnWaits(SweepTake({7})),
                  Dropping(Parked([0], 0, 0, true), RECORDED))
  {
    var s := Dropping(Parked([0], 0, 0, false), RECORDED);
    assert IsListed(s, 7);
    assert DoSweepTake(s, {7}).blocks == Dropping(Parked([0], 0, 0, true), RECORDED).blocks;
  }

  lemma TeardownLeads()
    ensures Leads(Dropping(Parked([0], 0, 0, true), RECORDED), OnStreams(ReleaseStream(5, 1)),
                  OneBlockState(Running, false, [PooledStream(5, 1)], Parked([0], 0, 0, true), false, RECORDED, false))
    ensures Leads(OneBlockState(Running, false, [PooledStream(5, 1)], Parked([0], 0, 0, true), false, RECORDED, false),
                  OnStreams(TeardownStart(1)),
                  OneBlockState(Draining, false, [PooledStream(5, 1)], Parked([0], 0, 0, true), false, RECORDED, false))
  {
  }

  const PARK_AND_SWEEP := [
    OnEvents(EventCreate(7, true)), OnEvents(EventRecord(7, true)), OnEvents(EventQuery(7, true)),
    OnWaits(SweepTake({7})), OnStreams(ReleaseStream(5, 1)), OnStreams(TeardownStart(1))]

  /**
   A sweep in another thread has taken the only parked block when its context is
   torn down: the drain of the pending list finds nothing, and destroying the
   context's streams takes away the stream the sweep is about to query.
   */
  lemma SweepOutlivesContext()
    ensures var s := OneBlockState(Draining, false, [PooledStream(5, 1)], Parked([0], 0, 0, true), false, RECORDED, false);
      && Reaches(INIT, LAUNCH_AND_DROP + PARK_AND_SWEEP, s)
      && (forall b :: b in s.blocks ==> !IsListed(s, b))
      && !WaitsAlive(DoDestroyContext(s, 1))
  {
    hide Enabled, Apply;
    LaunchAndDrop();
    CreateLeads();
    RecordLeads();
    ParkLeads();
    SweepLeads();
    TeardownLeads();
    var states := [
      Dropping(Recording([5], [], None), map[]), Dropping(Recording([5], [], Some(0)), UNRECORDED),
      Dropping(Querying([5], [0], 0), RECORDED), Dropping(Parked([0], 0, 0, false), RECORDED),
      Dropping(Parked([0], 0, 0, true), RECORDED),
      OneBlockState(Running, false, [PooledStream(5, 1)], Parked([0], 0, 0, true), false, RECORDED, false),
      OneBlockState(Draining, false, [PooledStream(5, 1)], Parked([0], 0, 0, true), false, RECORDED, false)];
    ChainReaches(states, PARK_AND_SWEEP);
    ReachesConcat(INIT, LAUNCH_AND_DROP, states[0], PARK_AND_SWEEP, states[6]);
    var s' := DoDestroyContext(states[6], 1);
    assert 7 in s'.blocks && Waiting(s'.blocks[7].st) && 0 in s'.blocks[7].st.events;
    assert !Alive(s', s'.events[0].stream, 1);
  }

  // ---- Releases under the unknown tag lose the bound on minting --------------

  const POOLED_UNKNOWN := ONE_CTX.(streams := ONE_CTX.streams[5 := StreamInfo(1, false, false, false, 0, 0)],
                                   pool := [PooledStream(5, 0)])
  const TWO_STREAMS := POOLED_UNKNOWN.(streams := POOLED_UNKNOWN.streams[6 := StreamInfo(1, false, true, false, 0, 0)])

  const MINT_TWICE := [
    OnStreams(NewContext(1, 0)), OnStreams(Mint(1, 5)), OnStreams(ReleaseStream(5, 0)), OnStreams(Mint(1, 6))]

  lemma MintTwiceLeads()
    ensures Leads(INIT, OnStreams(NewContext(1, 0)), ONE_CTX)
    ensures !HasPooled(ONE_CTX, 1) && Leads(ONE_CTX, OnStreams(Mint(1, 5)), ONE_STREAM)
    ensures Leads(ONE_STREAM, OnStreams(ReleaseStream(5, 0)), POOLED_UNKNOWN)
    ensures !HasPooled(POOLED_UNKNOWN, 1) && Leads(POOLED_UNKNOWN, OnStreams(Mint(1, 6)), TWO_STREAMS)
  {
  }

  lemma StreamIsLost()
    ensures Lost(POOLED_UNKNOWN, 1)
  {
    assert POOLED_UNKNOWN.pool[0] == PooledStream(5, 0);
  }

  lemma OneStepEarlier(s: State, step: Step, s1: State, steps: seq<Step>, s': State, c: Ctx)
    requires Leads(s, step, s1) && Thrifty(s, step)
    requires ThriftyRun(s1, steps, s') && MintsPastLost(s1, steps, c)
    ensures ThriftyRun(s, [step] + steps, s') && MintsPastLost(s, [step] + steps, c)
  {
    hide Enabled, Apply, Lost, Thrifty, Mints;
    assert ([step] + steps)[1..] == steps;
  }

  lemma MintsPastLostNow()
    ensures ThriftyRun(POOLED_UNKNOWN, [OnStreams(Mint(1, 6))], TWO_STREAMS)
    ensures MintsPastLost(POOLED_UNKNOWN, [OnStreams(Mint(1, 6))], 1)
  {
    hide Enabled, Apply, Lost, HasPooled;
    MintTwiceLeads();
    StreamIsLost();
    var last := [OnStreams(Mint(1, 6))];
    assert Mints(last[0], 1) && last[1..] == [];
  }

  lemma MintTwiceIsThrifty()
    ensures ThriftyRun(INIT, MINT_TWICE, TWO_STREAMS) && MintsPastLost(INIT, MINT_TWICE, 1)
  {
    hide Enabled, Apply, ThriftyRun, MintsPastLost, Lost, HasPooled;
    MintTwiceLeads();
    MintsPastLostNow();
    var last := [OnStreams(Mint(1, 6))];
    OneStepEarlier(ONE_STREAM, MINT_TWICE[2], POOLED_UNKNOWN, last, TWO_STREAMS, 1);
    OneStepEarlier(ONE_CTX, MINT_TWICE[1], ONE_STREAM, [MINT_TWICE[2]] + last, TWO_STREAMS, 1);
    OneStepEarlier(INIT, MINT_TWICE[0], ONE_CTX, [MINT_TWICE[1]] + ([MINT_TWICE[2]] + last), TWO_STREAMS, 1);
    assert MINT_TWICE == [MINT_TWICE[0]] + ([MINT_TWICE[1]] + ([MINT_TWICE[2]] + last));
  }

  /**
   A stream released while its owner could not be determined is never found
   again, so another is minted. `PeakExact` says that this is the only way to
   lose the bound.
   */
  lemma UnknownTagLosesBound()
    ensures ThriftyRun(INIT, MINT_TWICE, TWO_STREAMS) && MintsPastLost(INIT, MINT_TWICE, 1)
    ensures !OnceInUse(INIT, MINT_TWICE, 1, Minted(TWO_STREAMS, 1)) && |Minted(TWO_STREAMS, 1)| == 2
  {
    MintTwiceIsThrifty();
    PeakExact(MINT_TWICE, TWO_STREAMS, 1);
    assert Minted(TWO_STREAMS, 1) == {5, 6};
  }
}
