/** Every step of the reclamation machine keeps the invariant. */
module ReclaimSteps {
  import opened Common
  import opened StreamPool
  import opened Reclaim
  import opened ReclaimInvariant

  // ---- Contexts and streams -------------------------------------------------

  /** Blocks are untouched and their contexts keep the streams they still need. */
  lemma AllBlocksFrame(s: State, s': State)
    requires Inv(s) && Advances(s, s') && s'.blocks == s.blocks && s'.events == s.events
    requires forall b :: b in s.blocks ==> PhaseOk(s', s.blocks[b])
    ensures forall b :: b in s'.blocks ==> BlockInv(s', b)
  {
    forall b | b in s'.blocks
      ensures BlockInv(s', b)
    {
      assert BlockInv(s, b);
      BlockFrame(s, s', b);
    }
  }

  lemma SamePhases(s: State, s': State)
    requires Inv(s) && s'.ctxs.Keys >= s.ctxs.Keys
    requires forall c :: c in s.ctxs ==> s'.ctxs[c] == s.ctxs[c]
    ensures forall b :: b in s.blocks ==> PhaseOk(s', s.blocks[b])
  {
    assert forall b :: b in s.blocks ==> BlockInv(s, b);
  }

  lemma NewContextKeeps(s: State, c: Ctx, ns: Stream)
    requires Inv(s) && CanNewContext(s, c, ns)
    ensures Inv(DoNewContext(s, c, ns))
  {
    hide BlockInv;
    var s' := DoNewContext(s, c, ns);
    SamePhases(s, s');
    AllBlocksFrame(s, s');
  }

  lemma MintKeeps(s: State, c: Ctx, t: Stream)
    requires Inv(s) && CanMint(s, c, t)
    ensures Inv(DoMint(s, c, t))
  {
    hide BlockInv;
    var s' := DoMint(s, c, t);
    SamePhases(s, s');
    AllBlocksFrame(s, s');
  }

  lemma AcquireKeeps(s: State, c: Ctx)
    requires Inv(s) && CanAcquire(s, c)
    ensures Inv(DoAcquire(s, c))
  {
    hide BlockInv;
    var s' := DoAcquire(s, c);
    SamePhases(s, s');
    AllBlocksFrame(s, s');
  }

  lemma ReleaseKeeps(s: State, t: Stream, tag: Ctx)
    requires Inv(s) && CanRelease(s, t, tag)
    ensures Inv(DoRelease(s, t, tag))
  {
    hide BlockInv;
    var s' := DoRelease(s, t, tag);
    SamePhases(s, s');
    AllBlocksFrame(s, s');
  }

  lemma ProgressKeeps(s: State, t: Stream, upTo: nat)
    requires Inv(s) && CanProgress(s, t, upTo)
    ensures Inv(DoProgress(s, t, upTo))
  {
    hide BlockInv;
    var s' := DoProgress(s, t, upTo);
    SamePhases(s, s');
    AllBlocksFrame(s, s');
  }

  lemma TeardownStartKeeps(s: State, c: Ctx)
    requires Inv(s) && CanTeardownStart(s, c)
    ensures Inv(DoTeardownStart(s, c))
  {
    var s' := DoTeardownStart(s, c);
    assert forall b :: b in s.blocks ==> BlockInv(s, b);
    AllBlocksFrame(s, s');
  }

  lemma TeardownStreamsKeeps(s: State, c: Ctx)
    requires Inv(s) && CanTeardownStreams(s, c)
    ensures Inv(DoTeardownStreams(s, c))
  {
    var s' := DoTeardownStreams(s, c);
    assert forall b :: b in s.blocks ==> BlockInv(s, b);
    AllBlocksFrame(s, s');
  }

  lemma DestroyStreamKeeps(s: State, c: Ctx)
    requires Inv(s) && CanDestroyStream(s, c)
    ensures Inv(DoDestroyStream(s, c))
  {
    hide BlockInv;
    var s' := DoDestroyStream(s, c);
    SamePhases(s, s');
    AllBlocksFrame(s, s');
  }

  lemma DeadPhases(s: State, c: Ctx)
    requires Inv(s) && CanDestroyContext(s, c)
    ensures forall b :: b in s.blocks ==> PhaseOk(DoDestroyContext(s, c), s.blocks[b])
  {
    assert forall b :: b in s.blocks ==> BlockInv(s, b);
  }

  lemma DestroyContextKeeps(s: State, c: Ctx)
    requires Inv(s) && CanDestroyContext(s, c)
    ensures Inv(DoDestroyContext(s, c))
  {
    hide BlockInv;
    var s' := DoDestroyContext(s, c);
    DeadPhases(s, c);
    AllBlocksFrame(s, s');
  }

  // ---- One block ------------------------------------------------------------

  /** A step that changes one block and none of its events keeps everything else. */
  lemma OneBlock(s: State, b: Block, st: BlockState)
    requires Inv(s) && b in s.blocks
    requires BlockInv(WithState(s, b, st), b)
    requires OwnEvents(st) == OwnEvents(s.blocks[b].st)
    ensures Inv(WithState(s, b, st))
  {
    hide BlockInv;
    var s' := WithState(s, b, st);
    OthersFrame(s, s', b);
    assert EventInv(s');
  }

  /** A step that changes one block and the events it owns keeps everything else. */
  lemma OneBlockEvents(s: State, s': State, b: Block)
    requires Inv(s) && b in s'.blocks
    requires s' == s.(blocks := s.blocks[b := s'.blocks[b]], events := s'.events,
                      nextEvent := s'.nextEvent, ctxSyncFailed := s'.ctxSyncFailed)
    requires s.nextEvent <= s'.nextEvent && (s.ctxSyncFailed ==> s'.ctxSyncFailed)
    requires BlockInv(s', b)
    requires forall e :: e in s.events && s.events[e].owner != b ==> e in s'.events && s'.events[e] == s.events[e]
    requires forall e :: e in s'.events ==>
               || (e in s.events && s.events[e].owner != b && s'.events[e] == s.events[e])
               || (e < s'.nextEvent && s'.events[e].owner == b && e in OwnEvents(s'.blocks[b].st))
    ensures Inv(s')
  {
    hide BlockInv;
    OthersFrame(s, s', b);
    assert EventInv(s');
  }

  lemma AllocFreshKeeps(s: State, b: Block, c: Ctx)
    requires Inv(s) && CanAllocFresh(s, b, c)
    ensures Inv(DoAllocFresh(s, b, c))
  {
    var s' := DoAllocFresh(s, b, c);
    assert BlockInv(s', b);
    OneBlockEvents(s, s', b);
  }

  lemma AllocPooledBlock(s: State, b: Block, c: Ctx)
    requires b in s.blocks && BlockInv(s, b) && CanAllocPooled(s, b, c)
    ensures BlockInv(DoAllocPooled(s, b, c), b)
  {
  }

  lemma AllocPooledKeeps(s: State, b: Block, c: Ctx)
    requires Inv(s) && CanAllocPooled(s, b, c)
    ensures Inv(DoAllocPooled(s, b, c))
  {
    hide BlockInv;
    var s' := DoAllocPooled(s, b, c);
    assert BlockInv(s, b);
    AllocPooledBlock(s, b, c);
    OneBlockEvents(s, s', b);
  }

  lemma TagBlock(s: State, b: Block, t: Stream)
    requires b in s.blocks && BlockInv(s, b) && CanTag(s, b, t)
    ensures BlockInv(DoTag(s, b, t), b)
  {
  }

  lemma TagKeeps(s: State, b: Block, t: Stream)
    requires Inv(s) && CanTag(s, b, t)
    ensures Inv(DoTag(s, b, t))
  {
    hide BlockInv;
    assert BlockInv(s, b);
    TagBlock(s, b, t);
    OneBlock(s, b, DoTag(s, b, t).blocks[b].st);
  }

  lemma DropBlock(s: State, b: Block)
    requires b in s.blocks && BlockInv(s, b) && CanDrop(s, b)
    ensures BlockInv(DoDrop(s, b), b)
  {
  }

  lemma DropKeeps(s: State, b: Block)
    requires Inv(s) && CanDrop(s, b)
    ensures Inv(DoDrop(s, b))
  {
    hide BlockInv;
    assert BlockInv(s, b);
    DropBlock(s, b);
    OneBlock(s, b, DoDrop(s, b).blocks[b].st);
  }

  lemma FenceCallBlock(s: State, b: Block)
    requires b in s.blocks && BlockInv(s, b) && CanFenceCall(s, b)
    ensures BlockInv(DoFenceCall(s, b), b)
  {
  }

  lemma FenceCallKeeps(s: State, b: Block)
    requires Inv(s) && CanFenceCall(s, b)
    ensures Inv(DoFenceCall(s, b))
  {
    hide BlockInv;
    assert BlockInv(s, b);
    FenceCallBlock(s, b);
    OneBlock(s, b, DoFenceCall(s, b).blocks[b].st);
  }

  lemma FenceReturnBlock(s: State, b: Block, ok: bool)
    requires b in s.blocks && BlockInv(s, b) && CanFenceReturn(s, b, ok)
    ensures BlockInv(DoFenceReturn(s, b, ok), b)
  {
  }

  lemma FenceReturnKeeps(s: State, b: Block, ok: bool)
    requires Inv(s) && CanFenceReturn(s, b, ok)
    ensures Inv(DoFenceReturn(s, b, ok))
  {
    hide BlockInv;
    assert BlockInv(s, b);
    FenceReturnBlock(s, b, ok);
    OneBlock(s, b, DoFenceReturn(s, b, ok).blocks[b].st);
  }

  lemma CtxFenceCallBlock(s: State, b: Block)
    requires b in s.blocks && BlockInv(s, b) && CanCtxFenceCall(s, b)
    ensures BlockInv(DoCtxFenceCall(s, b), b)
  {
  }

  lemma CtxFenceCallKeeps(s: State, b: Block)
    requires Inv(s) && CanCtxFenceCall(s, b)
    ensures Inv(DoCtxFenceCall(s, b))
  {
    hide BlockInv;
    assert BlockInv(s, b);
    CtxFenceCallBlock(s, b);
    OneBlock(s, b, DoCtxFenceCall(s, b).blocks[b].st);
  }

  /** `cuCtxSynchronize` drains every stream that may still touch the block. */
  lemma CtxFenceReturnBlock(s: State, b: Block, ok: bool)
    requires b in s.blocks && BlockInv(s, b) && CanCtxFenceReturn(s, b, ok)
    ensures BlockInv(DoCtxFenceReturn(s, b, ok), b)
  {
    var s' := DoCtxFenceReturn(s, b, ok);
    assert !s'.blocks[b].escaped ==> Protected(s, s.blocks[b]);
  }

  lemma CtxFenceReturnKeeps(s: State, b: Block, ok: bool)
    requires Inv(s) && CanCtxFenceReturn(s, b, ok)
    ensures Inv(DoCtxFenceReturn(s, b, ok))
  {
    hide BlockInv;
    assert BlockInv(s, b);
    CtxFenceReturnBlock(s, b, ok);
    OneBlockEvents(s, DoCtxFenceReturn(s, b, ok), b);
  }

  lemma ReturnBlock(s: State, b: Block, pooled: bool)
    requires b in s.blocks && BlockInv(s, b) && CanReturn(s, b)
    ensures BlockInv(DoReturn(s, b, pooled), b)
  {
  }

  lemma ReturnKeeps(s: State, b: Block, pooled: bool)
    requires Inv(s) && CanReturn(s, b)
    ensures Inv(DoReturn(s, b, pooled))
  {
    hide BlockInv;
    assert BlockInv(s, b);
    ReturnBlock(s, b, pooled);
    OneBlock(s, b, DoReturn(s, b, pooled).blocks[b].st);
  }

  lemma EvictBlock(s: State, b: Block)
    requires b in s.blocks && BlockInv(s, b) && CanEvict(s, b)
    ensures BlockInv(WithState(s, b, Released), b)
  {
  }

  lemma EvictKeeps(s: State, b: Block)
    requires Inv(s) && CanEvict(s, b)
    ensures Inv(WithState(s, b, Released))
  {
    hide BlockInv;
    assert BlockInv(s, b);
    EvictBlock(s, b);
    OneBlock(s, b, Released);
  }

  lemma GiveBackBlock(s: State, b: Block)
    requires b in s.blocks && BlockInv(s, b) && CanGiveBack(s, b)
    ensures BlockInv(DoGiveBack(s, b), b)
  {
    AwaitedMove(s, DoGiveBack(s, b), b);
  }

  lemma GiveBackKeeps(s: State, b: Block)
    requires Inv(s) && CanGiveBack(s, b)
    ensures Inv(DoGiveBack(s, b))
  {
    hide BlockInv;
    assert BlockInv(s, b);
    GiveBackBlock(s, b);
    OneBlock(s, b, DoGiveBack(s, b).blocks[b].st);
  }

  lemma DrainTakeBlock(s: State, b: Block)
    requires b in s.blocks && BlockInv(s, b) && IsListed(s, b)
    ensures BlockInv(DoDrainTake(s, b), b)
  {
    AwaitedMove(s, DoDrainTake(s, b), b);
  }

  lemma DrainTakeKeeps(s: State, b: Block)
    requires Inv(s) && IsListed(s, b)
    ensures Inv(DoDrainTake(s, b))
  {
    hide BlockInv;
    assert BlockInv(s, b);
    DrainTakeBlock(s, b);
    OneBlock(s, b, DoDrainTake(s, b).blocks[b].st);
  }

  /** Whether a stream is awaited does not depend on the block's program point. */
  lemma AwaitedMove(s: State, s': State, b: Block)
    requires b in s.blocks && b in s'.blocks
    requires s'.blocks[b].use == s.blocks[b].use && s'.blocks[b].ctx == s.blocks[b].ctx
    requires s'.streams == s.streams && s'.events == s.events
    ensures forall events, t :: Awaited(s, s.blocks[b], events, t) ==> Awaited(s', s'.blocks[b], events, t)
  {
    forall events, t | Awaited(s, s.blocks[b], events, t)
      ensures Awaited(s', s'.blocks[b], events, t)
    {
      var e :| e in events && Covers(s, s.blocks[b], e, t);
      assert Covers(s', s'.blocks[b], e, t);
    }
  }

  // ---- Events ---------------------------------------------------------------

  /** A block that leaves `Querying` keeps one event per stream, so parking it loses no stream. */
  lemma QueryingAwaits(s: State, b: Block, t: Stream)
    requires b in s.blocks && BlockInv(s, b) && s.blocks[b].st.Querying? && t in s.blocks[b].st.used
    ensures Awaited(s, s.blocks[b], s.blocks[b].st.events, t)
  {
    var st := s.blocks[b].st;
    var k :| 0 <= k < |st.used| && st.used[k] == t;
    assert Covers(s, s.blocks[b], st.events[k], t);
  }

  /** All events of a block seen complete: nothing on the block is pending. */
  lemma AllDoneIsQuiet(s: State, b: Block)
    requires b in s.blocks && BlockInv(s, b) && !s.blocks[b].escaped
    requires s.blocks[b].st.Querying? || s.blocks[b].st.Parked?
    requires forall k :: 0 <= k < |s.blocks[b].st.events| ==> EventDone(s, s.blocks[b].st.events[k])
    ensures Quiet(s, b)
  {
    var i := s.blocks[b];
    forall t | t in i.use
      ensures Past(s, i, t)
    {
      if i.st.Querying? && t in i.st.used {
        QueryingAwaits(s, b, t);
      }
      assert Past(s, i, t) || Awaited(s, i, i.st.events, t);
    }
  }

  lemma QueryToCleaning(s: State, b: Block, ok: bool)
    requires b in s.blocks && BlockInv(s, b) && CanQuery(s, b)
    requires DoQuery(s, b, ok).blocks[b].st.Cleaning?
    ensures BlockInv(DoQuery(s, b, ok), b)
  {
    if !s.blocks[b].escaped {
      AllDoneIsQuiet(s, b);
    }
  }

  lemma QueryStays(s: State, b: Block, ok: bool)
    requires b in s.blocks && BlockInv(s, b) && CanQuery(s, b)
    requires s.blocks[b].st.Querying? && DoQuery(s, b, ok).blocks[b].st.Querying?
    ensures BlockInv(DoQuery(s, b, ok), b)
  {
  }

  lemma QueryToParked(s: State, b: Block, ok: bool)
    requires b in s.blocks && BlockInv(s, b) && CanQuery(s, b)
    requires s.blocks[b].st.Querying? && DoQuery(s, b, ok).blocks[b].st.Parked?
    ensures BlockInv(DoQuery(s, b, ok), b)
  {
    var s' := DoQuery(s, b, ok);
    var i, i' := s.blocks[b], s'.blocks[b];
    forall e | e in i.st.events
      ensures Located(s', i', e)
    {
      var k :| 0 <= k < |i.st.events| && i.st.events[k] == e;
      assert Covers(s, i, i.st.events[k], i.st.used[k]);
    }
    forall t | t in i.st.used
      ensures Awaited(s', i', i.st.events, t)
    {
      QueryingAwaits(s, b, t);
      AwaitedMove(s, s', b);
    }
  }

  lemma SweepQuery(s: State, b: Block, ok: bool)
    requires b in s.blocks && BlockInv(s, b) && CanQuery(s, b)
    requires s.blocks[b].st.Parked? && !DoQuery(s, b, ok).blocks[b].st.Cleaning?
    ensures BlockInv(DoQuery(s, b, ok), b)
  {
    AwaitedMove(s, DoQuery(s, b, ok), b);
  }

  lemma QueryBlock(s: State, b: Block, ok: bool)
    requires b in s.blocks && BlockInv(s, b) && CanQuery(s, b)
    ensures BlockInv(DoQuery(s, b, ok), b)
  {
    var s' := DoQuery(s, b, ok);
    if s'.blocks[b].st.Cleaning? {
      QueryToCleaning(s, b, ok);
    } else if s.blocks[b].st.Parked? {
      SweepQuery(s, b, ok);
    } else if s'.blocks[b].st.Parked? {
      QueryToParked(s, b, ok);
    } else {
      QueryStays(s, b, ok);
    }
  }

  lemma QueryKeeps(s: State, b: Block, ok: bool)
    requires Inv(s) && CanQuery(s, b)
    ensures Inv(DoQuery(s, b, ok))
  {
    hide BlockInv;
    assert BlockInv(s, b);
    QueryBlock(s, b, ok);
    OneBlock(s, b, DoQuery(s, b, ok).blocks[b].st);
  }

  lemma CreateOk(s: State, b: Block)
    requires b in s.blocks && BlockInv(s, b) && CanCreate(s, b) && s.nextEvent !in s.events
    ensures BlockInv(DoCreate(s, b, true), b)
  {
  }

  lemma CreateFails(s: State, b: Block)
    requires b in s.blocks && BlockInv(s, b) && CanCreate(s, b)
    ensures BlockInv(DoCreate(s, b, false), b)
  {
  }

  lemma CreateKeeps(s: State, b: Block, ok: bool)
    requires Inv(s) && CanCreate(s, b)
    ensures Inv(DoCreate(s, b, ok))
  {
    hide BlockInv;
    assert BlockInv(s, b);
    if ok {
      CreateOk(s, b);
    } else {
      CreateFails(s, b);
    }
    OneBlockEvents(s, DoCreate(s, b, ok), b);
  }

  /** The event just recorded stands after everything issued on its stream, so it covers it. */
  lemma RecordOk(s: State, b: Block)
    requires b in s.blocks && BlockInv(s, b) && CanRecord(s, b)
    ensures BlockInv(DoRecord(s, b, true), b)
  {
    var st, i := s.blocks[b].st, s.blocks[b];
    var s' := DoRecord(s, b, true);
    var i' := s'.blocks[b];
    var own := OwnEvents(st);
    assert own == st.events + [st.made.value];
    assert OwnEvents(i'.st) == own;
    forall k | 0 <= k < |own|
      ensures Covers(s', i', own[k], st.used[k])
    {
      if k < |st.events| {
        assert own[k] == st.events[k] && own[k] != own[|st.events|];
        assert Covers(s, i, st.events[k], st.used[k]);
      } else {
        assert OwnedStream(s, i, st.used[k]);
      }
    }
  }

  lemma RecordFails(s: State, b: Block)
    requires b in s.blocks && BlockInv(s, b) && CanRecord(s, b)
    ensures BlockInv(DoRecord(s, b, false), b)
  {
    var st := s.blocks[b].st;
    var own := OwnEvents(st);
    assert own == st.events + [st.made.value];
    assert OwnEvents(DoRecord(s, b, false).blocks[b].st) == [own[|st.events|]] + own[..|st.events|];
  }

  /** Recording moves an event inside its block's list; it changes no other block's events. */
  lemma RecordEvents(s: State, b: Block, ok: bool)
    requires EventInv(s) && b in s.blocks && EventsOk(s, b, s.blocks[b].st) && CanRecord(s, b)
    ensures forall e :: e in s.events && s.events[e].owner != b ==>
              e in DoRecord(s, b, ok).events && DoRecord(s, b, ok).events[e] == s.events[e]
    ensures forall e :: e in DoRecord(s, b, ok).events ==>
              || (e in s.events && s.events[e].owner != b && DoRecord(s, b, ok).events[e] == s.events[e])
              || (&& e < s.nextEvent && DoRecord(s, b, ok).events[e].owner == b
                  && e in OwnEvents(DoRecord(s, b, ok).blocks[b].st))
  {
    var st := s.blocks[b].st;
    var own, own' := OwnEvents(st), OwnEvents(DoRecord(s, b, ok).blocks[b].st);
    assert own == st.events + [st.made.value];
    assert own' == if ok then own else [st.made.value] + st.events;
    assert forall e :: e in own <==> e in own';
  }

  lemma RecordKeeps(s: State, b: Block, ok: bool)
    requires Inv(s) && CanRecord(s, b)
    ensures Inv(DoRecord(s, b, ok))
  {
    assert BlockInv(s, b);
    if ok {
      RecordOk(s, b);
    } else {
      RecordFails(s, b);
    }
    RecordEvents(s, b, ok);
    OneBlockEvents(s, DoRecord(s, b, ok), b);
  }

  lemma DestroyEventBlock(s: State, b: Block)
    requires b in s.blocks && BlockInv(s, b) && CanDestroyEvent(s, b)
    ensures BlockInv(DoDestroyEvent(s, b), b)
  {
  }

  /** Settling the head of a block's event list leaves exactly the rest of the list owned. */
  lemma HeadSettled(s: State, s': State, b: Block)
    requires EventInv(s) && b in s.blocks && b in s'.blocks && BlockInv(s, b)
    requires OwnEvents(s.blocks[b].st) != []
    requires OwnEvents(s'.blocks[b].st) == OwnEvents(s.blocks[b].st)[1..]
    requires s'.events == s.events - {OwnEvents(s.blocks[b].st)[0]}
    ensures forall e :: e in s'.events && s'.events[e].owner == b ==> e < s.nextEvent && e in OwnEvents(s'.blocks[b].st)
    ensures forall e :: e in s.events && s.events[e].owner != b ==> e in s'.events
  {
    var own := OwnEvents(s.blocks[b].st);
    assert own == [own[0]] + own[1..];
  }

  lemma DestroyEventKeeps(s: State, b: Block)
    requires Inv(s) && CanDestroyEvent(s, b)
    ensures Inv(DoDestroyEvent(s, b))
  {
    hide BlockInv;
    assert BlockInv(s, b);
    DestroyEventBlock(s, b);
    HeadSettled(s, DoDestroyEvent(s, b), b);
    OneBlockEvents(s, DoDestroyEvent(s, b), b);
  }

  /** The events still listed are the same records after the head was settled. */
  lemma ForceRest(s: State, b: Block, ok: bool, e: EventId)
    requires b in s.blocks && EventsOk(s, b, s.blocks[b].st) && CanForce(s, b, ok)
    requires e in s.blocks[b].st.events[1..]
    ensures e in s.blocks[b].st.events && e in s.events
    ensures e in DoForce(s, b, ok).events && DoForce(s, b, ok).events[e] == s.events[e]
  {
    var events := s.blocks[b].st.events;
    var k :| 1 <= k < |events| && events[k] == e;
    assert OwnEvents(s.blocks[b].st) == events;
    assert events[0] != events[k];
  }

  /** A stream with pending work on the block is still awaited after the head was waited out. */
  lemma ForceAwaits(s: State, b: Block, ok: bool, t: Stream)
    requires b in s.blocks && BlockInv(s, b) && CanForce(s, b, ok)
    requires !DoForce(s, b, ok).blocks[b].escaped
    requires t in s.blocks[b].use && !Past(s, s.blocks[b], t)
    ensures Awaited(DoForce(s, b, ok), DoForce(s, b, ok).blocks[b], s.blocks[b].st.events[1..], t)
  {
    hide EventsOk, ShapeOk, PhaseOk, UseOk;
    var s' := DoForce(s, b, ok);
    var i, i' := s.blocks[b], s'.blocks[b];
    var rest := i.st.events[1..];
    assert Protected(s, i);
    var e :| e in i.st.events && Covers(s, i, e, t);
    assert i.st.events == [i.st.events[0]] + rest;
    assert e in rest;
    ForceRest(s, b, ok, e);
    assert Covers(s', i', e, t);
  }

  /** Waiting out the head event settles its stream; the rest stays awaited. */
  lemma ForceProtects(s: State, b: Block, ok: bool)
    requires b in s.blocks && BlockInv(s, b) && CanForce(s, b, ok)
    requires !DoForce(s, b, ok).blocks[b].escaped
    ensures Protected(DoForce(s, b, ok), DoForce(s, b, ok).blocks[b])
  {
    var s' := DoForce(s, b, ok);
    var i, i' := s.blocks[b], s'.blocks[b];
    assert i'.use == i.use;
    forall t | t in i.use && !Past(s, i, t)
      ensures Awaited(s', i', i.st.events[1..], t)
    {
      ForceAwaits(s, b, ok, t);
    }
    forall t | t in i.use && Past(s, i, t)
      ensures Past(s', i', t)
    {
    }
  }

  lemma ForceBlock(s: State, b: Block, ok: bool)
    requires b in s.blocks && BlockInv(s, b) && CanForce(s, b, ok)
    ensures BlockInv(DoForce(s, b, ok), b)
  {
    hide Protected;
    var s' := DoForce(s, b, ok);
    var rest := s.blocks[b].st.events[1..];
    forall e | e in rest
      ensures Located(s', s'.blocks[b], e) && e in s'.events && s'.events[e].owner == b
    {
      ForceRest(s, b, ok, e);
      assert Located(s, s.blocks[b], e);
    }
    if !s'.blocks[b].escaped {
      ForceProtects(s, b, ok);
    }
  }

  lemma ForceKeeps(s: State, b: Block, ok: bool)
    requires Inv(s) && CanForce(s, b, ok)
    ensures Inv(DoForce(s, b, ok))
  {
    hide BlockInv;
    assert BlockInv(s, b);
    ForceBlock(s, b, ok);
    HeadSettled(s, DoForce(s, b, ok), b);
    OneBlockEvents(s, DoForce(s, b, ok), b);
  }

  // ---- Several blocks -------------------------------------------------------

  lemma EnqueueBlock(s: State, t: Stream, touched: set<Block>, b: Block)
    requires b in s.blocks && BlockInv(s, b) && CanEnqueue(s, t, touched) && b in touched
    requires s.streams[t].done <= s.streams[t].issued
    ensures BlockInv(DoEnqueue(s, t, touched), b)
  {
    assert IsLive(s, b);
  }

  lemma EnqueueKeeps(s: State, t: Stream, touched: set<Block>)
    requires Inv(s) && CanEnqueue(s, t, touched)
    ensures Inv(DoEnqueue(s, t, touched))
  {
    hide BlockInv;
    var s' := DoEnqueue(s, t, touched);
    forall b | b in s'.blocks
      ensures BlockInv(s', b)
    {
      assert BlockInv(s, b);
      if b in touched {
        EnqueueBlock(s, t, touched, b);
      } else {
        UntouchedFrame(s, s', b);
      }
    }
    forall b | b in s.blocks
      ensures OwnEvents(s'.blocks[b].st) == OwnEvents(s.blocks[b].st)
    {
      assert b in touched ==> IsLive(s, b);
    }
  }

  lemma SweepTakeBlock(s: State, bs: set<Block>, b: Block)
    requires b in s.blocks && BlockInv(s, b) && b in bs
    requires forall o :: o in bs ==> IsListed(s, o)
    ensures BlockInv(DoSweepTake(s, bs), b)
  {
    assert IsListed(s, b);
    AwaitedMove(s, DoSweepTake(s, bs), b);
  }

  lemma SweepTakeEvents(s: State, bs: set<Block>)
    requires EventInv(s) && forall b :: b in bs ==> IsListed(s, b)
    ensures EventInv(DoSweepTake(s, bs))
  {
    var s' := DoSweepTake(s, bs);
    forall b | b in s.blocks
      ensures OwnEvents(s'.blocks[b].st) == OwnEvents(s.blocks[b].st)
    {
      assert b in bs ==> IsListed(s, b);
    }
  }

  lemma SweepTakeKeeps(s: State, bs: set<Block>)
    requires Inv(s) && forall b :: b in bs ==> IsListed(s, b)
    ensures Inv(DoSweepTake(s, bs))
  {
    hide BlockInv;
    var s' := DoSweepTake(s, bs);
    forall b | b in s'.blocks
      ensures BlockInv(s', b)
    {
      assert BlockInv(s, b);
      if b in bs {
        SweepTakeBlock(s, bs, b);
      } else {
        UntouchedFrame(s, s', b);
      }
    }
    SweepTakeEvents(s, bs);
  }

  // ---- All steps ------------------------------------------------------------

  lemma ContextStepKeeps(s: State, step: StreamStep)
    requires Inv(s) && StreamEnabled(s, step)
    requires step.TeardownStart? || step.TeardownStreams? || step.DestroyStream? || step.DestroyContext?
    ensures Inv(StreamApply(s, step))
  {
    match step
    case TeardownStart(c) => TeardownStartKeeps(s, c);
    case TeardownStreams(c) => TeardownStreamsKeeps(s, c);
    case DestroyStream(c) => DestroyStreamKeeps(s, c);
    case DestroyContext(c) => DestroyContextKeeps(s, c);
  }

  lemma StreamStepKeeps(s: State, step: StreamStep)
    requires Inv(s) && StreamEnabled(s, step)
    ensures Inv(StreamApply(s, step))
  {
    match step
    case NewContext(c, ns) => NewContextKeeps(s, c, ns);
    case Mint(c, t) => MintKeeps(s, c, t);
    case AcquireStream(c) => AcquireKeeps(s, c);
    case ReleaseStream(t, tag) => ReleaseKeeps(s, t, tag);
    case Progress(t, upTo) => ProgressKeeps(s, t, upTo);
    case _ => ContextStepKeeps(s, step);
  }

  lemma BufferStepKeeps(s: State, step: BufferStep)
    requires Inv(s) && BufferEnabled(s, step)
    ensures Inv(BufferApply(s, step))
  {
    match step
    case AllocFresh(b, c) => AllocFreshKeeps(s, b, c);
    case AllocPooled(b, c) => AllocPooledKeeps(s, b, c);
    case Enqueue(t, touched) => EnqueueKeeps(s, t, touched);
    case Tag(b, t) => TagKeeps(s, b, t);
    case Drop(b) => DropKeeps(s, b);
    case ReturnToPool(b, pooled) => ReturnKeeps(s, b, pooled);
    case Evict(b) => EvictKeeps(s, b);
  }

  lemma EventStepKeeps(s: State, step: EventStep)
    requires Inv(s) && EventEnabled(s, step)
    ensures Inv(EventApply(s, step))
  {
    match step
    case EventCreate(b, ok) => CreateKeeps(s, b, ok);
    case EventRecord(b, ok) => RecordKeeps(s, b, ok);
    case EventQuery(b, ok) => QueryKeeps(s, b, ok);
    case EventDestroy(b) => DestroyEventKeeps(s, b);
    case ForceSync(b, ok) => ForceKeeps(s, b, ok);
  }

  lemma WaitStepKeeps(s: State, step: WaitStep)
    requires Inv(s) && WaitEnabled(s, step)
    ensures Inv(WaitApply(s, step))
  {
    match step
    case FenceCall(b) => FenceCallKeeps(s, b);
    case FenceReturn(b, ok) => FenceReturnKeeps(s, b, ok);
    case CtxFenceCall(b) => CtxFenceCallKeeps(s, b);
    case CtxFenceReturn(b, ok) => CtxFenceReturnKeeps(s, b, ok);
    case SweepTake(bs) => SweepTakeKeeps(s, bs);
    case SweepGiveBack(b) => GiveBackKeeps(s, b);
    case DrainTake(b) => DrainTakeKeeps(s, b);
  }

  /** The invariant is inductive. */
  lemma StepKeeps(s: State, step: Step)
    requires Inv(s) && Enabled(s, step)
    ensures Inv(Apply(s, step))
  {
    match step
    case OnStreams(st) => StreamStepKeeps(s, st);
    case OnBuffers(bu) => BufferStepKeeps(s, bu);
    case OnEvents(ev) => EventStepKeeps(s, ev);
    case OnWaits(wa) => WaitStepKeeps(s, wa);
  }
}
