/** Conservation of events over every run: none leaks, none is settled twice. */
module ReclaimEvents {
  import opened Common
  import opened Reclaim
  import opened ReclaimInvariant
  import opened ReclaimRuns

  predicate Creates(step: Step) { step.OnEvents? && step.ev.EventCreate? && step.ev.ok }

  /** The step destroys an event: inline, while unwinding, or in a forced reclamation. */
  predicate Settles(step: Step) { step.OnEvents? && (step.ev.EventDestroy? || step.ev.ForceSync?) }

  function Created(steps: seq<Step>): nat {
    if steps == [] then 0
    else Created(steps[..|steps| - 1]) + if Creates(steps[|steps| - 1]) then 1 else 0
  }

  function Settled(steps: seq<Step>): nat {
    if steps == [] then 0
    else Settled(steps[..|steps| - 1]) + if Settles(steps[|steps| - 1]) then 1 else 0
  }

  /** The event that `EventDestroy` or `ForceSync` settles is a live one of that block. */
  lemma HeadIsLive(s: State, b: Block)
    requires Inv(s) && (CanDestroyEvent(s, b) || CanForce(s, b, false))
    ensures s.blocks[b].st.events[0] in s.events
  {
    assert BlockInv(s, b);
    assert s.blocks[b].st.events[0] in OwnEvents(s.blocks[b].st);
  }

  lemma RecordedIsLive(s: State, b: Block)
    requires Inv(s) && CanRecord(s, b)
    ensures s.blocks[b].st.made.value in s.events
  {
    assert BlockInv(s, b);
    assert s.blocks[b].st.made.value in OwnEvents(s.blocks[b].st);
  }

  lemma CreateBalance(s: State, b: Block, ok: bool)
    requires Inv(s) && CanCreate(s, b)
    ensures |DoCreate(s, b, ok).events| == |s.events| + if ok then 1 else 0
  {
    hide BlockInv, StreamInv, PoolInv, OwnEvents;
    if ok {
      assert s.nextEvent !in s.events;
      assert DoCreate(s, b, ok).events.Keys == s.events.Keys + {s.nextEvent};
    }
  }

  lemma RecordBalance(s: State, b: Block, ok: bool)
    requires Inv(s) && CanRecord(s, b)
    ensures |DoRecord(s, b, ok).events| == |s.events|
  {
    hide Inv;
    RecordedIsLive(s, b);
    assert DoRecord(s, b, ok).events.Keys == s.events.Keys;
  }

  /** Removing a live event leaves one fewer. */
  lemma RemoveBalance(events: map<EventId, EventInfo>, e: EventId)
    requires e in events
    ensures |events - {e}| == |events| - 1
  {
    assert (events - {e}).Keys == events.Keys - {e};
  }

  lemma DestroyBalance(s: State, b: Block)
    requires Inv(s) && CanDestroyEvent(s, b)
    ensures |DoDestroyEvent(s, b).events| == |s.events| - 1
  {
    hide Inv;
    HeadIsLive(s, b);
    RemoveBalance(s.events, s.blocks[b].st.events[0]);
  }

  lemma ForceBalance(s: State, b: Block, ok: bool)
    requires Inv(s) && CanForce(s, b, ok)
    ensures |DoForce(s, b, ok).events| == |s.events| - 1
  {
    hide Inv;
    HeadIsLive(s, b);
    RemoveBalance(s.events, s.blocks[b].st.events[0]);
  }

  lemma EventStepBalance(s: State, ev: EventStep)
    requires Inv(s) && EventEnabled(s, ev)
    ensures |EventApply(s, ev).events| + (if Settles(OnEvents(ev)) then 1 else 0)
         == |s.events| + if Creates(OnEvents(ev)) then 1 else 0
  {
    hide Inv, CanCreate, CanRecord, CanDestroyEvent, CanForce, DoCreate, DoRecord, DoDestroyEvent, DoForce;
    match ev
    case EventCreate(b, ok) => CreateBalance(s, b, ok);
    case EventRecord(b, ok) => RecordBalance(s, b, ok);
    case EventQuery(b, ok) =>
    case EventDestroy(b) => DestroyBalance(s, b);
    case ForceSync(b, ok) => ForceBalance(s, b, ok);
  }

  lemma StepBalance(s: State, step: Step)
    requires Inv(s) && Enabled(s, step)
    ensures |Apply(s, step).events| + (if Settles(step) then 1 else 0)
         == |s.events| + if Creates(step) then 1 else 0
  {
    hide Inv, StreamEnabled, BufferEnabled, EventEnabled, WaitEnabled, StreamApply, BufferApply, EventApply, WaitApply;
    match step
    case OnStreams(st) => StreamEffect(s, st);
    case OnBuffers(bu) => BufferEffect(s, bu);
    case OnEvents(ev) => EventStepBalance(s, ev);
    case OnWaits(wa) => WaitEffect(s, wa);
  }

  /** In every run, each event created was settled once or is still live. */
  lemma {:induction false} EventsBalance(steps: seq<Step>, s: State)
    requires Reaches(INIT, steps, s)
    ensures Created(steps) == Settled(steps) + |s.events|
    decreases |steps|
  {
    hide Enabled, Apply, Inv;
    if steps != [] {
      var before := SplitLast(INIT, steps, s);
      InitInv();
      RunKeepsInv(INIT, steps[..|steps| - 1], before);
      EventsBalance(steps[..|steps| - 1], before);
      StepBalance(before, steps[|steps| - 1]);
    }
  }

  /** In every run, a live event is listed exactly once, by exactly one block. */
  lemma EventsOwnedOnce(steps: seq<Step>, s: State, e: EventId)
    requires Reaches(INIT, steps, s)
    ensures e in s.events ==>
              s.events[e].owner in s.blocks && e in OwnEvents(s.blocks[s.events[e].owner].st)
    ensures forall b :: b in s.blocks && e in OwnEvents(s.blocks[b].st) ==> e in s.events && s.events[e].owner == b
    ensures forall b :: b in s.blocks ==> Distinct(OwnEvents(s.blocks[b].st))
  {
    hide Enabled, Apply;
    InitInv();
    RunKeepsInv(INIT, steps, s);
    forall b | b in s.blocks
      ensures Distinct(OwnEvents(s.blocks[b].st))
      ensures e in OwnEvents(s.blocks[b].st) ==> e in s.events && s.events[e].owner == b
    {
      assert BlockInv(s, b);
    }
  }

  /** Once no block is parked or inside its `Drop`, every event ever created has been destroyed. */
  lemma NoEventLeaks(steps: seq<Step>, s: State)
    requires Reaches(INIT, steps, s)
    requires forall b :: b in s.blocks ==> OwnEvents(s.blocks[b].st) == []
    ensures s.events == map[] && Created(steps) == Settled(steps)
  {
    EventsBalance(steps, s);
    forall e | e in s.events
      ensures false
    {
      EventsOwnedOnce(steps, s, e);
    }
    assert s.events == map[];
  }
}
