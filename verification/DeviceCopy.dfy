/**
 Synchronous reads of a buffer that still has asynchronous writes in flight:
 `fence_recorded_streams`, `to_vec`, `copy_from_async`, `from_prefix_and_tail`
 and `extended_with_prefix`.

 `pending` holds the writes the GPU has not executed, in issue order. The GPU
 may execute any write that is the oldest of its stream.
 */
module DeviceCopy {
  import opened Common

  type Elem = int
  type Block = nat
  type Stream = nat

  datatype Write = Write(stream: Stream, dst: Block, off: nat, data: seq<Elem>)

  datatype CopyError = PrefixTooLong | LengthMismatch | CapacityExceeded | OutOfMemory | CopyFailed

  // ---- Writes in flight -----------------------------------------------------

  /** The write changes element `i` of block `b`. */
  predicate Hits(w: Write, b: Block, i: nat) {
    w.dst == b && w.off <= i < w.off + |w.data|
  }

  /** Index of the last write in issue order that changes element `i` of `b`, or -1. */
  function LastHit(ws: seq<Write>, b: Block, i: nat): (r: int)
    ensures -1 <= r < |ws|
    ensures r >= 0 ==> Hits(ws[r], b, i)
    ensures forall j :: r < j < |ws| ==> !Hits(ws[j], b, i)
  {
    if ws == [] then -1
    else if Hits(ws[|ws| - 1], b, i) then |ws| - 1
    else LastHit(ws[..|ws| - 1], b, i)
  }

  /** Element `i` of `b` once every write in `ws` has taken effect, the last one winning. */
  function Settled(m: seq<Elem>, ws: seq<Write>, b: Block, i: nat): Elem
    requires i < |m|
  {
    var k := LastHit(ws, b, i);
    if k < 0 then m[i] else ws[k].data[i - ws[k].off]
  }

  /** Contents of `b` once every write in `ws` has taken effect. */
  function Final(m: seq<Elem>, ws: seq<Write>, b: Block): (r: seq<Elem>)
    ensures |r| == |m|
  {
    seq(|m|, i requires 0 <= i < |m| => Settled(m, ws, b, i))
  }

  predicate Fits(n: nat, w: Write) { w.off + |w.data| <= n }

  /** Every write to `b` stays inside a block of `n` elements. */
  predicate AllFit(n: nat, ws: seq<Write>, b: Block) {
    forall k :: 0 <= k < |ws| && ws[k].dst == b ==> Fits(n, ws[k])
  }

  function Patch(m: seq<Elem>, off: nat, data: seq<Elem>): (r: seq<Elem>)
    requires off + |data| <= |m|
    ensures |r| == |m|
    ensures forall i :: 0 <= i < |m| ==> r[i] == if off <= i < off + |data| then data[i - off] else m[i]
  {
    m[..off] + data + m[off + |data|..]
  }

  /** Contents of `b` after the writes ran one by one in issue order. */
  function InOrder(m: seq<Elem>, ws: seq<Write>, b: Block): (r: seq<Elem>)
    requires AllFit(|m|, ws, b)
    ensures |r| == |m|
  {
    if ws == [] then m
    else
      var last := ws[|ws| - 1];
      var before := InOrder(m, ws[..|ws| - 1], b);
      if last.dst == b then assert Fits(|m|, last); Patch(before, last.off, last.data) else before
  }

  lemma SettledLast(m: seq<Elem>, ws: seq<Write>, b: Block, i: nat)
    requires ws != [] && i < |m|
    ensures var last := ws[|ws| - 1];
      Final(m, ws, b)[i] == if Hits(last, b, i) then last.data[i - last.off] else Settled(m, ws[..|ws| - 1], b, i)
  {
    assert Final(m, ws, b)[i] == Settled(m, ws, b, i);
  }

  /** `Final` is what running the writes in issue order leaves behind. */
  lemma {:induction false} FinalIsInOrder(m: seq<Elem>, ws: seq<Write>, b: Block)
    requires AllFit(|m|, ws, b)
    ensures Final(m, ws, b) == InOrder(m, ws, b)
  {
    if ws != [] {
      var init, last := ws[..|ws| - 1], ws[|ws| - 1];
      FinalIsInOrder(m, init, b);
      assert last.dst == b ==> Fits(|m|, last);
      forall i | 0 <= i < |m|
        ensures Final(m, ws, b)[i] == InOrder(m, ws, b)[i]
      {
        SettledLast(m, ws, b, i);
        assert Final(m, init, b)[i] == Settled(m, init, b, i);
      }
    }
  }

  /** Two writes to the same element of `b` are on the same stream. */
  ghost predicate RaceFree(ws: seq<Write>, b: Block) {
    forall j, k, i :: 0 <= j < |ws| && 0 <= k < |ws| && Hits(ws[j], b, i) && Hits(ws[k], b, i)
                      ==> ws[j].stream == ws[k].stream
  }

  /** Every write in flight that overlaps `w` is on the stream of `w`. */
  ghost predicate OneStream(ws: seq<Write>, w: Write) {
    forall k, i :: 0 <= k < |ws| && Hits(ws[k], w.dst, i) && Hits(w, w.dst, i) ==> ws[k].stream == w.stream
  }

  /** Write `k` is the oldest of its stream. */
  predicate Oldest(ws: seq<Write>, k: nat) {
    k < |ws| && forall j :: 0 <= j < k ==> ws[j].stream != ws[k].stream
  }

  function Without(ws: seq<Write>, k: nat): (r: seq<Write>)
    requires k < |ws|
    ensures |r| == |ws| - 1
    ensures forall j :: 0 <= j < |r| ==> r[j] == ws[if j < k then j else j + 1]
  {
    ws[..k] + ws[k + 1..]
  }

  /** Removing a write that is not the last hit leaves the last hit in place. */
  lemma LastHitWithout(ws: seq<Write>, k: nat, b: Block, i: nat)
    requires k < |ws|
    ensures LastHit(ws, b, i) > k ==> LastHit(Without(ws, k), b, i) == LastHit(ws, b, i) - 1
    ensures LastHit(ws, b, i) < k ==> LastHit(Without(ws, k), b, i) == LastHit(ws, b, i)
  {
    var r, r' := LastHit(ws, b, i), LastHit(Without(ws, k), b, i);
    var w := Without(ws, k);
    if r > k {
      assert w[r - 1] == ws[r];
    } else if 0 <= r < k {
      assert w[r] == ws[r];
    }
  }

  /** Whatever write the GPU picks, the final contents of a race-free block stay the same. */
  lemma ExecuteKeepsFinal(m: seq<Elem>, ws: seq<Write>, k: nat, b: Block)
    requires RaceFree(ws, b) && Oldest(ws, k) && (ws[k].dst == b ==> Fits(|m|, ws[k]))
    ensures var m' := if ws[k].dst == b then Patch(m, ws[k].off, ws[k].data) else m;
      Final(m', Without(ws, k), b) == Final(m, ws, b)
  {
    var m' := if ws[k].dst == b then Patch(m, ws[k].off, ws[k].data) else m;
    var ws' := Without(ws, k);
    forall i | 0 <= i < |m|
      ensures Final(m', ws', b)[i] == Final(m, ws, b)[i]
    {
      ExecuteKeepsElement(m, m', ws, k, b, i);
      assert Final(m', ws', b)[i] == Settled(m', ws', b, i);
      assert Final(m, ws, b)[i] == Settled(m, ws, b, i);
    }
  }

  lemma ExecuteKeepsElement(m: seq<Elem>, m': seq<Elem>, ws: seq<Write>, k: nat, b: Block, i: nat)
    requires RaceFree(ws, b) && Oldest(ws, k) && i < |m| == |m'|
    requires m'[i] == if Hits(ws[k], b, i) then ws[k].data[i - ws[k].off] else m[i]
    ensures Settled(m', Without(ws, k), b, i) == Settled(m, ws, b, i)
  {
    hide LastHit, Without, Hits, RaceFree;
    var last := LastHit(ws, b, i);
    LastHitWithout(ws, k, b, i);
    if last == k {
      OldestHitsAlone(ws, k, b, i);
    } else if last > k {
      assert Without(ws, k)[last - 1] == ws[last];
    } else {
      assert !Hits(ws[k], b, i);
      assert last >= 0 ==> Without(ws, k)[last] == ws[last];
    }
  }

  /** A hit before the last one would be on the same stream, and `k` is the oldest of its stream. */
  lemma OldestHitsAlone(ws: seq<Write>, k: nat, b: Block, i: nat)
    requires RaceFree(ws, b) && Oldest(ws, k) && LastHit(ws, b, i) == k
    ensures LastHit(Without(ws, k), b, i) < 0
  {
    hide LastHit, Without, Hits;
  }

  lemma WithoutRaceFree(ws: seq<Write>, k: nat, b: Block)
    requires RaceFree(ws, b) && k < |ws|
    ensures RaceFree(Without(ws, k), b)
  {
  }

  /** A schedule: each pick is the oldest write of its stream among those left, and none is left at the end. */
  predicate Schedule(ws: seq<Write>, picks: seq<nat>)
    decreases |picks|
  {
    if picks == [] then ws == []
    else Oldest(ws, picks[0]) && Schedule(Without(ws, picks[0]), picks[1..])
  }

  /** Contents of `b` after the GPU executed the writes in the order of the schedule. */
  function Scheduled(m: seq<Elem>, ws: seq<Write>, picks: seq<nat>, b: Block): (r: seq<Elem>)
    requires AllFit(|m|, ws, b) && Schedule(ws, picks)
    ensures |r| == |m|
    decreases |picks|
  {
    if picks == [] then m
    else
      var w := ws[picks[0]];
      assert w.dst == b ==> Fits(|m|, w);
      Scheduled(if w.dst == b then Patch(m, w.off, w.data) else m, Without(ws, picks[0]), picks[1..], b)
  }

  /** Race-free writes end the same in every schedule: as if they had run in issue order. */
  lemma {:induction false} ScheduleIsInOrder(m: seq<Elem>, ws: seq<Write>, picks: seq<nat>, b: Block)
    requires RaceFree(ws, b) && AllFit(|m|, ws, b) && Schedule(ws, picks)
    ensures Scheduled(m, ws, picks, b) == InOrder(m, ws, b)
    decreases |picks|
  {
    if picks != [] {
      var k, w := picks[0], ws[picks[0]];
      assert w.dst == b ==> Fits(|m|, w);
      var m' := if w.dst == b then Patch(m, w.off, w.data) else m;
      WithoutRaceFree(ws, k, b);
      ScheduleIsInOrder(m', Without(ws, k), picks[1..], b);
      FinalIsInOrder(m', Without(ws, k), b);
      ExecuteKeepsFinal(m, ws, k, b);
      FinalIsInOrder(m, ws, b);
    }
  }

  // ---- The host side --------------------------------------------------------

  /** No write to `b` is in flight on stream `t`. */
  ghost predicate Drained(ws: seq<Write>, b: Block, t: Stream) {
    forall k :: 0 <= k < |ws| && ws[k].dst == b ==> ws[k].stream != t
  }

  /** No write to `b` is in flight. */
  ghost predicate Idle(ws: seq<Write>, b: Block) {
    forall k :: 0 <= k < |ws| ==> ws[k].dst != b
  }

  /** Every write to `b` in flight is on a stream the buffer has recorded. */
  ghost predicate Recorded(ws: seq<Write>, b: Block, used: seq<Stream>) {
    forall k :: 0 <= k < |ws| && ws[k].dst == b ==> ws[k].stream in used
  }

  lemma IdleIsFinal(m: seq<Elem>, ws: seq<Write>, b: Block)
    requires Idle(ws, b)
    ensures Final(m, ws, b) == m
  {
  }

  /** A buffer's own fields: its block, logical length, capacity and recorded streams. */
  datatype Handle = Handle(ptr: Block, len: nat, capacity: nat, used: seq<Stream>)

  /** A driver call that waits, with its answer. */
  datatype Call = StreamSynced(t: Stream, ok: bool) | CtxSynced(ok: bool)

  /** One answer per recorded stream, and a device-wide wait exactly if one of them failed. */
  predicate Answered(used: seq<Stream>, oks: seq<bool>, ctx: Option<bool>) {
    |oks| == |used| && (ctx.Some? <==> false in oks)
  }

  /** The calls of one fence: every recorded stream in order, failed or not, then the device-wide wait. */
  function FenceCalls(used: seq<Stream>, oks: seq<bool>, ctx: Option<bool>): seq<Call>
    requires |oks| == |used|
  {
    seq(|used|, k requires 0 <= k < |used| => StreamSynced(used[k], oks[k]))
    + if ctx.Some? then [CtxSynced(ctx.value)] else []
  }

  class Gpu {
    var mem: map<Block, seq<Elem>>
    var pending: seq<Write>
    /** Blocks handed to `Drop`, in order. */
    var dropped: seq<Block>
    /** Waiting driver calls of this thread, in order. */
    ghost var calls: seq<Call>

    ghost predicate Valid()
      reads this
    {
      forall b :: b in mem ==> AllFit(|mem[b]|, pending, b)
    }

    /** What `b` will hold once the GPU is done with it, if its writes ran in issue order. */
    ghost function Promised(b: Block): (r: seq<Elem>)
      requires b in mem
      reads this
    {
      Final(mem[b], pending, b)
    }

    constructor ()
      ensures Valid() && mem == map[] && pending == [] && dropped == [] && calls == []
    {
      mem := map[];
      pending := [];
      dropped := [];
      calls := [];
    }

    /** The GPU executes one write. What every race-free block will hold does not change. */
    method Execute(k: nat)
      requires Valid() && Oldest(pending, k) && pending[k].dst in mem
      modifies this`mem, this`pending
      ensures Valid() && mem.Keys == old(mem.Keys) && pending == Without(old(pending), k)
      ensures forall b :: b in mem && old(RaceFree(pending, b)) ==>
                RaceFree(pending, b) && Promised(b) == old(Promised(b))
    {
      var w := pending[k];
      assert Fits(|mem[w.dst]|, w);
      forall b | b in mem && RaceFree(pending, b)
        ensures var m' := if w.dst == b then Patch(mem[b], w.off, w.data) else mem[b];
          RaceFree(Without(pending, k), b) && Final(m', Without(pending, k), b) == Promised(b)
      {
        ExecuteKeepsFinal(mem[b], pending, k, b);
        WithoutRaceFree(pending, k, b);
      }
      mem := mem[w.dst := Patch(mem[w.dst], w.off, w.data)];
      pending := Without(pending, k);
    }

    /**
     The GPU and the threads that do not hold block `b` run for a while: writes
     to `b` only leave the queue, and what `b` will hold stays the same if it is
     race-free. Callers know only this contract, which `ForeignRun` justifies.
     */
    method Others(b: Block)
      requires Valid() && b in mem
      modifies this`mem, this`pending
      ensures Valid() && b in mem
      ensures old(RaceFree(pending, b)) ==> RaceFree(pending, b) && Promised(b) == old(Promised(b))
      ensures forall o :: o in old(mem) ==> o in mem && |mem[o]| == |old(mem[o])|
      ensures forall t :: old(Drained(pending, b, t)) ==> Drained(pending, b, t)
      ensures forall used :: old(Recorded(pending, b, used)) ==> Recorded(pending, b, used)
    {
    }

    /** `cuStreamSynchronize`: succeeds only once the stream's writes have been executed. */
    method StreamSynchronize(t: Stream, b: Block) returns (ok: bool)
      requires Valid() && b in mem
      modifies this`mem, this`pending, this`calls
      ensures Valid() && b in mem && calls == old(calls) + [StreamSynced(t, ok)]
      ensures old(RaceFree(pending, b)) ==> RaceFree(pending, b) && Promised(b) == old(Promised(b))
      ensures forall o :: o in old(mem) ==> o in mem && |mem[o]| == |old(mem[o])|
      ensures forall u :: old(Drained(pending, b, u)) ==> Drained(pending, b, u)
      ensures forall used :: old(Recorded(pending, b, used)) ==> Recorded(pending, b, used)
      ensures ok ==> Drained(pending, b, t)
    {
      Others(b);
      ok := *;
      ok := ok && forall k :: 0 <= k < |pending| ==> pending[k].stream != t;
      calls := calls + [StreamSynced(t, ok)];
    }

    /** `cuCtxSynchronize`: succeeds only once every write has been executed. */
    method CtxSynchronize(b: Block) returns (ok: bool)
      requires Valid() && b in mem
      modifies this`mem, this`pending, this`calls
      ensures Valid() && b in mem && calls == old(calls) + [CtxSynced(ok)]
      ensures old(RaceFree(pending, b)) ==> RaceFree(pending, b) && Promised(b) == old(Promised(b))
      ensures forall o :: o in old(mem) ==> o in mem && |mem[o]| == |old(mem[o])|
      ensures ok ==> pending == []
    {
      Others(b);
      ok := *;
      ok := ok && pending == [];
      calls := calls + [CtxSynced(ok)];
    }

    /**
     `fence_recorded_streams`. The code goes on when a stream's wait and the
     device-wide wait both fail; `oks` and `ctx` are the driver's answers.
     */
    method FenceRecordedStreams(h: Handle) returns (ghost oks: seq<bool>, ghost ctx: Option<bool>)
      requires Valid() && h.ptr in mem && Recorded(pending, h.ptr, h.used)
      modifies this`mem, this`pending, this`calls
      ensures Valid() && h.ptr in mem
      ensures Answered(h.used, oks, ctx) && calls == old(calls) + FenceCalls(h.used, oks, ctx)
      ensures forall o :: o in old(mem) ==> o in mem && |mem[o]| == |old(mem[o])|
      ensures old(RaceFree(pending, h.ptr)) ==>
                RaceFree(pending, h.ptr) && Promised(h.ptr) == old(Promised(h.ptr))
      ensures ctx != Some(false) ==> Idle(pending, h.ptr)
      ensures ctx != Some(false) && old(RaceFree(pending, h.ptr)) ==> mem[h.ptr] == old(Promised(h.ptr))
    {
      var b := h.ptr;
      var anyFailed := false;
      oks, ctx := [], None;
      for k := 0 to |h.used|
        invariant Valid() && b in mem
        invariant |oks| == k && calls == old(calls) + FenceCalls(h.used[..k], oks, None)
        invariant old(RaceFree(pending, b)) ==> RaceFree(pending, b) && Promised(b) == old(Promised(b))
        invariant forall o :: o in old(mem) ==> o in mem && |mem[o]| == |old(mem[o])|
        invariant Recorded(pending, b, h.used)
        invariant anyFailed <==> false in oks
        invariant !anyFailed ==> forall j :: 0 <= j < k ==> Drained(pending, b, h.used[j])
      {
        var ok := StreamSynchronize(h.used[k], b);
        anyFailed := anyFailed || !ok;
        oks := oks + [ok];
      }
      assert h.used[..|h.used|] == h.used;
      if anyFailed {
        var ok := CtxSynchronize(b);
        ctx := Some(ok);
      }
      if ctx != Some(false) {
        assert Idle(pending, b);
        IdleIsFinal(mem[b], pending, b);
      }
    }

    /** `to_vec`: a synchronous read that sees every earlier write recorded on the buffer. */
    method ToVec(h: Handle) returns (r: Result<seq<Elem>, CopyError>, ghost oks: seq<bool>, ghost ctx: Option<bool>)
      requires Valid() && h.ptr in mem && h.len <= |mem[h.ptr]| && Recorded(pending, h.ptr, h.used)
      modifies this`mem, this`pending, this`calls
      ensures Valid() && h.ptr in mem
      ensures h.len == 0 ==> r == Ok([]) && oks == [] && ctx == None && calls == old(calls)
      ensures h.len > 0 ==> Answered(h.used, oks, ctx) && calls == old(calls) + FenceCalls(h.used, oks, ctx)
      ensures old(RaceFree(pending, h.ptr)) ==>
                RaceFree(pending, h.ptr) && Promised(h.ptr) == old(Promised(h.ptr))
      ensures r.Ok? ==> h.len <= |mem[h.ptr]| && r.value == mem[h.ptr][..h.len]
      ensures r.Ok? && ctx != Some(false) && old(RaceFree(pending, h.ptr)) ==>
                r.value == old(Promised(h.ptr))[..h.len]
      ensures r.Err? ==> r.error == CopyFailed
    {
      oks, ctx := [], None;
      if h.len == 0 {
        r := Ok([]);
        return;
      }
      oks, ctx := FenceRecordedStreams(h);
      var copied: bool := *;
      r := if copied then Ok(mem[h.ptr][..h.len]) else Err(CopyFailed);
    }

    /**
     `copy_from_async`: issues the write and records its stream. The block stays
     race-free exactly if every overlapping write in flight is on the same stream.
     */
    method CopyFromAsync(h: Handle, src: seq<Elem>, t: Stream) returns (r: Result<Handle, CopyError>)
      requires Valid() && h.ptr in mem && h.capacity <= |mem[h.ptr]| && Recorded(pending, h.ptr, h.used)
      modifies this`pending
      ensures Valid()
      ensures r.Err? ==> pending == old(pending)
      ensures r == Err(CapacityExceeded) <==> |src| > h.capacity
      ensures r.Err? && |src| <= h.capacity ==> r.error == CopyFailed && src != []
      ensures r.Ok? ==> && r.value.ptr == h.ptr && r.value.len == |src| && r.value.capacity == h.capacity
                        && r.value.used == (if t in h.used then h.used else h.used + [t])
                        && Recorded(pending, h.ptr, r.value.used)
      ensures r.Ok? ==> Promised(h.ptr) == Patch(old(Promised(h.ptr)), 0, src)
      ensures r.Ok? ==> (RaceFree(pending, h.ptr) <==>
                           old(RaceFree(pending, h.ptr) && OneStream(pending, Write(t, h.ptr, 0, src))))
      ensures forall b :: b in mem && b != h.ptr ==>
                Promised(b) == old(Promised(b)) && RaceFree(pending, b) == old(RaceFree(pending, b))
    {
      if |src| > h.capacity {
        return Err(CapacityExceeded);
      }
      if src != [] {
        var accepted: bool := *;
        if !accepted {
          return Err(CopyFailed);
        }
        var w := Write(t, h.ptr, 0, src);
        forall b
          ensures RaceFree(pending + [w], b) <==> RaceFree(pending, b) && (b == w.dst ==> OneStream(pending, w))
        {
          IssueRaces(pending, w, b);
        }
        forall b | b in mem
          ensures Final(mem[b], pending + [w], b) == if b == w.dst then Patch(Promised(b), 0, src) else Promised(b)
        {
          IssueIsPatch(mem[b], pending, w, b);
        }
        pending := pending + [w];
      }
      r := Ok(Handle(h.ptr, |src|, h.capacity, if t in h.used then h.used else h.used + [t]));
    }

    /** A new block with stale contents: the pool hands out only blocks no earlier write can still reach. */
    method Alloc(capacity: nat) returns (r: Option<Block>)
      requires Valid()
      modifies this`mem
      ensures Valid()
      ensures r.None? ==> mem == old(mem)
      ensures r.Some? ==> && r.value !in old(mem) && Idle(pending, r.value)
                          && mem.Keys == old(mem.Keys) + {r.value} && |mem[r.value]| == capacity
                          && forall o :: o in old(mem) ==> mem[o] == old(mem[o])
    {
      var b: Block := *;
      var stale: seq<Elem> := *;
      if b in mem || |stale| != capacity || exists k :: 0 <= k < |pending| && pending[k].dst == b {
        return None;
      }
      mem := mem[b := stale];
      r := Some(b);
    }

    /** `Drop` of a buffer. */
    method DropBuffer(b: Block)
      modifies this`dropped
      ensures dropped == old(dropped) + [b]
    {
      dropped := dropped + [b];
    }

    /**
     `from_prefix_and_tail`: a device-to-device copy of the prefix, then an
     upload of the tail behind it. A buffer allocated before a failed copy is dropped.
     */
    method FromPrefixAndTail(totalLen: nat, src: Block, prefixLen: nat, tail: seq<Elem>)
      returns (r: Result<Handle, CopyError>)
      requires Valid() && src in mem && prefixLen <= |mem[src]|
      modifies this`mem, this`dropped
      ensures Valid() && src in mem && mem[src] == old(mem[src])
      ensures r == Err(LengthMismatch) <==> prefixLen + |tail| != totalLen
      ensures r.Ok? ==> && r.value == Handle(r.value.ptr, totalLen, totalLen, []) && r.value.ptr !in old(mem)
                        && r.value.ptr in mem && Idle(pending, r.value.ptr)
                        && mem[r.value.ptr] == old(mem[src])[..prefixLen] + tail
      ensures r.Err? && r.error == CopyFailed ==>
                exists b :: b !in old(mem) && dropped == old(dropped) + [b]
      ensures r.Ok? || r.error != CopyFailed ==> dropped == old(dropped)
      ensures r.Err? ==> r.error in {LengthMismatch, OutOfMemory, CopyFailed}
    {
      if prefixLen + |tail| != totalLen {
        return Err(LengthMismatch);
      }
      var buf := Alloc(totalLen);
      if buf.None? {
        return Err(OutOfMemory);
      }
      var b := buf.value;
      if prefixLen > 0 {
        var copied: bool := *;
        if !copied {
          DropBuffer(b);
          return Err(CopyFailed);
        }
        mem := mem[b := Patch(mem[b], 0, mem[src][..prefixLen])];
      }
      if tail != [] {
        var copied: bool := *;
        if !copied {
          DropBuffer(b);
          return Err(CopyFailed);
        }
        mem := mem[b := Patch(mem[b], prefixLen, tail)];
      }
      assert mem[b] == mem[src][..prefixLen] + tail;
      r := Ok(Handle(b, totalLen, totalLen, []));
    }

    /**
     `extended_with_prefix` consumes its buffer: on success the new buffer holds
     the fully written prefix followed by the tail, and on every outcome the old
     block is dropped exactly once.
     */
    method ExtendedWithPrefix(h: Handle, totalLen: nat, prefixLen: nat, tail: seq<Elem>)
      returns (r: Result<Handle, CopyError>, ghost oks: seq<bool>, ghost ctx: Option<bool>)
      requires Valid() && h.ptr in mem && h.len <= h.capacity <= |mem[h.ptr]| && Recorded(pending, h.ptr, h.used)
      modifies this
      ensures Valid() && h.ptr in mem
      ensures 0 < prefixLen <= h.len ==>
                Answered(h.used, oks, ctx) && calls == old(calls) + FenceCalls(h.used, oks, ctx)
      ensures !(0 < prefixLen <= h.len) ==> oks == [] && ctx == None && calls == old(calls)
      ensures r == Err(PrefixTooLong) <==> prefixLen > h.len
      ensures r == Err(LengthMismatch) <==> prefixLen <= h.len && prefixLen + |tail| != totalLen
      ensures r.Ok? ==> && r.value == Handle(r.value.ptr, totalLen, totalLen, []) && r.value.ptr != h.ptr
                        && r.value.ptr in mem && Idle(pending, r.value.ptr)
      ensures r.Ok? ==> prefixLen <= |mem[h.ptr]| && mem[r.value.ptr] == mem[h.ptr][..prefixLen] + tail
      ensures r.Ok? && ctx != Some(false) && old(RaceFree(pending, h.ptr)) ==>
                mem[r.value.ptr] == old(Promised(h.ptr))[..prefixLen] + tail
      ensures r.Err? && r.error == CopyFailed ==> exists b :: b != h.ptr && dropped == old(dropped) + [b] + [h.ptr]
      ensures r.Ok? || r.error != CopyFailed ==> dropped == old(dropped) + [h.ptr]
    {
      oks, ctx := [], None;
      if prefixLen > h.len {
        DropBuffer(h.ptr);
        r := Err(PrefixTooLong);
        return;
      }
      if prefixLen > 0 {
        oks, ctx := FenceRecordedStreams(h);
      }
      r := FromPrefixAndTail(totalLen, h.ptr, prefixLen, tail);
      DropBuffer(h.ptr);
    }
  }

  /** Issuing a write leaves a block race-free exactly if every overlapping write is on its stream. */
  lemma IssueRaces(ws: seq<Write>, w: Write, b: Block)
    ensures RaceFree(ws + [w], b) <==> RaceFree(ws, b) && (b == w.dst ==> OneStream(ws, w))
  {
    var ws' := ws + [w];
    assert ws'[|ws|] == w;
    if RaceFree(ws', b) {
      forall j, k, i | 0 <= j < |ws| && 0 <= k < |ws| && Hits(ws[j], b, i) && Hits(ws[k], b, i)
        ensures ws[j].stream == ws[k].stream
      {
        assert ws'[j] == ws[j] && ws'[k] == ws[k];
      }
      if b == w.dst {
        forall k, i | 0 <= k < |ws| && Hits(ws[k], b, i) && Hits(w, b, i)
          ensures ws[k].stream == w.stream
        {
          assert ws'[k] == ws[k];
        }
      }
    }
  }

  /** A write issued last wins over everything in flight. */
  lemma IssueIsPatch(m: seq<Elem>, ws: seq<Write>, w: Write, b: Block)
    requires w.dst == b ==> Fits(|m|, w)
    ensures Final(m, ws + [w], b) == if w.dst == b then Patch(Final(m, ws, b), w.off, w.data) else Final(m, ws, b)
  {
    assert (ws + [w])[..|ws|] == ws;
    forall i | 0 <= i < |m|
      ensures Final(m, ws + [w], b)[i] == if Hits(w, b, i) then w.data[i - w.off] else Final(m, ws, b)[i]
    {
      SettledLast(m, ws + [w], b, i);
      assert Final(m, ws, b)[i] == Settled(m, ws, b, i);
    }
  }

  // ---- What other threads can do --------------------------------------------

  /** The GPU executes a write, or a thread that does not hold the block issues one. */
  datatype Act = Executes(k: nat) | Issues(w: Write)

  /** The acts lead from contents `m` and queue `ws` to `m'` and `ws'`, without a new write to `b`. */
  ghost predicate OthersRun(m: seq<Elem>, ws: seq<Write>, acts: seq<Act>, b: Block, m': seq<Elem>, ws': seq<Write>)
    requires AllFit(|m|, ws, b)
    decreases |acts|
  {
    if acts == [] then m' == m && ws' == ws
    else
      match acts[0]
      case Executes(k) =>
        && Oldest(ws, k)
        && (assert ws[k].dst == b ==> Fits(|m|, ws[k]);
            var next := if ws[k].dst == b then Patch(m, ws[k].off, ws[k].data) else m;
            OthersRun(next, Without(ws, k), acts[1..], b, m', ws'))
      case Issues(w) =>
        w.dst != b && OthersRun(m, ws + [w], acts[1..], b, m', ws')
  }

  /** However long the others run, this is what `Others` promises about block `b`. */
  lemma {:induction false} ForeignRun(
      m: seq<Elem>, ws: seq<Write>, acts: seq<Act>, b: Block, m': seq<Elem>, ws': seq<Write>)
    requires AllFit(|m|, ws, b) && OthersRun(m, ws, acts, b, m', ws')
    ensures |m'| == |m| && AllFit(|m|, ws', b)
    ensures RaceFree(ws, b) ==> RaceFree(ws', b) && Final(m', ws', b) == Final(m, ws, b)
    ensures forall t :: Drained(ws, b, t) ==> Drained(ws', b, t)
    ensures forall used :: Recorded(ws, b, used) ==> Recorded(ws', b, used)
    decreases |acts|
  {
    hide Final, RaceFree;
    if acts != [] {
      match acts[0]
      case Executes(k) =>
        assert ws[k].dst == b ==> Fits(|m|, ws[k]);
        var next := if ws[k].dst == b then Patch(m, ws[k].off, ws[k].data) else m;
        if RaceFree(ws, b) {
          ExecuteKeepsFinal(m, ws, k, b);
          WithoutRaceFree(ws, k, b);
        }
        ForeignRun(next, Without(ws, k), acts[1..], b, m', ws');
      case Issues(w) =>
        IssueIsPatch(m, ws, w, b);
        IssueRaces(ws, w, b);
        ForeignRun(m, ws + [w], acts[1..], b, m', ws');
    }
  }
}
