/**
 The process-wide pool of owned CUDA streams (`src/cuda/stream_pool.rs`).

 Handles and contexts are the driver's opaque words. Handle `0` is the NULL
 stream, context `0` is the tag "owner could not be determined".
 */
module StreamPool {
  import opened Common

  datatype PooledStream = PooledStream(raw: nat, ctx: nat)

  /** Index of the last entry owned by `want`, as `rposition` finds it. */
  function LastOwned(pool: seq<PooledStream>, want: nat): (r: Option<nat>)
    ensures r.Some? ==> r.value < |pool| && pool[r.value].ctx == want
    ensures r.Some? ==> forall j :: r.value < j < |pool| ==> pool[j].ctx != want
    ensures r.None? ==> forall j :: 0 <= j < |pool| ==> pool[j].ctx != want
  {
    if pool == [] then None
    else if pool[|pool| - 1].ctx == want then Some(|pool| - 1)
    else LastOwned(pool[..|pool| - 1], want)
  }

  /** `Vec::swap_remove`: the last entry takes the place of the removed one. */
  function SwapRemove(pool: seq<PooledStream>, pos: nat): (r: seq<PooledStream>)
    requires pos < |pool|
    ensures |r| == |pool| - 1
    ensures forall k :: 0 <= k < |r| ==> r[k] == pool[if k == pos then |pool| - 1 else k]
  {
    pool[pos := pool[|pool| - 1]][..|pool| - 1]
  }

  /** The entries `drain` keeps when context `me` is torn down, in pool order. */
  function Retained(pool: seq<PooledStream>, me: nat): seq<PooledStream> {
    if pool == [] then []
    else
      var rest := Retained(pool[..|pool| - 1], me);
      if pool[|pool| - 1].ctx == me then rest else rest + [pool[|pool| - 1]]
  }

  /** The handles `drain` destroys when context `me` is torn down, in pool order. */
  function Owned(pool: seq<PooledStream>, me: nat): (r: seq<nat>)
    ensures forall h :: h in r <==> PooledStream(h, me) in pool
  {
    if pool == [] then []
    else
      var rest := Owned(pool[..|pool| - 1], me);
      if pool[|pool| - 1].ctx == me then rest + [pool[|pool| - 1].raw] else rest
  }

  /** Removing one entry removes exactly that entry and loses nothing else. */
  lemma SwapRemoveContents(pool: seq<PooledStream>, pos: nat)
    requires pos < |pool|
    ensures multiset(SwapRemove(pool, pos)) == multiset(pool) - multiset{pool[pos]}
  {
    var last := |pool| - 1;
    assert pool == pool[..last] + [pool[last]];
    if pos == last {
      assert SwapRemove(pool, pos) == pool[..last];
    } else {
      assert SwapRemove(pool, pos) == pool[..last][pos := pool[last]];
      assert pool[..last] == pool[..pos] + [pool[pos]] + pool[pos + 1..last];
      assert pool[..last][pos := pool[last]] == pool[..pos] + [pool[last]] + pool[pos + 1..last];
    }
  }

  /** Draining splits the pool: nothing is lost, nothing is both kept and destroyed. */
  lemma {:induction false} DrainPartitions(pool: seq<PooledStream>, me: nat, e: PooledStream)
    ensures multiset(Retained(pool, me))[e] == if e.ctx == me then 0 else multiset(pool)[e]
    ensures multiset(Owned(pool, me))[e.raw] >= if e.ctx == me then multiset(pool)[e] else 0
    ensures |Retained(pool, me)| + |Owned(pool, me)| == |pool|
  {
    if pool != [] {
      var init := pool[..|pool| - 1];
      DrainPartitions(init, me, e);
      assert pool == init + [pool[|pool| - 1]];
    }
  }

  /** Draining works entry by entry and keeps the order of what it keeps. */
  lemma {:induction false} RetainedInOrder(pool: seq<PooledStream>, more: seq<PooledStream>, me: nat)
    ensures Retained(pool + more, me) == Retained(pool, me) + Retained(more, me)
  {
    if more == [] {
      assert pool + more == pool;
    } else {
      var n := |more| - 1;
      RetainedInOrder(pool, more[..n], me);
      assert (pool + more)[..|pool| + n] == pool + more[..n];
    }
  }

  lemma {:induction false} RetainedMembers(pool: seq<PooledStream>, me: nat, e: PooledStream)
    ensures e in Retained(pool, me) <==> e in pool && e.ctx != me
  {
    if pool != [] {
      var init := pool[..|pool| - 1];
      RetainedMembers(init, me, e);
      assert pool == init + [pool[|pool| - 1]];
    }
  }

  /** It destroys in the order of the pool. */
  lemma {:induction false} OwnedInOrder(pool: seq<PooledStream>, more: seq<PooledStream>, me: nat)
    ensures Owned(pool + more, me) == Owned(pool, me) + Owned(more, me)
  {
    if more == [] {
      assert pool + more == pool;
    } else {
      var n := |more| - 1;
      OwnedInOrder(pool, more[..n], me);
      assert (pool + more)[..|pool| + n] == pool + more[..n];
    }
  }

  /** The static `STREAM_POOL`; `active` is what `active_ctx_tag` answered. */
  class Pool {
    var entries: seq<PooledStream>

    constructor ()
      ensures entries == []
    {
      entries := [];
    }

    /** Takes the most recently pooled stream of the active context, if there is one. */
    method Acquire(active: nat) returns (r: Option<nat>)
      modifies this
      ensures r.None? ==> entries == old(entries)
      ensures r.None? <==> active == 0 || forall e :: e in old(entries) ==> e.ctx != active
      ensures r.Some? ==> PooledStream(r.value, active) in old(entries)
      ensures r.Some? ==>
                multiset(entries) == multiset(old(entries)) - multiset{PooledStream(r.value, active)}
      ensures r.Some? ==> exists pos: nat ::
                  && LastOwned(old(entries), active) == Some(pos)
                  && r.value == old(entries)[pos].raw
                  && entries == SwapRemove(old(entries), pos)
    {
      if active == 0 {
        return None;
      }
      match LastOwned(entries, active)
      case None =>
        r := None;
      case Some(pos) =>
        SwapRemoveContents(entries, pos);
        r := Some(entries[pos].raw);
        entries := SwapRemove(entries, pos);
        assert LastOwned(old(entries), active) == Some(pos);
    }

    /** Returns a stream to the pool under the active context's tag; the NULL stream is ignored. */
    method Release(raw: nat, active: nat)
      modifies this
      ensures entries == if raw == 0 then old(entries) else old(entries) + [PooledStream(raw, active)]
    {
      if raw == 0 {
        return;
      }
      entries := entries + [PooledStream(raw, active)];
    }

    /** Destroys the active context's streams and keeps every other entry. */
    method Drain(active: nat) returns (destroyed: seq<nat>)
      modifies this
      ensures active == 0 ==> destroyed == [] && entries == old(entries)
      ensures active != 0 ==>
                destroyed == Owned(old(entries), active) && entries == Retained(old(entries), active)
      ensures active != 0 ==> forall e :: e in entries <==> e in old(entries) && e.ctx != active
    {
      destroyed := [];
      if active == 0 {
        return;
      }
      var retained: seq<PooledStream> := [];
      for i := 0 to |entries|
        invariant entries == old(entries)
        invariant retained == Retained(entries[..i], active)
        invariant destroyed == Owned(entries[..i], active)
      {
        assert entries[..i + 1][..i] == entries[..i];
        if entries[i].ctx != active {
          retained := retained + [entries[i]];
        } else {
          destroyed := destroyed + [entries[i].raw];
        }
      }
      assert entries[..|entries|] == entries;
      forall e
        ensures e in retained <==> e in entries && e.ctx != active
      {
        RetainedMembers(entries, active, e);
      }
      entries := retained;
    }
  }
}
