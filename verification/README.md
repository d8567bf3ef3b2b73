# craton-bolt, verified

A Dafny model of the parts of craton-bolt whose correctness is hardest to see
from the code, with proofs about every run, every input and every schedule.
`dafny verify dfyconfig.toml` checks the whole project.

## What is modelled

**Stream-ordered reclamation of device memory** (`Reclaim*.dfy`,
`StreamPool.dfy`, `StreamPeak.dfy`, `GpuBuffer.dfy`, `DeviceCopy.dfy`). A
buffer records every stream that touched it; its `Drop` frees the block, parks
it behind one event per stream, or fences every stream and falls back to a
device-wide wait. `Reclaim` is a state machine with one step per driver call,
list operation, tag or launch, and with the outcome of every fallible driver
call as a parameter of the step. A stream is a FIFO with an issued and a
completed counter, an event is a position in a stream, and a run is any
interleaving of host threads and GPU progress over any number of contexts.
`ReclaimInvariant` and `ReclaimSteps` give the inductive invariant and prove
that each of the 28 kinds of step keeps it. `ReclaimRuns`, `ReclaimEvents` and
`StreamPeak` state what follows for whole runs. `ReclaimLimits` shows where the
guarantees end. `GpuBuffer` runs the host code's own loops, one driver call at
a time, against that machine: a method named `Others` stands for whatever other
threads do in between, and its callers know only its contract. The contracts
name the driver calls a block makes, in order, with their answers. The lemma
`ForeignRun` of each module that has such a method shows the contract of every
run of the others. `DeviceCopy` follows the data: writes in flight, synchronous
reads and the prefix extension.

**Order-preserving string dictionaries** (`Text.dfy`, `Dictionary*.dfy`):
ingest with hash buckets for an arbitrary hash function, byte-lexicographic
sorting with an in-place rewrite of the codes, predicates and joins on codes.

**Scalar aggregates over a pre-stage** (`Rows.dfy`, `Compaction.dfy`,
`Reduce.dfy`, `Aggregate*.dfy`): the device prefix scan and gather, the block
reduction kernel with two's complement wrap-around, NULL handling on the host,
and the two executors that must give the same answer.

**Small algorithms**: the grid-stride partition kernel under every interleaving
of its threads (`Partition.dfy`), the build fingerprint (`Fingerprint.dfy`), the
latency histogram (`Histogram.dfy`), and the baseline file's printer and parser
(`BaselineJson.dfy`, `StrictJson.dfy`, `Utf8.dfy`). The baseline's numbers are binary64 doubles with rounding
to nearest, ties to even (`Float64.dfy`); `Tenths.dfy` says exactly which of
them rounding to tenths keeps.

Machine integers are unbounded integers with the wrap-around, the range check or
the saturating cast written out where the code has it. Driver outcomes, hash
functions, schedules, the order in which a sweep visits its entries and the
digits the standard library displays for a double are arbitrary.

## Where the code does not keep a promise

Each of these is stated as a lemma with a concrete input or run, next to the
exact condition under which the promise holds.

- A context can be torn down while a sweep in another thread still holds one of
  its parked blocks. The sweep moves the list out before it queries, so the
  drain finds nothing to wait for, and the sweep then queries an event on a
  destroyed stream (`ReclaimLimits.SweepOutlivesContext`). Teardown is safe
  exactly when no such block exists (`ReclaimLimits.TeardownExact`).
- Streams released while their context could not be determined are never found
  again, so the pool is not bounded by peak use
  (`ReclaimLimits.UnknownTagLosesBound`). When streams are minted only after a
  failed `acquire`, the bound holds for a context exactly if none is minted for
  it while one of its streams lies in the pool under the unknown tag
  (`StreamPeak.PeakExact`).
- The Int64 block accumulator wraps without an error. A column of up to 256 rows
  never reports an overflow (`Reduce.OneBlockWraps`, `Reduce.SilentWrap`). The
  sum is exact exactly if the running sum, less the carries lost so far, fits
  `i64` after every block and the carries cancel (`Reduce.Int64SumExact`).
- With an Int32 result field and no surviving row, SUM over an Int32 output is 0
  on the resident path and an error on the host path
  (`AggregatePaths.NarrowSumDiffers`, `AggregatePaths.PathsAgree`).
- `index_of_many` answers the last of several equal entries, `index_of` the
  first; they agree exactly on duplicate-free dictionaries
  (`DictionaryQuery.BatchedLookupExact`).
- A baseline key comes back exactly if it is ASCII, because the parser turns
  each byte into a character (`BaselineJson.KeyExact`).
- A baseline value comes back exactly if it is at most `2^63` in magnitude and
  the double nearest to a number of tenths that is itself a double
  (`BaselineJson.RoundTripExact`, `Tenths.RescaledExact`). So 0.25 is lost,
  7846328423742807 comes back one smaller, `10^19` comes back as `2^63`, and
  `2^1023` is printed as letters the parser refuses
  (`BaselineJson.LostValues`). From `2^49` on the lost values are exactly three
  in eight of the larger significands (`Tenths.LargeExact`).
- A unit separator in a path can make two file lists share one byte stream
  (`Fingerprint.SeparatorCollides`). It need not: a list shares its stream with
  a list of clean paths exactly if it is not clean itself and its stream decodes
  (`Fingerprint.AliasExact`).
- The baseline file is a JSON object exactly if ten times every value is finite
  and no key holds a control character other than tab, newline and return
  (`StrictJson.PrintIsJson`).
- The low lane of the fingerprint is always even
  (`Fingerprint.LowLaneIsEven`).
- The comments on `copy_from_async` (`src/cuda/buffer.rs:582-604`) say that
  `Drop` does not fence. The code fences, and the model follows the code.
- The comment on `HISTOGRAM_BUCKETS` (`src/metrics.rs:76-78`) puts `2^22` into
  the overflow bucket. The code puts it into bucket 22
  (`Histogram.OverflowBucketExact`).

## Model

| member | source | states |
|---|---|---|
| `StreamPool.Pool.Acquire` | src/cuda/stream_pool.rs:136-154 | takes the most recently pooled stream of the active context and only that entry; fails, changing nothing, exactly if the context is unknown or owns no entry |
| `StreamPool.Pool.Release` | src/cuda/stream_pool.rs:170-182 | pools the handle under the active context's tag; the NULL stream is ignored |
| `StreamPool.Pool.Drain` | src/cuda/stream_pool.rs:202-234 | destroys exactly the active context's handles, in order, and keeps every other entry; does nothing for an unknown context |
| `StreamPool.SwapRemove` | src/cuda/stream_pool.rs:136-154 | the last entry takes the place of the removed one; every other entry stays where it is |
| `StreamPool.SwapRemoveContents` | src/cuda/stream_pool.rs:136-154 | removing an entry by swap loses that entry and nothing else |
| `StreamPool.DrainPartitions` | src/cuda/stream_pool.rs:202-234 | draining splits the pool into kept and destroyed entries, none lost and none in both |
| `StreamPool.RetainedInOrder` | src/cuda/stream_pool.rs:202-234 | draining works entry by entry: what it keeps of two pools one after the other is what it keeps of each, in order |
| `StreamPool.OwnedInOrder` | src/cuda/stream_pool.rs:202-234 | the same for the handles it destroys |
| `Reclaim.Insert` | src/cuda/buffer.rs:73-79 | a recorded stream set holds each stream once and loses none |
| `ReclaimSteps.StepKeeps` | src/cuda/buffer.rs:832-1103 | every step keeps the invariant: whatever may still run on a block is covered by a recorded stream, an event, a fence in progress or has completed |
| `ReclaimSteps.QueryKeeps` | src/cuda/buffer.rs:1016-1040 | querying events keeps the invariant: all ready means nothing is pending, and parking loses no stream |
| `ReclaimSteps.RecordOk` | src/cuda/buffer.rs:1068-1087 | an event just recorded stands after every operation on its stream that touches the block |
| `ReclaimSteps.CtxFenceReturnBlock` | src/cuda/buffer.rs:848-873 | a device-wide wait that succeeds covers every stream of the block, whichever fences failed |
| `ReclaimRuns.RunKeepsInv` | src/cuda/buffer.rs:1001-1053 | every state of every run satisfies the invariant |
| `ReclaimRuns.UseRemembers` | src/cuda/buffer.rs:428-463 | the bookkeeping covers every operation the run issued against the block, over all its lives |
| `ReclaimRuns.FreeIsCompleted` | src/cuda/buffer.rs:1001-1053 | in every run without a failed device-wide wait, a block in the free pool has every operation ever issued against it completed, on every stream |
| `ReclaimRuns.ReleasedIsCompleted` | src/cuda/mem_pool.rs:727-761 | the same for memory handed back to the driver, if no forced wait failed |
| `ReclaimRuns.AllocIsExclusive` | src/cuda/mem_pool.rs:1489-1538 | an allocation starts on a block that no earlier operation can still touch |
| `ReclaimRuns.NamedStreamsAlive` | src/cuda/cuda_sys.rs:755-791 | in every run no stream named by a live buffer was destroyed, and it belongs to the buffer's context |
| `ReclaimRuns.ParkedStreamsAlive` | src/cuda/mem_pool.rs:647-714 | in every run no stream behind a parked event was destroyed |
| `ReclaimRuns.AcquireIsExclusive` | src/cuda/stream_pool.rs:136-154 | in every run `acquire` returns a stream of the acquiring context that is neither in use nor destroyed, and the pool no longer holds it |
| `ReclaimEvents.EventsBalance` | src/cuda/buffer.rs:1068-1103 | in every run the events created are the events destroyed plus the live ones |
| `ReclaimEvents.EventsOwnedOnce` | src/cuda/mem_pool.rs:610-625 | a live event is listed once, by one block |
| `ReclaimEvents.NoEventLeaks` | src/cuda/mem_pool.rs:747-761 | once no block is parked or inside `Drop`, every event ever created was destroyed |
| `StreamPeak.AcquireFailsAtPeak` | src/cuda/stream_pool.rs:136-154 | when `acquire` fails, every stream of the context is in use exactly if none lies in the pool under the unknown tag |
| `StreamPeak.LostForever` | src/cuda/stream_pool.rs:136-154 | a stream pooled under the unknown tag stays there in every later state of every run |
| `StreamPeak.PeakExact` | src/cuda/stream_pool.rs:45-50 | in every run that mints only when `acquire` fails, all streams ever minted for a context were in use there at one moment exactly if none was minted for it while one of its streams lay in the pool under the unknown tag |
| `StreamPeak.MintedAtMostPeak` | src/cuda/stream_pool.rs:45-50 | so the bound holds in every such run whose releases all carry their owner's tag |
| `ReclaimLimits.ReleaseTagExact` | src/cuda/stream_pool.rs:170-182 | a release keeps the next `acquire` sound exactly if its tag is the owner's, unknown, or that of a context that cannot acquire |
| `ReclaimLimits.TeardownExact` | src/cuda/cuda_sys.rs:755-858 | destroying a context's streams is safe exactly if none of its blocks is still parked or being forced |
| `ReclaimLimits.BothSyncsFail` | src/cuda/buffer.rs:848-873 | a run in which a fence and the device-wide wait fail pools a block with an operation pending |
| `ReclaimLimits.SweepOutlivesContext` | src/cuda/mem_pool.rs:656-665 | a run in which a sweep holds the only parked block while its context is torn down |
| `ReclaimLimits.UnknownTagLosesBound` | src/cuda/stream_pool.rs:45-50 | a run that releases under the unknown tag and mints two streams that are never in use together |
| `GpuBuffer.ForeignRun` | src/cuda/buffer.rs:1260-1268 | however long other threads run, a block inside its own `Drop` or sweep keeps its state and gains no step: the contract of `Others` |
| `GpuBuffer.Device.EventCreate` | src/cuda/cuda_sys.rs:1024-1044 | creates one event for the block or fails, with other threads acting in between |
| `GpuBuffer.Device.EventRecord` | src/cuda/cuda_sys.rs:1045-1060 | records the new event on the next stream of the set, or hands all events over for destruction |
| `GpuBuffer.Device.EventQuery` | src/cuda/cuda_sys.rs:1061-1081 | answers ready only for an event the GPU has passed; an error reads as not ready |
| `GpuBuffer.DestroyPartial` | src/cuda/buffer.rs:1078-1099 | destroys every event of an abandoned recording, once each |
| `GpuBuffer.RecordDeferEvents` | src/cuda/buffer.rs:1068-1103 | creates and records one event per stream in set order; the first call that fails ends it, and every event made so far is destroyed |
| `GpuBuffer.FenceAllStreams` | src/cuda/buffer.rs:832-875 | one wait per stream in order, failed or not, then one device-wide wait exactly if one of them failed; no other call |
| `GpuBuffer.AllReady` | src/cuda/buffer.rs:1019-1026 | queries each event in turn and stops at the first that is not ready |
| `GpuBuffer.RealDropReclaim` | src/cuda/buffer.rs:1016-1053 | over the calls made for the block: it fences exactly if an event could not be created or recorded, waits device-wide exactly if a fence failed, never waits for an event, and is parked behind one event per stream exactly if none failed and the last query was not ready; otherwise its last step returns it to the pool |
| `GpuBuffer.Buffer.MarkStreamUse` | src/cuda/buffer.rs:453-463 | the stream is recorded once and its launch is no longer untagged |
| `GpuBuffer.Buffer.Drop` | src/cuda/buffer.rs:1255-1295 | an empty buffer does nothing, one without streams is freed at once, and any other takes the route above; the block is pooled only with every operation completed |
| `GpuBuffer.ForceReclaim` | src/cuda/mem_pool.rs:727-740 | waits for and destroys every event, one wait each, then frees to the driver |
| `GpuBuffer.SweepEntry` | src/cuda/mem_pool.rs:665-708 | returned to the pool exactly if every query was ready, forced exactly if one was not and the budget is spent, else charged and kept; it never fences a stream |
| `GpuBuffer.SweepPendingFrees` | src/cuda/mem_pool.rs:647-714 | takes the whole list, and each entry was given up or is back on the list at the end |
| `DeviceCopy.FinalIsInOrder` | src/cuda/buffer.rs:478-489 | the promised contents are those of running the writes in issue order |
| `DeviceCopy.ExecuteKeepsFinal` | src/cuda/buffer.rs:478-489 | whichever stream the GPU serves next, the promised contents of a race-free block stay the same |
| `DeviceCopy.ScheduleIsInOrder` | src/cuda/buffer.rs:478-489 | race-free writes end the same in every schedule of the streams |
| `DeviceCopy.ForeignRun` | src/cuda/buffer.rs:478-489 | however long the GPU and threads without the block run, its writes only leave the queue, and a race-free block keeps its promised contents: the contract of `Others` |
| `DeviceCopy.Gpu.Execute` | src/cuda/buffer.rs:478-489 | executing one write keeps what every race-free block will hold |
| `DeviceCopy.Gpu.FenceRecordedStreams` | src/cuda/buffer.rs:496-507 | calls the driver once for every recorded stream in order, failed or not, then device-wide exactly if one of them failed; unless that wait fails too, no write to the buffer is in flight and its memory holds every earlier write |
| `DeviceCopy.Gpu.ToVec` | src/cuda/buffer.rs:539-565 | an empty buffer makes no driver wait; otherwise the read follows one whole fence and, unless the device-wide wait failed, returns the effect of every earlier recorded write |
| `DeviceCopy.IssueRaces` | src/cuda/buffer.rs:609-636 | issuing a write leaves a block race-free exactly if every overlapping write in flight is on its stream |
| `DeviceCopy.Gpu.CopyFromAsync` | src/cuda/buffer.rs:609-636 | issues the write, records its stream, and changes what the block will hold in exactly the written prefix; the block stays race-free exactly if every overlapping write is on the same stream; too long a source changes nothing |
| `DeviceCopy.Gpu.FromPrefixAndTail` | src/cuda/buffer.rs:314-372 | the new buffer holds the prefix followed by the tail; a buffer allocated before a failed copy is dropped |
| `DeviceCopy.Gpu.ExtendedWithPrefix` | src/cuda/smart_ptrs.rs:98-134 | fences exactly if a prefix is read; the result holds the fully written prefix followed by the tail unless the device-wide wait failed; the source is dropped exactly once on every outcome |
| `Text.LessExact` | src/cuda/dictionary.rs:94-97 | the order of the model is that of `str`: a proper prefix first, else the smaller byte at the first difference |
| `Text.LessTrichotomy` | src/cuda/dictionary.rs:62-69 | exactly one of less, equal and greater holds of two strings |
| `Text.SortedUnique` | src/cuda/dictionary.rs:62-75 | a sorted dictionary is determined by its set of strings |
| `Dictionary.SortSlots` | src/cuda/dictionary.rs:94-97 | a stable sort of the slots by string |
| `Dictionary.LexSortDictionary` | src/cuda/dictionary.rs:86-133 | sorts the dictionary bytewise and rewrites the codes in place so that every row keeps its string and NULL stays NULL |
| `Dictionary.Probe` | src/cuda/dictionary.rs:348-357 | finds the code of a string if and only if it was seen, collisions included |
| `Dictionary.Dedupe` | src/cuda/dictionary.rs:318-381 | distinct strings in first-seen order and a right code per row, for any hash |
| `Dictionary.FromStringArray` | src/cuda/dictionary.rs:318-393 | for any hash function: the sorted encoding over exactly the distinct non-null strings, or an error exactly if they outnumber `i32::MAX` or the upload fails |
| `Dictionary.AnyFromStringArray` | src/cuda/dictionary_any.rs:71-90 | the same, refused before the upload exactly from the index threshold on |
| `Dictionary.EstimateDistinctCount` | src/cuda/dictionary_i64.rs:437-446 | the exact number of distinct non-null strings |
| `Dictionary.DecodeInverts` | src/cuda/dictionary.rs:624-651 | decoding inverts encoding and fails exactly outside `0..=len` |
| `Dictionary.RoundTrip` | src/cuda/dictionary.rs:624-651 | decoding every code of an encoded column returns the column |
| `Dictionary.EncodingIsCanonical` | src/cuda/dictionary.rs:318-393 | the encoding does not depend on the hash, and the dictionary only on the set of values |
| `Dictionary.CodesEmbedOrder` | src/cuda/dictionary.rs:62-133 | comparing two non-NULL codes compares their strings bytewise, and code 0 is exactly NULL |
| `Dictionary.CollationRanksOf` | src/cuda/dictionary.rs:146-156 | the position of every slot in the stable byte order, for any dictionary |
| `Dictionary.RankingIsIdentity` | src/cuda/dictionary.rs:72-76 | after ingest the ranking is the identity |
| `DictionaryQuery.IndicesSatisfying` | src/cuda/dictionary.rs:165-188 | exactly the codes whose strings satisfy the comparison, ascending |
| `DictionaryQuery.RewriteIsExact` | src/cuda/dictionary.rs:475-484 | membership in the code set selects exactly the non-NULL rows that compare bytewise with the probe as the operator asks |
| `DictionaryQuery.RewriteIsRange` | src/cuda/dictionary.rs:438-484 | on a sorted dictionary each ordering comparison is a range of codes; the range bounds are where the strings bytewise below and above the probe end and begin |
| `DictionaryQuery.BatchedLookupExact` | src/cuda/dictionary.rs:506-517 | the batched lookup agrees with the single one for all literals exactly if no entry repeats |
| `DictionaryQuery.EqualityRewrite` | src/cuda/dictionary.rs:400-412 | a row equals a literal exactly if it has the literal's code, which is its rank plus one |
| `DictionaryQuery.BinarySearch` | src/cuda/dictionary.rs:247-250 | the position of a member, or the insertion point of a string that is none |
| `DictionaryQuery.RankForIndexIn` | src/cuda/dictionary.rs:239-254 | the NULL sentinel, then the number of smaller universe strings for each entry |
| `DictionaryQuery.Dedup` | src/cuda/dictionary.rs:284-284 | one copy of each string, in order |
| `DictionaryQuery.UnifiedRankMapsOf` | src/cuda/dictionary.rs:278-289 | for any two dictionaries, ranks of non-NULL codes compare as the strings do bytewise under all four operators and equality |
| `DictionaryArray.SlotCodes` | src/cuda/dictionary_any.rs:263-294 | null slots get 0, equal values share one code, and too many values are an error |
| `DictionaryArray.MapKeys` | src/cuda/dictionary_any.rs:296-327 | every row gets its slot's code; the first bad key decides the error |
| `DictionaryArray.FromDictionaryArray` | src/cuda/dictionary_any.rs:232-337 | the encoding of the logical column over the distinct non-null values; errors exactly for too many values, else a bad key, else a failed upload |
| `DictionaryArray.SameAsExpanded` | src/cuda/dictionary_any.rs:232-337 | equal to encoding the expanded column exactly if a key references every distinct value |
| `Compaction.KernelScans` | src/jit/prefix_scan.rs:264-315 | the kernel's eight rounds leave the inclusive prefix sum in every slot, modulo `2^32` |
| `Compaction.LocalIsPrefix` | src/jit/prefix_scan.rs:317-329 | a row's local index is its prefix sum inside its block, last partial block included |
| `Compaction.BlockSumsPrefix` | src/jit/prefix_scan.rs:331-347 | block sums add up to the prefix sums at block boundaries |
| `Compaction.HostExclusiveScan` | src/exec/gpu_compact_multipass.rs:391-408 | exact bases and total, or an error exactly if a base does not fit `u32` |
| `Compaction.ScanBlockSums` | src/exec/gpu_compact_multipass.rs:136-198 | the recursive device scan gives exact bases and the total for every legal input |
| `Compaction.DepthBound` | src/exec/gpu_compact_multipass.rs:420-443 | the depth limit admits exactly the row counts up to `2^32` |
| `Compaction.PrefixScanMask` | src/exec/gpu_compact.rs:415-579 | succeeds exactly for row counts that fit `u32`; base plus local index of a row is the number of kept rows before it |
| `Compaction.GatherOne` | src/jit/prefix_scan.rs:1227-1380 | in whatever order the threads run, the output is the kept rows in order |
| `Reduce.CombineLaws` | src/jit/agg_kernels.rs:503-600 | wrapping addition, minimum and maximum are associative and commutative with their identities |
| `Reduce.BlockReduceIsFold` | src/jit/agg_kernels.rs:490-712 | three shared-memory rounds and five shuffle rounds leave the fold of all 256 values in lane 0 |
| `Reduce.FoldExtremum` | src/exec/agg_with_pre.rs:1731-1732 | a minimum or maximum bounds every value and is one of them, or the identity of no rows |
| `Reduce.PartialIsFold` | src/jit/agg_kernels.rs:407-490 | each block's accumulator is the fold of the rows it covers; padding adds nothing |
| `Reduce.PartialsFoldAll` | src/exec/agg_with_pre.rs:1254-1324 | folding the accumulators folds the column |
| `Reduce.CheckedSum` | src/exec/agg_with_pre.rs:1761-1777 | the exact sum of the accumulators, or an error exactly if a prefix leaves `i64` |
| `Reduce.ReduceGpuVec` | src/exec/agg_with_pre.rs:1254-1324 | identity for no rows, the widening and row-count errors, else the finalized kernel result |
| `Reduce.Int64SumExact` | src/exec/agg_with_pre.rs:1744-1777 | the answer is the exact column sum if and only if the running sum of the rows, less the carries lost, fits `i64` after every block and the carries cancel; an overflow is reported if and only if it does not fit after some block |
| `Reduce.OneBlockWraps` | src/jit/agg_kernels.rs:490-712 | a column of one block never reports an overflow; its sum wraps |
| `Reduce.SilentWrap` | src/jit/agg_kernels.rs:490-712 | two rows whose overflow is not reported |
| `Reduce.Int32SumExact` | src/exec/agg_with_pre.rs:1058-1068 | SUM over Int32 values is exact and never an error for every row count that fits `u32` |
| `Aggregate.FilterTwice` | src/exec/agg_with_pre.rs:1615-1620 | two successive filters are one joint filter |
| `Aggregate.MaskThenStrip` | src/exec/agg_with_pre.rs:1568-1585 | compacting by the mask and then stripping NULLs leaves exactly the kept and valid rows, in order |
| `Aggregate.Split` | src/exec/agg_with_pre.rs:989-1046 | inverts the lift to optional values and yields the canonical validity vector |
| `Aggregate.LiftIsInjective` | src/exec/agg_with_pre.rs:955-975 | canonical columns are determined by their optional values |
| `Aggregate.LiftKeepsRows` | src/exec/agg_with_pre.rs:881-897 | lifting and splitting keeps the rows every aggregate is about |
| `AggregatePaths.ReduceHostCol` | src/exec/agg_with_pre.rs:1058-1074 | reduces the non-NULL rows, Int32 sums at 64 bits |
| `AggregatePaths.NonNullCount` | src/exec/agg_with_pre.rs:872-878 | counts the rows that are not NULL |
| `AggregatePaths.CompactOutputs` | src/exec/agg_with_pre.rs:628-640 | every pre-stage output compacted by the mask, or an error exactly if the rows do not fit `u32` |
| `AggregatePaths.BuildOneAggregate` | src/exec/agg_with_pre.rs:667-692 | one aggregate over the kept and valid rows, packed into its field |
| `AggregatePaths.ExecuteHost` | src/exec/agg_with_pre.rs:86-126 | one value per aggregate in order: the count, the least or greatest, or the sum less lost carries of the kept and valid rows of the output it names; or the error of the first aggregate that has one |
| `AggregatePaths.OneOutcome` | src/exec/agg_with_pre.rs:667-692 | an aggregate has one value or one error, never both, so this fixes the answer |
| `AggregatePaths.HostMeaning` | src/exec/agg_with_pre.rs:667-692 | what one aggregate answers on the host path, for every type of output and field, NULLs and an empty column included |
| `AggregatePaths.TryExecuteResident` | src/exec/agg_with_pre.rs:162-390 | declines, or answers every aggregate in order over the kept rows, or fails with the first error, with device scan, gather and reduction |
| `AggregatePaths.DeclinesExactly` | src/exec/agg_with_pre.rs:162-260 | the resident path declines exactly if an output carries NULLs, there are no rows, the number of fields differs, or an aggregate names no output or is no COUNT and its field has another type |
| `AggregatePaths.AggregateAgrees` | src/exec/agg_with_pre.rs:358-373 | both paths give one aggregate the same value or error exactly if it is not a SUM over an Int32 output |
| `AggregatePaths.PathsAgree` | src/exec/agg_with_pre.rs:162-390 | a batch from the resident path is the host path's batch exactly if no aggregate is such a sum; otherwise-equal plans also agree on errors |
| `AggregatePaths.NarrowSumDiffers` | src/exec/agg_with_pre.rs:396-419 | a plan and a stage on which the two paths differ |
| `Partition.PidExact` | kernels/src/lib.rs:158-166 | the partition of a key is the low twelve bits of the key times 0x9E3779B1 |
| `Partition.ConsecutiveKeysSpread` | kernels/src/lib.rs:158-166 | any 4096 consecutive keys fall into 4096 different partitions |
| `Partition.PartitionIsCorrect` | kernels/src/lib.rs:146-181 | for every schedule, once all threads have exited each row's id was stored once and is the hash of its key, and `counts[p]` is the number of rows whose keys hash to `p`, summing to the row count |
| `Partition.FairSchedulesFinish` | kernels/src/lib.rs:158-180 | every schedule that runs each thread often enough finishes |
| `Partition.StoredOnceExact` | kernels/src/lib.rs:158-180 | no reachable state stores a row twice exactly if row count plus stride is at most `2^32` |
| `Partition.WrapStoresTwice` | kernels/src/lib.rs:179-179 | beyond that bound, a schedule that stores a row twice |
| `Partition.ForeignRun` | kernels/src/lib.rs:146-181 | however long other threads run, a thread keeps its index and phase: the contract of `Others` |
| `Partition.Device.BoltPartition` | kernels/src/lib.rs:146-181 | a thread's loop, interleaved with all others, takes only steps of the machine and reaches its end |
| `Fingerprint.XorBits` | build.rs:250-252 | a bit of an exclusive or is set exactly if the operands' bits differ |
| `Fingerprint.MixExact` | build.rs:248-255 | one step takes the exclusive or with the byte, or with twice the byte, and multiplies by 0x100000001b3 modulo `2^64` |
| `Fingerprint.SeedExact` | build.rs:243-247 | the lanes start from the FNV offset basis, and from that exclusive-or 0x5555555555555555 |
| `Fingerprint.MixHiInjective` | build.rs:248-255 | one step of the high lane is injective in the state and in the byte |
| `Fingerprint.MixLoInjective` | build.rs:248-255 | the same of the low lane, which takes the byte rotated |
| `Fingerprint.ContentByteChanges` | build.rs:257-276 | changing any single content byte of any file changes both lanes of the digest |
| `Fingerprint.RecordLayout` | build.rs:271-275 | a record is the path, 0x1f, the length in eight bytes with the lowest first, the content and 0x1e |
| `Fingerprint.DecodeExact` | build.rs:268-276 | a byte stream decodes into a list of files exactly if every path is clean and the stream is theirs |
| `Fingerprint.SerializeInjective` | build.rs:268-276 | different lists of clean files have different streams |
| `Fingerprint.AliasExact` | build.rs:268-276 | a list shares its stream with another, clean list exactly if it is not clean itself and its stream decodes |
| `Fingerprint.SeparatorCollides` | build.rs:271-275 | two different files with the same stream, one with a separator in its path |
| `Fingerprint.LowLaneIsEven` | build.rs:247-255 | the lowest bit of the low lane is always zero |
| `Fingerprint.MixBytes` | build.rs:248-255 | the byte loop computes the fold |
| `Fingerprint.EmitFingerprint` | build.rs:257-276 | the loop over the files computes the digest of the framed stream |
| `Float64.NearestIsClosest` | benches/regression.rs:394-394 | no double is closer to a real than the one it is rounded to |
| `Float64.ValueExact` | benches/regression.rs:394-394 | the doubles are exactly the reals that rounding keeps |
| `Tenths.RescaledExact` | benches/regression.rs:392-394 | up to `2^63`, multiplying by ten, rounding and dividing by ten keeps a double exactly if it is nearest to a number of tenths that is a double |
| `Tenths.TenthsSurvive` | benches/regression.rs:392-394 | every number of tenths up to `2^53` has a double that is kept |
| `Tenths.LargeExact` | benches/regression.rs:392-394 | from `2^49` on, which significands are lost, by their remainder modulo eight |
| `BaselineJson.FaithfulExists` | benches/regression.rs:398-398 | digits as the standard library promises them exist for every double `fmt_num` displays |
| `BaselineJson.NumberReadsBack` | benches/regression.rs:391-400 | the digits printed for a number read back as the number shown, whichever shortest digits the standard library picks |
| `BaselineJson.ShownExact` | benches/regression.rs:391-400 | a number is printed as digits exactly if ten times it is finite, and comes back exactly if it is at most `2^63` and nearest to tenths |
| `BaselineJson.KeyReadsBack` | benches/regression.rs:459-490 | an escaped key reads back with every byte from 0x80 on widened to a two-byte character; quotes, backslashes and control characters survive |
| `BaselineJson.KeyExact` | benches/regression.rs:405-418 | a key reads back as itself exactly if it is ASCII |
| `BaselineJson.PrintReadsBack` | benches/regression.rs:372-387 | parsing the printed entries reads them back one after the other, or stops with the error of the first unreadable value |
| `BaselineJson.RoundTripExact` | benches/regression.rs:372-387 | for every map: parsing the printed map succeeds exactly if ten times every value is finite, and returns the map exactly if every key is ASCII and every value survives |
| `BaselineJson.EveryMapIsListed` | benches/regression.rs:374-374 | every map has a listing in key order |
| `BaselineJson.LostValues` | benches/regression.rs:391-400 | four values that do not come back, at the level of the printed and parsed file |
| `BaselineJson.JsonEscape` | benches/regression.rs:405-418 | the escape loop |
| `StrictJson.EscapeExact` | benches/regression.rs:405-418 | a key is printed as it is exactly if it holds no quote, backslash, newline, return or tab |
| `BaselineJson.ToJson` | benches/regression.rs:372-387 | the printing loop |
| `StrictJson.PrintIsJson` | benches/regression.rs:371-387 | the printed file is a JSON object of numbers by RFC 8259 exactly if ten times every value is finite and no key holds a control character other than tab, newline and return |
| `StrictJson.NoTail` | benches/regression.rs:389-400 | no exponent is printed; an integer has no dot, and any other number has one digit behind the dot that is no zero |
| `BaselineJson.ReadKey` | benches/regression.rs:459-490 | the key loop reads the same key, rest or error as its grammar |
| `Utf8.BoundaryExact` | benches/regression.rs:511-511 | a character boundary is exactly a place where a UTF-8 text splits into two |
| `Utf8.AsciiRunOnBoundaries` | benches/regression.rs:500-511 | in UTF-8 text both ends of the number's slice are character boundaries, although white space is skipped byte by byte |
| `BaselineJson.ReadValue` | benches/regression.rs:497-522 | the value loop reads the same number, rest or error as its grammar, and slices UTF-8 text on character boundaries only |
| `BaselineJson.ParseFlatJson` | benches/regression.rs:428-527 | the cursor-based parser ends on every input, in bounds, with the answer of the grammar |
| `StrictJson.ParseAcceptsJson` | benches/regression.rs:428-527 | the parser accepts every JSON object of numbers by RFC 8259 |
| `BaselineJson.WriteThenRead` | benches/regression.rs:372-527 | the two loops one after the other return the map exactly if every key is ASCII and every value survives |
| `Histogram.BucketIndexExact` | src/metrics.rs:281-292 | an observation is in bucket `i` or below exactly if it is at most `2^i` |
| `Histogram.OverflowBucketExact` | src/metrics.rs:281-292 | the last bucket takes exactly the observations above `2^22` |
| `Histogram.BucketsLeadCount` | src/metrics.rs:355-360 | at every moment of every interleaving, bucket total minus count is the number of observers between the two adds |
| `Histogram.QuietTotals` | src/metrics.rs:355-360 | once quiet, count and bucket total are the number of observations, and the sum is theirs modulo `2^64` |
| `Histogram.QuietCumulative` | src/metrics.rs:571-585 | once quiet, the cumulative count at `2^i` below the last bucket is the number of observations up to `2^i` |
| `Histogram.LastBoundExact` | src/metrics.rs:294-305 | the last finite bound is a true bound exactly if nothing larger was observed |
| `Histogram.RenderBuckets` | src/metrics.rs:571-598 | line `i` carries the bound `2^i`, the last line included, and the sum of the buckets up to it; `+Inf` carries the count |
| `Histogram.ForeignRun` | src/metrics.rs:355-360 | however long other observers run, an observer keeps its place between its adds: the contract of `Others` |
| `Histogram.Metrics.Observe` | src/metrics.rs:355-360 | an observer's three adds, interleaved with all others |

## Left out

- Raw FFI bindings, the stub and cudarc backends and graph capture: foreign calls, represented by their outcomes.
- Reuse of a handle or an address by the driver after it was destroyed or freed: the model never reissues one.
- The pool's size classes, LRU caps and out-of-memory recovery: whether a freed block is pooled is an arbitrary choice.
- `with_capacity` and `round_up_to_alignment`: allocation either succeeds or fails.
- `PinnedHostBuffer` and `src/cuda/async_copy.rs`: the same recording and fencing on host memory.
- Kernels that write through a view are writes of arbitrary data to a block; view construction itself is not modelled.
- DeviceCopy.Gpu.ToVec: says only that the data read is what memory holds when both the fence and the device-wide wait fail or when writes race, because the code goes on then.
- Floating point columns: Neumaier summation, AVG and STDDEV.
- The expression evaluator of `src/exec/expr_agg.rs`: aggregates here name a pre-stage output or count rows.
- AggregatePaths.DeclinesExactly: the lookup of resident input columns is not modelled; a missing column, or one whose type differs or is no plain number, also declines.
- AggregatePaths.PathsAgree: needs at least one pre-stage output, because the host path takes the row count from the first one.
- The Blelloch and decoupled-lookback scans, selected by an environment variable.
- SQL NULL for an aggregate over no rows: the code answers the operator's identity.
- The 64-bit dictionary and the conversions between the two widths: the same algorithm with wider codes.
- Three-valued logic on the NULL rank sentinel: the code leaves it to the executor.
- BaselineJson.RoundTripExact: the two zeros are one value, as `==` has it, and the digits displayed for a double that is no integer are any tenths that read back as it.
- Fingerprint.AliasExact: says nothing about two lists that both have a unit separator in a path and share a stream that does not decode.
- Reading the source tree and skipping unreadable files: the fingerprint is that of the list of files read.
- Snapshots of the histogram that overlap with observers: the statements are about states, not about a reader's sequence of loads.
