# Verified model of the DirectML TensorFlow plugin's core

A Dafny model of the parts of the plugin where several components have to agree: the asynchronous submission
pipeline, the layout arithmetic of its kernels, and the allocator and caches around them. `dafny verify
dfyconfig.toml` checks all of it.

**Submission pipeline.** `Submission` is the protocol between appenders, flush requests, the execution thread and
the GPU as atomic steps at lock granularity; `ExecutionContext` holds the classes whose methods are those steps.
`EventQueue` does the same for the callback thread, `CommandAllocatorRing` for the allocators a recording uses.
`PooledHeap` is the ring-buffer suballocator, as a class with its loops and as a specification whose soundness,
completeness and growth are proved. `StagingMemory` adds bytes to it. `UploadPipeline` and `ReadbackPipeline` compose
everything: uploads with the submission protocol and the heap, readbacks also with the event queue and the second,
CPU-signalled fence. Their theorems are about every interleaving, and compare what arrives with what a fold over the
events of the run says was asked for. `UploadProgress` and `ReadbackProgress` show that no reachable state is stuck, and
`ReadbackRemoval` continues the readback machine after the device is removed.

**Layout arithmetic.** `MixedRadix` has row-major positions and strides of any rank. On it stand broadcast strides,
padding and swizzling (`TensorDesc`), broadcasting of shapes (`Broadcast`), the collapse of Concat (`Concat`), and
BatchToSpaceND (`BatchToSpace`, `BatchToSpaceKernel`): folding of trivial dimensions, the reshape, permute, reshape,
slice graph, and the DepthToSpace path, down to buffer positions through the operator semantics of `TensorGraph`.
`BatchToSpaceElements` reads the same mapping from the input's side: where each element goes, and which ones survive.
`DataFormat` has the permutation check, the strided copies and the packed table of the format operators.

**Allocator and caches.** `KernelCache` refines a description of what a least-recently-used cache holds after any
history of uses (`LeastRecentlyUsed`). `QueuedReferences` is the in-place compaction of references the GPU holds.
`HeapAllocator` hands out IDs packed into pointers (`TaggedPointers`, on 64-bit vectors), and `TiledAllocation` maps
tiles onto heaps.

What is assumed of the outside world: the fence completes values in submission order and never moves back (except in
`EventQueue` and `QueuedReferences`, which only need that it never moves back); a committed buffer keeps its bytes;
`Reinterpret` is a strided view of the same buffer, `Identity` and `Slice` write packed tensors, `DepthToSpace` has depth-column-row
order, and `Join` has its usual meaning. Sizes and fence values are unbounded naturals unless the code's behaviour at
the end of the 64-bit range matters, where the bounds are explicit.

Where the code does something other than one might expect, the model follows the code:

- `FindOffsetForAllocation` never reuses the bytes behind the highest allocation once the ring has wrapped, and gives
  up on 64-bit overflow. `PooledHeap.FindOffsetComplete` says exactly when it fails: the overflow guard fires, or every
  legal placement lies in that lost tail. `PooledHeap.LostTailIsMissed` is a chunk where this happens, and
  `PooledHeap.LostTailIsReached` how to get there; `PooledHeap.UnwrappedFailureIsHonest` and
  `PooledHeap.WrappedFailureIsHonestUnless` say when a failure can be taken at its word.
  `PooledHeap.GuardNeedsHugeChunk` shows that the guard needs a chunk above 2^62 bytes.
- After device removal, a callback for the fence value UINT64_MAX itself is neither flushed nor run at once;
  `EventQueue.RemovalFlushes` and `EventQueue.AfterRemoval` state exactly which are, and `EventQueue.RemovalRunsAll`
  and `EventQueue.NoneStranded` that all others run, once.
- A readback's callback guards against device removal with the recorder status, which only a failing Close sets. A
  removal that no Close has reported lets the callback deliver what the staging chunk happened to hold
  (`ReadbackRemoval.RemovalDeliversUncaptured`). `ReadbackRemoval.FirstWrongDelivery` is the exact step, and
  `ReadbackRemoval.DrainedDeliversAll` the exact condition for the whole run.
- The first assertion of `Enqueue` compares with a 64-bit increment that wraps: after device removal it fails, unless
  nothing was ever awaited (`EventQueue.EnqueueAssertsHold`).
- `TrimCache` evicts one entry per call although its comment says "until". One is enough, also for a maximum of 0.
- `Free` ignores the device ID of the pointer.
- `BatchToSpace` forwards its input when nothing is left after folding. For an empty input with unchanged shape it may
  not forward (`BatchToSpace.EmptyMayNotBeForwarded`); for a non-empty one an unchanged shape always forwards
  (`BatchToSpace.SameShapeMeansForwarded`).

## Model

| member | source | states |
|---|---|---|
| Submission.StepInv | tfdml/core/dml_execution_context.cc:115-379 | every atomic step keeps the history equal to submitted, in-flight and waiting commands, in order and under their promised values, and the non-write batch empty between iterations |
| Submission.SubmittedOnceInOrder | tfdml/core/dml_execution_context.cc:313-378 | over any run, every appended command is submitted exactly once, in append order, by the submission whose signal is the value its appender returned |
| Submission.SignalledMeansExecuted | tfdml/core/dml_execution_context.cc:115-142 | when the event an append returned is signalled, that command and all before it have been executed |
| Submission.GpuRunsInAppendOrder | tfdml/core/dml_command_queue.cc:32-41 | the GPU's next command is the one appended at that position of the history |
| Submission.ExecutedWasSubmitted | tfdml/core/dml_command_queue.cc:32-41 | an executed command was submitted before the signal of the value its appender returned |
| Submission.FencesAscend | tfdml/core/dml_execution_context.cc:126-141 | returned fence values never decrease |
| Submission.CurrentEventIsTight | tfdml/core/dml_execution_context.cc:259-288 | the event of Flush and GetCurrentCompletionEvent is exactly the one the latest append was given |
| Submission.CurrentEventCovers | tfdml/core/dml_execution_context.cc:259-288 | waiting for that event waits for every earlier append |
| Submission.FlushRequestHonoured | tfdml/core/dml_execution_context.cc:342-349 | a set flush request is cleared only by a swap that takes the whole write batch |
| Submission.PollSwaps | tfdml/core/dml_execution_context.cc:342-349 | a poll that finds commands and a flush request, or the size or time condition, takes the whole write batch and moves the next flush event on; any other poll changes nothing |
| Submission.RequestedFlushIsTaken | tfdml/core/dml_execution_context.cc:259-271 | over any run, once the thread has polled after a flush request, everything appended before the request has left the write batch |
| Submission.StoppedOnlyFor | tfdml/core/dml_execution_context.cc:362-371 | over any run, the status is bad exactly if a Close has failed, and the thread has left its loop exactly if a Close has failed or exit was seen |
| Submission.CanAlwaysFinish | tfdml/core/dml_execution_context.cc:297-379 | no deadlock: until the thread leaves its loop, every reachable state can be continued, without another append, to one where every command is executed and every returned event signalled |
| Submission.RunKeepsInv | tfdml/core/dml_execution_context.cc:297-379 | the invariant holds in every reachable state, after a failed Close too |
| ExecutionContext.CommandQueue.ExecuteCommandLists | tfdml/core/dml_command_queue.cc:32-41 | submits the commands and signals the next fence value behind them |
| ExecutionContext.ExecutionContext.constructor | tfdml/core/dml_execution_context.cc:53-58 | the first flush will signal the queue's value plus one; the protocol starts in its initial state, which establishes its invariant |
| ExecutionContext.ExecutionContext.Append | tfdml/core/dml_execution_context.cc:124-141 | is the Append step, and returns the value recorded for it |
| ExecutionContext.ExecutionContext.GetCurrentCompletionEvent | tfdml/core/dml_execution_context.cc:279-288 | returns the value of the latest append, or 0 |
| ExecutionContext.ExecutionContext.Flush | tfdml/core/dml_execution_context.cc:259-271 | sets the flush request, is the RequestFlush step, and returns the value of the latest append, or 0 |
| ExecutionContext.ExecutionContext.PollLocked | tfdml/core/dml_execution_context.cc:319-352 | the locked section of the thread is the Poll step, or Exit once exit was requested; it swaps the batches and moves the event on exactly when there are commands and a request or the condition |
| ExecutionContext.ExecutionContext.RecordAndExecute | tfdml/core/dml_execution_context.cc:354-378 | the unlocked rest is the Execute step, or CloseFails when closing the list fails |
| CommandAllocatorRing.OldestFinishesFirst | tfdml/core/dml_command_allocator_ring.h:51-55 | for any ring size, if the current allocator's work is done then the earliest other's is: the assertion of GetNextAllocator never fails |
| CommandAllocatorRing.EarliestIsLeast | tfdml/core/dml_command_allocator_ring.h:51-55 | no allocator's work is done before that of the one after the current |
| CommandAllocatorRing.RisingAfterAdvance | tfdml/core/dml_command_allocator_ring.h:57-68 | moving on to the oldest slot keeps completion values nondecreasing from current+1 round to current |
| CommandAllocatorRing.RisingAfterReuse | tfdml/core/dml_command_allocator_ring.h:65-68 | so does extending the work of the current slot |
| CommandAllocatorRing.RecordingRing.GetNextAllocator | tfdml/core/dml_command_allocator_ring.h:46-71 | keeps the order and stores the new value in the returned slot; moves on to the next slot, reset, exactly when any slot's work is done, and otherwise stays |
| CommandAllocatorRing.RecordingRing.Open | tfdml/core/dml_command_list.cc:259-281 | an allocator is reset only when all work ever recorded with it has finished, and is so whenever any allocator is done |
| CommandAllocatorRing.RecordingRing.Execute | tfdml/core/dml_command_queue.cc:32-51 | what was recorded since Open completes with exactly the value Open stored |
| EventQueue.StepInv | tfdml/core/dml_event_queue.cc:46-164 | every step keeps run, running and pending callbacks together equal to the calls made, none overtaken by a later one with no smaller value |
| EventQueue.RunsOnceAfterSignal | tfdml/core/dml_event_queue.cc:130-152 | no callback runs before its fence value completes, and none runs twice |
| EventQueue.TimelineDistinct | tfdml/core/dml_event_queue.cc:138-146 | callbacks are neither lost nor duplicated |
| EventQueue.RunsInOrder | tfdml/core/dml_event_queue.cc:59-81 | a call made earlier for no larger a value has its callback run first, immediate callbacks included |
| EventQueue.EnqueueSplits | tfdml/core/dml_event_queue.cc:64-81 | Enqueue inserts its entry with only larger values behind it |
| EventQueue.CollectTimeline | tfdml/core/dml_event_queue.cc:136-146 | taking out the signalled events changes no entry's place |
| EventQueue.CollectTakesSignalled | tfdml/core/dml_event_queue.cc:118-146 | an iteration takes out exactly the pending callbacks whose value has completed, UINT64_MAX excepted |
| EventQueue.IterationRunsSignalled | tfdml/core/dml_event_queue.cc:102-152 | in every run, after an iteration every callback ever enqueued whose value had completed has run exactly once |
| EventQueue.ExitsOnlyFor | tfdml/core/dml_event_queue.cc:92-157 | over any run, the thread leaves its loop on an exit request, and otherwise only after device removal |
| EventQueue.EnqueueAssertsHold | tfdml/core/dml_event_queue.cc:55-57 | in every reachable state the awaited value is at most the completed one plus one, on 64 bits, exactly if the increment does not wrap or nothing was awaited yet; the second assertion always holds |
| EventQueue.RemovalFlushes | tfdml/core/dml_event_queue.cc:120-157 | after device removal the last iteration takes out every pending callback below UINT64_MAX, then the thread exits |
| EventQueue.AfterRemoval | tfdml/core/dml_event_queue.cc:64-81 | from then on a callback is run at once if and only if its value is below UINT64_MAX |
| EventQueue.RanExactlyOnce | tfdml/core/dml_event_queue.cc:130-157 | once UINT64_MAX is awaited and nobody holds the mutex, every callback below it has run exactly once |
| EventQueue.NoneStranded | tfdml/core/dml_event_queue.cc:112-157 | in every run, when the thread has exited on removal, no callback ever enqueued below UINT64_MAX is stranded: each has run exactly once |
| EventQueue.RemovalRunsAll | tfdml/core/dml_event_queue.cc:112-157 | the iteration that sees the removal runs every callback below UINT64_MAX, and leaves the loop |
| EventQueue.InvokeAllIsSteps | tfdml/core/dml_event_queue.cc:148-152 | invoking the collected callbacks in a loop is a run of single invocations |
| EventQueue.RunKeepsInv | tfdml/core/dml_event_queue.cc:84-164 | the invariant holds in every reachable state |
| EventQueue.Queue.Enqueue | tfdml/core/dml_event_queue.cc:46-82 | refines the Enqueue step, running the callback at once when its value is below the awaited one, and keeps the queue invariant |
| EventQueue.Queue.ThreadIteration | tfdml/core/dml_event_queue.cc:90-162 | one turn of the loop refines advance, collect and invoke, or exit; it leaves exactly on an exit request or removal; what it leaves pending has not completed, and everything else that was pending is invoked |
| EventQueue.Queue.MoveOut | tfdml/core/dml_event_queue.cc:136-146 | moves exactly the events below the value out of the multimap, in order |
| EventQueue.Queue.InvokeEach | tfdml/core/dml_event_queue.cc:148-152 | runs the collected callbacks once each, in order |
| PooledHeap.AlignmentBits | tfdml/core/dml_pooled_heap.cc:35-39 | the mask of Align subtracts the remainder modulo 512, on every 64-bit word |
| PooledHeap.RingDisjoint | tfdml/core/dml_pooled_heap.cc:304-327 | live allocations of a chunk never share a byte |
| PooledHeap.FoundOffsetIsFree | tfdml/core/dml_pooled_heap.cc:41-121 | a found offset is aligned, in bounds and free, and recording it keeps the ring: bounds, alignment, fence order, cyclic offset order with at most one wrap |
| PooledHeap.FindOffsetComplete | tfdml/core/dml_pooled_heap.cc:41-121 | the search fails if and only if the overflow guard fires or every legal placement lies in the lost tail |
| PooledHeap.UnwrappedFailureIsHonest | tfdml/core/dml_pooled_heap.cc:73-103 | in a chunk that has not wrapped, and without the guard, the search fails if and only if no legal placement exists |
| PooledHeap.WrappedFailureIsHonestUnless | tfdml/core/dml_pooled_heap.cc:104-121 | a failing search in a wrapped chunk has missed a placement if and only if the size fits behind the last allocation before the wrap |
| PooledHeap.LostTailIsMissed | tfdml/core/dml_pooled_heap.cc:104-121 | a concrete wrapped chunk with 512 free bytes that the search does not find |
| PooledHeap.LostTailIsRing | tfdml/core/dml_pooled_heap.cc:304-327 | that chunk satisfies the ring invariant |
| PooledHeap.LostTailIsReached | tfdml/core/dml_pooled_heap.cc:41-121 | and three placements and one reclaim lead to it from an empty chunk |
| PooledHeap.GuardNeedsHugeChunk | tfdml/core/dml_pooled_heap.cc:67-71 | up to a capacity of 2^62 bytes the overflow guard never fires |
| PooledHeap.PopFrontKeepsRing | tfdml/core/dml_pooled_heap.cc:230-233 | reclaiming the front allocation keeps the ring |
| PooledHeap.PoolGrowth | tfdml/core/dml_pooled_heap.cc:195-203 | n chunks imply a total capacity of at least 2^(n-1) MB |
| PooledHeap.PoolSorted | tfdml/core/dml_pooled_heap.cc:262-269 | chunks stay sorted by capacity |
| PooledHeap.TotalSplits | tfdml/core/dml_pooled_heap.cc:250-255 | the total capacity of two groups of chunks is the sum of theirs |
| PooledHeap.ReservedIsSound | tfdml/core/dml_pooled_heap.cc:169-217 | a reservation keeps the pool, grows it by at most one chunk, and lies in free space |
| PooledHeap.ReservedReuses | tfdml/core/dml_pooled_heap.cc:169-217 | a new chunk is committed exactly when no chunk has room, with the largest of total, minimum and request as its capacity; otherwise the first chunk with room is used |
| PooledHeap.ReservedAvoidsLive | tfdml/core/dml_pooled_heap.cc:169-217 | the reserved range shares no byte with a live allocation of any chunk |
| PooledHeap.RecordKeepsPool | tfdml/core/dml_upload_heap.cc:87-91 | recording a reservation keeps every pool invariant and the capacity |
| PooledHeap.InUseKeepsPool | tfdml/core/dml_pooled_heap.cc:243-255 | releasing the unused chunks keeps every pool invariant, growth included |
| PooledHeap.PooledHeap.FindChunk | tfdml/core/dml_pooled_heap.cc:177-190 | returns the first chunk with room, and the offset found there |
| PooledHeap.PooledHeap.Reserve | tfdml/core/dml_pooled_heap.cc:169-217 | refines the specification, keeps total capacity the sum of the chunks, and changes nothing when memory runs out |
| PooledHeap.PooledHeap.RecordAllocation | tfdml/core/dml_upload_heap.cc:87-91 | appends the allocation to its chunk and keeps the pool valid |
| PooledHeap.PooledHeap.ReclaimAllocations | tfdml/core/dml_pooled_heap.cc:219-235 | drops from every chunk a signalled prefix that ends at an entry unsignalled at the start of the call, although the fence may advance meanwhile |
| PooledHeap.PooledHeap.ReclaimChunk | tfdml/core/dml_pooled_heap.cc:223-233 | does so for one chunk and leaves the others alone |
| PooledHeap.PooledHeap.Trim | tfdml/core/dml_pooled_heap.cc:237-256 | leaves exactly the reclaimed chunks that still hold allocations, with the capacity recounted |
| PooledHeap.RemoveUnused | tfdml/core/dml_pooled_heap.cc:243-248 | keeps the chunks with allocations, in order |
| PooledHeap.CountCapacity | tfdml/core/dml_pooled_heap.cc:250-255 | computes the sum of the capacities |
| StagingMemory.LiveDisjoint | tfdml/core/dml_pooled_heap.cc:304-327 | two live allocations anywhere in a heap occupy different bytes of memory |
| StagingMemory.HeapStage | tfdml/core/dml_upload_heap.cc:54-72 | reserving and writing the source bytes keeps the heap and leaves the bytes readable in the reserved range |
| UploadPipeline.StepInv | tfdml/core/dml_upload_heap.cc:40-94 | every step of the composed machine keeps heap, protocol and pending copies in agreement about fence values |
| UploadPipeline.StageAvoidsPending | tfdml/core/dml_upload_heap.cc:54-72 | in every interleaving, a newly staged range avoids the source of every copy not yet executed |
| UploadPipeline.UploadsArriveIntact | tfdml/core/dml_upload_heap.cc:40-94 | in every interleaving, what the GPU has written is a prefix of what the events of the run ask for: same destinations, same bytes, same order |
| UploadPipeline.SignalledUploadArrived | tfdml/core/dml_upload_heap.cc:83-93 | once the event an upload returned is signalled, the request named before its commit stands among the writes, right behind the uploads handed over before it |
| UploadPipeline.RunKeepsInv | tfdml/core/dml_upload_heap.cc:40-94 | the composed invariant holds in every reachable state |
| UploadProgress.UploadsCanFinish | tfdml/core/dml_upload_heap.cc:40-94 | until the thread leaves its loop, every reachable state can be continued, without another request, to one where everything asked for is written |
| UploadProgress.AnyUploadCanArrive | tfdml/core/dml_upload_heap.cc:40-94 | from every reachable idle state with memory left, any request can be staged, committed and written |
| UploadProgress.SpaceComesBack | tfdml/core/dml_pooled_heap.cc:219-235 | and all staging ranges can be reclaimed |
| ReadbackPipeline.StepInv | tfdml/core/dml_readback_heap.cc:47-124 | every step, other users' callbacks and a failing Close included, keeps both fences, the queue and the heap in agreement |
| ReadbackPipeline.CpuFenceCountsCallbacks | tfdml/core/dml_readback_heap.cc:89-111 | the CPU fence never goes back; each readback callback that signals advances it by exactly one, in call order |
| ReadbackPipeline.CallbackAdvancesByOne | tfdml/core/dml_readback_heap.cc:96-111 | while commands can be recorded, the next readback callback delivers the next call's captured bytes and signals its value |
| ReadbackPipeline.ReserveAvoidsUndelivered | tfdml/core/dml_readback_heap.cc:60-65 | a range handed to a new readback avoids the range of every readback not delivered yet |
| ReadbackPipeline.ReadbacksArriveIntact | tfdml/core/dml_readback_heap.cc:47-124 | in every interleaving, what has reached the callers is a prefix of what the source held when the GPU finished the copies, in call order, each as long as its call asked for; the CPU fence counts the deliveries |
| ReadbackPipeline.CallsAreAsked | tfdml/core/dml_readback_heap.cc:74-87 | in every run the calls have the sizes the events ask for, in order, and captured is the data of the copies among the commands the GPU finished |
| ReadbackPipeline.SignalledReadbackArrived | tfdml/core/dml_readback_heap.cc:89-123 | once the event a readback returned is signalled, its caller has the captured bytes, as many as it asked for |
| ReadbackPipeline.SignalledMeansCaptured | tfdml/core/dml_readback_heap.cc:82-87 | once a call's GPU value completes, its bytes have been captured |
| ReadbackPipeline.RunKeepsInv | tfdml/core/dml_readback_heap.cc:47-124 | the composed invariant holds in every reachable state |
| ReadbackProgress.ReadbacksCanFinish | tfdml/core/dml_readback_heap.cc:47-124 | while nothing has failed or exited, every reachable state can be continued, without another request, to one where every readback handed over is delivered |
| ReadbackProgress.AnyReadbackCanArrive | tfdml/core/dml_readback_heap.cc:47-124 | from every such idle state with memory left, any further readback can be begun and delivered, at its full size |
| ReadbackProgress.SpaceComesBack | tfdml/core/dml_pooled_heap.cc:219-235 | and all staging ranges can be reclaimed |
| ReadbackRemoval.StepAfterInv | tfdml/core/dml_readback_heap.cc:47-124 | after removal every step still keeps the heap, the queue in call order, and every captured range of an undelivered call |
| ReadbackRemoval.DeliveriesAfterRemoval | tfdml/core/dml_readback_heap.cc:96-111 | in every run with a removal in it, a delivery to a call that was captured is right, so the guarantee holds exactly while no more calls are delivered than captured |
| ReadbackRemoval.FirstWrongDelivery | tfdml/core/dml_readback_heap.cc:96-98 | the step that breaks it is exactly a readback callback that finds the recorder status good and every captured call delivered |
| ReadbackRemoval.DrainedDeliversAll | tfdml/core/dml_readback_heap.cc:96-121 | when the removal has been collected and no Close has failed, every call handed over has been delivered to, and the guarantee holds if and only if all of them were captured |
| ReadbackRemoval.FailedRecorderDeliversNothing | tfdml/core/dml_readback_heap.cc:96-98 | once a Close has failed, nothing is delivered in any continuation |
| ReadbackRemoval.RemovalDeliversUncaptured | tfdml/core/dml_readback_heap.cc:96-111 | a run of one readback and a removal that delivers the byte the fresh chunk held, with nothing captured |
| MixedRadix.UnravelRavel | tfdml/core/dml_util.cc:333-343 | a row-major position determines its index |
| MixedRadix.RavelUnravel | tfdml/core/dml_util.cc:333-343 | every position below the element count belongs to a valid index |
| MixedRadix.PackedIsRavel | tfdml/core/dml_util.cc:333-343 | packed strides find every index at its row-major position |
| MixedRadix.ComputePackedStrides | tfdml/core/dml_util.cc:333-343 | computes the packed strides |
| TensorDesc.ComputeStrides | tfdml/core/dml_tensor_desc.cc:107-167 | fails if and only if the physical shape does not stretch to the dimensions, and otherwise computes the broadcast strides |
| TensorDesc.BroadcastReadsPhysical | tfdml/core/dml_tensor_desc.cc:112-167 | index times strides is the row-major physical offset with broadcast coordinates set to zero |
| TensorDesc.StridesReadPhysical | tfdml/core/dml_tensor_desc.cc:143-163 | the same for the shape as given, with fewer dimensions than the logical one, and in bounds |
| TensorDesc.SameOffsetExactly | tfdml/core/dml_tensor_desc.cc:143-163 | two indices share an offset if and only if they agree in every dimension that is not stretched from size 1 |
| TensorDesc.Create | tfdml/core/dml_tensor_desc.cc:169-211 | fails exactly where a CHECK aborts, and pads in front with size 1 and stride 0, up to four dimensions if asked to |
| TensorDesc.PaddingKeepsOffsets | tfdml/core/dml_tensor_desc.cc:189-199 | padding changes no offset and not the element count |
| TensorDesc.CreateWithLayout | tfdml/core/dml_tensor_desc.cc:213-284 | fails exactly where a CHECK aborts, and otherwise lists sizes and strides in the order N, C, H, W, or N, C, D, H, W if there is a depth, with 1 and 0 for absent axes |
| TensorDesc.SwizzleIsDmlOrder | tfdml/core/dml_util.cc:228-258 | the positions of the axes are those of NCHW, or of NCDHW if the layout has a depth |
| TensorDesc.SwizzleKeepsOffsets | tfdml/core/dml_tensor_desc.cc:238-284 | swizzling by distinct axes keeps every offset, the element count and the index ranges |
| TensorDesc.LayoutReadsPhysical | tfdml/core/dml_tensor_desc.cc:235-284 | end to end: a swizzled description finds every logical index at its collapsed physical offset |
| TensorDesc.GetTensorLayout | tfdml/core/dml_util.cc:261-321 | yields the last axes of the format's order, and fails above five dimensions |
| TensorDesc.LayoutsAreDistinct | tfdml/core/dml_util.cc:261-321 | a layout repeats no axis, and contains D exactly at rank 5 |
| Broadcast.BroadcastTensorShape | tfdml/core/dml_operator_helper.cc:26-77 | succeeds if and only if the shapes are compatible, and joins them size by size |
| Broadcast.BroadcastTensorShapes | tfdml/core/dml_operator_helper.cc:79-91 | succeeds if and only if the shapes are pairwise compatible, and yields their common shape |
| Broadcast.CommonIsUnique | tfdml/core/dml_operator_helper.cc:79-91 | the common shape depends on the set of shapes only: neither order nor repetition matters |
| Broadcast.CommonOfGroups | tfdml/core/dml_operator_helper.cc:79-91 | broadcasting the results of two groups gives the common shape of all |
| Broadcast.CompatibleWithCommon | tfdml/core/dml_operator_helper.cc:85-88 | a shape clashes with the accumulated one if and only if it clashes with a shape behind it |
| Broadcast.InputsStretch | tfdml/core/dml_tensor_desc.cc:150-163 | every input stretches to the common shape, so ComputeStrides accepts it |
| Broadcast.ZeroStays | tfdml/core/dml_operator_helper.cc:66-71 | a zero size is never broadcast away |
| Concat.Initialize | tfdml/kernels/dml_concat_op.cc:83-130 | succeeds if and only if the axis is in range and the shapes agree off the axis; returns the axis, and as the size along it the extent the concatenation is proved with |
| Concat.AxisIsModulo | tfdml/kernels/dml_concat_op.cc:83-94 | the axis is in range from -rank up to rank, and stands for its value modulo the rank |
| Concat.BuildKernel | tfdml/kernels/dml_concat_op.cc:228-279 | computes both side products and the three-dimensional descriptions of the non-empty inputs |
| Concat.CollapseKeepsPosition | tfdml/kernels/dml_concat_op.cc:225-249 | collapsing to left, axis, right keeps the position of every index, for any rank |
| Concat.FilterKeepsLocate | tfdml/kernels/dml_concat_op.cc:258-280 | leaving out empty inputs changes neither the input nor the place a position along the axis falls into |
| Concat.JoinIsConcat | tfdml/kernels/dml_concat_op.cc:225-301 | the join of the collapsed non-empty inputs, read at the position of an index, is the N-dimensional concatenation at that index |
| Concat.LocateAt | tfdml/kernels/dml_concat_op.cc:258-280 | a position of input k along the axis lies behind the extents of the inputs before it |
| Concat.InputsStandInOrder | tfdml/kernels/dml_concat_op.cc:225-301 | every element of every input is found in the joined buffer at its index, moved along the axis by the extents of the inputs before it |
| Concat.NoOpExactlyWhenEmpty | tfdml/kernels/dml_concat_op.cc:133-155 | all inputs are empty if and only if the output has no elements |
| BatchToSpace.Initialize | tfdml/kernels/dml_batch_to_space_op.cc:72-228 | succeeds if and only if rank, crops, divisibility and the number of inner dimensions are acceptable; the output shape is the uniformly cropped one whatever was folded |
| BatchToSpace.AcceptedExactly | tfdml/kernels/dml_batch_to_space_op.cc:81-207 | the accepted inputs, without saying how the folding is found: at most 3 dimensions need be left inside a stretch with only trivial ones outside |
| BatchToSpace.OutsideIsTrivial | tfdml/kernels/dml_batch_to_space_op.cc:104-131 | everything folded away has block 1 and no crop |
| BatchToSpace.InnerIsLeast | tfdml/kernels/dml_batch_to_space_op.cc:104-131 | and as many dimensions are folded away as can be |
| BatchToSpace.PlanIsInstance | tfdml/kernels/dml_batch_to_space_op.cc:169-217 | the folded problem is again a valid problem, with the internal output as its output |
| BatchToSpace.FoldingKeepsMapping | tfdml/kernels/dml_batch_to_space_op.cc:180-217 | folding keeps the position of every output element and the input position of its source |
| BatchToSpace.SourceInBounds | tfdml/kernels/dml_batch_to_space_op.cc:141-207 | every output element has its source inside the input |
| BatchToSpaceElements.EveryElementOnce | tfdml/kernels/dml_batch_to_space_op.cc:141-207 | every input element is in the output if and only if no crop covers its place, and then exactly once |
| BatchToSpaceElements.OutputConserves | tfdml/kernels/dml_batch_to_space_op.cc:141-207 | every output size with its crops adds up to the input size times the block |
| BatchToSpace.GetForwardableInputIndex | tfdml/kernels/dml_batch_to_space_op.cc:257-283 | forwards only input 0 to output 0, and only where the whole operation is the identity; always, when a non-empty input keeps its shape |
| BatchToSpace.ForwardedIsIdentity | tfdml/kernels/dml_batch_to_space_op.cc:273-282 | then the shape is unchanged and every element comes from its own place |
| BatchToSpace.SameShapeMeansForwarded | tfdml/kernels/dml_batch_to_space_op.cc:271-282 | conversely, a non-empty input whose shape is unchanged is always forwarded |
| BatchToSpace.EmptyMayNotBeForwarded | tfdml/kernels/dml_batch_to_space_op.cc:271-282 | an empty input with unchanged shape that is not forwarded |
| BatchToSpaceKernel.BuildGeneral | tfdml/kernels/dml_batch_to_space_op.cc:533-616 | the loops build the reshape, permute, pack, reshape graph |
| BatchToSpaceKernel.GeneralReads | tfdml/kernels/dml_batch_to_space_op.cc:533-616 | before slicing, the general graph holds at every index the element its source names |
| BatchToSpaceKernel.BuildFast | tfdml/kernels/dml_batch_to_space_op.cc:442-531 | builds the rotated view, DepthToSpace with the policy's strides, and the view back |
| BatchToSpaceKernel.FastReads | tfdml/kernels/dml_batch_to_space_op.cc:442-531 | before slicing, the fast graph holds at every index the element its source names |
| BatchToSpaceKernel.FastEqualsGeneral | tfdml/kernels/dml_batch_to_space_op.cc:437-616 | wherever the guard holds, both paths produce the same packed buffer, position by position |
| BatchToSpaceKernel.IsSliceRequired | tfdml/kernels/dml_batch_to_space_op.cc:53-69 | true if and only if some inner crop is not zero |
| BatchToSpaceKernel.BuildKernel | tfdml/kernels/dml_batch_to_space_op.cc:386-655 | uses DepthToSpace exactly for two equal block sizes, and slices exactly if something is cropped |
| BatchToSpaceKernel.KernelReads | tfdml/kernels/dml_batch_to_space_op.cc:386-655 | the output buffer of the folded problem holds at every position the element the defining mapping names |
| BatchToSpaceKernel.BatchToSpaceIsPreserved | tfdml/kernels/dml_batch_to_space_op.cc:104-245 | end to end, for every accepted shape, block list and crops: the external output holds at every index the input element of the defining mapping |
| TensorGraph.PackedBuffer | tfdml/kernels/dml_batch_to_space_op.cc:586-587 | Identity and Slice store each element at its row-major position |
| DataFormat.IsValidPermutation | tfdml/kernels/dml_data_format_vec_permute.cc:28-63 | accepts exactly strings without repeats that spell the same characters |
| DataFormat.SameChars | tfdml/kernels/dml_data_format_vec_permute.cc:30-58 | for strings without repeats, equal length and inclusion one way already give the same characters |
| DataFormat.CheckFormats | tfdml/kernels/dml_data_format_vec_permute.cc:72-101 | accepts exactly permutations of length 4 or 5 |
| DataFormat.BuildTable | tfdml/kernels/dml_data_format_vec_permute.cc:192-206 | entry i is where the i-th destination character stands in the source |
| DataFormat.TablesInvert | tfdml/kernels/dml_data_format_vec_permute.cc:192-206 | the table for swapped formats is the inverse permutation |
| DataFormat.SpatialPermutation | tfdml/kernels/dml_data_format_vec_permute.cc:157-190 | keeping only the spatial letters of a permutation leaves a permutation |
| DataFormat.SpatialCount | tfdml/kernels/dml_data_format_vec_permute.cc:157-190 | as many letters stay as the space has dimensions exactly if the format names H, W and, for five letters, D |
| DataFormat.CopyRows | tfdml/kernels/dml_data_format_vec_permute.cc:221-233 | the strided copies put every row the table names in place, whatever the buffer held |
| DataFormat.Compute | tfdml/kernels/dml_data_format_vec_permute.cc:108-234 | succeeds if and only if the shape and the letters fit, and then moves the rows by the table of the whole formats, or of their spatial letters H, W and (for three) D, in format order |
| DataFormat.RowsFollowLetters | tfdml/kernels/dml_data_format_vec_permute.cc:192-233 | the row of each dimension letter moves from its place in the source format to its place in the destination format |
| DataFormat.SwappingUndoes | tfdml/kernels/dml_data_format_vec_permute.cc:192-233 | permuting again with the formats swapped gives the input back |
| DataFormat.PackMapping | tfdml/kernels/dml_data_format_dim_map.cc:134-151 | byte i of the word is where the i-th source character stands in the destination |
| DataFormat.DimMapInvertsTable | tfdml/kernels/dml_data_format_dim_map.cc:137-151 | the packed bytes and the table of VecPermute are inverse to each other, both ways |
| DataFormat.HalvesHoldTheBytes | tfdml/kernels/dml_data_format_dim_map.cc:168-195 | the low 32 bits and the byte above them are the five bytes the gather uses |
| LeastRecentlyUsed.UseHeld | tfdml/core/dml_kernel_manager.cc:64-79 | using a held key moves it to the front and evicts nothing |
| LeastRecentlyUsed.UseOther | tfdml/core/dml_kernel_manager.h:84-103 | using another key puts it in front and evicts the least recently used one, if any has to go |
| LeastRecentlyUsed.HeldUntilMaxOthers | tfdml/core/dml_kernel_manager.cc:39-62 | a key stays cached if and only if fewer than the maximum number of other keys have been used since |
| LeastRecentlyUsed.MostRecentDistinct | tfdml/core/dml_kernel_manager.h:177-178 | the order of last use lists each key once |
| KernelCache.LinkedSizes | tfdml/core/dml_kernel_manager.cc:39-41 | list and map have the same size, as TrimCache asserts |
| KernelCache.LinkedMove | tfdml/core/dml_kernel_manager.cc:73-78 | erasing a key's cell and pushing a new one in front keeps every stored iterator at its own key |
| KernelCache.LinkedPop | tfdml/core/dml_kernel_manager.cc:49-61 | so does evicting the last cell together with its entry |
| KernelCache.KernelCache.OnRecentlyUsed | tfdml/core/dml_kernel_manager.cc:64-79 | moves the key to the front, keeps the kernels |
| KernelCache.KernelCache.TrimCache | tfdml/core/dml_kernel_manager.cc:39-62 | evicts the key at the back, once, if the cache is too large |
| KernelCache.KernelCache.Emplace | tfdml/core/dml_kernel_manager.h:83-96 | adds entry and cell for a new key; a no-op for a present one |
| KernelCache.KernelCache.CreateCachedKernel | tfdml/core/dml_kernel_manager.h:60-107 | afterwards the cached keys are exactly the maximum number of keys used last; an existing kernel stays cached, ours is returned |
| KernelCache.KernelCache.TryGetCachedKernel | tfdml/core/dml_kernel_manager.h:110-133 | returns the cached kernel and counts as a use, or returns nothing and does not |
| KernelCache.KernelCache.ClearCache | tfdml/core/dml_kernel_manager.cc:156-161 | leaves an empty cache that starts a new history |
| KernelCache.KernelCache.GetCacheSize | tfdml/core/dml_kernel_manager.cc:150-154 | the size never exceeds the maximum, 0 included |
| QueuedReferences.SplitKeepsAll | tfdml/core/dml_kernel_manager.cc:111-130 | freed and kept references together are the queued ones, none lost or duplicated |
| QueuedReferences.SplitKeepsOrder | tfdml/core/dml_kernel_manager.cc:119-128 | kept references, and freed ones, stay in the order they were queued in |
| QueuedReferences.FreesExactlyTheSignalled | tfdml/core/dml_kernel_manager.cc:114-118 | what was signalled before the call is freed, what is unsignalled after it is kept |
| QueuedReferences.ReferenceQueue.QueueReference | tfdml/core/dml_kernel_manager.cc:93-103 | appends the reference |
| QueuedReferences.ReferenceQueue.ReleaseCompletedReferences | tfdml/core/dml_kernel_manager.cc:105-148 | the in-place compaction frees exactly the references found signalled and keeps the rest, although fences advance between two reads, and never reads a moved-from slot |
| TaggedPointers.UnpackPack | tfdml/core/dml_tagged_pointer.cc:21-52 | unpacking inverts packing |
| TaggedPointers.PackUnpack | tfdml/core/dml_tagged_pointer.cc:21-52 | packing inverts unpacking, for every pointer value |
| TaggedPointers.PackIsPositional | tfdml/core/dml_tagged_pointer.cc:37-52 | device, allocation ID and offset are the digits of the pointer, from the top |
| TaggedPointers.PackPlus | tfdml/core/dml_tagged_pointer.cc:37-52 | advancing a pointer by less than 2^40 changes its offset only |
| TaggedPointers.WindowsDisjoint | tfdml/core/dml_tagged_pointer.cc:37-52 | pointers with different IDs own disjoint windows of 2^40 bytes |
| HeapAllocator.PointersOwnWindows | tfdml/core/dml_heap_allocator.cc:278-320 | so do different allocations, whatever devices their pointers name |
| HeapAllocator.MovedKeepsId | tfdml/core/dml_heap_allocator.cc:347-372 | a pointer moved by less than 2^40 still belongs to its allocation |
| HeapAllocator.MovedShowsOffset | tfdml/core/dml_heap_allocator.cc:347-372 | and shows how far it was moved |
| HeapAllocator.MovedIsNotNull | tfdml/core/dml_heap_allocator.cc:347-351 | and is never null |
| HeapAllocator.TakeFree | tfdml/core/dml_heap_allocator.cc:379-385 | taking the last free ID keeps live and free IDs a partition of 1 to current |
| HeapAllocator.TakeNext | tfdml/core/dml_heap_allocator.cc:387-396 | so does issuing the next number, which is fresh |
| HeapAllocator.GiveBack | tfdml/core/dml_heap_allocator.cc:399-406 | and so does giving a live ID back |
| HeapAllocator.HeapAllocator.TryReserveAllocationID | tfdml/core/dml_heap_allocator.cc:374-397 | fails if and only if every ID that fits into a pointer is live |
| HeapAllocator.HeapAllocator.Alloc | tfdml/core/dml_heap_allocator.cc:278-320 | null if and only if the size is 0, memory or IDs ran out; otherwise a non-null pointer with a fresh ID, and nothing else changes |
| HeapAllocator.HeapAllocator.Free | tfdml/core/dml_heap_allocator.cc:322-345 | passes its CHECKs if and only if the pointer is the start of a live allocation, and then removes exactly that one |
| HeapAllocator.HeapAllocator.CreateBufferRegion | tfdml/core/dml_heap_allocator.cc:347-372 | a pointer moved by any k below 2^40 into a live allocation, from any device, gives that allocation's region at offset k; null and dead pointers give none |
| TiledAllocation.TryCreateTiledAllocation | tfdml/core/dml_heap_allocator.cc:104-223 | all three resources map tile t to tile t % max of heap t / max; heap sizes lie between 1 and max and sum to the resource, which is less than a tile larger than asked |
| TiledAllocation.OneMoreHeap | tfdml/core/dml_heap_allocator.cc:162-216 | mapping one more heap extends exactly that mapping |
| TiledAllocation.TilesDoNotOverlap | tfdml/core/dml_heap_allocator.cc:195-213 | no two tiles of a resource share a place |
| TiledAllocation.TileInsideHeap | tfdml/core/dml_heap_allocator.cc:166-170 | every tile is mapped inside its heap, the shorter last one included |

## Left out

- Calls into D3D12, DirectML and TensorFlow, reference counts, adapter enumeration, library loading, tracing and telemetry: foreign code, present only as the assumptions above and as parameters (memory left, out-of-memory outcomes, results of Close).
- Wall-clock flush timing and the batch size limit: the flush condition beyond a request is a nondeterministic choice.
- Progress after a failed Close or an exit request: both are terminal states, about which only safety is claimed.
- UploadProgress.UploadsCanFinish: says that the end can be reached, not that a fair scheduler reaches it; the same for the other progress lemmas.
- ReadbackProgress.ReadbacksCanFinish: needs two more fence values below UINT64_MAX.
- ReadbackPipeline.ReadbacksArriveIntact: speaks of runs without device removal, in which fence values stay below UINT64_MAX; ReadbackRemoval states what survives it.
- ReadbackPipeline.SignalledReadbackArrived: the same; after removal the CPU fence reads UINT64_MAX and promises nothing.
- UploadPipeline.SignalledUploadArrived: the same; a removed device executes no upload any more.
- ReadbackRemoval.RemovalDeliversUncaptured: takes Map and Signal to succeed on a removed device; where they fail, the CHECK around them ends the process.
- ReadbackRemoval.StepAfterInv: Trim, which nothing calls, is left out after removal, because it would release chunks whose callbacks are still to run.
- Appending a copy and recording its range are one step in UploadPipeline and ReadbackPipeline. The code appends under the execution context's lock and records later under the heap's lock alone; the heap's lock, held by the call throughout, keeps reclaiming out in between.
- Interleaving of Trim with an upload or readback in progress: Trim takes no lock and has no caller, so it is modelled between calls only. Reclaiming is modelled as single pops at any such moment, a superset of what the loop does.
- PooledHeap.PooledHeap.Reserve: requires that the device can commit fewer than 2^64 - 512 bytes, beyond which Align would wrap.
- Submission.CanAlwaysFinish: claims nothing about when a step happens; that a requested flush is polled for eventually is not modelled.
- BatchToSpace.Initialize: block sizes are naturals; the code checks only their product, and negative sizes are not modelled. Crops are a list of pairs, so a crops tensor that is no m by 2 matrix is represented only by its wrong number of rows.
- Skipping a BatchToSpace kernel whose input or output is empty: every statement about it is about valid indices, of which there are none.
- Concat.Initialize: takes the axis as a value; the checks on the axis tensor's type and rank are left out.
- DataFormat.PackMapping: the gather with its strided output is not modelled.
- Fixed-width overflow of shape products and strides: sizes are unbounded.
- KernelCache.KernelCache.CreateCachedKernel: kernels are built before the lock is taken; the model starts at the lock, so racing creators are calls one after the other with kernels of their own.
- The placed-resource fallback of the allocator, and the descriptor heap allocator: the latter repeats the ID pool of HeapAllocator.
- DmlDescriptorPool, convolution and batch-norm shape checks, grouped filter-backprop regrouping, Diag, Cast, BiasAdd and the type and format tables.
