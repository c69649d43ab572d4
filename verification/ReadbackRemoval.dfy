/**
 * Readbacks after device removal. Both fences then read UINT64_MAX, the GPU finishes nothing more, and the only
 * guard a readback's callback has is the recorder status, which is set only when closing a command list fails
 * (tfdml/core/dml_readback_heap.cc, lines 96 to 111).
 */
module ReadbackRemoval {
  import opened Wrappers
  import opened Fences
  import opened PooledHeap
  import opened StagingMemory
  import Sub = Submission
  import EQ = EventQueue
  import opened ReadbackPipeline

  /** The device is removed: the fence the event queue reads jumps to UINT64_MAX. */
  function Removed(s: State): State {
    s.(queue := EQ.Step(s.queue, EQ.Advance(UINT64_MAX)))
  }

  /**
   * What can still happen. The GPU is dead, and every allocation looks done to the heap, whose fence reads
   * UINT64_MAX too. Trim, which nothing calls, is left out: it would release memory callbacks still read.
   */
  predicate StillEnabled(s: State, e: Event) {
    match e
    case GpuNext(_) => false
    case GpuSignal => false
    case Trim => false
    case ReclaimFront(i) => s.phase.Idle? && i < |s.chunks| && s.chunks[i].allocations != []
    case _ => Enabled(s, e)
  }

  function StepAfter(s: State, e: Event): State
    requires StillEnabled(s, e)
  {
    match e
    case ReclaimFront(i) => s.(chunks := s.chunks[i := PopFront(s.chunks[i])])
    case _ => Step(s, e)
  }

  ghost predicate RunAfter(events: seq<Event>, s: State, s': State)
    decreases |events|
  {
    if events == [] then s == s'
    else StillEnabled(s, events[0]) && RunAfter(events[1..], StepAfter(s, events[0]), s')
  }

  // ---------- What survives ----------

  /** Wherever both a delivery and a capture exist for a call, they are the same bytes. */
  ghost predicate Agrees(delivered: seq<Bytes>, captured: seq<Bytes>) {
    forall k :: 0 <= k < |delivered| && k < |captured| ==> delivered[k] == captured[k]
  }

  /** An undelivered call's buffer exists, and still holds what was captured for it. */
  ghost predicate Kept(memory: map<nat, Bytes>, nextResource: nat, calls: seq<Call>, captured: seq<Bytes>, low: nat) {
    forall k :: low <= k < |calls| ==>
      && calls[k].resource < nextResource
      && (k < |captured| ==> Read(memory, calls[k].resource, calls[k].offset, calls[k].size) == captured[k])
  }

  ghost predicate AfterInv(s: State) {
    && Sub.Inv(s.sub) && EQ.Inv(s.queue) && s.queue.completed == UINT64_MAX
    && CallsOk(s.sub, s.calls, s.captured) && |s.captured| <= |s.calls|
    && Paired(s.callbacks, s.queue.enqueued, s.calls, Handed(s.phase, s.calls))
    && InCallOrder(s.queue, s.callbacks, Handed(s.phase, s.calls))
    && (s.sub.statusOk ==> |s.delivered| == |Owners(s.queue.ran, s.callbacks)|)
    && HeapOk(s.chunks, s.nextResource, s.memory, |s.calls|)
    && PhaseOk(s.phase, s.chunks)
    && Kept(s.memory, s.nextResource, s.calls, s.captured, |s.delivered|)
    && Agrees(s.delivered, s.captured)
  }

  lemma LiveIsNamed(chunks: seq<Chunk>, nextResource: nat, resource: nat, a: Allocation)
    requires PoolOk(chunks, nextResource) && Live(chunks, resource, a)
    ensures resource < nextResource
  {
    var c :| c in chunks && c.resource == resource && a in c.allocations;
    var i :| 0 <= i < |chunks| && chunks[i] == c;
    NamesBounded(chunks, nextResource, i);
  }

  lemma RangesAreKept(s: State)
    requires HeapOk(s.chunks, s.nextResource, s.memory, |s.calls|)
    requires RangesOk(s.chunks, s.memory, s.calls, s.captured, |s.delivered|)
    ensures Kept(s.memory, s.nextResource, s.calls, s.captured, |s.delivered|)
  {
    forall k | |s.delivered| <= k < |s.calls|
      ensures s.calls[k].resource < s.nextResource
      ensures k < |s.captured| ==>
                Read(s.memory, s.calls[k].resource, s.calls[k].offset, s.calls[k].size) == s.captured[k]
    {
      assert Undelivered(s.chunks, s.memory, s.calls, s.captured, k);
      LiveIsNamed(s.chunks, s.nextResource, s.calls[k].resource, RangeOf(s.calls, k));
    }
  }

  lemma RemovedInv(s: State)
    requires Inv(s)
    ensures AfterInv(Removed(s))
  {
    EQ.StepInv(s.queue, EQ.Advance(UINT64_MAX));
    RangesAreKept(s);
    assert EQ.Timeline(s.queue.(completed := UINT64_MAX)) == EQ.Timeline(s.queue);
    hide Sub.Inv, EQ.Inv, HeapOk, RangesOk, Undelivered, CallsOk, Owners;
  }

  // ---------- Every step keeps it ----------

  lemma CommitElsewhere(memory: map<nat, Bytes>, grown: bool, nextResource: nat, contents: Bytes,
                        resource: nat, offset: nat, size: nat)
    requires resource < nextResource
    ensures Read(Committed(memory, grown, nextResource, contents), resource, offset, size) ==
            Read(memory, resource, offset, size)
  {
  }

  lemma CommitKeeps(memory: map<nat, Bytes>, grown: bool, nextResource: nat, nextResource': nat, contents: Bytes,
                    calls: seq<Call>, captured: seq<Bytes>, low: nat)
    requires Kept(memory, nextResource, calls, captured, low) && nextResource <= nextResource'
    ensures Kept(Committed(memory, grown, nextResource, contents), nextResource', calls, captured, low)
  {
    forall k | low <= k < |calls|
      ensures calls[k].resource < nextResource'
      ensures k < |captured| ==>
                Read(Committed(memory, grown, nextResource, contents), calls[k].resource, calls[k].offset, calls[k].size)
                == captured[k]
    {
      CommitElsewhere(memory, grown, nextResource, contents, calls[k].resource, calls[k].offset, calls[k].size);
    }
  }

  lemma ReserveAfter(s: State, e: Event)
    requires AfterInv(s) && e.Reserve? && StillEnabled(s, e)
    ensures AfterInv(StepAfter(s, e))
  {
    hide Sub.Inv, EQ.Inv, HeapOk, CallsOk, Paired, InCallOrder, Reserved, Committed, FindOffset, Owners, Kept, Agrees;
    HeapReserve(s.chunks, s.nextResource, s.memory, |s.calls|, e.size, e.available, e.contents);
    var chunks' := Reserved(s.chunks, e.size, e.available, s.nextResource).value.0;
    NeverShrinks(s.chunks, e.size, e.available, s.nextResource);
    CommitKeeps(s.memory, |chunks'| > |s.chunks|, s.nextResource, s.nextResource + |chunks'| - |s.chunks|, e.contents,
                s.calls, s.captured, |s.delivered|);
  }

  lemma NeverShrinks(chunks: seq<Chunk>, size: nat, available: nat, resource: nat)
    requires Reserved(chunks, size, available, resource).Some?
    ensures |chunks| <= |Reserved(chunks, size, available, resource).value.0|
  {
  }

  lemma NewCallIsNamed(chunks: seq<Chunk>, nextResource: nat, n: nat)
    requires PoolOk(chunks, nextResource) && n < |chunks|
    ensures chunks[n].resource < nextResource
  {
    NamesBounded(chunks, nextResource, n);
  }

  lemma MoreCallsKept(memory: map<nat, Bytes>, nextResource: nat, calls: seq<Call>, captured: seq<Bytes>, low: nat, c: Call)
    requires Kept(memory, nextResource, calls, captured, low) && |captured| <= |calls| && c.resource < nextResource
    ensures Kept(memory, nextResource, calls + [c], captured, low)
  {
  }

  lemma AppendAfter(s: State)
    requires AfterInv(s) && StillEnabled(s, Append)
    ensures AfterInv(StepAfter(s, Append))
  {
    hide Sub.Inv, EQ.Inv, CallsOk, Paired, InCallOrder, FindOffset, Owners, Kept, Agrees, PoolOk, Record;
    var Reserved_(r, size) := s.phase;
    var resource := s.chunks[r.chunk].resource;
    var c := Call(resource, r.offset, size, s.sub.nextFlush);
    Sub.StepInv(s.sub, Sub.Append(Copy(resource, r.offset, size)));
    AppendCalls(s.sub, s.calls, s.captured, resource, r.offset, size);
    HeapRecord(s.chunks, s.nextResource, s.memory, |s.calls|, r, size, |s.calls| + 1);
    NewCallIsNamed(s.chunks, s.nextResource, r.chunk);
    MoreCallsKept(s.memory, s.nextResource, s.calls, s.captured, |s.delivered|, c);
    PairedMore(s.callbacks, s.queue.enqueued, s.calls, |s.calls|, c);
  }

  lemma EnqueueAfter(s: State)
    requires AfterInv(s) && StillEnabled(s, Enqueue)
    ensures AfterInv(StepAfter(s, Enqueue))
  {
    hide Sub.Inv, EQ.Inv, HeapOk, InCallOrder, Owners, Kept, Agrees;
    var k := |s.calls| - 1;
    var fence := s.calls[k].gpuFence;
    EQ.StepInv(s.queue, EQ.Enqueue(fence));
    EnqueueFrame(s.queue, fence);
    LastIsLargest(s.sub, s.calls, s.captured);
    EnqueueOwners(s.queue, s.callbacks, s.calls, k, fence, Some(k));
    RanOwners(s.queue, s.callbacks, Some(k));
    PairedOneMore(s.callbacks, s.queue.enqueued, s.calls, k, fence, Some(k));
    assert StepAfter(s, Enqueue) ==
           s.(queue := EQ.Step(s.queue, EQ.Enqueue(fence)), callbacks := s.callbacks + [Some(k)], phase := Idle);
  }

  lemma ForeignAfter(s: State, fence: Word)
    requires AfterInv(s) && StillEnabled(s, ForeignEnqueue(fence))
    ensures AfterInv(StepAfter(s, ForeignEnqueue(fence)))
  {
    hide Sub.Inv, EQ.Inv, HeapOk, CallsOk, Owners, Kept, Agrees;
    EQ.StepInv(s.queue, EQ.Enqueue(fence));
    EnqueueFrame(s.queue, fence);
    EnqueueOwners(s.queue, s.callbacks, s.calls, Handed(s.phase, s.calls), fence, None);
    RanOwners(s.queue, s.callbacks, None);
    PairedOneMore(s.callbacks, s.queue.enqueued, s.calls, Handed(s.phase, s.calls), fence, None);
  }

  /** The queue after a callback, and the readbacks whose callbacks have run by then. */
  lemma QueueAfterCallback(q: EQ.State, callbacks: seq<Option<nat>>, handed: int) returns (q': EQ.State)
    requires EQ.Inv(q) && EQ.Enabled(q, EQ.Invoke) && InCallOrder(q, callbacks, handed)
    ensures q' == EQ.Step(q, EQ.Invoke) && EQ.Inv(q')
    ensures q'.completed == q.completed && q'.enqueued == q.enqueued
    ensures InCallOrder(q', callbacks, handed)
    ensures var owner := Owner(callbacks, q.processing[0]);
            && |Owners(q'.ran, callbacks)| == |Owners(q.ran, callbacks)| + (if owner.Some? then 1 else 0)
            && (owner.Some? ==> owner.value == |Owners(q.ran, callbacks)| < handed)
  {
    OwnerIsNext(q, callbacks, handed);
    EQ.InvokeInv(q);
    q' := EQ.Step(q, EQ.Invoke);
  }

  lemma DeliverNext(memory: map<nat, Bytes>, nextResource: nat, calls: seq<Call>, captured: seq<Bytes>,
                    delivered: seq<Bytes>)
    requires Kept(memory, nextResource, calls, captured, |delivered|) && Agrees(delivered, captured)
    requires |delivered| < |calls|
    ensures var c := calls[|delivered|];
            var delivered' := delivered + [Read(memory, c.resource, c.offset, c.size)];
            Agrees(delivered', captured) && Kept(memory, nextResource, calls, captured, |delivered'|)
  {
  }

  lemma CallbackAfter(s: State)
    requires AfterInv(s) && StillEnabled(s, Callback)
    ensures AfterInv(StepAfter(s, Callback))
  {
    hide Sub.Inv, EQ.Inv, HeapOk, CallsOk, Paired, InCallOrder, Owners, Kept, Agrees;
    var q := QueueAfterCallback(s.queue, s.callbacks, Handed(s.phase, s.calls));
    if s.sub.statusOk && Owner(s.callbacks, s.queue.processing[0]).Some? {
      DeliverNext(s.memory, s.nextResource, s.calls, s.captured, s.delivered);
    }
  }

  lemma StepAfterInv(s: State, e: Event)
    requires AfterInv(s) && StillEnabled(s, e)
    ensures AfterInv(StepAfter(s, e))
  {
    match e
    case Reserve(_, _, _) => ReserveAfter(s, e);
    case Append => AppendAfter(s);
    case Enqueue => EnqueueAfter(s);
    case ForeignEnqueue(fence) => ForeignAfter(s, fence);
    case Callback => CallbackAfter(s);
    case ReclaimFront(n) =>
      HeapPop(s.chunks, s.nextResource, s.memory, |s.calls|, n);
      hide Sub.Inv, EQ.Inv, HeapOk, CallsOk, Paired, InCallOrder, Owners, Kept, Agrees;
    case Collect =>
      EQ.StepInv(s.queue, EQ.Collect);
      EQ.CollectTimeline(s.queue);
      hide Sub.Inv, EQ.Inv, HeapOk, CallsOk, Paired, Owners, Kept, Agrees;
    case EventThreadExit =>
      EQ.StepInv(s.queue, EQ.Exit);
      assert EQ.Timeline(s.queue.(exited := true)) == EQ.Timeline(s.queue);
      hide Sub.Inv, EQ.Inv, HeapOk, CallsOk, Paired, Owners, Kept, Agrees;
    case Protocol(p) =>
      hide Sub.Inv, EQ.Inv, HeapOk, CallsOk, Paired, InCallOrder, Owners, Kept, Agrees;
      Sub.StepInv(s.sub, p);
      ProtocolCalls(s, p);
      StatusOnlyFails(s.sub, p);
  }

  lemma {:induction false} RunAfterKeepsInv(events: seq<Event>, s: State, s': State)
    requires AfterInv(s) && RunAfter(events, s, s')
    ensures AfterInv(s')
    decreases |events|
  {
    hide AfterInv;
    if events != [] {
      StepAfterInv(s, events[0]);
      RunAfterKeepsInv(events[1..], StepAfter(s, events[0]), s');
    }
  }

  // ---------- Which deliveries survive removal ----------

  /**
   * In every run with a removal in it, a call's delivery is right if its copy was captured before the removal. So
   * the guarantee of ReadbacksArriveIntact survives exactly as long as no more calls are delivered than captured.
   */
  lemma DeliveriesAfterRemoval(before: seq<Event>, s: State, after: seq<Event>, t: State)
    requires Run(before, Init(), s) && RunAfter(after, Removed(s), t)
    ensures AfterInv(t)
    ensures forall k :: 0 <= k < |t.delivered| && k < |t.captured| ==> t.delivered[k] == t.captured[k]
    ensures t.delivered <= t.captured <==> |t.delivered| <= |t.captured|
  {
    ReachableInv(before, s);
    RemovedInv(s);
    RunAfterKeepsInv(after, Removed(s), t);
  }

  lemma OthersDeliverNothing(s: State, e: Event)
    requires StillEnabled(s, e) && !e.Callback?
    ensures StepAfter(s, e).delivered == s.delivered && StepAfter(s, e).captured == s.captured
  {
    hide EQ.Step, Sub.Step, Reserved, Record, Committed;
  }

  /** A callback delivers the next call's range as it is, right if that call was captured. */
  lemma CallbackDelivers(s: State)
    requires AfterInv(s) && StillEnabled(s, Callback)
    ensures var t := StepAfter(s, Callback);
            && t.captured == s.captured
            && (if s.sub.statusOk && Owner(s.callbacks, s.queue.processing[0]).Some?
                then |t.delivered| == |s.delivered| + 1 && Agrees(t.delivered, s.captured)
                else t.delivered == s.delivered)
  {
    hide Sub.Inv, EQ.Inv, EQ.Step, HeapOk, CallsOk, Paired, InCallOrder, Owners, Kept, Agrees;
    var q := QueueAfterCallback(s.queue, s.callbacks, Handed(s.phase, s.calls));
    if s.sub.statusOk && Owner(s.callbacks, s.queue.processing[0]).Some? {
      DeliverNext(s.memory, s.nextResource, s.calls, s.captured, s.delivered);
    }
  }

  /**
   * The step that breaks it, exactly: a readback's callback that finds the recorder status still good when every
   * captured copy has already been delivered.
   */
  lemma FirstWrongDelivery(s: State, e: Event)
    requires AfterInv(s) && StillEnabled(s, e) && s.delivered <= s.captured
    ensures StepAfter(s, e).captured == s.captured
    ensures !(StepAfter(s, e).delivered <= s.captured) <==>
              && e.Callback? && s.sub.statusOk && Owner(s.callbacks, s.queue.processing[0]).Some?
              && |s.delivered| == |s.captured|
  {
    hide AfterInv, StillEnabled;
    if e.Callback? {
      CallbackDelivers(s);
      hide StepAfter;
    } else {
      OthersDeliverNothing(s, e);
      hide StepAfter;
    }
  }

  /** A recorder that has failed protects everyone: nothing is delivered any more. */
  lemma {:induction false} FailedRecorderDeliversNothing(events: seq<Event>, s: State, t: State)
    requires !s.sub.statusOk && RunAfter(events, s, t)
    ensures !t.sub.statusOk && t.delivered == s.delivered && t.captured == s.captured
    decreases |events|
  {
    if events != [] {
      FailedStepDeliversNothing(s, events[0]);
      hide StepAfter, StillEnabled;
      FailedRecorderDeliversNothing(events[1..], StepAfter(s, events[0]), t);
    }
  }

  lemma FailedStepDeliversNothing(s: State, e: Event)
    requires !s.sub.statusOk && StillEnabled(s, e)
    ensures var t := StepAfter(s, e);
            !t.sub.statusOk && t.delivered == s.delivered && t.captured == s.captured
  {
  }

  /** What nobody waits below UINT64_MAX for is not a readback's callback. */
  lemma NoReadbackPending(q: EQ.State, callbacks: seq<Option<nat>>, calls: seq<Call>, handed: int)
    requires EQ.Inv(q) && q.awaited == UINT64_MAX && Paired(callbacks, q.enqueued, calls, handed)
    ensures Owners(q.pending, callbacks) == []
  {
    forall e: EQ.Entry | e in q.pending ensures Owner(callbacks, e).None? {
      assert e in EQ.Timeline(q);
      EntryIsEnqueued(q, e);
    }
    NoOwners(q.pending, callbacks);
  }

  /**
   * Once the event thread has seen the removal and run what it collected, every call whose callback was handed over
   * has been delivered to, captured or not, unless a Close failed. The guarantee then holds exactly if every such
   * call was captured in time.
   */
  lemma DrainedDeliversAll(before: seq<Event>, s: State, after: seq<Event>, t: State)
    requires Run(before, Init(), s) && RunAfter(after, Removed(s), t) && t.sub.statusOk
    requires t.queue.awaited == UINT64_MAX && t.queue.processing == []
    ensures |t.delivered| == Handed(t.phase, t.calls)
    ensures t.delivered <= t.captured <==> Handed(t.phase, t.calls) <= |t.captured|
  {
    DeliveriesAfterRemoval(before, s, after, t);
    NoReadbackPending(t.queue, t.callbacks, t.calls, Handed(t.phase, t.calls));
    AllHandedHaveRun(t.queue, t.callbacks, Handed(t.phase, t.calls));
  }

  // ---------- A run that delivers what was never captured ----------

  const ONE_CALL := [Append, Enqueue]
  const DRAIN := [Collect, Callback]

  /** One readback has been asked for and the GPU has not touched it. */
  function Asked(contents: Bytes): State {
    Init().(
      sub := Sub.Step(Sub.Init<Command>(), Sub.Append(Copy(0, 0, 1))),
      queue := EQ.Init().(pending := [EQ.Entry(1, 0)], enqueued := [EQ.Entry(1, 0)]),
      callbacks := [Some(0)],
      chunks := [Chunk(MIN_CHUNK_SIZE, 0, [Allocation(1, 0, 1)])],
      nextResource := 1,
      memory := map[0 := contents],
      calls := [Call(0, 0, 1, 1)])
  }

  lemma AskedIsReached(contents: Bytes)
    requires |contents| == MIN_CHUNK_SIZE
    ensures Run([Reserve(1, MIN_CHUNK_SIZE, contents)] + ONE_CALL, Init(), Asked(contents))
  {
    var e := Reserve(1, MIN_CHUNK_SIZE, contents);
    assert NewChunkSize([], 1) == MIN_CHUNK_SIZE;
    assert FirstFit([], 1).None?;
    assert [Chunk(MIN_CHUNK_SIZE, 0, [])] == [] + [Chunk(MIN_CHUNK_SIZE, 0, [])];
    assert Reserved([], 1, MIN_CHUNK_SIZE, 0) == Some(([Chunk(MIN_CHUNK_SIZE, 0, [])], Reservation(0, 0)));
    var s1 := Step(Init(), e);
    var s2 := Step(s1, Append);
    assert s2.queue == EQ.Init() && s2.calls == [Call(0, 0, 1, 1)];
    assert EQ.Step(s2.queue, EQ.Enqueue(1)).pending == [EQ.Entry(1, 0)];
    var s3 := Step(s2, Enqueue);
    assert s2.chunks[0].allocations == [Allocation(1, 0, 1)];
    assert s3.chunks == Asked(contents).chunks;
    assert s3.queue == Asked(contents).queue;
    assert s3.sub == Asked(contents).sub;
    assert s3 == Asked(contents);
    assert Run([], s3, s3);
    assert [Enqueue][1..] == [];
    assert Run([Enqueue], s2, s3);
    assert ONE_CALL[1..] == [Enqueue];
    assert Run(ONE_CALL, s1, s3);
    assert ([e] + ONE_CALL)[1..] == ONE_CALL;
  }

  /** The event thread sees the removal there and takes the callback out. */
  function Flushed(contents: Bytes): State {
    var s := Removed(Asked(contents));
    s.(queue := s.queue.(pending := [], awaited := UINT64_MAX, processing := [EQ.Entry(1, 0)], exited := true))
  }

  lemma FlushedIsNext(contents: Bytes)
    ensures StillEnabled(Removed(Asked(contents)), Collect)
    ensures StepAfter(Removed(Asked(contents)), Collect) == Flushed(contents)
  {
    assert EQ.LowerBound([EQ.Entry(1, 0)], UINT64_MAX) == 1;
    assert [EQ.Entry(1, 0)][..1] == [EQ.Entry(1, 0)];
    assert [EQ.Entry(1, 0)][1..] == [];
  }

  lemma FlushedDelivers(contents: Bytes)
    requires |contents| == MIN_CHUNK_SIZE
    ensures StillEnabled(Flushed(contents), Callback)
    ensures StepAfter(Flushed(contents), Callback).delivered == [contents[..1]]
    ensures StepAfter(Flushed(contents), Callback).captured == []
  {
    var s := Flushed(contents);
    assert Owner(s.callbacks, s.queue.processing[0]) == Some(0);
    assert Read(s.memory, 0, 0, 1) == contents[..1];
  }

  /** The device is removed there, and the caller is handed the byte the chunk happened to hold. */
  lemma RemovalDeliversUncaptured(contents: Bytes) returns (t: State)
    requires |contents| == MIN_CHUNK_SIZE
    ensures Run([Reserve(1, MIN_CHUNK_SIZE, contents)] + ONE_CALL, Init(), Asked(contents))
    ensures RunAfter(DRAIN, Removed(Asked(contents)), t)
    ensures t.captured == [] && t.delivered == [contents[..1]]
  {
    AskedIsReached(contents);
    FlushedIsNext(contents);
    FlushedDelivers(contents);
    hide Asked, Flushed, Removed, StillEnabled, StepAfter, Run;
    t := StepAfter(Flushed(contents), Callback);
    assert RunAfter([], t, t);
    assert [Callback][1..] == [];
    assert RunAfter([Callback], Flushed(contents), t);
    assert DRAIN[0] == Collect && DRAIN[1..] == [Callback];
  }
}
