/**
 * Readbacks can always be brought to their end: no reachable state is stuck, short of a failed Close, an exit
 * request or the end of the 64-bit fence values (tfdml/core/dml_readback_heap.cc with everything it stands on).
 */
module ReadbackProgress {
  import opened Wrappers
  import opened Fences
  import opened PooledHeap
  import opened StagingMemory
  import Sub = Submission
  import EQ = EventQueue
  import opened ReadbackPipeline

  /** Everything that no step of the protocol, the GPU or the event thread touches. */
  ghost predicate SameCalls(s: State, t: State) {
    t.calls == s.calls && t.phase == s.phase && t.callbacks == s.callbacks && t.chunks == s.chunks
  }

  lemma {:induction false} RunConcat(a: seq<Event>, b: seq<Event>, s: State, t: State, u: State)
    requires Run(a, s, t) && Run(b, t, u)
    ensures Run(a + b, s, u)
    decreases |a|
  {
    hide Step, Enabled;
    if a == [] {
      assert a + b == b;
    } else {
      RunConcat(a[1..], b, Step(s, a[0]), t, u);
      assert (a + b)[1..] == a[1..] + b;
    }
  }

  lemma RunOne(s: State, e: Event)
    requires Enabled(s, e)
    ensures Run([e], s, Step(s, e))
  {
    assert [e][1..] == [];
    hide Step, Enabled;
  }

  // ---------- The submission protocol and the GPU ----------

  function Blank(n: nat): (r: Bytes)
    ensures |r| == n
  {
    seq(n, _ => 0)
  }

  /** A step of the submission protocol, seen from the composed machine; the source may hold anything. */
  function Lifted(s: State, e: Sub.Event<Command>): Event {
    match e
    case GpuCommand => GpuNext(Blank(if Next(s.sub).Copy? then Next(s.sub).size else 0))
    case GpuSignal => GpuSignal
    case _ => Protocol(e)
  }

  lemma LiftedStep(s: State, e: Sub.Event<Command>)
    requires Sub.Inv(s.sub) && Sub.Enabled(s.sub, e) && !e.Append? && |Sub.Step(s.sub, e).submitted| < UINT64_MAX
    ensures Enabled(s, Lifted(s, e)) && Step(s, Lifted(s, e)).sub == Sub.Step(s.sub, e)
    ensures var t := Step(s, Lifted(s, e)); SameCalls(s, t) && t.queue == s.queue.(completed := t.queue.completed)
  {
  }

  lemma SubmittedGrows(s: Sub.State<Command>, e: Sub.Event<Command>)
    requires Sub.Enabled(s, e)
    ensures |s.submitted| <= |Sub.Step(s, e).submitted|
  {
  }

  lemma {:induction false} RunSubmits(es: seq<Sub.Event<Command>>, s: Sub.State<Command>, t: Sub.State<Command>)
    requires Sub.Run(es, s, t)
    ensures |s.submitted| <= |t.submitted|
    decreases |es|
  {
    hide Sub.Step, Sub.Enabled;
    if es != [] {
      SubmittedGrows(s, es[0]);
      RunSubmits(es[1..], Sub.Step(s, es[0]), t);
    }
  }

  lemma {:induction false} LiftedRun(es: seq<Sub.Event<Command>>, s: State, sub: Sub.State<Command>)
      returns (events: seq<Event>, t: State)
    requires Sub.Inv(s.sub) && Sub.Run(es, s.sub, sub) && (forall e <- es :: !e.Append?) && |sub.submitted| < UINT64_MAX
    ensures Run(events, s, t) && t.sub == sub && SameCalls(s, t)
    ensures t.queue == s.queue.(completed := t.queue.completed)
    decreases |es|
  {
    hide Step, Enabled, Sub.Step, Sub.Enabled, Sub.Inv, Lifted;
    if es == [] {
      events, t := [], s;
    } else {
      assert es[0] in es && forall e <- es[1..] :: e in es;
      RunSubmits(es[1..], Sub.Step(s.sub, es[0]), sub);
      Sub.StepInv(s.sub, es[0]);
      LiftedStep(s, es[0]);
      var rest, t' := LiftedRun(es[1..], Step(s, Lifted(s, es[0])), sub);
      events, t := [Lifted(s, es[0])] + rest, t';
      assert events[1..] == rest;
    }
  }

  // ---------- The event thread ----------

  lemma CallbackFrame(s: State)
    requires Enabled(s, Callback)
    ensures var t := Step(s, Callback);
            && SameCalls(s, t) && t.sub == s.sub
            && t.queue == s.queue.(ran := s.queue.ran + [s.queue.processing[0]], processing := s.queue.processing[1..])
  {
  }

  /** Whatever has been collected can be invoked. */
  lemma {:induction false} CallbacksCanRun(s: State) returns (events: seq<Event>, t: State)
    ensures Run(events, s, t) && SameCalls(s, t) && t.sub == s.sub
    ensures t.queue == s.queue.(ran := t.queue.ran, processing := [])
    decreases |s.queue.processing|
  {
    if s.queue.processing == [] {
      events, t := [], s;
    } else {
      assert Enabled(s, Callback);
      CallbackFrame(s);
      RunOne(s, Callback);
      var rest, t' := CallbacksCanRun(Step(s, Callback));
      RunConcat([Callback], rest, s, Step(s, Callback), t');
      events, t := [Callback] + rest, t';
      hide Step, Enabled;
    }
  }

  lemma CollectFrame(s: State)
    requires Enabled(s, Collect)
    ensures var t := Step(s, Collect);
            SameCalls(s, t) && t.sub == s.sub && t.queue == EQ.Step(s.queue, EQ.Collect) && EQ.Enabled(s.queue, EQ.Collect)
  {
  }

  ghost predicate OnlyLater(q: EQ.State) {
    q.processing == [] && forall e <- q.pending :: q.completed < e.fence || e.fence == UINT64_MAX
  }

  /** One iteration with the callbacks around it leaves only what has not been signalled. */
  lemma IterationCanRun(s: State) returns (events: seq<Event>, t: State)
    requires Inv(s) && !s.queue.exited
    ensures Run(events, s, t) && SameCalls(s, t) && t.sub == s.sub && OnlyLater(t.queue)
  {
    hide Run, Enabled, Step;
    var first, s1 := CallbacksCanRun(s);
    if s1.queue.pending == [] {
      events, t := first, s1;
    } else {
      RunKeepsInv(first, s, s1);
      CollectIsEnabled(s1);
      CollectFrame(s1);
      InvHasQueue(s1);
      EQ.CollectTakesSignalled(s1.queue);
      RunOne(s1, Collect);
      var s2 := Step(s1, Collect);
      var last, t' := CallbacksCanRun(s2);
      t := t';
      RunConcat(first, [Collect], s, s1, s2);
      RunConcat(first + [Collect], last, s, s2, t);
      events := first + [Collect] + last;
      hide Inv, EQ.Inv;
    }
  }

  lemma CollectIsEnabled(s: State)
    requires !s.queue.exited && s.queue.processing == [] && s.queue.pending != []
    ensures Enabled(s, Collect)
  {
  }

  lemma InvHasQueue(s: State)
    requires Inv(s)
    ensures EQ.Inv(s.queue) && Sub.Inv(s.sub) && s.queue.completed == s.sub.completed
    ensures CallsOk(s.sub, s.calls, s.captured)
    ensures Paired(s.callbacks, s.queue.enqueued, s.calls, Handed(s.phase, s.calls))
    ensures InCallOrder(s.queue, s.callbacks, Handed(s.phase, s.calls))
    ensures s.sub.statusOk ==> |s.delivered| == |Owners(s.queue.ran, s.callbacks)|
  {
  }

  // ---------- Everything arrives ----------

  lemma CallSignalled(s: State, k: nat)
    requires CallsOk(s.sub, s.calls, s.captured) && k < |s.calls|
    requires forall tagged <- s.sub.appended :: tagged.fence <= s.sub.completed
    ensures s.calls[k].gpuFence <= s.sub.completed
  {
    var i := CallIndex(s.sub.appended, k);
    assert s.sub.appended[i] in s.sub.appended;
  }

  /** When all appended commands are signalled, no readback's callback waits for a later value. */
  lemma NoReadbackLater(s: State)
    requires Inv(s) && OnlyLater(s.queue)
    requires forall tagged <- s.sub.appended :: tagged.fence <= s.sub.completed
    ensures Owners(s.queue.pending, s.callbacks) == []
  {
    InvHasQueue(s);
    var q := s.queue;
    forall e: EQ.Entry | e in q.pending ensures Owner(s.callbacks, e).None? {
      assert e in EQ.Timeline(q);
      EntryIsEnqueued(q, e);
      if Owner(s.callbacks, e).Some? { CallSignalled(s, s.callbacks[e.id].value); }
    }
    NoOwners(q.pending, s.callbacks);
  }

  /**
   * While nothing has failed or exited, and short of the last fence values, every reachable state can be continued,
   * without another request, to one where every readback handed over has been delivered.
   */
  lemma ReadbacksCanFinish(before: seq<Event>, s: State) returns (after: seq<Event>, t: State)
    requires Run(before, Init(), s) && s.sub.statusOk && !s.sub.stopped && !s.queue.exited
    requires |s.sub.submitted| + 2 < UINT64_MAX
    ensures Run(after, s, t) && t.calls == s.calls && t.phase == s.phase
    ensures |t.delivered| == Handed(s.phase, s.calls)
  {
    hide Run, Inv, EQ.Inv, Sub.Inv, CallsOk, Paired, InCallOrder;
    ReachableInv(before, s);
    InvHasQueue(s);
    var es, sub := Sub.CanAlwaysFinish(s.sub);
    var first, s1 := LiftedRun(es, s, sub);
    RunKeepsInv(first, s, s1);
    var last, t' := IterationCanRun(s1);
    t := t';
    RunKeepsInv(last, s1, t);
    RunConcat(first, last, s, s1, t);
    after := first + last;
    InvHasQueue(t);
    NoReadbackLater(t);
    AllHandedHaveRun(t.queue, t.callbacks, Handed(t.phase, t.calls));
  }

  /** While the heap is idle and memory is left, any readback can be begun and handed over. */
  lemma ReadbackCanStart(s: State, size: nat, available: nat, contents: Bytes) returns (t: State)
    requires Inv(s) && s.phase.Idle? && 0 < size && s.queue.processing == [] && s.sub.nextFlush < UINT64_MAX
    requires NewChunkSize(s.chunks, size) <= available && available + ALIGNMENT <= TWO_64
    requires |contents| == NewChunkSize(s.chunks, size)
    ensures Run([Reserve(size, available, contents), Append, Enqueue], s, t)
    ensures Handed(t.phase, t.calls) == |t.calls| == |s.calls| + 1
    ensures t.sub.statusOk == s.sub.statusOk && t.sub.stopped == s.sub.stopped && t.sub.submitted == s.sub.submitted
    ensures t.queue.exited == s.queue.exited
  {
    hide Run, Step, Enabled, Inv, NewChunkSize;
    var reserve := Reserve(size, available, contents);
    ReserveIsEnabled(s, size, available, contents);
    StepInv(s, reserve);
    var s1 := Step(s, reserve);
    AppendIsEnabled(s1);
    var s2 := Step(s1, Append);
    EnqueueIsEnabled(s2);
    t := Step(s2, Enqueue);
    StartFrame(s, reserve, s1, s2);
    RunOne(s, reserve);
    RunOne(s1, Append);
    RunOne(s2, Enqueue);
    RunConcat([reserve], [Append], s, s1, s2);
    RunConcat([reserve] + [Append], [Enqueue], s, s2, t);
    assert [reserve] + [Append] + [Enqueue] == [reserve, Append, Enqueue];
  }

  lemma ReserveIsEnabled(s: State, size: nat, available: nat, contents: Bytes)
    requires s.phase.Idle? && 0 < size
    requires NewChunkSize(s.chunks, size) <= available && available + ALIGNMENT <= TWO_64
    requires |contents| == NewChunkSize(s.chunks, size)
    ensures Enabled(s, Reserve(size, available, contents))
    ensures var t := Step(s, Reserve(size, available, contents));
            && t.phase.Reserved_? && t.sub == s.sub && t.queue == s.queue && t.calls == s.calls
  {
    hide NewChunkSize, FirstFit;
  }

  lemma AppendIsEnabled(s: State)
    requires Inv(s) && s.phase.Reserved_?
    ensures Enabled(s, Append)
    ensures var t := Step(s, Append);
            && t.phase.Appended? && t.queue == s.queue
            && |t.calls| == |s.calls| + 1 && t.calls[|s.calls|].gpuFence == s.sub.nextFlush
            && t.sub == s.sub.(writeBatch := t.sub.writeBatch, appended := t.sub.appended)
  {
    hide Sub.Inv, EQ.Inv, HeapOk, CallsOk, Paired, InCallOrder, RangesOk, Owners, Record;
  }

  lemma EnqueueIsEnabled(s: State)
    requires s.phase.Appended? && s.calls != [] && s.calls[|s.calls| - 1].gpuFence < UINT64_MAX && s.queue.processing == []
    ensures Enabled(s, Enqueue)
    ensures var t := Step(s, Enqueue); t.phase.Idle? && t.sub == s.sub && t.calls == s.calls && t.queue.exited == s.queue.exited
  {
  }

  lemma StartFrame(s: State, reserve: Event, s1: State, s2: State)
    requires reserve.Reserve? && Enabled(s, reserve) && s1 == Step(s, reserve)
    requires Enabled(s1, Append) && s2 == Step(s1, Append) && s.queue.processing == []
    ensures s2.queue == s.queue && |s2.calls| == |s.calls| + 1
    ensures s2.sub == s.sub.(writeBatch := s2.sub.writeBatch, appended := s2.sub.appended)
  {
    hide Reserved, Record, Committed;
  }

  /** So it can be brought to its end: one more call than before, and every one of them delivered. */
  lemma AnyReadbackCanArrive(before: seq<Event>, s: State, size: nat, available: nat, contents: Bytes)
      returns (after: seq<Event>, t: State)
    requires Run(before, Init(), s) && s.sub.statusOk && !s.sub.stopped && !s.queue.exited
    requires s.phase.Idle? && 0 < size && s.queue.processing == []
    requires |s.sub.submitted| + 2 < UINT64_MAX && s.sub.nextFlush < UINT64_MAX
    requires NewChunkSize(s.chunks, size) <= available && available + ALIGNMENT <= TWO_64
    requires |contents| == NewChunkSize(s.chunks, size)
    ensures Run(after, s, t) && |t.delivered| == |s.calls| + 1
    ensures |t.delivered[|s.calls|]| == size
  {
    hide Run, Inv, EQ.Inv, Sub.Inv, Step, Enabled, AskedSizes, NewChunkSize;
    ReachableInv(before, s);
    var start := [Reserve(size, available, contents), Append, Enqueue];
    var s1 := ReadbackCanStart(s, size, available, contents);
    RunConcat(before, start, Init(), s, s1);
    var rest, t' := ReadbacksCanFinish(before + start, s1);
    t := t';
    RunConcat(start, rest, s, s1, t);
    after := start + rest;
    RunConcat(before + start, rest, Init(), s1, t);
    ReadbacksArriveIntact(before + start + rest, t);
    LastSize(before, s, start, rest, t, size);
  }

  /** The call begun last has the size that was asked for. */
  lemma LastSize(before: seq<Event>, s: State, start: seq<Event>, rest: seq<Event>, t: State, size: nat)
    requires Run(before, Init(), s) && Run(start + rest, s, t) && s.phase.Idle? && |t.calls| == |s.calls| + 1
    requires |start| == 3 && start[0].Reserve? && start[0].size == size && start[1..] == [Append, Enqueue]
    requires Run(before + start + rest, Init(), t)
    ensures |AskedSizes(before + start + rest, None)| == |s.calls| + 1
    ensures AskedSizes(before + start + rest, None)[|s.calls|] == size
  {
    RunSizes(before + start + rest, Init(), t);
    RunSizes(start + rest, s, t);
    StartAsks(start, rest, size);
    assert Sizes(t.calls) == AskedSizes(before + start + rest, None);
    assert Sizes(t.calls)[|s.calls|] == (Sizes(s.calls) + [size] + AskedSizes(rest, None))[|s.calls|];
  }

  lemma StartAsks(start: seq<Event>, rest: seq<Event>, size: nat)
    requires |start| == 3 && start[0].Reserve? && start[0].size == size && start[1..] == [Append, Enqueue]
    ensures AskedSizes(start + rest, None) == [size] + AskedSizes(rest, None)
  {
    assert start == [start[0]] + [Append, Enqueue];
    assert (start + rest)[1..] == [Append, Enqueue] + rest;
    assert ([Append, Enqueue] + rest)[1..] == [Enqueue] + rest;
    assert ([Enqueue] + rest)[1..] == rest;
    assert AskedSizes([Enqueue] + rest, None) == AskedSizes(rest, None);
    assert AskedSizes([Append, Enqueue] + rest, Some(size)) == [size] + AskedSizes([Enqueue] + rest, None);
  }

  // ---------- Staging space comes back ----------

  /** Every recorded range has its CPU value signalled. */
  ghost predicate AllDone(chunks: seq<Chunk>, cpuFence: nat) {
    forall c <- chunks :: forall a <- c.allocations :: a.doneValue <= cpuFence
  }

  lemma ReclaimFrame(s: State, n: nat)
    requires Enabled(s, ReclaimFront(n)) && AllDone(s.chunks, s.cpuFence)
    ensures var t := Step(s, ReclaimFront(n));
            && t == s.(chunks := t.chunks) && AllDone(t.chunks, t.cpuFence) && |t.chunks| == |s.chunks|
            && t.chunks[n].allocations == s.chunks[n].allocations[1..]
            && forall i :: 0 <= i < |s.chunks| && i != n ==> t.chunks[i] == s.chunks[i]
  {
    var t := Step(s, ReclaimFront(n));
    forall c <- t.chunks, a <- c.allocations ensures a.doneValue <= s.cpuFence {
      if c !in s.chunks { assert a in s.chunks[n].allocations && s.chunks[n] in s.chunks; }
    }
  }

  lemma ReclaimIsEnabled(s: State, n: nat)
    requires s.phase.Idle? && n < |s.chunks| && s.chunks[n].allocations != [] && AllDone(s.chunks, s.cpuFence)
    ensures Enabled(s, ReclaimFront(n))
  {
    assert s.chunks[n] in s.chunks && s.chunks[n].allocations[0] in s.chunks[n].allocations;
  }

  /** Once every range is signalled, the chunks from n on can be emptied. */
  lemma {:induction false} ChunksCanEmpty(s: State, n: nat) returns (events: seq<Event>, t: State)
    requires s.phase.Idle? && n <= |s.chunks| && AllDone(s.chunks, s.cpuFence)
    ensures Run(events, s, t) && t == s.(chunks := t.chunks) && |t.chunks| == |s.chunks|
    ensures forall i :: 0 <= i < n ==> t.chunks[i] == s.chunks[i]
    ensures forall i :: n <= i < |t.chunks| ==> t.chunks[i].allocations == []
    decreases |s.chunks| - n, if n < |s.chunks| then |s.chunks[n].allocations| else 0
  {
    hide Step, Enabled, AllDone;
    if n == |s.chunks| {
      events, t := [], s;
    } else if s.chunks[n].allocations == [] {
      events, t := ChunksCanEmpty(s, n + 1);
    } else {
      ReclaimIsEnabled(s, n);
      ReclaimFrame(s, n);
      var s1 := Step(s, ReclaimFront(n));
      var rest, t' := ChunksCanEmpty(s1, n);
      events, t := [ReclaimFront(n)] + rest, t';
      assert events[1..] == rest;
    }
  }

  /** When every call is delivered, every range is signalled. */
  lemma DeliveredIsDone(s: State)
    requires Inv(s) && |s.delivered| == |s.calls|
    ensures AllDone(s.chunks, s.cpuFence)
  {
    hide Sub.Inv, EQ.Inv, CallsOk, Paired, InCallOrder, RangesOk, Owners, PoolOk, Backed;
  }

  /**
   * No staging space is lost: from every reachable idle state that has not failed or exited, the machine can get to
   * one where every readback is delivered and no chunk holds a range any more.
   */
  lemma SpaceComesBack(before: seq<Event>, s: State) returns (after: seq<Event>, t: State)
    requires Run(before, Init(), s) && s.phase.Idle? && s.sub.statusOk && !s.sub.stopped && !s.queue.exited
    requires |s.sub.submitted| + 2 < UINT64_MAX
    ensures Run(after, s, t) && |t.delivered| == |t.calls| == |s.calls|
    ensures forall c <- t.chunks :: c.allocations == []
  {
    hide Run, Inv, Step, Enabled;
    ReachableInv(before, s);
    var first, s1 := ReadbacksCanFinish(before, s);
    RunKeepsInv(first, s, s1);
    DeliveredIsDone(s1);
    var last, t' := ChunksCanEmpty(s1, 0);
    t := t';
    RunConcat(first, last, s, s1, t);
    after := first + last;
  }
}
