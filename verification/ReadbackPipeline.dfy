/**
 * Readbacks end to end: the GPU copies into a pooled readback chunk, a callback copies on into the
 * caller's memory and signals a second, CPU-side fence, and ranges are reused once that fence says so
 * (tfdml/core/dml_readback_heap.cc with the pooled heap, the execution context and the event queue).
 */
module ReadbackPipeline {
  import opened Wrappers
  import opened Fences
  import opened PooledHeap
  import opened StagingMemory
  import Sub = Submission
  import EQ = EventQueue

  /** The staging range of one call, and the GPU fence value its copy was promised. */
  datatype Call = Call(resource: nat, offset: nat, size: nat, gpuFence: nat)

  /** Copy writes the GPU's current source bytes into a staging range; Other is anyone else's command. */
  datatype Command = Copy(resource: nat, offset: nat, size: nat) | Other

  datatype Phase =
    | Idle
    | Reserved_(r: Reservation, size: nat)  // a range is chosen
    | Appended                              // the copy is appended and recorded, its callback not enqueued

  datatype State = State(
    sub: Sub.State<Command>,
    queue: EQ.State,
    callbacks: seq<Option<nat>>,  // by Enqueue order: Some(k) is the callback of readback k, None is foreign
    chunks: seq<Chunk>,
    nextResource: nat,
    memory: map<nat, Bytes>,
    phase: Phase,
    cpuFence: nat,                // completed value of the CPU-signalled fence
    calls: seq<Call>,             // history: readbacks, in call order; call k is done at CPU fence value k + 1
    captured: seq<Bytes>,         // history: what the GPU copied for each call
    delivered: seq<Bytes>)        // history: what reached dst, one entry per signalling callback

  function Init(): State {
    State(Sub.Init(), EQ.Init(), [], [], 0, map[], Idle, 0, [], [], [])
  }

  datatype Event =
    | Reserve(size: nat, available: nat, contents: Bytes)
    | Append                       // append the copy, take the next CPU fence value, record the range
    | Enqueue                      // hand the callback to the event queue
    | ReclaimFront(chunk: nat)
    | Trim
    | GpuNext(data: Bytes)         // the GPU finishes its next command; a copy captures these bytes
    | GpuSignal                    // the GPU reaches the signal behind a submission
    | Collect                      // the event thread takes out the signalled callbacks
    | Callback                     // the next one of them runs
    | ForeignEnqueue(fence: Word)  // someone else's callback
    | EventThreadExit
    | Protocol(e: Sub.Event<Command>)

  function Next(sub: Sub.State<Command>): Command {
    var delivered := Sub.Delivered(sub.submitted);
    if sub.executed < |delivered| then delivered[sub.executed].command else Other
  }

  predicate Enabled(s: State, e: Event) {
    match e
    case Reserve(size, available, contents) =>
      && s.phase.Idle? && 0 < size && available + ALIGNMENT <= TWO_64
      && Reserved(s.chunks, size, available, s.nextResource).Some?
      && |contents| == NewChunkSize(s.chunks, size)
    case Append => s.phase.Reserved_? && s.phase.r.chunk < |s.chunks|
    case Enqueue =>
      && s.phase.Appended? && s.calls != [] && s.calls[|s.calls| - 1].gpuFence < UINT64_MAX
      && s.queue.processing == []
    case ReclaimFront(i) =>
      && s.phase.Idle? && i < |s.chunks| && s.chunks[i].allocations != []
      && s.chunks[i].allocations[0].doneValue <= s.cpuFence
    case Trim => s.phase.Idle?
    case GpuNext(data) =>
      && Sub.Enabled(s.sub, Sub.GpuCommand)
      && (Next(s.sub).Copy? ==> |data| == Next(s.sub).size)
    case GpuSignal =>
      Sub.Enabled(s.sub, Sub.GpuSignal) && s.sub.submitted[s.sub.completed].signal < UINT64_MAX
    case Collect => EQ.Enabled(s.queue, EQ.Collect)
    case Callback => EQ.Enabled(s.queue, EQ.Invoke)
    case ForeignEnqueue(_) => s.queue.processing == []
    case EventThreadExit => EQ.Enabled(s.queue, EQ.Exit)
    case Protocol(p) =>
      !p.GpuCommand? && !p.GpuSignal? && (p.Append? ==> p.command == Other) && Sub.Enabled(s.sub, p)
  }

  /** The readback whose callback this entry is, if it is one. */
  function Owner(callbacks: seq<Option<nat>>, entry: EQ.Entry): Option<nat> {
    if entry.id < |callbacks| then callbacks[entry.id] else None
  }

  function RunCallback(s: State, owner: Option<nat>): State {
    if owner.None? || !s.sub.statusOk || |s.calls| <= owner.value then s
    else
      var call := s.calls[owner.value];
      s.(delivered := s.delivered + [Read(s.memory, call.resource, call.offset, call.size)],
         cpuFence := owner.value + 1)
  }

  function Step(s: State, e: Event): State
    requires Enabled(s, e)
  {
    match e
    case Reserve(size, available, contents) =>
      var (chunks', r) := Reserved(s.chunks, size, available, s.nextResource).value;
      s.(chunks := chunks', nextResource := s.nextResource + |chunks'| - |s.chunks|,
         memory := Committed(s.memory, |chunks'| > |s.chunks|, s.nextResource, contents),
         phase := Reserved_(r, size))
    case Append =>
      var Reserved_(r, size) := s.phase;
      var resource := s.chunks[r.chunk].resource;
      s.(sub := Sub.Step(s.sub, Sub.Append(Copy(resource, r.offset, size))),
         calls := s.calls + [Call(resource, r.offset, size, s.sub.nextFlush)],
         chunks := Record(s.chunks, r, size, |s.calls| + 1),
         phase := Appended)
    case Enqueue =>
      s.(queue := EQ.Step(s.queue, EQ.Enqueue(s.calls[|s.calls| - 1].gpuFence)),
         callbacks := s.callbacks + [Some(|s.calls| - 1)],
         phase := Idle)
    case ReclaimFront(i) => s.(chunks := s.chunks[i := PopFront(s.chunks[i])])
    case Trim => s.(chunks := InUse(s.chunks), memory := Release(s.memory, InUse(s.chunks)))
    case GpuNext(data) =>
      var s' := s.(sub := Sub.Step(s.sub, Sub.GpuCommand));
      (match Next(s.sub)
       case Copy(resource, offset, size) =>
         s'.(memory := Write(s.memory, resource, offset, data), captured := s.captured + [data])
       case Other => s')
    case GpuSignal =>
      s.(sub := Sub.Step(s.sub, Sub.GpuSignal),
         queue := s.queue.(completed := s.sub.submitted[s.sub.completed].signal))  // the same fence
    case Collect => s.(queue := EQ.Step(s.queue, EQ.Collect))
    case Callback =>
      RunCallback(s, Owner(s.callbacks, s.queue.processing[0])).(queue := EQ.Step(s.queue, EQ.Invoke))
    case ForeignEnqueue(fence) =>
      s.(queue := EQ.Step(s.queue, EQ.Enqueue(fence)), callbacks := s.callbacks + [None])
    case EventThreadExit => s.(queue := EQ.Step(s.queue, EQ.Exit))
    case Protocol(p) => s.(sub := Sub.Step(s.sub, p))
  }

  // ---------- The invariant ----------

  /** The calls behind a stretch of commands, in order. */
  function CallsOf(commands: seq<Sub.Tagged<Command>>): seq<Call> {
    if commands == [] then []
    else
      var last := commands[|commands| - 1];
      CallsOf(commands[..|commands| - 1]) + CallOf(last)
  }

  function CallOf(t: Sub.Tagged<Command>): seq<Call> {
    match t.command
    case Copy(resource, offset, size) => [Call(resource, offset, size, t.fence)]
    case Other => []
  }

  /** The readbacks whose callbacks lie in a stretch of queue entries, in order. */
  function Owners(entries: seq<EQ.Entry>, callbacks: seq<Option<nat>>): seq<nat> {
    if entries == [] then []
    else
      var last := |entries| - 1;
      Owners(entries[..last], callbacks) +
        match Owner(callbacks, entries[last]) case Some(k) => [k] case None => []
  }

  function Upto(n: nat): seq<nat> {
    seq(n, i => i)
  }

  /** Calls whose callbacks have been handed to the queue. */
  function Handed(phase: Phase, calls: seq<Call>): int {
    |calls| - if phase.Appended? then 1 else 0
  }

  ghost predicate CallsOk(sub: Sub.State<Command>, calls: seq<Call>, captured: seq<Bytes>) {
    && calls == CallsOf(sub.appended)
    && sub.executed <= |sub.appended|
    && |captured| == |CallsOf(sub.appended[..sub.executed])|
    && Ascending(calls, sub.nextFlush)
  }

  predicate Ascending(calls: seq<Call>, bound: nat) {
    && (forall i, j :: 0 <= i < j < |calls| ==> calls[i].gpuFence <= calls[j].gpuFence)
    && (forall i :: 0 <= i < |calls| ==> calls[i].gpuFence <= bound)
  }

  /** Callback i, if it belongs to a readback, waits for that readback's copy. */
  ghost predicate Paired(callbacks: seq<Option<nat>>, enqueued: seq<EQ.Entry>, calls: seq<Call>, handed: int) {
    && |callbacks| == |enqueued| && handed <= |calls|
    && forall i :: 0 <= i < |callbacks| && callbacks[i].Some? ==>
         && callbacks[i].value < handed
         && enqueued[i].fence == calls[callbacks[i].value].gpuFence < UINT64_MAX
  }

  /** The readback callbacks lie in the queue's timeline in call order, each once. */
  ghost predicate InCallOrder(q: EQ.State, callbacks: seq<Option<nat>>, handed: int) {
    0 <= handed && Owners(EQ.Timeline(q), callbacks) == Upto(handed)
  }

  ghost predicate DeliveryOk(cpuFence: nat, delivered: seq<Bytes>, captured: seq<Bytes>, calls: seq<Call>) {
    cpuFence == |delivered| && delivered <= captured && |captured| <= |calls|
  }

  function RangeOf(calls: seq<Call>, k: nat): Allocation
    requires k < |calls|
  {
    Allocation(calls[k].size, calls[k].offset, k + 1)
  }

  /** A readback not delivered yet: its range is live, and once captured it still holds the captured bytes. */
  ghost predicate Undelivered(chunks: seq<Chunk>, memory: map<nat, Bytes>, calls: seq<Call>, captured: seq<Bytes>, k: nat)
    requires k < |calls|
  {
    && Live(chunks, calls[k].resource, RangeOf(calls, k))
    && (k < |captured| ==> Read(memory, calls[k].resource, calls[k].offset, calls[k].size) == captured[k])
  }

  ghost predicate RangesOk(chunks: seq<Chunk>, memory: map<nat, Bytes>, calls: seq<Call>, captured: seq<Bytes>, low: nat) {
    forall k :: low <= k < |calls| ==> Undelivered(chunks, memory, calls, captured, k)
  }

  ghost predicate PhaseOk(phase: Phase, chunks: seq<Chunk>) {
    phase.Reserved_? ==>
      && 0 < phase.size && phase.r.chunk < |chunks|
      && FindOffset(chunks[phase.r.chunk], phase.size) == Some(phase.r.offset)
  }

  ghost predicate Inv(s: State) {
    && Sub.Inv(s.sub) && EQ.Inv(s.queue) && s.queue.completed == s.sub.completed
    && CallsOk(s.sub, s.calls, s.captured)
    && Paired(s.callbacks, s.queue.enqueued, s.calls, Handed(s.phase, s.calls))
    && InCallOrder(s.queue, s.callbacks, Handed(s.phase, s.calls))
    && DeliveryOk(s.cpuFence, s.delivered, s.captured, s.calls)
    && (s.sub.statusOk ==> |s.delivered| == |Owners(s.queue.ran, s.callbacks)|)
    && HeapOk(s.chunks, s.nextResource, s.memory, |s.calls|)
    && PhaseOk(s.phase, s.chunks)
    && RangesOk(s.chunks, s.memory, s.calls, s.captured, |s.delivered|)
  }

  lemma InitParts()
    ensures CallsOk(Sub.Init<Command>(), [], []) && Paired([], [], [], 0) && InCallOrder(EQ.Init(), [], 0)
    ensures DeliveryOk(0, [], [], []) && HeapOk([], 0, map[], 0) && RangesOk([], map[], [], [], 0)
    ensures Owners([], []) == []
  {
    assert EQ.Timeline(EQ.Init()) == [];
  }

  lemma InitInv()
    ensures Inv(Init())
  {
    Sub.InitInv<Command>();
    EQ.InitInv();
    InitParts();
    hide Sub.Inv, EQ.Inv, CallsOk, Paired, InCallOrder, DeliveryOk, HeapOk, RangesOk, Owners;
  }

  // ---------- Facts about the filters ----------

  lemma {:induction false} CallsPrefix(commands: seq<Sub.Tagged<Command>>, n: nat)
    requires n <= |commands|
    ensures CallsOf(commands[..n]) <= CallsOf(commands)
  {
    if n < |commands| {
      CallsPrefix(commands[..|commands| - 1], n);
      assert commands[..|commands| - 1][..n] == commands[..n];
    } else {
      assert commands[..n] == commands;
    }
  }

  lemma CallsStep(commands: seq<Sub.Tagged<Command>>, n: nat)
    requires n < |commands|
    ensures CallsOf(commands[..n + 1]) == CallsOf(commands[..n]) + CallOf(commands[n])
  {
    assert commands[..n + 1][..n] == commands[..n];
  }

  /** Call k comes from one command, which is preceded by exactly k copies. */
  lemma {:induction false} CallIndex(commands: seq<Sub.Tagged<Command>>, k: nat) returns (i: nat)
    requires k < |CallsOf(commands)|
    ensures i < |commands| && |CallsOf(commands[..i])| == k && CallOf(commands[i]) == [CallsOf(commands)[k]]
  {
    var last := |commands| - 1;
    if k < |CallsOf(commands[..last])| {
      i := CallIndex(commands[..last], k);
      assert commands[..last][..i] == commands[..i];
    } else {
      i := last;
    }
  }

  lemma {:induction false} OwnersConcat(a: seq<EQ.Entry>, b: seq<EQ.Entry>, callbacks: seq<Option<nat>>)
    ensures Owners(a + b, callbacks) == Owners(a, callbacks) + Owners(b, callbacks)
  {
    if b == [] {
      assert a + b == a;
    } else {
      var last := |b| - 1;
      assert (a + b)[..|a + b| - 1] == a + b[..last];
      OwnersConcat(a, b[..last], callbacks);
    }
  }

  lemma {:induction false} OwnersStable(entries: seq<EQ.Entry>, callbacks: seq<Option<nat>>, extra: Option<nat>)
    requires forall e <- entries :: e.id < |callbacks|
    ensures Owners(entries, callbacks + [extra]) == Owners(entries, callbacks)
  {
    if entries != [] {
      OwnersStable(entries[..|entries| - 1], callbacks, extra);
    }
  }

  lemma {:induction false} NoOwners(entries: seq<EQ.Entry>, callbacks: seq<Option<nat>>)
    requires forall e <- entries :: Owner(callbacks, e).None?
    ensures Owners(entries, callbacks) == []
  {
    if entries != [] {
      NoOwners(entries[..|entries| - 1], callbacks);
    }
  }

  /** A queue entry is the one its number says. */
  lemma EntryIsEnqueued(q: EQ.State, e: EQ.Entry)
    requires EQ.Inv(q) && e in EQ.Timeline(q)
    ensures e.id < |q.enqueued| && q.enqueued[e.id] == e
  {
    assert e in multiset(EQ.Timeline(q));
    assert e in q.enqueued;
  }

  lemma PrefixHasCall(commands: seq<Sub.Tagged<Command>>, n: nat, i: nat)
    requires i < n <= |commands| && commands[i].command.Copy?
    ensures |CallsOf(commands[..i])| < |CallsOf(commands[..n])|
  {
    CallsStep(commands, i);
    CallsPrefix(commands[..n], i + 1);
    assert commands[..n][..i + 1] == commands[..i + 1];
  }

  /** Once its GPU fence value completes, a call's bytes have been captured. */
  lemma SignalledMeansCaptured(sub: Sub.State<Command>, calls: seq<Call>, captured: seq<Bytes>, k: nat)
    requires Sub.Inv(sub) && CallsOk(sub, calls, captured) && k < |calls| && calls[k].gpuFence <= sub.completed
    ensures k < |captured|
  {
    var i := CallIndex(sub.appended, k);
    Sub.SignalledMeansExecuted(sub, i);
    PrefixHasCall(sub.appended, sub.executed, i);
  }

  // ---------- Heap steps ----------

  lemma ReserveRanges(s: State, e: Event)
    requires HeapOk(s.chunks, s.nextResource, s.memory, |s.calls|) && Enabled(s, e) && e.Reserve?
    requires RangesOk(s.chunks, s.memory, s.calls, s.captured, |s.delivered|)
    ensures var s' := Step(s, e);
            RangesOk(s'.chunks, s'.memory, s.calls, s.captured, |s.delivered|)
  {
    var Reserve(size, available, contents) := e;
    var s' := Step(s, e);
    forall k | |s.delivered| <= k < |s.calls| ensures Undelivered(s'.chunks, s'.memory, s.calls, s.captured, k) {
      assert Undelivered(s.chunks, s.memory, s.calls, s.captured, k);
      LiveAfterReserve(s.chunks, s.nextResource, s.memory, |s.calls|, size, available, contents,
                       s.calls[k].resource, RangeOf(s.calls, k));
    }
  }

  lemma ReserveInv(s: State, e: Event)
    requires Inv(s) && Enabled(s, e) && e.Reserve?
    ensures Inv(Step(s, e))
  {
    hide Sub.Inv, EQ.Inv, HeapOk, RangesOk, Undelivered, CallsOk, Paired, InCallOrder, DeliveryOk;
    hide Reserved, Committed, FindOffset, Owners;
    HeapReserve(s.chunks, s.nextResource, s.memory, |s.calls|, e.size, e.available, e.contents);
    ReserveRanges(s, e);
  }

  lemma AppendCalls(sub: Sub.State<Command>, calls: seq<Call>, captured: seq<Bytes>, resource: nat, offset: nat, size: nat)
    requires CallsOk(sub, calls, captured)
    ensures CallsOk(Sub.Step(sub, Sub.Append(Copy(resource, offset, size))),
                    calls + [Call(resource, offset, size, sub.nextFlush)], captured)
  {
    var appended' := sub.appended + [Sub.Tagged(Copy(resource, offset, size), sub.nextFlush)];
    assert appended'[..|sub.appended|] == sub.appended;
    assert appended'[..sub.executed] == sub.appended[..sub.executed];
  }

  lemma AppendRanges(chunks: seq<Chunk>, nextResource: nat, memory: map<nat, Bytes>, calls: seq<Call>,
                     captured: seq<Bytes>, low: nat, r: Reservation, size: nat, gpuFence: nat)
    requires HeapOk(chunks, nextResource, memory, |calls|) && PhaseOk(Reserved_(r, size), chunks)
    requires RangesOk(chunks, memory, calls, captured, low) && |captured| <= |calls|
    ensures var chunks' := Record(chunks, r, size, |calls| + 1);
            var calls' := calls + [Call(chunks[r.chunk].resource, r.offset, size, gpuFence)];
            && HeapOk(chunks', nextResource, memory, |calls'|)
            && RangesOk(chunks', memory, calls', captured, low)
  {
    var chunks' := Record(chunks, r, size, |calls| + 1);
    var calls' := calls + [Call(chunks[r.chunk].resource, r.offset, size, gpuFence)];
    HeapRecord(chunks, nextResource, memory, |calls|, r, size, |calls| + 1);
    forall k | low <= k < |calls'| ensures Undelivered(chunks', memory, calls', captured, k) {
      if k < |calls| {
        assert Undelivered(chunks, memory, calls, captured, k);
        LiveAfterRecord(chunks, r, size, |calls| + 1, calls[k].resource, RangeOf(calls, k));
      }
    }
  }

  /** Handing over stays as it was: one more call, but its callback is still to be enqueued. */
  lemma PairedMore(callbacks: seq<Option<nat>>, enqueued: seq<EQ.Entry>, calls: seq<Call>, handed: int, c: Call)
    requires Paired(callbacks, enqueued, calls, handed)
    ensures Paired(callbacks, enqueued, calls + [c], handed)
  {
  }

  lemma AppendInv(s: State)
    requires Inv(s) && Enabled(s, Append)
    ensures Inv(Step(s, Append))
  {
    hide Sub.Inv, EQ.Inv, HeapOk, RangesOk, Undelivered, CallsOk, Paired, InCallOrder, Record;
    var Reserved_(r, size) := s.phase;
    var resource := s.chunks[r.chunk].resource;
    Sub.StepInv(s.sub, Sub.Append(Copy(resource, r.offset, size)));
    AppendCalls(s.sub, s.calls, s.captured, resource, r.offset, size);
    AppendRanges(s.chunks, s.nextResource, s.memory, s.calls, s.captured, |s.delivered|, r, size, s.sub.nextFlush);
    PairedMore(s.callbacks, s.queue.enqueued, s.calls, |s.calls|, Call(resource, r.offset, size, s.sub.nextFlush));
  }

  /** Only delivered calls have their CPU value signalled, so no undelivered range is reclaimed. */
  lemma ReclaimInv(s: State, n: nat)
    requires Inv(s) && Enabled(s, ReclaimFront(n))
    ensures Inv(Step(s, ReclaimFront(n)))
  {
    HeapPop(s.chunks, s.nextResource, s.memory, |s.calls|, n);
    var chunks' := s.chunks[n := PopFront(s.chunks[n])];
    forall k | |s.delivered| <= k < |s.calls| ensures Undelivered(chunks', s.memory, s.calls, s.captured, k) {
      assert Undelivered(s.chunks, s.memory, s.calls, s.captured, k);
      LiveAfterPop(s.chunks, n, s.calls[k].resource, RangeOf(s.calls, k));
    }
  }

  lemma TrimRanges(s: State)
    requires HeapOk(s.chunks, s.nextResource, s.memory, |s.calls|)
    requires RangesOk(s.chunks, s.memory, s.calls, s.captured, |s.delivered|)
    ensures RangesOk(InUse(s.chunks), Release(s.memory, InUse(s.chunks)), s.calls, s.captured, |s.delivered|)
  {
    forall k | |s.delivered| <= k < |s.calls|
      ensures Undelivered(InUse(s.chunks), Release(s.memory, InUse(s.chunks)), s.calls, s.captured, k)
    {
      assert Undelivered(s.chunks, s.memory, s.calls, s.captured, k);
      LiveAfterTrim(s.chunks, s.memory, s.calls[k].resource, RangeOf(s.calls, k));
    }
  }

  lemma TrimInv(s: State)
    requires Inv(s) && Enabled(s, Trim)
    ensures Inv(Step(s, Trim))
  {
    HeapTrim(s.chunks, s.nextResource, s.memory, |s.calls|);
    TrimRanges(s);
  }

  // ---------- GPU steps ----------

  /** The copy the GPU finishes next belongs to the first call not captured yet. */
  lemma NextIsFirstUncaptured(sub: Sub.State<Command>, calls: seq<Call>, captured: seq<Bytes>)
    requires Sub.Inv(sub) && CallsOk(sub, calls, captured) && Sub.Enabled(sub, Sub.GpuCommand)
    ensures sub.executed < |sub.appended|
    ensures CallsOf(sub.appended[..sub.executed + 1]) ==
            CallsOf(sub.appended[..sub.executed]) + CallOf(sub.appended[sub.executed])
    ensures Next(sub) == sub.appended[sub.executed].command
    ensures Next(sub).Copy? ==>
              |captured| < |calls| && CallOf(sub.appended[sub.executed]) == [calls[|captured|]]
  {
    var e := sub.executed;
    Sub.GpuRunsInAppendOrder(sub);
    CallsStep(sub.appended, e);
    CallsPrefix(sub.appended, e + 1);
  }

  /** Capturing call e writes its own range and no other undelivered one. */
  lemma CaptureRanges(s: State, data: Bytes)
    requires HeapOk(s.chunks, s.nextResource, s.memory, |s.calls|)
    requires RangesOk(s.chunks, s.memory, s.calls, s.captured, |s.delivered|)
    requires |s.delivered| <= |s.captured| < |s.calls| && |data| == s.calls[|s.captured|].size
    ensures var c := s.calls[|s.captured|];
            var memory' := Write(s.memory, c.resource, c.offset, data);
            && HeapOk(s.chunks, s.nextResource, memory', |s.calls|)
            && RangesOk(s.chunks, memory', s.calls, s.captured + [data], |s.delivered|)
  {
    var e := |s.captured|;
    var c := s.calls[e];
    var memory' := Write(s.memory, c.resource, c.offset, data);
    assert Undelivered(s.chunks, s.memory, s.calls, s.captured, e);
    WriteKeepsBacked(s.chunks, s.memory, c.resource, c.offset, data);
    forall k | |s.delivered| <= k < |s.calls| ensures Undelivered(s.chunks, memory', s.calls, s.captured + [data], k) {
      assert Undelivered(s.chunks, s.memory, s.calls, s.captured, k);
      if k == e {
        LiveInBuffer(s.chunks, s.nextResource, s.memory, c.resource, RangeOf(s.calls, e));
        WriteThenRead(s.memory, c.resource, c.offset, data);
      } else {
        LiveDisjoint(s.chunks, s.nextResource, c.resource, RangeOf(s.calls, e), s.calls[k].resource, RangeOf(s.calls, k));
        WriteElsewhere(s.memory, c.resource, c.offset, data, s.calls[k].resource, s.calls[k].offset, s.calls[k].size);
      }
    }
  }

  lemma GpuCalls(sub: Sub.State<Command>, calls: seq<Call>, captured: seq<Bytes>, data: Bytes)
    requires Sub.Inv(sub) && CallsOk(sub, calls, captured) && Sub.Enabled(sub, Sub.GpuCommand)
    ensures Next(sub).Copy? ==> CallsOk(Sub.Step(sub, Sub.GpuCommand), calls, captured + [data])
    ensures Next(sub).Other? ==> CallsOk(Sub.Step(sub, Sub.GpuCommand), calls, captured)
  {
    NextIsFirstUncaptured(sub, calls, captured);
  }

  lemma CaptureDelivery(cpuFence: nat, delivered: seq<Bytes>, captured: seq<Bytes>, calls: seq<Call>, data: Bytes)
    requires DeliveryOk(cpuFence, delivered, captured, calls)
    requires |captured| < |calls| && |data| == calls[|captured|].size
    ensures DeliveryOk(cpuFence, delivered, captured + [data], calls)
  {
  }

  lemma GpuInv(s: State, data: Bytes)
    requires Inv(s) && Enabled(s, GpuNext(data))
    ensures Inv(Step(s, GpuNext(data)))
  {
    hide Sub.Inv, EQ.Inv, HeapOk, RangesOk, Undelivered, CallsOk, Paired, InCallOrder, Owners;
    Sub.StepInv(s.sub, Sub.GpuCommand);
    GpuCalls(s.sub, s.calls, s.captured, data);
    if Next(s.sub).Copy? {
      NextIsFirstUncaptured(s.sub, s.calls, s.captured);
      CaptureDelivery(s.cpuFence, s.delivered, s.captured, s.calls, data);
      CaptureRanges(s, data);
    }
  }

  lemma GpuSignalInv(s: State)
    requires Inv(s) && Enabled(s, GpuSignal)
    ensures Inv(Step(s, GpuSignal))
  {
    Sub.StepInv(s.sub, Sub.GpuSignal);
    var value := s.sub.submitted[s.sub.completed].signal;
    EQ.StepInv(s.queue, EQ.Advance(value));
    assert EQ.Timeline(s.queue.(completed := value)) == EQ.Timeline(s.queue);
  }

  // ---------- Queue steps ----------

  /** Entries behind a readback's callback wait longer, so none of them is a readback's. */
  lemma NothingBehind(q: EQ.State, callbacks: seq<Option<nat>>, calls: seq<Call>, handed: int, fence: nat,
                      front: seq<EQ.Entry>, back: seq<EQ.Entry>)
    requires EQ.Inv(q) && EQ.Timeline(q) == front + back && Paired(callbacks, q.enqueued, calls, handed)
    requires forall d <- back :: fence < d.fence
    requires Ascending(calls, fence)
    ensures Owners(back, callbacks) == []
  {
    forall d: EQ.Entry | d in back ensures Owner(callbacks, d).None? {
      assert d in front + back;
      EntryIsEnqueued(q, d);
    }
    NoOwners(back, callbacks);
  }

  lemma IdsBounded(q: EQ.State, part: seq<EQ.Entry>, n: nat)
    requires EQ.Inv(q) && n == |q.enqueued|
    requires forall d <- part :: d in EQ.Timeline(q)
    ensures forall d <- part :: d.id < n
  {
    forall d: EQ.Entry | d in part ensures d.id < n {
      EntryIsEnqueued(q, d);
    }
  }

  /** Inserting one entry between front and back inserts its owner there. */
  lemma OwnersInsert(front: seq<EQ.Entry>, back: seq<EQ.Entry>, e: EQ.Entry, callbacks: seq<Option<nat>>, owner: Option<nat>)
    requires e.id == |callbacks|
    requires forall d <- front :: d.id < |callbacks|
    requires forall d <- back :: d.id < |callbacks|
    ensures Owners(front + [e] + back, callbacks + [owner]) ==
            Owners(front, callbacks) + (match owner case Some(k) => [k] case None => []) + Owners(back, callbacks)
  {
    OwnersConcat(front + [e], back, callbacks + [owner]);
    OwnersConcat(front, [e], callbacks + [owner]);
    OwnersStable(front, callbacks, owner);
    OwnersStable(back, callbacks, owner);
    assert [e][..0] == [];
  }

  /** Inserting the next readback's callback with none behind it, or anyone else's callback, keeps the call order. */
  lemma OwnersGrow(front: seq<EQ.Entry>, back: seq<EQ.Entry>, e: EQ.Entry, callbacks: seq<Option<nat>>,
                   owner: Option<nat>, handed: nat)
    requires e.id == |callbacks|
    requires forall d <- front :: d.id < |callbacks|
    requires forall d <- back :: d.id < |callbacks|
    requires Owners(front + back, callbacks) == Upto(handed)
    requires owner.Some? ==> owner.value == handed && Owners(back, callbacks) == []
    ensures Owners(front + [e] + back, callbacks + [owner]) == Upto(handed + if owner.Some? then 1 else 0)
  {
    hide Owners, Upto;
    OwnersConcat(front, back, callbacks);
    OwnersInsert(front, back, e, callbacks, owner);
    match owner
    case Some(k) =>
      UptoNext(handed);
      assert Owners(front, callbacks) + [] == Owners(front, callbacks);
      assert Owners(front, callbacks) + [k] + [] == Owners(front, callbacks) + [k];
    case None =>
      assert Owners(front, callbacks) + [] + Owners(back, callbacks) ==
             Owners(front, callbacks) + Owners(back, callbacks);
  }

  lemma EnqueueOwners(q: EQ.State, callbacks: seq<Option<nat>>, calls: seq<Call>, handed: nat, fence: Word, owner: Option<nat>)
    requires EQ.Inv(q) && q.processing == []
    requires Paired(callbacks, q.enqueued, calls, handed) && InCallOrder(q, callbacks, handed)
    requires owner.Some? ==> owner.value == handed && Ascending(calls, fence)
    ensures InCallOrder(EQ.Step(q, EQ.Enqueue(fence)), callbacks + [owner], handed + if owner.Some? then 1 else 0)
  {
    hide EQ.Inv, EQ.Step, EQ.Timeline, Ascending, Owners, Upto;
    var front, back := EQ.EnqueueSplits(q, fence);
    IdsBounded(q, front, |callbacks|);
    IdsBounded(q, back, |callbacks|);
    if owner.Some? {
      NothingBehind(q, callbacks, calls, handed, fence, front, back);
    }
    OwnersGrow(front, back, EQ.Entry(fence, |q.enqueued|), callbacks, owner, handed);
  }

  lemma UptoNext(n: nat)
    ensures Upto(n + 1) == Upto(n) + [n]
  {
  }

  lemma RanOwners(q: EQ.State, callbacks: seq<Option<nat>>, owner: Option<nat>)
    requires EQ.Inv(q) && |callbacks| == |q.enqueued|
    ensures Owners(q.ran, callbacks + [owner]) == Owners(q.ran, callbacks)
  {
    IdsBounded(q, q.ran, |callbacks|);
    OwnersStable(q.ran, callbacks, owner);
  }

  /** Enqueue touches neither what ran nor what completed, and numbers its entry next. */
  lemma EnqueueFrame(q: EQ.State, fence: Word)
    requires q.processing == []
    ensures var q' := EQ.Step(q, EQ.Enqueue(fence));
            && q'.ran == q.ran && q'.completed == q.completed
            && q'.enqueued == q.enqueued + [EQ.Entry(fence, |q.enqueued|)]
  {
  }

  lemma PairedOneMore(callbacks: seq<Option<nat>>, enqueued: seq<EQ.Entry>, calls: seq<Call>, handed: nat, fence: Word,
                      owner: Option<nat>)
    requires Paired(callbacks, enqueued, calls, handed)
    requires owner.Some? ==> owner.value == handed < |calls| && calls[handed].gpuFence == fence < UINT64_MAX
    ensures Paired(callbacks + [owner], enqueued + [EQ.Entry(fence, |enqueued|)], calls,
                   handed + if owner.Some? then 1 else 0)
  {
  }

  lemma LastIsLargest(sub: Sub.State<Command>, calls: seq<Call>, captured: seq<Bytes>)
    requires CallsOk(sub, calls, captured) && calls != []
    ensures Ascending(calls, calls[|calls| - 1].gpuFence)
  {
  }

  lemma EnqueueInv(s: State)
    requires Inv(s) && Enabled(s, Enqueue)
    ensures Inv(Step(s, Enqueue))
  {
    hide Sub.Inv, EQ.Inv, HeapOk, RangesOk, Undelivered, InCallOrder, Owners;
    var k := |s.calls| - 1;
    var fence := s.calls[k].gpuFence;
    EQ.StepInv(s.queue, EQ.Enqueue(fence));
    EnqueueFrame(s.queue, fence);
    LastIsLargest(s.sub, s.calls, s.captured);
    EnqueueOwners(s.queue, s.callbacks, s.calls, k, fence, Some(k));
    RanOwners(s.queue, s.callbacks, Some(k));
    PairedOneMore(s.callbacks, s.queue.enqueued, s.calls, k, fence, Some(k));
    assert Step(s, Enqueue) ==
           s.(queue := EQ.Step(s.queue, EQ.Enqueue(fence)), callbacks := s.callbacks + [Some(k)], phase := Idle);
  }

  lemma ForeignInv(s: State, fence: Word)
    requires Inv(s) && Enabled(s, ForeignEnqueue(fence))
    ensures Inv(Step(s, ForeignEnqueue(fence)))
  {
    hide Sub.Inv, EQ.Inv, HeapOk, RangesOk, Undelivered, CallsOk, Owners;
    EQ.StepInv(s.queue, EQ.Enqueue(fence));
    EnqueueFrame(s.queue, fence);
    EnqueueOwners(s.queue, s.callbacks, s.calls, Handed(s.phase, s.calls), fence, None);
    RanOwners(s.queue, s.callbacks, None);
    PairedOneMore(s.callbacks, s.queue.enqueued, s.calls, Handed(s.phase, s.calls), fence, None);
  }

  lemma CollectInv(s: State)
    requires Inv(s) && Enabled(s, Collect)
    ensures Inv(Step(s, Collect))
  {
    EQ.StepInv(s.queue, EQ.Collect);
    EQ.CollectTimeline(s.queue);
  }

  /** The next callback's owner, if any, is the first readback whose callback has not run. */
  lemma OwnerIsNext(q: EQ.State, callbacks: seq<Option<nat>>, handed: nat)
    requires EQ.Enabled(q, EQ.Invoke) && InCallOrder(q, callbacks, handed)
    ensures var owner := Owner(callbacks, q.processing[0]);
            && Owners(q.ran + [q.processing[0]], callbacks) ==
                 Owners(q.ran, callbacks) + (match owner case Some(k) => [k] case None => [])
            && (owner.Some? ==> owner.value == |Owners(q.ran, callbacks)| < handed)
  {
    var e := q.processing[0];
    var rest := q.processing[1..] + q.pending;
    assert EQ.Timeline(q) == q.ran + [e] + rest;
    OwnersConcat(q.ran + [e], rest, callbacks);
    OwnersConcat(q.ran, [e], callbacks);
    assert [e][..0] == [];
    if Owner(callbacks, e).Some? {
      assert Upto(handed)[|Owners(q.ran, callbacks)|] == Owner(callbacks, e).value;
    }
  }

  /** A readback callback runs only after its copy was captured. */
  lemma CallbackIsCaptured(s: State)
    requires Inv(s) && Enabled(s, Callback) && Owner(s.callbacks, s.queue.processing[0]).Some?
    ensures Owner(s.callbacks, s.queue.processing[0]).value < |s.captured|
  {
    var q := s.queue;
    var e := q.processing[0];
    assert e in EQ.Timeline(q);
    EntryIsEnqueued(q, e);
    SignalledMeansCaptured(s.sub, s.calls, s.captured, s.callbacks[e.id].value);
  }

  /** With no readback's callback pending or running, all that were handed over have run. */
  lemma AllHandedHaveRun(q: EQ.State, callbacks: seq<Option<nat>>, handed: int)
    requires q.processing == [] && InCallOrder(q, callbacks, handed) && Owners(q.pending, callbacks) == []
    ensures |Owners(q.ran, callbacks)| == handed
  {
    OwnersConcat(q.ran, q.pending, callbacks);
    assert EQ.Timeline(q) == q.ran + q.pending;
    hide EQ.Timeline, Owners;
  }

  lemma RangesNarrow(chunks: seq<Chunk>, memory: map<nat, Bytes>, calls: seq<Call>, captured: seq<Bytes>, low: nat, low': nat)
    requires RangesOk(chunks, memory, calls, captured, low) && low <= low'
    ensures RangesOk(chunks, memory, calls, captured, low')
  {
  }

  lemma CallbackIsNext(s: State)
    requires Inv(s) && Enabled(s, Callback) && s.sub.statusOk
    requires Owner(s.callbacks, s.queue.processing[0]).Some?
    ensures Owner(s.callbacks, s.queue.processing[0]) == Some(|s.delivered|) && |s.delivered| < |s.captured|
  {
    OwnerIsNext(s.queue, s.callbacks, Handed(s.phase, s.calls));
    CallbackIsCaptured(s);
  }

  lemma RunDelivers(s: State, k: nat)
    requires s.sub.statusOk && k == |s.delivered| == s.cpuFence
    requires DeliveryOk(s.cpuFence, s.delivered, s.captured, s.calls) && k < |s.captured|
    requires RangesOk(s.chunks, s.memory, s.calls, s.captured, |s.delivered|)
    ensures RunCallback(s, Some(k)) == s.(delivered := s.delivered + [s.captured[k]], cpuFence := s.cpuFence + 1)
    ensures s.delivered + [s.captured[k]] <= s.captured
  {
    assert Undelivered(s.chunks, s.memory, s.calls, s.captured, k);
  }

  /** While commands can still be recorded, each readback callback advances the CPU fence by exactly one. */
  lemma CallbackAdvancesByOne(s: State)
    requires Inv(s) && Enabled(s, Callback) && s.sub.statusOk
    requires Owner(s.callbacks, s.queue.processing[0]).Some?
    ensures var k := |s.delivered|;
            && Owner(s.callbacks, s.queue.processing[0]) == Some(k) && k < |s.captured|
            && RunCallback(s, Some(k)) == s.(delivered := s.delivered + [s.captured[k]], cpuFence := s.cpuFence + 1)
            && s.delivered + [s.captured[k]] <= s.captured
  {
    CallbackIsNext(s);
    RunDelivers(s, |s.delivered|);
  }

  /** The queue after a callback, and the readbacks whose callbacks have now run. */
  lemma CallbackQueue(s: State) returns (q: EQ.State)
    requires Inv(s) && Enabled(s, Callback)
    ensures q == EQ.Step(s.queue, EQ.Invoke) && EQ.Inv(q)
    ensures q.completed == s.queue.completed && q.enqueued == s.queue.enqueued
    ensures InCallOrder(q, s.callbacks, Handed(s.phase, s.calls))
    ensures |Owners(q.ran, s.callbacks)| == |Owners(s.queue.ran, s.callbacks)| +
              if Owner(s.callbacks, s.queue.processing[0]).Some? then 1 else 0
  {
    OwnerIsNext(s.queue, s.callbacks, Handed(s.phase, s.calls));
    EQ.InvokeInv(s.queue);
    q := EQ.Step(s.queue, EQ.Invoke);
  }

  lemma CallbackInv(s: State)
    requires Inv(s) && Enabled(s, Callback)
    ensures Inv(Step(s, Callback))
  {
    hide Sub.Inv, EQ.Inv, HeapOk, RangesOk, Undelivered, CallsOk, Paired, InCallOrder;
    var q := CallbackQueue(s);
    if s.sub.statusOk && Owner(s.callbacks, s.queue.processing[0]).Some? {
      CallbackAdvancesByOne(s);
      RangesNarrow(s.chunks, s.memory, s.calls, s.captured, |s.delivered|, |s.delivered| + 1);
      var k := |s.delivered|;
      assert Step(s, Callback) == s.(queue := q, delivered := s.delivered + [s.captured[k]], cpuFence := k + 1);
    } else {
      assert Step(s, Callback) == s.(queue := q);
    }
  }

  lemma ProtocolCalls(s: State, p: Sub.Event<Command>)
    requires CallsOk(s.sub, s.calls, s.captured) && Sub.Inv(s.sub) && Enabled(s, Protocol(p))
    ensures CallsOk(Sub.Step(s.sub, p), s.calls, s.captured)
    ensures Sub.Step(s.sub, p).completed == s.sub.completed
  {
    var sub' := Sub.Step(s.sub, p);
    assert sub'.appended[..s.sub.executed] == s.sub.appended[..s.sub.executed];
    if p.Append? {
      assert sub'.appended[..|s.sub.appended|] == s.sub.appended;
    }
  }

  lemma ProtocolInv(s: State, p: Sub.Event<Command>)
    requires Inv(s) && Enabled(s, Protocol(p))
    ensures Inv(Step(s, Protocol(p)))
  {
    hide Sub.Inv, EQ.Inv, HeapOk, RangesOk, Undelivered, CallsOk, Paired, InCallOrder, DeliveryOk;
    Sub.StepInv(s.sub, p);
    ProtocolCalls(s, p);
    StatusOnlyFails(s.sub, p);
  }

  lemma StatusOnlyFails(sub: Sub.State<Command>, p: Sub.Event<Command>)
    requires Sub.Enabled(sub, p)
    ensures Sub.Step(sub, p).statusOk ==> sub.statusOk
  {
  }

  lemma ExitInv(s: State)
    requires Inv(s) && Enabled(s, EventThreadExit)
    ensures Inv(Step(s, EventThreadExit))
  {
    EQ.StepInv(s.queue, EQ.Exit);
    assert EQ.Timeline(s.queue.(exited := true)) == EQ.Timeline(s.queue);
  }

  lemma StepInv(s: State, e: Event)
    requires Inv(s) && Enabled(s, e)
    ensures Inv(Step(s, e))
  {
    match e
    case Reserve(_, _, _) => ReserveInv(s, e);
    case Append => AppendInv(s);
    case Enqueue => EnqueueInv(s);
    case ReclaimFront(n) => ReclaimInv(s, n);
    case Trim => TrimInv(s);
    case GpuNext(data) => GpuInv(s, data);
    case GpuSignal => GpuSignalInv(s);
    case Collect => CollectInv(s);
    case Callback => CallbackInv(s);
    case ForeignEnqueue(fence) => ForeignInv(s, fence);
    case EventThreadExit => ExitInv(s);
    case Protocol(p) => ProtocolInv(s, p);
  }

  // ---------- Whole runs ----------

  ghost predicate Run(events: seq<Event>, s: State, s': State)
    decreases |events|
  {
    if events == [] then s == s'
    else Enabled(s, events[0]) && Run(events[1..], Step(s, events[0]), s')
  }

  lemma {:induction false} RunKeepsInv(events: seq<Event>, s: State, s': State)
    requires Inv(s) && Run(events, s, s')
    ensures Inv(s')
    decreases |events|
  {
    if events != [] {
      StepInv(s, events[0]);
      RunKeepsInv(events[1..], Step(s, events[0]), s');
    }
  }

  // ---------- What the events alone ask for and supply ----------

  /** The sizes of the readbacks: a Reserve names one, and the Append after it makes it a call. */
  function AskedSizes(events: seq<Event>, reserved: Option<nat>): seq<nat> {
    if events == [] then []
    else
      match events[0]
      case Reserve(size, _, _) => AskedSizes(events[1..], Some(size))
      case Append => (if reserved.Some? then [reserved.value] else []) + AskedSizes(events[1..], None)
      case _ => AskedSizes(events[1..], reserved)
  }

  /** The size that has been reserved and not appended. */
  function LastReserved(events: seq<Event>, reserved: Option<nat>): Option<nat> {
    if events == [] then reserved
    else
      match events[0]
      case Reserve(size, _, _) => LastReserved(events[1..], Some(size))
      case Append => LastReserved(events[1..], None)
      case _ => LastReserved(events[1..], reserved)
  }

  /** Which appended commands are readback copies, in the order of the appends. */
  function CopyFlags(events: seq<Event>): seq<bool> {
    if events == [] then []
    else
      (match events[0]
       case Append => [true]
       case Protocol(p) => if p.Append? then [false] else []
       case _ => []) + CopyFlags(events[1..])
  }

  /** What the source region held when the GPU finished each command, in the order in which it did. */
  function GpuData(events: seq<Event>): seq<Bytes> {
    if events == [] then []
    else (if events[0].GpuNext? then [events[0].data] else []) + GpuData(events[1..])
  }

  /** The data of the readback copies: the n-th command finished is the n-th one appended. */
  function Picked(data: seq<Bytes>, flags: seq<bool>): seq<Bytes>
    requires |data| <= |flags|
  {
    if data == [] then []
    else
      var last := |data| - 1;
      Picked(data[..last], flags) + if flags[last] then [data[last]] else []
  }

  function ReservedSize(phase: Phase): Option<nat> {
    match phase case Reserved_(_, size) => Some(size) case _ => None
  }

  function Sizes(calls: seq<Call>): (r: seq<nat>)
    ensures |r| == |calls|
  {
    seq(|calls|, i requires 0 <= i < |calls| => calls[i].size)
  }

  lemma StepSizes(s: State, e: Event)
    requires Enabled(s, e)
    ensures var reserved := ReservedSize(s.phase);
            && Sizes(Step(s, e).calls) == Sizes(s.calls) + AskedSizes([e], reserved)
            && ReservedSize(Step(s, e).phase) == LastReserved([e], reserved)
  {
    assert [e][1..] == [];
    hide Sub.Step, EQ.Step, Reserved, Record;
  }

  /** Taking the first event off. */
  lemma SizesStep(events: seq<Event>, reserved: Option<nat>)
    requires events != []
    ensures var e, rest := [events[0]], events[1..];
            && AskedSizes(events, reserved) == AskedSizes(e, reserved) + AskedSizes(rest, LastReserved(e, reserved))
            && LastReserved(events, reserved) == LastReserved(rest, LastReserved(e, reserved))
  {
    assert [events[0]][1..] == [];
    assert AskedSizes([], None) == [];
  }

  lemma {:induction false} RunSizes(events: seq<Event>, s: State, s': State)
    requires Run(events, s, s')
    ensures Sizes(s'.calls) == Sizes(s.calls) + AskedSizes(events, ReservedSize(s.phase))
    ensures ReservedSize(s'.phase) == LastReserved(events, ReservedSize(s.phase))
    decreases |events|
  {
    hide Step, Enabled;
    if events != [] {
      StepSizes(s, events[0]);
      SizesStep(events, ReservedSize(s.phase));
      RunSizes(events[1..], Step(s, events[0]), s');
    }
  }

  /** Which appended commands are copies. */
  predicate Flagged(appended: seq<Sub.Tagged<Command>>, flags: seq<bool>) {
    |flags| == |appended| && forall i :: 0 <= i < |flags| ==> flags[i] == appended[i].command.Copy?
  }

  /** The GPU's log so far: which commands were copies, and what the first of them supplied. */
  ghost predicate Logged(s: State, data: seq<Bytes>, flags: seq<bool>) {
    && Flagged(s.sub.appended, flags) && |data| == s.sub.executed <= |flags|
    && s.captured == Picked(data, flags)
  }

  lemma {:induction false} PickedStable(data: seq<Bytes>, flags: seq<bool>, extra: seq<bool>)
    requires |data| <= |flags|
    ensures Picked(data, flags + extra) == Picked(data, flags)
  {
    if data != [] {
      PickedStable(data[..|data| - 1], flags, extra);
    }
  }

  /** An append adds its flag; no other event touches the history. */
  lemma StepFlags(s: State, e: Event, flags: seq<bool>)
    requires Enabled(s, e) && Flagged(s.sub.appended, flags)
    ensures Flagged(Step(s, e).sub.appended, flags + CopyFlags([e]))
  {
    assert [e][1..] == [];
    assert flags + [] == flags;
    hide EQ.Step, Reserved, Record;
  }

  /** Only a finished command moves the GPU, and only a copy captures. */
  lemma StepData(s: State, e: Event)
    requires Enabled(s, e)
    ensures Step(s, e).sub.executed == s.sub.executed + |GpuData([e])|
    ensures e.GpuNext? ==> GpuData([e]) == [e.data] && CopyFlags([e]) == []
    ensures !e.GpuNext? ==> GpuData([e]) == []
    ensures Step(s, e).captured == s.captured + if e.GpuNext? && Next(s.sub).Copy? then [e.data] else []
  {
    assert [e][1..] == [];
    hide EQ.Step, Reserved, Record;
  }

  lemma PickedNext(data: seq<Bytes>, flags: seq<bool>, d: Bytes)
    requires |data| < |flags|
    ensures Picked(data + [d], flags) == Picked(data, flags) + if flags[|data|] then [d] else []
  {
    assert (data + [d])[..|data|] == data;
  }

  lemma NextIsAppended(s: State)
    requires Inv(s) && Sub.Enabled(s.sub, Sub.GpuCommand)
    ensures s.sub.executed < |s.sub.appended| && Next(s.sub) == s.sub.appended[s.sub.executed].command
  {
    NextIsFirstUncaptured(s.sub, s.calls, s.captured);
  }

  lemma GpuKeepsLog(s: State, e: Event, data: seq<Bytes>, flags: seq<bool>)
    requires Inv(s) && Enabled(s, e) && e.GpuNext? && Logged(s, data, flags)
    ensures Logged(Step(s, e), data + GpuData([e]), flags + CopyFlags([e]))
  {
    hide Inv, Step, Enabled, Picked, CopyFlags, GpuData, Next;
    StepFlags(s, e, flags);
    StepData(s, e);
    GpuNeedsCommand(s, e);
    NextIsAppended(s);
    PickedNext(data, flags, e.data);
    assert flags + [] == flags;
  }

  lemma GpuNeedsCommand(s: State, e: Event)
    requires Enabled(s, e) && e.GpuNext?
    ensures Sub.Enabled(s.sub, Sub.GpuCommand)
  {
  }

  lemma OtherKeepsLog(s: State, e: Event, data: seq<Bytes>, flags: seq<bool>)
    requires Enabled(s, e) && !e.GpuNext? && Logged(s, data, flags)
    ensures Logged(Step(s, e), data + GpuData([e]), flags + CopyFlags([e]))
  {
    hide Step, Enabled, Picked, CopyFlags, GpuData, Next;
    StepFlags(s, e, flags);
    StepData(s, e);
    PickedStable(data, flags, CopyFlags([e]));
    assert data + [] == data && s.captured + [] == s.captured;
  }

  lemma StepKeepsLog(s: State, e: Event, data: seq<Bytes>, flags: seq<bool>)
    requires Inv(s) && Enabled(s, e) && Logged(s, data, flags)
    ensures Logged(Step(s, e), data + GpuData([e]), flags + CopyFlags([e]))
  {
    hide *;
    if e.GpuNext? { GpuKeepsLog(s, e, data, flags); } else { OtherKeepsLog(s, e, data, flags); }
  }

  lemma DataStep(events: seq<Event>)
    requires events != []
    ensures GpuData(events) == GpuData([events[0]]) + GpuData(events[1..])
  {
    assert [events[0]][1..] == [];
    assert GpuData([]) == [];
  }

  lemma FlagsStep(events: seq<Event>)
    requires events != []
    ensures CopyFlags(events) == CopyFlags([events[0]]) + CopyFlags(events[1..])
  {
    assert [events[0]][1..] == [];
    assert CopyFlags([]) == [];
  }

  lemma {:induction false} RunKeepsLog(events: seq<Event>, s: State, s': State, data: seq<Bytes>, flags: seq<bool>)
    requires Inv(s) && Run(events, s, s') && Logged(s, data, flags)
    ensures Logged(s', data + GpuData(events), flags + CopyFlags(events))
    decreases |events|
  {
    hide Step, Enabled, Inv, Logged;
    if events == [] {
      assert data + GpuData(events) == data && flags + CopyFlags(events) == flags;
    } else {
      var d, f := GpuData([events[0]]), CopyFlags([events[0]]);
      StepInv(s, events[0]);
      StepKeepsLog(s, events[0], data, flags);
      DataStep(events);
      FlagsStep(events);
      RunKeepsLog(events[1..], Step(s, events[0]), s', data + d, flags + f);
      assert data + d + GpuData(events[1..]) == data + GpuData(events);
      assert flags + f + CopyFlags(events[1..]) == flags + CopyFlags(events);
    }
  }

  /**
   * In every run, the calls have the sizes that were asked for, in order, and what counts as captured is what the
   * source held when the GPU finished the copies.
   */
  lemma CallsAreAsked(events: seq<Event>, s: State)
    requires Run(events, Init(), s)
    ensures Sizes(s.calls) == AskedSizes(events, None)
    ensures |GpuData(events)| <= |CopyFlags(events)| && s.captured == Picked(GpuData(events), CopyFlags(events))
  {
    hide Run, Inv, Step, Enabled;
    InitInv();
    RunSizes(events, Init(), s);
    RunKeepsLog(events, Init(), s, [], []);
    var data, flags := GpuData(events), CopyFlags(events);
    hide AskedSizes, GpuData, CopyFlags, Picked;
    assert [] + data == data && [] + flags == flags;
    assert [] + AskedSizes(events, None) == AskedSizes(events, None);
  }

  /** A captured copy is as long as the call it belongs to. */
  ghost predicate FullSize(sizes: seq<nat>, captured: seq<Bytes>) {
    |captured| <= |sizes| && forall k :: 0 <= k < |captured| ==> |captured[k]| == sizes[k]
  }

  lemma MoreSizes(sizes: seq<nat>, captured: seq<Bytes>, extra: seq<nat>)
    requires FullSize(sizes, captured)
    ensures FullSize(sizes + extra, captured)
  {
  }

  lemma NextHasSize(s: State, e: Event)
    requires Inv(s) && Enabled(s, e) && e.GpuNext? && Next(s.sub).Copy?
    ensures |s.captured| < |Sizes(s.calls)| && |e.data| == Sizes(s.calls)[|s.captured|]
  {
    NextIsFirstUncaptured(s.sub, s.calls, s.captured);
  }

  lemma StepKeepsFullSize(s: State, e: Event)
    requires Inv(s) && Enabled(s, e) && FullSize(Sizes(s.calls), s.captured)
    ensures FullSize(Sizes(Step(s, e).calls), Step(s, e).captured)
  {
    hide Step, Enabled, Inv, Next, AskedSizes, LastReserved, Sizes;
    StepSizes(s, e);
    StepData(s, e);
    if e.GpuNext? && Next(s.sub).Copy? { NextHasSize(s, e); }
    MoreSizes(Sizes(s.calls), Step(s, e).captured, AskedSizes([e], ReservedSize(s.phase)));
  }

  lemma {:induction false} RunKeepsFullSize(events: seq<Event>, s: State, s': State)
    requires Inv(s) && Run(events, s, s') && FullSize(Sizes(s.calls), s.captured)
    ensures FullSize(Sizes(s'.calls), s'.captured)
    decreases |events|
  {
    hide Step, Enabled, Inv, FullSize;
    if events != [] {
      StepInv(s, events[0]);
      StepKeepsFullSize(s, events[0]);
      RunKeepsFullSize(events[1..], Step(s, events[0]), s');
    }
  }

  /**
   * In every interleaving, what has reached the callers is the beginning of what the GPU copied out for them, in
   * call order and as long as each of them asked for, and the CPU fence counts exactly the deliveries. Sizes and
   * bytes are those of the events.
   */
  lemma ReadbacksArriveIntact(events: seq<Event>, s: State)
    requires Run(events, Init(), s)
    ensures |GpuData(events)| <= |CopyFlags(events)|
    ensures s.delivered <= Picked(GpuData(events), CopyFlags(events))
    ensures s.cpuFence == |s.delivered| <= |AskedSizes(events, None)|
    ensures forall k :: 0 <= k < |s.delivered| ==> |s.delivered[k]| == AskedSizes(events, None)[k]
  {
    ReachableInv(events, s);
    CallsAreAsked(events, s);
    RunFullSize(events, s);
    DeliveredSizes(s);
    hide Run, Inv, AskedSizes, GpuData, CopyFlags, Picked, FullSize, Sizes;
  }

  lemma RunFullSize(events: seq<Event>, s: State)
    requires Run(events, Init(), s)
    ensures FullSize(Sizes(s.calls), s.captured)
  {
    hide Run, Inv;
    InitInv();
    RunKeepsFullSize(events, Init(), s);
  }

  lemma DeliveredSizes(s: State)
    requires Inv(s) && FullSize(Sizes(s.calls), s.captured)
    ensures s.delivered <= s.captured && s.cpuFence == |s.delivered| <= |s.captured| <= |Sizes(s.calls)|
    ensures forall k :: 0 <= k < |s.delivered| ==> |s.delivered[k]| == Sizes(s.calls)[k]
  {
    hide Sub.Inv, EQ.Inv, CallsOk, Paired, InCallOrder, HeapOk, RangesOk, Owners;
  }

  /** The CPU value that an Append returns belongs to the call it makes. */
  lemma SizesGrow(before: seq<Event>, s0: State, after: seq<Event>, s: State)
    requires Run(before, Init(), s0) && Enabled(s0, Append) && Run(after, Step(s0, Append), s)
    ensures LastReserved(before, None).Some? && |s0.calls| == |AskedSizes(before, None)| < |s.calls|
    ensures s.calls[|s0.calls|].size == LastReserved(before, None).value
  {
    RunSizes(before, Init(), s0);
    var s1 := Step(s0, Append);
    RunSizes(after, s1, s);
    var k := |s0.calls|;
    assert s1.calls[k].size == s0.phase.size;
    hide Run, Step, Enabled, AskedSizes, LastReserved;
    assert Sizes(s.calls)[k] == Sizes(s1.calls)[k];
    assert Sizes(s.calls)[k] == s.calls[k].size && Sizes(s1.calls)[k] == s1.calls[k].size;
  }

  /**
   * Once the event a readback returned is signalled, its caller has what the GPU copied out for it, and as many
   * bytes as the Reserve before its Append asked for.
   */
  lemma SignalledReadbackArrived(before: seq<Event>, s0: State, after: seq<Event>, s: State)
    requires Run(before, Init(), s0) && Enabled(s0, Append) && Run(after, Step(s0, Append), s)
    requires |s0.calls| + 1 <= s.cpuFence
    ensures LastReserved(before, None).Some? && |AskedSizes(before, None)| < |s.delivered| <= |s.captured|
    ensures var k := |AskedSizes(before, None)|;
            s.delivered[k] == s.captured[k] && |s.delivered[k]| == LastReserved(before, None).value
  {
    hide Run, Step, Enabled, Inv, AskedSizes, LastReserved, FullSize;
    ReachableInv(before, s0);
    StepInv(s0, Append);
    RunKeepsInv(after, Step(s0, Append), s);
    SizesGrow(before, s0, after, s);
    RunFullSize(before, s0);
    StepKeepsFullSize(s0, Append);
    RunKeepsFullSize(after, Step(s0, Append), s);
    DeliveredSizes(s);
  }

  /** The CPU fence never goes back, and every readback callback that signals moves it by one, in call order. */
  lemma CpuFenceCountsCallbacks(events: seq<Event>, s: State, e: Event)
    requires Run(events, Init(), s) && Enabled(s, e)
    ensures Step(s, e).cpuFence == s.cpuFence ||
            (e.Callback? && Step(s, e).cpuFence == s.cpuFence + 1
             && Owner(s.callbacks, s.queue.processing[0]) == Some(s.cpuFence))
  {
    if e.Callback? && s.sub.statusOk && Owner(s.callbacks, s.queue.processing[0]).Some? {
      ReachableInv(events, s);
      CallbackAdvancesByOne(s);
    }
  }

  lemma ReachableInv(events: seq<Event>, s: State)
    requires Run(events, Init(), s)
    ensures Inv(s)
  {
    InitInv();
    RunKeepsInv(events, Init(), s);
  }

  /** A range handed to a new readback avoids the range of every readback not delivered yet. */
  lemma ReserveAvoidsUndelivered(events: seq<Event>, s: State, e: Event, k: nat)
    requires Run(events, Init(), s) && Enabled(s, e) && e.Reserve? && s.cpuFence <= k < |s.calls|
    ensures var s' := Step(s, e);
            var r, c := s'.phase.r, s.calls[k];
            && 0 < c.size && r.chunk < |s'.chunks|
            && (c.resource == s'.chunks[r.chunk].resource ==> Disjoint(r.offset, e.size, c.offset, c.size))
  {
    ReachableInv(events, s);
    assert Undelivered(s.chunks, s.memory, s.calls, s.captured, k);
    LiveAfterReserve(s.chunks, s.nextResource, s.memory, |s.calls|, e.size, e.available, e.contents,
                     s.calls[k].resource, RangeOf(s.calls, k));
  }
}
