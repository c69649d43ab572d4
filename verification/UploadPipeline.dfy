/**
 * Uploads end to end: the upload heap stages bytes in pooled chunks, the execution context submits the
 * copies, the GPU performs them later, and ranges are reused once their fence value completes
 * (tfdml/core/dml_upload_heap.cc with the pooled heap and the execution context).
 */
module UploadPipeline {
  import opened Wrappers
  import opened PooledHeap
  import opened StagingMemory
  import Sub = Submission

  datatype Request = Request(dst: nat, data: Bytes)

  /**
   * A copy names only its source range and destination; `asked` is history, the request it stands for,
   * which the GPU never looks at. Other stands for any command appended by anyone else.
   */
  datatype Command = Copy(resource: nat, offset: nat, size: nat, dst: nat, asked: Request) | Other

  datatype Phase =
    | Idle
    | Staged(r: Reservation, request: Request)  // bytes are in place, the copy is not appended yet

  datatype State = State(
    sub: Sub.State<Command>,
    chunks: seq<Chunk>,
    nextResource: nat,
    memory: map<nat, Bytes>,  // contents of every committed buffer
    phase: Phase,
    requests: seq<Request>,   // history: uploads begun, in order
    written: seq<Request>)    // history: what the GPU has written where

  function Init(): State {
    State(Sub.Init(), [], 0, map[], Idle, [], [])
  }

  datatype Event =
    | Stage(request: Request, available: nat, contents: Bytes)  // reserve and memcpy
    | Commit                                                    // append the copy and record its range
    | ReclaimFront(chunk: nat)                                  // free the oldest range of one chunk
    | Trim
    | GpuNext                                                   // the GPU finishes its next command
    | Protocol(e: Sub.Event<Command>)                           // anything else the submission protocol does

  /** The command the GPU finishes next. */
  function Next(sub: Sub.State<Command>): Command {
    var delivered := Sub.Delivered(sub.submitted);
    if sub.executed < |delivered| then delivered[sub.executed].command else Other
  }

  predicate Enabled(s: State, e: Event) {
    match e
    case Stage(request, available, contents) =>
      && s.phase.Idle? && s.sub.statusOk && request.data != []
      && available + ALIGNMENT <= TWO_64
      && Reserved(s.chunks, |request.data|, available, s.nextResource).Some?
      && |contents| == NewChunkSize(s.chunks, |request.data|)  // what a new buffer happens to hold
    case Commit => s.phase.Staged? && s.phase.r.chunk < |s.chunks|
    case ReclaimFront(i) =>
      && s.phase.Idle? && i < |s.chunks| && s.chunks[i].allocations != []
      && s.chunks[i].allocations[0].doneValue <= s.sub.completed
    case Trim => s.phase.Idle?
    case GpuNext => Sub.Enabled(s.sub, Sub.GpuCommand)
    case Protocol(p) => !p.GpuCommand? && (p.Append? ==> p.command == Other) && Sub.Enabled(s.sub, p)
  }

  function Step(s: State, e: Event): State
    requires Enabled(s, e)
  {
    match e
    case Stage(request, available, contents) =>
      var (chunks', r) := Reserved(s.chunks, |request.data|, available, s.nextResource).value;
      var memory := Committed(s.memory, |chunks'| > |s.chunks|, s.nextResource, contents);
      var c := chunks'[r.chunk];
      s.(chunks := chunks', nextResource := s.nextResource + |chunks'| - |s.chunks|,
         memory := Write(memory, c.resource, r.offset, request.data),
         phase := Staged(r, request))
    case Commit =>
      var Staged(r, request) := s.phase;
      var size := |request.data|;
      var copy := Copy(s.chunks[r.chunk].resource, r.offset, size, request.dst, request);
      s.(sub := Sub.Step(s.sub, Sub.Append(copy)),
         chunks := Record(s.chunks, r, size, s.sub.nextFlush),
         phase := Idle, requests := s.requests + [request])
    case ReclaimFront(i) => s.(chunks := s.chunks[i := PopFront(s.chunks[i])])
    case Trim =>
      s.(chunks := InUse(s.chunks), memory := Release(s.memory, InUse(s.chunks)))
    case GpuNext =>
      var written := match Next(s.sub)
        case Copy(resource, offset, size, dst, _) =>
          s.written + [Request(dst, Read(s.memory, resource, offset, size))]
        case Other => s.written;
      s.(sub := Sub.Step(s.sub, Sub.GpuCommand), written := written)
    case Protocol(p) => s.(sub := Sub.Step(s.sub, p))
  }

  // ---------- The invariant ----------

  /** The requests behind a stretch of commands, in order. */
  function RequestsOf(commands: seq<Sub.Tagged<Command>>): seq<Request> {
    if commands == [] then []
    else
      var last := commands[|commands| - 1].command;
      RequestsOf(commands[..|commands| - 1]) + if last.Copy? then [last.asked] else []
  }

  function RangeOf(t: Sub.Tagged<Command>): Allocation
    requires t.command.Copy?
  {
    Allocation(t.command.size, t.command.offset, t.fence)
  }

  /** A copy that is not executed yet: its range is live under its own fence value and holds its bytes. */
  ghost predicate Pending(chunks: seq<Chunk>, memory: map<nat, Bytes>, t: Sub.Tagged<Command>) {
    t.command.Copy? ==>
      var c := t.command;
      && c.dst == c.asked.dst && c.size == |c.asked.data|
      && Read(memory, c.resource, c.offset, c.size) == c.asked.data
      && Live(chunks, c.resource, RangeOf(t))
  }

  ghost predicate StagedOk(s: State) {
    s.phase.Staged? ==>
      var Staged(r, request) := s.phase;
      && request.data != [] && r.chunk < |s.chunks|
      && FindOffset(s.chunks[r.chunk], |request.data|) == Some(r.offset)
      && Read(s.memory, s.chunks[r.chunk].resource, r.offset, |request.data|) == request.data
  }

  ghost predicate PendingOk(s: State) {
    forall i :: s.sub.executed <= i < |s.sub.appended| ==> Pending(s.chunks, s.memory, s.sub.appended[i])
  }

  ghost predicate LogsOk(s: State) {
    && s.requests == RequestsOf(s.sub.appended)
    && s.sub.executed <= |s.sub.appended|
    && s.written == RequestsOf(s.sub.appended[..s.sub.executed])
  }

  ghost predicate Inv(s: State) {
    && Sub.Inv(s.sub)
    && HeapOk(s.chunks, s.nextResource, s.memory, s.sub.nextFlush)
    && StagedOk(s) && PendingOk(s) && LogsOk(s)
  }

  lemma InitInv()
    ensures Inv(Init())
  {
    Sub.InitInv<Command>();
  }

  /** Staging writes into free space, so every pending copy still finds its bytes. */
  lemma StagePending(s: State, e: Event, t: Sub.Tagged<Command>)
    requires HeapOk(s.chunks, s.nextResource, s.memory, s.sub.nextFlush) && Enabled(s, e) && e.Stage?
    requires Pending(s.chunks, s.memory, t)
    ensures Pending(Step(s, e).chunks, Step(s, e).memory, t)
  {
    if t.command.Copy? {
      var Stage(request, available, contents) := e;
      var a, resource := RangeOf(t), t.command.resource;
      LiveAfterReserve(s.chunks, s.nextResource, s.memory, s.sub.nextFlush, |request.data|, available, contents, resource, a);
      var (chunks', r) := Reserved(s.chunks, |request.data|, available, s.nextResource).value;
      var memory := Committed(s.memory, |chunks'| > |s.chunks|, s.nextResource, contents);
      WriteElsewhere(memory, chunks'[r.chunk].resource, r.offset, request.data, resource, a.offset, a.size);
    }
  }

  lemma StageHeap(s: State, e: Event)
    requires HeapOk(s.chunks, s.nextResource, s.memory, s.sub.nextFlush) && Enabled(s, e) && e.Stage?
    ensures var s' := Step(s, e); HeapOk(s'.chunks, s'.nextResource, s'.memory, s.sub.nextFlush) && StagedOk(s')
  {
    hide HeapOk, Reserved;
    HeapStage(s.chunks, s.nextResource, s.memory, s.sub.nextFlush, e.request.data, e.available, e.contents);
  }

  lemma StageInv(s: State, e: Event)
    requires Inv(s) && Enabled(s, e) && e.Stage?
    ensures Inv(Step(s, e))
  {
    StageHeap(s, e);
    var s' := Step(s, e);
    forall i | s'.sub.executed <= i < |s'.sub.appended| ensures Pending(s'.chunks, s'.memory, s'.sub.appended[i]) {
      StagePending(s, e, s.sub.appended[i]);
    }
  }

  /** Appending the copy records its range under the very value the copy was promised. */
  lemma CommitPending(s: State, i: nat)
    requires HeapOk(s.chunks, s.nextResource, s.memory, s.sub.nextFlush) && StagedOk(s) && PendingOk(s)
    requires Enabled(s, Commit) && s.sub.executed <= i < |Step(s, Commit).sub.appended|
    ensures Pending(Step(s, Commit).chunks, s.memory, Step(s, Commit).sub.appended[i])
  {
    var Staged(r, request) := s.phase;
    var size := |request.data|;
    var t := Step(s, Commit).sub.appended[i];
    HeapRecord(s.chunks, s.nextResource, s.memory, s.sub.nextFlush, r, size, s.sub.nextFlush);
    if i < |s.sub.appended| && t.command.Copy? {
      assert Pending(s.chunks, s.memory, t);
      LiveAfterRecord(s.chunks, r, size, s.sub.nextFlush, t.command.resource, RangeOf(t));
    }
  }

  lemma CommitInv(s: State)
    requires Inv(s) && Enabled(s, Commit)
    ensures Inv(Step(s, Commit))
  {
    hide Sub.Inv, HeapOk, Record, FindOffset;
    var s' := Step(s, Commit);
    var Staged(r, request) := s.phase;
    var copy := Copy(s.chunks[r.chunk].resource, r.offset, |request.data|, request.dst, request);
    Sub.StepInv(s.sub, Sub.Append(copy));
    HeapRecord(s.chunks, s.nextResource, s.memory, s.sub.nextFlush, r, |request.data|, s.sub.nextFlush);
    forall i | s'.sub.executed <= i < |s'.sub.appended| ensures Pending(s'.chunks, s'.memory, s'.sub.appended[i]) {
      CommitPending(s, i);
    }
    AppendLogs(s, s', copy);
  }

  lemma AppendLogs(s: State, s': State, c: Command)
    requires LogsOk(s) && s'.sub == Sub.Step(s.sub, Sub.Append(c)) && s'.written == s.written
    requires s'.requests == s.requests + if c.Copy? then [c.asked] else []
    ensures LogsOk(s')
  {
    assert s'.sub.appended[..|s.sub.appended|] == s.sub.appended;
    assert s'.sub.appended[..s.sub.executed] == s.sub.appended[..s.sub.executed];
  }

  /** The front range of a chunk, once signalled, belongs to no pending copy. */
  lemma ReclaimPending(s: State, n: nat, i: nat)
    requires Sub.Inv(s.sub) && PendingOk(s) && Enabled(s, ReclaimFront(n))
    requires s.sub.executed <= i < |s.sub.appended|
    ensures Pending(Step(s, ReclaimFront(n)).chunks, s.memory, s.sub.appended[i])
  {
    var t := s.sub.appended[i];
    assert Pending(s.chunks, s.memory, t);
    if t.command.Copy? {
      if t.fence <= s.sub.completed { Sub.SignalledMeansExecuted(s.sub, i); }
      LiveAfterPop(s.chunks, n, t.command.resource, RangeOf(t));
    }
  }

  lemma ReclaimInv(s: State, n: nat)
    requires Inv(s) && Enabled(s, ReclaimFront(n))
    ensures Inv(Step(s, ReclaimFront(n)))
  {
    HeapPop(s.chunks, s.nextResource, s.memory, s.sub.nextFlush, n);
    var s' := Step(s, ReclaimFront(n));
    forall i | s'.sub.executed <= i < |s'.sub.appended| ensures Pending(s'.chunks, s'.memory, s'.sub.appended[i]) {
      ReclaimPending(s, n, i);
    }
  }

  lemma TrimInv(s: State)
    requires Inv(s) && Enabled(s, Trim)
    ensures Inv(Step(s, Trim))
  {
    HeapTrim(s.chunks, s.nextResource, s.memory, s.sub.nextFlush);
    var s' := Step(s, Trim);
    forall i | s'.sub.executed <= i < |s'.sub.appended| ensures Pending(s'.chunks, s'.memory, s'.sub.appended[i]) {
      var t := s.sub.appended[i];
      assert Pending(s.chunks, s.memory, t);
      if t.command.Copy? { LiveAfterTrim(s.chunks, s.memory, t.command.resource, RangeOf(t)); }
    }
  }

  lemma RequestsStep(commands: seq<Sub.Tagged<Command>>, n: nat)
    requires n < |commands|
    ensures RequestsOf(commands[..n + 1]) ==
            RequestsOf(commands[..n]) + if commands[n].command.Copy? then [commands[n].command.asked] else []
  {
    assert commands[..n + 1][..n] == commands[..n];
  }

  /** What the GPU writes next is what was asked for: the copy reads exactly the bytes that were staged. */
  lemma GpuWrites(s: State)
    requires Sub.Inv(s.sub) && PendingOk(s) && LogsOk(s) && Enabled(s, GpuNext)
    ensures LogsOk(Step(s, GpuNext))
  {
    var e := s.sub.executed;
    Sub.GpuRunsInAppendOrder(s.sub);
    var t := s.sub.appended[e];
    assert Next(s.sub) == t.command;
    assert Pending(s.chunks, s.memory, t);
    RequestsStep(s.sub.appended, e);
  }

  lemma GpuInv(s: State)
    requires Inv(s) && Enabled(s, GpuNext)
    ensures Inv(Step(s, GpuNext))
  {
    GpuWrites(s);
    Sub.StepInv(s.sub, Sub.GpuCommand);
  }

  lemma ProtocolInv(s: State, p: Sub.Event<Command>)
    requires Inv(s) && Enabled(s, Protocol(p))
    ensures Inv(Step(s, Protocol(p)))
  {
    Sub.StepInv(s.sub, p);
    var s' := Step(s, Protocol(p));
    HeapWidens(s.chunks, s.nextResource, s.memory, s.sub.nextFlush, s'.sub.nextFlush);
    if p.Append? {
      AppendLogs(s, s', Other);
    }
  }

  lemma StepInv(s: State, e: Event)
    requires Inv(s) && Enabled(s, e)
    ensures Inv(Step(s, e))
  {
    match e
    case Stage(_, _, _) => StageInv(s, e);
    case Commit => CommitInv(s);
    case ReclaimFront(n) => ReclaimInv(s, n);
    case Trim => TrimInv(s);
    case GpuNext => GpuInv(s);
    case Protocol(p) => ProtocolInv(s, p);
  }

  // ---------- Whole runs ----------

  ghost predicate Run(events: seq<Event>, s: State, s': State)
    decreases |events|
  {
    if events == [] then s == s'
    else Enabled(s, events[0]) && Run(events[1..], Step(s, events[0]), s')
  }

  lemma {:induction false} RunKeepsInv(events: seq<Event>, s: State, s': State)
    requires Inv(s) && Run(events, s, s')
    ensures Inv(s')
    decreases |events|
  {
    if events != [] {
      StepInv(s, events[0]);
      RunKeepsInv(events[1..], Step(s, events[0]), s');
    }
  }

  /** In every interleaving, a newly staged range avoids the source range of every copy not yet executed. */
  lemma StageAvoidsPending(events: seq<Event>, s: State, e: Event, i: nat)
    requires Run(events, Init(), s) && Enabled(s, e) && e.Stage?
    requires s.sub.executed <= i < |s.sub.appended| && s.sub.appended[i].command.Copy?
    ensures var s' := Step(s, e);
            var copy, r := s.sub.appended[i].command, s'.phase.r;
            && copy.size > 0 && r.chunk < |s'.chunks|
            && (copy.resource == s'.chunks[r.chunk].resource ==>
                 Disjoint(r.offset, |e.request.data|, copy.offset, copy.size))
  {
    InitInv();
    RunKeepsInv(events, Init(), s);
    var t := s.sub.appended[i];
    assert Pending(s.chunks, s.memory, t);
    LiveAfterReserve(s.chunks, s.nextResource, s.memory, s.sub.nextFlush, |e.request.data|, e.available, e.contents,
                     t.command.resource, RangeOf(t));
  }

  lemma {:induction false} RequestsPrefix(commands: seq<Sub.Tagged<Command>>, n: nat)
    requires n <= |commands|
    ensures RequestsOf(commands[..n]) <= RequestsOf(commands)
  {
    if n < |commands| {
      RequestsPrefix(commands[..|commands| - 1], n);
      assert commands[..|commands| - 1][..n] == commands[..n];
    } else {
      assert commands[..n] == commands;
    }
  }

  /** What the events alone ask for: a Stage names an upload, and the Commit after it hands that upload over. */
  function Asked(events: seq<Event>, staged: Option<Request>): seq<Request> {
    if events == [] then []
    else
      match events[0]
      case Stage(request, _, _) => Asked(events[1..], Some(request))
      case Commit => (if staged.Some? then [staged.value] else []) + Asked(events[1..], None)
      case _ => Asked(events[1..], staged)
  }

  /** The upload that the events have begun and not handed over. */
  function LastStaged(events: seq<Event>, staged: Option<Request>): Option<Request> {
    if events == [] then staged
    else
      match events[0]
      case Stage(request, _, _) => LastStaged(events[1..], Some(request))
      case Commit => LastStaged(events[1..], None)
      case _ => LastStaged(events[1..], staged)
  }

  function StagedRequest(phase: Phase): Option<Request> {
    match phase case Idle => None case Staged(_, request) => Some(request)
  }

  lemma StepAsked(s: State, e: Event)
    requires Enabled(s, e)
    ensures var staged := StagedRequest(s.phase);
            && Step(s, e).requests == s.requests + Asked([e], staged)
            && StagedRequest(Step(s, e).phase) == LastStaged([e], staged)
  {
    assert [e][1..] == [];
    hide Sub.Step, Reserved, Record;
  }

  /** Taking the first event off. */
  lemma AskedStep(events: seq<Event>, staged: Option<Request>)
    requires events != []
    ensures var e, rest := [events[0]], events[1..];
            && Asked(events, staged) == Asked(e, staged) + Asked(rest, LastStaged(e, staged))
            && LastStaged(events, staged) == LastStaged(rest, LastStaged(e, staged))
  {
    assert [events[0]][1..] == [];
    assert Asked([], None) == [];
  }

  lemma {:induction false} RunAsked(events: seq<Event>, s: State, s': State)
    requires Run(events, s, s')
    ensures s'.requests == s.requests + Asked(events, StagedRequest(s.phase))
    ensures StagedRequest(s'.phase) == LastStaged(events, StagedRequest(s.phase))
    decreases |events|
  {
    hide Step, Enabled;
    if events != [] {
      StepAsked(s, events[0]);
      AskedStep(events, StagedRequest(s.phase));
      RunAsked(events[1..], Step(s, events[0]), s');
    }
  }

  /**
   * In every interleaving of uploads, flushes, swaps, submissions, completions, reclaims and trims, what the
   * GPU has written so far is the beginning of what was asked for: same destinations, same bytes, same order.
   */
  lemma UploadsArriveIntact(events: seq<Event>, s: State)
    requires Run(events, Init(), s)
    ensures s.written <= Asked(events, None)
  {
    hide Run, Inv, Asked, LastStaged;
    InitInv();
    RunKeepsInv(events, Init(), s);
    RunAsked(events, Init(), s);
    WrittenIsPrefix(s);
  }

  lemma WrittenIsPrefix(s: State)
    requires Inv(s)
    ensures s.written <= s.requests
  {
    hide Sub.Inv, HeapOk, PendingOk, StagedOk;
    RequestsPrefix(s.sub.appended, s.sub.executed);
  }

  /** A signalled copy is among the writes, at its place among the copies. */
  lemma SignalledCopyArrived(s: State, i: nat)
    requires Inv(s)
    requires i < |s.sub.appended| && s.sub.appended[i].command.Copy? && s.sub.appended[i].fence <= s.sub.completed
    ensures |RequestsOf(s.sub.appended[..i])| < |s.written|
    ensures s.written[|RequestsOf(s.sub.appended[..i])|] == s.sub.appended[i].command.asked
  {
    Sub.SignalledMeansExecuted(s.sub, i);
    RequestsStep(s.sub.appended, i);
    RequestsPrefix(s.sub.appended[..s.sub.executed], i + 1);
    assert s.sub.appended[..s.sub.executed][..i + 1] == s.sub.appended[..i + 1];
  }

  lemma StepExtendsHistory(s: State, e: Event)
    requires Enabled(s, e)
    ensures s.sub.appended <= Step(s, e).sub.appended
  {
    hide Reserved, Record;
  }

  lemma {:induction false} RunExtendsHistory(events: seq<Event>, s: State, s': State)
    requires Run(events, s, s')
    ensures s.sub.appended <= s'.sub.appended
    decreases |events|
  {
    hide Step, Enabled;
    if events != [] {
      StepExtendsHistory(s, events[0]);
      RunExtendsHistory(events[1..], Step(s, events[0]), s');
    }
  }

  /** Committing appends one copy, under the fence value the upload returns. */
  lemma CommitAppends(s: State)
    requires Enabled(s, Commit)
    ensures var appended := Step(s, Commit).sub.appended;
            && appended[..|s.sub.appended|] == s.sub.appended && |appended| == |s.sub.appended| + 1
            && appended[|s.sub.appended|].command.Copy?
            && appended[|s.sub.appended|].command.asked == s.phase.request
            && appended[|s.sub.appended|].fence == s.sub.nextFlush
  {
  }

  /**
   * Once the event an upload returned is signalled, that upload is among the writes: what was named by the last
   * Stage before the Commit stands, whatever happened before and since, behind the uploads handed over before it.
   */
  lemma SignalledUploadArrived(before: seq<Event>, s0: State, after: seq<Event>, s: State)
    requires Run(before, Init(), s0) && Enabled(s0, Commit) && Run(after, Step(s0, Commit), s)
    requires s0.sub.nextFlush <= s.sub.completed
    ensures LastStaged(before, None).Some? && |Asked(before, None)| < |s.written|
    ensures s.written[|Asked(before, None)|] == LastStaged(before, None).value
  {
    hide Run, Step, Enabled, Asked, LastStaged, RequestsOf, Inv;
    InitInv();
    RunKeepsInv(before, Init(), s0);
    StepInv(s0, Commit);
    RunKeepsInv(after, Step(s0, Commit), s);
    RunAsked(before, Init(), s0);
    CommitAppends(s0);
    RunExtendsHistory(after, Step(s0, Commit), s);
    var i := |s0.sub.appended|;
    assert s.sub.appended[..i] == s0.sub.appended;
    SignalledCopyArrived(s, i);
    CommitIsOfStaged(s0);
  }

  lemma CommitIsOfStaged(s: State)
    requires Inv(s) && Enabled(s, Commit)
    ensures StagedRequest(s.phase) == Some(s.phase.request) && s.requests == RequestsOf(s.sub.appended)
  {
  }
}
