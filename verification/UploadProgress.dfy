/**
 * Uploads can always be brought to their end, and their staging space reclaimed: no reachable state is stuck, short
 * of a failed Close or an exit request (tfdml/core/dml_upload_heap.cc with everything it stands on).
 */
module UploadProgress {
  import opened Wrappers
  import opened PooledHeap
  import opened StagingMemory
  import Sub = Submission
  import opened UploadPipeline

  // ---------- Everything arrives ----------

  /** Nothing in these events asks for anything. */
  ghost predicate Passive(events: seq<Event>) {
    forall e <- events :: !e.Stage? && !e.Commit?
  }

  lemma {:induction false} PassiveAsksNothing(events: seq<Event>, staged: Option<Request>)
    requires Passive(events)
    ensures Asked(events, staged) == [] && LastStaged(events, staged) == staged
  {
    if events != [] {
      assert events[0] in events && forall e <- events[1..] :: e in events;
      PassiveAsksNothing(events[1..], staged);
    }
  }

  /** A step of the submission protocol, seen from the composed machine. */
  function Lifted(e: Sub.Event<Command>): Event {
    if e.GpuCommand? then GpuNext else Protocol(e)
  }

  lemma LiftedStep(s: State, e: Sub.Event<Command>)
    requires Sub.Enabled(s.sub, e) && !e.Append?
    ensures Enabled(s, Lifted(e)) && Step(s, Lifted(e)).sub == Sub.Step(s.sub, e)
    ensures !Lifted(e).Stage? && !Lifted(e).Commit?
  {
  }

  /** So is a whole run of it without appends. */
  lemma {:induction false} LiftedRun(es: seq<Sub.Event<Command>>, s: State, sub: Sub.State<Command>)
      returns (events: seq<Event>, t: State)
    requires Sub.Run(es, s.sub, sub) && forall e <- es :: !e.Append?
    ensures Run(events, s, t) && t.sub == sub && Passive(events)
    decreases |es|
  {
    hide Step, Enabled, Sub.Step, Sub.Enabled;
    if es == [] {
      events, t := [], s;
    } else {
      assert es[0] in es && forall e <- es[1..] :: e in es;
      LiftedStep(s, es[0]);
      var rest, t' := LiftedRun(es[1..], Step(s, Lifted(es[0])), sub);
      events, t := [Lifted(es[0])] + rest, t';
      assert events[1..] == rest;
    }
  }

  lemma {:induction false} RunConcat(a: seq<Event>, b: seq<Event>, s: State, t: State, u: State)
    requires Run(a, s, t) && Run(b, t, u)
    ensures Run(a + b, s, u)
    decreases |a|
  {
    hide Step, Enabled;
    if a == [] {
      assert a + b == b;
    } else {
      RunConcat(a[1..], b, Step(s, a[0]), t, u);
      assert (a + b)[1..] == a[1..] + b;
    }
  }

  lemma {:induction false} AskedConcat(a: seq<Event>, b: seq<Event>, staged: Option<Request>)
    ensures Asked(a + b, staged) == Asked(a, staged) + Asked(b, LastStaged(a, staged))
    decreases |a|
  {
    if a == [] {
      assert a + b == b;
    } else {
      assert (a + b)[1..] == a[1..] + b;
      AskedConcat(a[1..], b, LastStaged([a[0]], staged));
      AskedStep(a, staged);
      AskedStep(a + b, staged);
    }
  }

  /**
   * As long as the execution thread has not left its loop, every reachable state can be continued, without another
   * request, to one where everything asked for has been written and every append is signalled.
   */
  lemma UploadsCanFinish(before: seq<Event>, s: State) returns (after: seq<Event>, t: State)
    requires Run(before, Init(), s) && !s.sub.stopped
    ensures Run(after, s, t) && Passive(after) && t.written == Asked(before, None)
    ensures t.phase.Idle? <==> s.phase.Idle?
    ensures forall tagged <- t.sub.appended :: tagged.fence <= t.sub.completed
  {
    hide Run, Inv, Asked, LastStaged, Step, Enabled;
    InitInv();
    RunKeepsInv(before, Init(), s);
    RunAsked(before, Init(), s);
    InvHasProtocol(s);
    var es, sub := Sub.CanAlwaysFinish(s.sub);
    after, t := LiftedRun(es, s, sub);
    RunKeepsInv(after, s, t);
    RunAsked(after, s, t);
    PassiveAsksNothing(after, StagedRequest(s.phase));
    AllWritten(t);
  }

  lemma InvHasProtocol(s: State)
    requires Inv(s)
    ensures Sub.Inv(s.sub)
  {
  }

  lemma AllWritten(t: State)
    requires Inv(t) && t.sub.executed == |t.sub.appended|
    ensures t.written == t.requests
  {
    assert t.sub.appended[..t.sub.executed] == t.sub.appended;
  }

  /** While the heap is idle, commands can be recorded and memory is left, any upload can be begun and handed over. */
  lemma UploadCanStart(s: State, request: Request, available: nat, contents: Bytes)
    requires Inv(s) && s.phase.Idle? && s.sub.statusOk && request.data != []
    requires NewChunkSize(s.chunks, |request.data|) <= available && available + ALIGNMENT <= TWO_64
    requires |contents| == NewChunkSize(s.chunks, |request.data|)
    ensures var stage := Stage(request, available, contents);
            && Enabled(s, stage) && Enabled(Step(s, stage), Commit)
            && Step(Step(s, stage), Commit).sub.stopped == s.sub.stopped
            && Run([stage, Commit], s, Step(Step(s, stage), Commit))
            && Asked([stage, Commit], None) == [request]
  {
    var stage := Stage(request, available, contents);
    StageIsEnabled(s, request, available, contents);
    CommitIsEnabled(s, stage);
    StartAsks(stage);
    assert [stage, Commit][1..] == [Commit] && [Commit][1..] == [];
    hide Step, Enabled, Inv, Asked;
    assert Run([], Step(Step(s, stage), Commit), Step(Step(s, stage), Commit));
    assert Run([Commit], Step(s, stage), Step(Step(s, stage), Commit));
  }

  lemma StageIsEnabled(s: State, request: Request, available: nat, contents: Bytes)
    requires s.phase.Idle? && s.sub.statusOk && request.data != []
    requires NewChunkSize(s.chunks, |request.data|) <= available && available + ALIGNMENT <= TWO_64
    requires |contents| == NewChunkSize(s.chunks, |request.data|)
    ensures Enabled(s, Stage(request, available, contents))
  {
    hide NewChunkSize, FirstFit;
  }

  lemma CommitIsEnabled(s: State, stage: Event)
    requires Inv(s) && Enabled(s, stage) && stage.Stage?
    ensures Enabled(Step(s, stage), Commit)
    ensures Step(Step(s, stage), Commit).sub.stopped == s.sub.stopped
  {
    hide HeapOk, Reserved, Record, Sub.Inv, PendingOk, LogsOk;
    StageHeap(s, stage);
  }

  lemma StartAsks(stage: Event)
    requires stage.Stage?
    ensures Asked([stage, Commit], None) == [stage.request]
  {
    assert [stage, Commit][1..] == [Commit] && [Commit][1..] == [];
    assert Asked([], None) == [];
    assert Asked([Commit], Some(stage.request)) == [stage.request];
  }

  /** So it can always be brought to its end: the request is written, last of all that were ever asked for. */
  lemma AnyUploadCanArrive(before: seq<Event>, s: State, request: Request, available: nat, contents: Bytes)
      returns (after: seq<Event>, t: State)
    requires Run(before, Init(), s) && s.phase.Idle? && s.sub.statusOk && !s.sub.stopped && request.data != []
    requires NewChunkSize(s.chunks, |request.data|) <= available && available + ALIGNMENT <= TWO_64
    requires |contents| == NewChunkSize(s.chunks, |request.data|)
    ensures Run(after, s, t) && t.written == Asked(before, None) + [request]
  {
    InitInv();
    RunKeepsInv(before, Init(), s);
    RunAsked(before, Init(), s);
    UploadCanStart(s, request, available, contents);
    var stage := Stage(request, available, contents);
    var s1 := Step(Step(s, stage), Commit);
    hide Run, Inv, Asked, LastStaged, Step, Enabled;
    RunConcat(before, [stage, Commit], Init(), s, s1);
    AskedConcat(before, [stage, Commit], None);
    var rest, t' := UploadsCanFinish(before + [stage, Commit], s1);
    t := t';
    RunConcat([stage, Commit], rest, s, s1, t);
    after := [stage, Commit] + rest;
  }

  // ---------- Staging space comes back ----------

  /** Every recorded range waits for the value some append was given. */
  ghost predicate Promised(chunks: seq<Chunk>, appended: seq<Sub.Tagged<Command>>) {
    forall c <- chunks :: forall a <- c.allocations :: Given(a.doneValue, appended)
  }

  ghost predicate Given(value: nat, appended: seq<Sub.Tagged<Command>>) {
    exists t <- appended :: t.fence == value
  }

  lemma PromisedAfterPush(chunks: seq<Chunk>, appended: seq<Sub.Tagged<Command>>, r: Reservation, size: nat,
                          t: Sub.Tagged<Command>)
    requires Promised(chunks, appended) && r.chunk < |chunks|
    ensures Promised(Record(chunks, r, size, t.fence), appended + [t])
  {
    var chunks' := Record(chunks, r, size, t.fence);
    forall c <- chunks', a <- c.allocations ensures Given(a.doneValue, appended + [t]) {
      var i :| 0 <= i < |chunks'| && chunks'[i] == c;
      if a in chunks[i].allocations {
        var u :| u in appended && u.fence == a.doneValue;
        assert u in appended + [t];
      } else {
        assert t in appended + [t];
      }
    }
  }

  lemma PromisedAfterPop(chunks: seq<Chunk>, appended: seq<Sub.Tagged<Command>>, n: nat)
    requires Promised(chunks, appended) && n < |chunks| && chunks[n].allocations != []
    ensures Promised(chunks[n := PopFront(chunks[n])], appended)
  {
    var chunks' := chunks[n := PopFront(chunks[n])];
    forall c <- chunks', a <- c.allocations ensures Given(a.doneValue, appended) {
      var i :| 0 <= i < |chunks'| && chunks'[i] == c;
      assert chunks[i] in chunks && a in chunks[i].allocations;
    }
  }

  lemma PromisedAfterReserve(chunks: seq<Chunk>, appended: seq<Sub.Tagged<Command>>, size: nat, available: nat, resource: nat)
    requires Promised(chunks, appended) && Reserved(chunks, size, available, resource).Some?
    ensures Promised(Reserved(chunks, size, available, resource).value.0, appended)
  {
  }

  lemma PromisedMore(chunks: seq<Chunk>, appended: seq<Sub.Tagged<Command>>, extra: seq<Sub.Tagged<Command>>)
    requires Promised(chunks, appended)
    ensures Promised(chunks, appended + extra)
  {
    forall c <- chunks, a <- c.allocations ensures Given(a.doneValue, appended + extra) {
      var u :| u in appended && u.fence == a.doneValue;
      assert u in appended + extra;
    }
  }

  lemma StepKeepsPromised(s: State, e: Event)
    requires Enabled(s, e) && Promised(s.chunks, s.sub.appended)
    ensures Promised(Step(s, e).chunks, Step(s, e).sub.appended)
  {
    match e
    case Stage(request, available, _) =>
      PromisedAfterReserve(s.chunks, s.sub.appended, |request.data|, available, s.nextResource);
    case Commit =>
      var t := Step(s, Commit).sub.appended[|s.sub.appended|];
      PromisedAfterPush(s.chunks, s.sub.appended, s.phase.r, |s.phase.request.data|, t);
    case ReclaimFront(n) => PromisedAfterPop(s.chunks, s.sub.appended, n);
    case Trim =>
    case GpuNext =>
    case Protocol(p) =>
      if p.Append? { PromisedMore(s.chunks, s.sub.appended, [Sub.Tagged(p.command, s.sub.nextFlush)]); }
  }

  lemma {:induction false} RunKeepsPromised(events: seq<Event>, s: State, t: State)
    requires Run(events, s, t) && Promised(s.chunks, s.sub.appended)
    ensures Promised(t.chunks, t.sub.appended)
    decreases |events|
  {
    hide Step, Enabled, Promised;
    if events != [] {
      StepKeepsPromised(s, events[0]);
      RunKeepsPromised(events[1..], Step(s, events[0]), t);
    }
  }

  /** Every recorded range is signalled. */
  ghost predicate AllDone(chunks: seq<Chunk>, completed: nat) {
    forall c <- chunks :: forall a <- c.allocations :: a.doneValue <= completed
  }

  lemma ReclaimFrame(s: State, n: nat)
    requires Enabled(s, ReclaimFront(n)) && AllDone(s.chunks, s.sub.completed)
    ensures var t := Step(s, ReclaimFront(n));
            && t == s.(chunks := t.chunks) && AllDone(t.chunks, t.sub.completed) && |t.chunks| == |s.chunks|
            && t.chunks[n].allocations == s.chunks[n].allocations[1..]
            && forall i :: 0 <= i < |s.chunks| && i != n ==> t.chunks[i] == s.chunks[i]
  {
    var t := Step(s, ReclaimFront(n));
    forall c <- t.chunks, a <- c.allocations ensures a.doneValue <= s.sub.completed {
      if c !in s.chunks { assert a in s.chunks[n].allocations && s.chunks[n] in s.chunks; }
    }
  }

  lemma ReclaimIsEnabled(s: State, n: nat)
    requires s.phase.Idle? && n < |s.chunks| && s.chunks[n].allocations != [] && AllDone(s.chunks, s.sub.completed)
    ensures Enabled(s, ReclaimFront(n))
  {
    assert s.chunks[n] in s.chunks && s.chunks[n].allocations[0] in s.chunks[n].allocations;
  }

  /** Once every range is signalled, the chunks from n on can be emptied. */
  lemma {:induction false} ChunksCanEmpty(s: State, n: nat) returns (events: seq<Event>, t: State)
    requires s.phase.Idle? && n <= |s.chunks| && AllDone(s.chunks, s.sub.completed)
    ensures Run(events, s, t) && t == s.(chunks := t.chunks) && |t.chunks| == |s.chunks|
    ensures forall i :: 0 <= i < n ==> t.chunks[i] == s.chunks[i]
    ensures forall i :: n <= i < |t.chunks| ==> t.chunks[i].allocations == []
    decreases |s.chunks| - n, if n < |s.chunks| then |s.chunks[n].allocations| else 0
  {
    hide Step, Enabled, AllDone;
    if n == |s.chunks| {
      events, t := [], s;
    } else if s.chunks[n].allocations == [] {
      events, t := ChunksCanEmpty(s, n + 1);
    } else {
      ReclaimIsEnabled(s, n);
      ReclaimFrame(s, n);
      var s1 := Step(s, ReclaimFront(n));
      var rest, t' := ChunksCanEmpty(s1, n);
      events, t := [ReclaimFront(n)] + rest, t';
      assert events[1..] == rest;
    }
  }

  /**
   * No staging space is lost: from every reachable idle state the machine can get to one where everything asked for
   * is written and no chunk holds a range any more.
   */
  lemma SpaceComesBack(before: seq<Event>, s: State) returns (after: seq<Event>, t: State)
    requires Run(before, Init(), s) && s.phase.Idle? && !s.sub.stopped
    ensures Run(after, s, t) && t.written == Asked(before, None)
    ensures forall c <- t.chunks :: c.allocations == []
  {
    hide Run, Inv, Asked, LastStaged, Step, Enabled, Promised;
    InitInv();
    RunKeepsInv(before, Init(), s);
    var first, s1 := UploadsCanFinish(before, s);
    RunConcat(before, first, Init(), s, s1);
    assert Promised([], []) by { PromisedNothing(); }
    RunKeepsPromised(before + first, Init(), s1);
    AllPromisesKept(s1);
    var last, t' := ChunksCanEmpty(s1, 0);
    t := t';
    RunConcat(first, last, s, s1, t);
    after := first + last;
  }

  lemma PromisedNothing()
    ensures Promised([], [])
  {
  }

  lemma AllPromisesKept(s: State)
    requires Promised(s.chunks, s.sub.appended) && forall t <- s.sub.appended :: t.fence <= s.sub.completed
    ensures AllDone(s.chunks, s.sub.completed)
  {
  }
}
