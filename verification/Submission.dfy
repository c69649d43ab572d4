/**
 * The submission protocol as atomic steps: appenders, flush requests, the execution thread's locked
 * section and its unlocked record-and-execute, and the GPU (tfdml/core/dml_execution_context.cc with
 * tfdml/core/dml_command_queue.cc).
 */
module Submission {

  /** A command together with the fence value its appender was given. */
  datatype Tagged<C> = Tagged(command: C, fence: nat)

  /** One ExecuteCommandLists call and the value it signals afterwards. */
  datatype Submitted<C> = Submitted(commands: seq<C>, signal: nat)

  datatype State<C> = State(
    writeBatch: seq<C>,       // the batch appenders extend
    executing: seq<C>,        // the other batch, being recorded or left over
    flushing: bool,           // the execution thread is between its swap and its submission
    nextFlush: nat,           // next_flush_event.fence_value
    lastFence: nat,           // last_fence_value_ of the queue
    flushRequested: bool,
    stopped: bool,            // the execution thread has left its loop
    statusOk: bool,           // false once closing the command list has failed
    submitted: seq<Submitted<C>>,
    executed: nat,            // commands the GPU has finished, counted across submissions
    completed: nat,           // the fence's completed value
    appended: seq<Tagged<C>>) // history: every append, in order, with the value it returned

  function Init<C>(): State<C> {
    State([], [], false, 1, 0, false, false, true, [], 0, 0, [])
  }

  datatype Event<C> =
    | Append(command: C)
    | RequestFlush
    | Poll(due: bool)   // one locked section of the execution thread; `due` is the size or time condition
    | Execute           // record, close and submit the swapped-out batch
    | CloseFails        // closing the command list runs out of memory
    | Exit              // the destructor's exit request is seen
    | GpuCommand        // the GPU finishes its next command
    | GpuSignal         // the GPU reaches the signal behind a submission

  function Tag<C>(commands: seq<C>, fence: nat): (r: seq<Tagged<C>>)
    ensures |r| == |commands|
  {
    seq(|commands|, i requires 0 <= i < |commands| => Tagged(commands[i], fence))
  }

  /** All submitted commands in queue order, each with the value that will be signalled behind it. */
  function Delivered<C>(submitted: seq<Submitted<C>>): seq<Tagged<C>> {
    if submitted == [] then []
    else
      var last := |submitted| - 1;
      Delivered(submitted[..last]) + Tag(submitted[last].commands, submitted[last].signal)
  }

  /** How many commands lie before the signal of submission n. */
  function Before<C>(s: State<C>, n: nat): nat
    requires n <= |s.submitted|
  {
    |Delivered(s.submitted[..n])|
  }

  predicate Enabled<C>(s: State<C>, e: Event<C>) {
    match e
    case Append(_) => true
    case RequestFlush => true
    case Poll(_) => !s.stopped && !s.flushing
    case Execute => !s.stopped && s.flushing
    case CloseFails => !s.stopped && s.flushing
    case Exit => !s.stopped && !s.flushing
    case GpuCommand => s.completed < |s.submitted| && s.executed < Before(s, s.completed + 1)
    case GpuSignal => s.completed < |s.submitted| && s.executed == Before(s, s.completed + 1)
  }

  function Step<C>(s: State<C>, e: Event<C>): State<C>
    requires Enabled(s, e)
  {
    match e
    case Append(c) =>
      s.(writeBatch := s.writeBatch + [c], appended := s.appended + [Tagged(c, s.nextFlush)])
    case RequestFlush => s.(flushRequested := true)
    case Poll(due) =>
      if s.writeBatch == [] then s
      else if s.flushRequested || due then
        s.(writeBatch := s.executing, executing := s.writeBatch, flushing := true,
           nextFlush := s.nextFlush + 1, flushRequested := false)
      else s.(flushRequested := false)
    case Execute =>
      s.(submitted := s.submitted + [Submitted(s.executing, s.lastFence + 1)], lastFence := s.lastFence + 1,
         executing := [], flushing := false)
    case CloseFails => s.(statusOk := false, stopped := true)
    case Exit => s.(stopped := true)
    case GpuCommand => s.(executed := s.executed + 1)
    case GpuSignal => s.(completed := s.submitted[s.completed].signal)
  }

  /** What Flush and GetCurrentCompletionEvent return. */
  function CurrentEvent<C>(s: State<C>): int {
    if s.writeBatch == [] then s.nextFlush - 1 else s.nextFlush
  }

  // ---------- The invariant ----------

  /** Every append is accounted for once, in order, under the value it was promised. */
  ghost predicate Conserved<C>(s: State<C>) {
    s.appended ==
      Delivered(s.submitted) + Tag(s.executing, s.lastFence + 1) + Tag(s.writeBatch, s.nextFlush)
  }

  ghost predicate ThreadOk<C>(s: State<C>) {
    && (!s.flushing ==> s.executing == [] && s.nextFlush == s.lastFence + 1)
    && (s.flushing ==> s.executing != [] && s.nextFlush == s.lastFence + 2)
    && s.lastFence == |s.submitted|
    && (forall i :: 0 <= i < |s.submitted| ==> s.submitted[i].signal == i + 1 && s.submitted[i].commands != [])
    && (!s.statusOk ==> s.stopped)
  }

  ghost predicate GpuOk<C>(s: State<C>) {
    GpuBetween(s.submitted, s.completed, s.executed)
  }

  /** The GPU has finished everything before the last signal, and at most everything before the next. */
  ghost predicate GpuBetween<C>(submitted: seq<Submitted<C>>, completed: nat, executed: nat) {
    && completed <= |submitted|
    && |Delivered(submitted[..completed])| <= executed
    && executed <= |Delivered(submitted[..if completed < |submitted| then completed + 1 else completed])|
  }

  ghost predicate Inv<C>(s: State<C>) {
    Conserved(s) && ThreadOk(s) && GpuOk(s)
  }

  lemma InitInv<C>()
    ensures Inv(Init<C>())
  {
  }

  lemma {:induction false} DeliveredPrefix<C>(submitted: seq<Submitted<C>>, n: nat)
    requires n <= |submitted|
    ensures Delivered(submitted[..n]) <= Delivered(submitted)
  {
    if n < |submitted| {
      var last := |submitted| - 1;
      DeliveredPrefix(submitted[..last], n);
      assert submitted[..last][..n] == submitted[..n];
    } else {
      assert submitted[..n] == submitted;
    }
  }

  lemma AppendInv<C>(s: State<C>, c: C)
    requires Inv(s)
    ensures Inv(Step(s, Append(c)))
  {
    assert Tag(s.writeBatch + [c], s.nextFlush) == Tag(s.writeBatch, s.nextFlush) + [Tagged(c, s.nextFlush)];
  }

  lemma PollInv<C>(s: State<C>, due: bool)
    requires Inv(s) && Enabled(s, Event<C>.Poll(due))
    ensures Inv(Step(s, Event<C>.Poll(due)))
  {
    var d := Delivered(s.submitted);
    assert Tag(s.executing, s.lastFence + 1) == [] && Tag(s.executing, s.nextFlush + 1) == [];
    assert d + [] + Tag(s.writeBatch, s.nextFlush) == d + Tag(s.writeBatch, s.nextFlush) + [];
  }

  /** Submitting leaves what lies before each earlier signal as it was. */
  lemma BeforeStable<C>(submitted: seq<Submitted<C>>, extra: Submitted<C>, n: nat)
    requires n <= |submitted|
    ensures (submitted + [extra])[..n] == submitted[..n]
    ensures Delivered(submitted + [extra]) == Delivered(submitted) + Tag(extra.commands, extra.signal)
  {
    assert (submitted + [extra])[..|submitted|] == submitted;
  }

  lemma ExecuteKeepsGpu<C>(submitted: seq<Submitted<C>>, extra: Submitted<C>, completed: nat, executed: nat)
    requires GpuBetween(submitted, completed, executed)
    ensures GpuBetween(submitted + [extra], completed, executed)
  {
    BeforeStable(submitted, extra, completed);
    if completed < |submitted| {
      BeforeStable(submitted, extra, completed + 1);
    } else {
      assert submitted[..completed] == submitted && (submitted + [extra])[..completed + 1] == submitted + [extra];
    }
  }

  lemma ExecuteConserves<C>(d: seq<Tagged<C>>, x: seq<Tagged<C>>, w: seq<Tagged<C>>)
    ensures d + x + w == d + x + [] + w
  {
  }

  lemma ExecuteInv<C>(s: State<C>)
    requires Inv(s) && Enabled(s, Event<C>.Execute)
    ensures Inv(Step(s, Event<C>.Execute))
  {
    var extra := Submitted(s.executing, s.lastFence + 1);
    ExecuteKeepsGpu(s.submitted, extra, s.completed, s.executed);
    BeforeStable(s.submitted, extra, 0);
    assert Tag<C>([], s.lastFence + 2) == [];
    ExecuteConserves(Delivered(s.submitted), Tag(s.executing, s.lastFence + 1), Tag(s.writeBatch, s.nextFlush));
    hide GpuBetween, Delivered, Tag;
  }

  lemma SignalKeepsGpu<C>(submitted: seq<Submitted<C>>, completed: nat)
    requires completed < |submitted|
    ensures GpuBetween(submitted, completed + 1, |Delivered(submitted[..completed + 1])|)
  {
    if completed + 1 < |submitted| {
      DeliveredPrefix(submitted[..completed + 2], completed + 1);
      assert submitted[..completed + 2][..completed + 1] == submitted[..completed + 1];
    }
  }

  lemma SignalInv<C>(s: State<C>)
    requires Inv(s) && Enabled(s, Event<C>.GpuSignal)
    ensures Inv(Step(s, Event<C>.GpuSignal))
  {
    SignalKeepsGpu(s.submitted, s.completed);
    hide GpuBetween, Delivered, Tag;
  }

  lemma StepInv<C>(s: State<C>, e: Event<C>)
    requires Inv(s) && Enabled(s, e)
    ensures Inv(Step(s, e))
  {
    match e
    case Append(c) => AppendInv(s, c);
    case Poll(due) => PollInv(s, due);
    case Execute => ExecuteInv(s);
    case GpuSignal => SignalInv(s);
    case RequestFlush =>
    case CloseFails =>
    case Exit =>
    case GpuCommand =>
  }

  // ---------- Consequences in every state ----------

  /** Fence values in the history never decrease: a later append never gets an earlier event. */
  lemma {:induction false} DeliveredSignals<C>(submitted: seq<Submitted<C>>, i: nat)
    requires forall k :: 0 <= k < |submitted| ==> submitted[k].signal == k + 1
    requires i < |Delivered(submitted)|
    ensures 1 <= Delivered(submitted)[i].fence <= |submitted|
    ensures |Delivered(submitted[..Delivered(submitted)[i].fence - 1])| <= i
              < |Delivered(submitted[..Delivered(submitted)[i].fence])|
  {
    var last := |submitted| - 1;
    var front := submitted[..last];
    if i < |Delivered(front)| {
      DeliveredSignals(front, i);
      var f := Delivered(front)[i].fence;
      assert front[..f] == submitted[..f] && front[..f - 1] == submitted[..f - 1];
    } else {
      assert submitted[..last + 1] == submitted;
    }
  }

  /** Commands delivered before the signal of submission f, seen from the whole run. */
  lemma {:induction false} DeliveredMonotone<C>(submitted: seq<Submitted<C>>, m: nat, n: nat)
    requires m <= n <= |submitted|
    ensures |Delivered(submitted[..m])| <= |Delivered(submitted[..n])|
  {
    DeliveredPrefix(submitted[..n], m);
    assert submitted[..n][..m] == submitted[..m];
  }

  /** A signalled event means that its command, and every command before it, has been executed. */
  lemma SignalledMeansExecuted<C>(s: State<C>, i: nat)
    requires Inv(s) && i < |s.appended| && s.appended[i].fence <= s.completed
    ensures i < s.executed
  {
    if i < |Delivered(s.submitted)| {
      DeliveredSignals(s.submitted, i);
      DeliveredMonotone(s.submitted, s.appended[i].fence, s.completed);
    }
  }

  /** The command the GPU finishes next is the one appended at that position of the history. */
  lemma GpuRunsInAppendOrder<C>(s: State<C>)
    requires Inv(s) && Enabled(s, Event<C>.GpuCommand)
    ensures s.executed < |Delivered(s.submitted)| <= |s.appended|
    ensures s.appended[s.executed] == Delivered(s.submitted)[s.executed]
  {
    DeliveredPrefix(s.submitted, s.completed + 1);
  }

  /** A command the GPU has executed was submitted, under the very value its appender returned. */
  lemma ExecutedWasSubmitted<C>(s: State<C>, i: nat)
    requires Inv(s) && i < s.executed
    ensures i < |Delivered(s.submitted)| && Delivered(s.submitted)[i] == s.appended[i]
  {
    DeliveredMonotone(s.submitted, if s.completed < |s.submitted| then s.completed + 1 else s.completed, |s.submitted|);
    assert s.submitted[..|s.submitted|] == s.submitted;
  }

  lemma DeliveredAscend<C>(submitted: seq<Submitted<C>>, i: nat, j: nat)
    requires forall k :: 0 <= k < |submitted| ==> submitted[k].signal == k + 1
    requires i < j < |Delivered(submitted)|
    ensures Delivered(submitted)[i].fence <= Delivered(submitted)[j].fence
  {
    var fi, fj := Delivered(submitted)[i].fence, Delivered(submitted)[j].fence;
    DeliveredSignals(submitted, i);
    DeliveredSignals(submitted, j);
    DeliveredMonotone(submitted, if fj < fi then fj else fi - 1, fi - 1);
  }

  /** Fence values in the history never decrease. */
  lemma FencesAscend<C>(s: State<C>, i: nat, j: nat)
    requires Inv(s) && i < j < |s.appended|
    ensures 1 <= s.appended[i].fence <= s.appended[j].fence <= s.nextFlush
  {
    if i < |Delivered(s.submitted)| { DeliveredSignals(s.submitted, i); }
    if j < |Delivered(s.submitted)| {
      DeliveredSignals(s.submitted, j);
      DeliveredAscend(s.submitted, i, j);
    }
  }

  /** The event of Flush and GetCurrentCompletionEvent is exactly the one the latest append was given. */
  lemma CurrentEventIsTight<C>(s: State<C>)
    requires Inv(s)
    ensures CurrentEvent(s) == if s.appended == [] then 0 else s.appended[|s.appended| - 1].fence
  {
    if s.writeBatch == [] && s.executing == [] && s.submitted != [] {
      var last := |s.submitted| - 1;
      assert Delivered(s.submitted)[|Delivered(s.submitted)| - 1].fence == s.submitted[last].signal;
    }
  }

  /** Waiting for that event waits for every earlier append. */
  lemma CurrentEventCovers<C>(s: State<C>, i: nat)
    requires Inv(s) && i < |s.appended| && CurrentEvent(s) <= s.completed
    ensures i < s.executed
  {
    CurrentEventIsTight(s);
    if i < |s.appended| - 1 { FencesAscend(s, i, |s.appended| - 1); }
    SignalledMeansExecuted(s, i);
  }

  /**
   * A poll that finds commands and either a flush request or the size or time condition takes the whole write
   * batch and moves the next flush event on; any other poll takes nothing.
   */
  lemma PollSwaps<C>(s: State<C>, due: bool)
    requires Inv(s) && Enabled(s, Event<C>.Poll(due))
    ensures var s' := Step(s, Event<C>.Poll(due));
            if s.writeBatch != [] && (s.flushRequested || due) then
              && s'.flushing && s'.executing == s.writeBatch && s'.writeBatch == []
              && s'.nextFlush == s.nextFlush + 1 && !s'.flushRequested
            else s' == s
  {
  }

  /** A set flush request is only ever cleared by the swap that honours it. */
  lemma FlushRequestHonoured<C>(s: State<C>, e: Event<C>)
    requires Inv(s) && Enabled(s, e)
    requires s.flushRequested && !Step(s, e).flushRequested
    ensures e.Poll? && s.writeBatch != [] && Step(s, e).executing == s.writeBatch && Step(s, e).writeBatch == []
    ensures Step(s, e).flushing
  {
  }

  // ---------- Whole runs ----------

  ghost predicate Run<C>(events: seq<Event<C>>, s: State<C>, s': State<C>)
    decreases |events|
  {
    if events == [] then s == s'
    else Enabled(s, events[0]) && Run(events[1..], Step(s, events[0]), s')
  }

  lemma {:induction false} RunKeepsInv<C>(events: seq<Event<C>>, s: State<C>, s': State<C>)
    requires Inv(s) && Run(events, s, s')
    ensures Inv(s')
    decreases |events|
  {
    if events != [] {
      StepInv(s, events[0]);
      RunKeepsInv(events[1..], Step(s, events[0]), s');
    }
  }

  function Appends<C>(events: seq<Event<C>>): seq<C> {
    if events == [] then []
    else (if events[0].Append? then [events[0].command] else []) + Appends(events[1..])
  }

  function Commands<C>(tagged: seq<Tagged<C>>): (r: seq<C>)
    ensures |r| == |tagged|
  {
    seq(|tagged|, i requires 0 <= i < |tagged| => tagged[i].command)
  }

  /** An append extends the history by its command; no other event touches it. */
  lemma StepAppends<C>(s: State<C>, e: Event<C>)
    requires Enabled(s, e)
    ensures Commands(Step(s, e).appended) == Commands(s.appended) + if e.Append? then [e.command] else []
  {
  }

  lemma {:induction false} RunAppends<C>(events: seq<Event<C>>, s: State<C>, s': State<C>)
    requires Run(events, s, s')
    ensures Commands(s'.appended) == Commands(s.appended) + Appends(events)
    decreases |events|
  {
    if events != [] {
      StepAppends(s, events[0]);
      RunAppends(events[1..], Step(s, events[0]), s');
    }
  }

  lemma CommandsConcat<C>(d: seq<Tagged<C>>, x: seq<C>, fx: nat, w: seq<C>, fw: nat)
    ensures Commands(d + Tag(x, fx) + Tag(w, fw)) == Commands(d) + x + w
  {
  }

  /**
   * Over any run from the initial state: the commands submitted so far, then the batch in flight, then the
   * write batch, are exactly the commands appended, each once and in order; and every submitted command lies
   * before the signal of the value its appender returned.
   */
  lemma SubmittedOnceInOrder<C>(events: seq<Event<C>>, s: State<C>)
    requires Run(events, Init<C>(), s)
    ensures Commands(Delivered(s.submitted)) + s.executing + s.writeBatch == Appends(events)
    ensures Delivered(s.submitted) <= s.appended
    ensures !s.flushing ==> s.executing == []
  {
    InitInv<C>();
    RunKeepsInv(events, Init<C>(), s);
    RunAppends(events, Init<C>(), s);
    CommandsConcat(Delivered(s.submitted), s.executing, s.lastFence + 1, s.writeBatch, s.nextFlush);
  }

  // ---------- Flush requests and failures over whole runs ----------

  /** How many appends have left the write batch. */
  function Taken<C>(s: State<C>): int {
    |s.appended| - |s.writeBatch|
  }

  ghost predicate HasPoll<C>(events: seq<Event<C>>) {
    exists e <- events :: e.Poll?
  }

  lemma StepTakes<C>(s: State<C>, e: Event<C>)
    requires Inv(s) && Enabled(s, e)
    ensures Taken(s) <= Taken(Step(s, e)) && |s.appended| <= |Step(s, e).appended|
    ensures e.Poll? && s.flushRequested ==> Taken(Step(s, e)) == |s.appended|
    ensures !e.Poll? && s.flushRequested ==> Step(s, e).flushRequested
  {
    if e.Poll? { PollSwaps(s, e.due); }
  }

  lemma {:induction false} RunTakes<C>(events: seq<Event<C>>, s: State<C>, s': State<C>)
    requires Inv(s) && Run(events, s, s')
    ensures Taken(s) <= Taken(s')
    decreases |events|
  {
    hide Inv, Step, Enabled;
    if events != [] {
      StepInv(s, events[0]);
      StepTakes(s, events[0]);
      RunTakes(events[1..], Step(s, events[0]), s');
    }
  }

  lemma {:induction false} RequestIsTaken<C>(events: seq<Event<C>>, s: State<C>, s': State<C>)
    requires Inv(s) && s.flushRequested && Run(events, s, s') && HasPoll(events)
    ensures |s.appended| <= Taken(s')
    decreases |events|
  {
    hide Inv, Step, Enabled;
    StepInv(s, events[0]);
    StepTakes(s, events[0]);
    if events[0].Poll? {
      RunTakes(events[1..], Step(s, events[0]), s');
    } else {
      assert HasPoll(events[1..]);
      RequestIsTaken(events[1..], Step(s, events[0]), s');
    }
  }

  /**
   * A flush request is honoured by the next poll of the execution thread, whatever happens before it: then
   * everything that had been appended when the flush was requested has left the write batch.
   */
  lemma RequestedFlushIsTaken<C>(events: seq<Event<C>>, s: State<C>, s': State<C>)
    requires Inv(s) && Run(events, Step(s, Event<C>.RequestFlush), s') && HasPoll(events)
    ensures |s.appended| + |s'.writeBatch| <= |s'.appended|
  {
    StepInv(s, Event<C>.RequestFlush);
    RequestIsTaken(events, Step(s, Event<C>.RequestFlush), s');
  }

  /** The status is bad exactly if a Close has failed, and the thread has left exactly if one has or exit was seen. */
  lemma {:induction false} StatusTellsFailure<C>(events: seq<Event<C>>, s: State<C>, s': State<C>)
    requires Run(events, s, s')
    ensures s'.statusOk <==> s.statusOk && Event<C>.CloseFails !in events
    ensures s'.stopped <==> s.stopped || Event<C>.CloseFails in events || Event<C>.Exit in events
    decreases |events|
  {
    if events != [] {
      StepStatus(s, events[0]);
      StatusTellsFailure(events[1..], Step(s, events[0]), s');
      assert events == [events[0]] + events[1..];
      hide Step, Enabled;
    }
  }

  /** From the start: nothing else stops the thread, or spoils the status. */
  lemma StoppedOnlyFor<C>(events: seq<Event<C>>, s: State<C>)
    requires Run(events, Init<C>(), s)
    ensures s.statusOk <==> Event<C>.CloseFails !in events
    ensures s.stopped <==> Event<C>.CloseFails in events || Event<C>.Exit in events
  {
    StatusTellsFailure(events, Init<C>(), s);
  }

  lemma StepStatus<C>(s: State<C>, e: Event<C>)
    requires Enabled(s, e)
    ensures Step(s, e).statusOk <==> s.statusOk && !e.CloseFails?
    ensures Step(s, e).stopped <==> s.stopped || e.CloseFails? || e.Exit?
  {
  }

  // ---------- Nothing gets stuck ----------

  lemma {:induction false} RunConcat<C>(a: seq<Event<C>>, b: seq<Event<C>>, s: State<C>, t: State<C>, u: State<C>)
    requires Run(a, s, t) && Run(b, t, u)
    ensures Run(a + b, s, u)
    decreases |a|
  {
    hide Step, Enabled;
    if a == [] {
      assert a + b == b;
    } else {
      RunConcat(a[1..], b, Step(s, a[0]), t, u);
      assert (a + b)[1..] == a[1..] + b;
    }
  }

  lemma RunOne<C>(s: State<C>, e: Event<C>)
    requires Enabled(s, e)
    ensures Run([e], s, Step(s, e))
  {
    assert [e][1..] == [];
    hide Step, Enabled;
  }

  ghost predicate GpuOnly<C>(events: seq<Event<C>>) {
    forall e <- events :: e.GpuCommand? || e.GpuSignal?
  }

  /** The GPU can finish everything that has been submitted. */
  lemma {:induction false} GpuCanFinish<C>(s: State<C>) returns (events: seq<Event<C>>, t: State<C>)
    requires Inv(s)
    ensures Run(events, s, t) && GpuOnly(events)
    ensures t == s.(executed := |Delivered(s.submitted)|, completed := |s.submitted|)
    decreases |Delivered(s.submitted)| + |s.submitted| - s.executed - s.completed
  {
    if s.completed == |s.submitted| {
      assert s.submitted[..s.completed] == s.submitted;
      events, t := [], s;
    } else {
      var e := GpuCanStep(s);
      StepInv(s, e);
      hide Inv, Delivered, Enabled, Step, Before;
      var rest, t' := GpuCanFinish(Step(s, e));
      RunOne(s, e);
      RunConcat([e], rest, s, Step(s, e), t');
      events, t := [e] + rest, t';
    }
  }

  /** With a signal outstanding the GPU has a next step, which brings it nearer to the end. */
  lemma GpuCanStep<C>(s: State<C>) returns (e: Event<C>)
    requires Inv(s) && s.completed < |s.submitted|
    ensures (e.GpuCommand? || e.GpuSignal?) && Enabled(s, e)
    ensures Step(s, e) == s.(executed := Step(s, e).executed, completed := Step(s, e).completed)
    ensures s.executed + s.completed < Step(s, e).executed + Step(s, e).completed
    ensures Step(s, e).executed <= |Delivered(s.submitted)| && Step(s, e).completed <= |s.submitted|
  {
    DeliveredMonotone(s.submitted, s.completed + 1, |s.submitted|);
    assert s.submitted[..|s.submitted|] == s.submitted;
    e := if s.executed < Before(s, s.completed + 1) then Event<C>.GpuCommand else Event<C>.GpuSignal;
  }

  /** The execution thread can submit everything that has been appended. */
  lemma ThreadCanSubmit<C>(s: State<C>) returns (events: seq<Event<C>>, t: State<C>)
    requires Inv(s) && !s.stopped
    ensures Run(events, s, t) && Inv(t) && forall e <- events :: !e.Append? && !e.GpuCommand?
    ensures t.appended == s.appended == Delivered(t.submitted) && t.executed == s.executed
    ensures t.statusOk == s.statusOk && !t.stopped && !t.flushing && t.writeBatch == []
    ensures |t.submitted| <= |s.submitted| + 2
  {
    var first: seq<Event<C>>, s1 := [], s;
    if s.flushing {
      first, s1 := [Event<C>.Execute], Step(s, Event<C>.Execute);
      RunOne(s, Event<C>.Execute);
      StepInv(s, Event<C>.Execute);
    }
    var second: seq<Event<C>>;
    second, t := SubmitBatch(s1);
    RunConcat(first, second, s, s1, t);
    events := first + second;
  }

  lemma SubmitBatch<C>(s: State<C>) returns (events: seq<Event<C>>, t: State<C>)
    requires Inv(s) && !s.stopped && !s.flushing
    ensures Run(events, s, t) && Inv(t) && forall e <- events :: !e.Append? && !e.GpuCommand?
    ensures t.appended == s.appended == Delivered(t.submitted) && t.executed == s.executed
    ensures t.statusOk == s.statusOk && !t.stopped && !t.flushing && t.writeBatch == []
    ensures |t.submitted| <= |s.submitted| + 1
  {
    if s.writeBatch == [] {
      events, t := [], s;
      NothingLeft(s);
    } else {
      hide Run, Inv, Step, Enabled;
      var s1, s2, t' := BatchSteps(s);
      t := t';
      RunOne(s, Event<C>.RequestFlush);
      RunOne(s1, Event<C>.Poll(false));
      RunOne(s2, Event<C>.Execute);
      RunConcat([Event<C>.RequestFlush], [Event<C>.Poll(false)], s, s1, s2);
      events := [Event<C>.RequestFlush] + [Event<C>.Poll(false)] + [Event<C>.Execute];
      RunConcat([Event<C>.RequestFlush] + [Event<C>.Poll(false)], [Event<C>.Execute], s, s2, t);
      NothingLeft(t);
    }
  }

  /** With both batches empty, everything appended has been submitted. */
  lemma NothingLeft<C>(s: State<C>)
    requires Inv(s) && s.writeBatch == [] && !s.flushing
    ensures s.appended == Delivered(s.submitted)
  {
    assert Tag(s.executing, s.lastFence + 1) == [] && Tag(s.writeBatch, s.nextFlush) == [];
  }

  /** Requesting a flush, polling and executing submit the write batch. */
  lemma BatchSteps<C>(s: State<C>) returns (s1: State<C>, s2: State<C>, t: State<C>)
    requires Inv(s) && !s.stopped && !s.flushing && s.writeBatch != []
    ensures Enabled(s, Event<C>.RequestFlush) && s1 == Step(s, Event<C>.RequestFlush)
    ensures Enabled(s1, Event<C>.Poll(false)) && s2 == Step(s1, Event<C>.Poll(false))
    ensures Enabled(s2, Event<C>.Execute) && t == Step(s2, Event<C>.Execute)
    ensures Inv(t) && t.writeBatch == [] && !t.flushing && !t.stopped
    ensures t.appended == s.appended && t.executed == s.executed && t.statusOk == s.statusOk
    ensures |t.submitted| == |s.submitted| + 1
  {
    hide Inv;
    s1 := Step(s, Event<C>.RequestFlush);
    StepInv(s, Event<C>.RequestFlush);
    s2 := Step(s1, Event<C>.Poll(false));
    StepInv(s1, Event<C>.Poll(false));
    PollSwaps(s1, false);
    t := Step(s2, Event<C>.Execute);
    StepInv(s2, Event<C>.Execute);
  }

  /**
   * No deadlock: as long as the thread has not left its loop, every reachable state can be continued, without
   * another append, to one where every command has been executed and the event of every append is signalled. At
   * most two submissions are needed.
   */
  lemma CanAlwaysFinish<C>(s: State<C>) returns (events: seq<Event<C>>, t: State<C>)
    requires Inv(s) && !s.stopped
    ensures Run(events, s, t) && forall e <- events :: !e.Append?
    ensures t.appended == s.appended && t.executed == |s.appended| && t.statusOk == s.statusOk
    ensures !t.stopped && t.completed == |t.submitted| <= |s.submitted| + 2
    ensures forall tagged <- s.appended :: tagged.fence <= t.completed
  {
    hide Step, Enabled;
    var submit, s1 := ThreadCanSubmit(s);
    var gpu, t' := GpuCanFinish(s1);
    t := t';
    RunConcat(submit, gpu, s, s1, t);
    events := submit + gpu;
    forall tagged <- s.appended ensures tagged.fence <= t.completed {
      var i :| 0 <= i < |s.appended| && s.appended[i] == tagged;
      DeliveredSignals(s1.submitted, i);
    }
  }
}
