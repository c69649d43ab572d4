/**
 * The double-buffered execution context and the command queue behind it as objects, refining the atomic
 * steps of Submission (tfdml/core/dml_execution_context.cc, tfdml/core/dml_command_queue.cc).
 */
module ExecutionContext {
  import opened Submission

  /** The D3D queue seen from its owner: what was executed, and the last value signalled behind it. */
  class CommandQueue<C> {
    var lastFenceValue: nat
    var submitted: seq<Submitted<C>>

    constructor ()
      ensures lastFenceValue == 0 && submitted == []
    {
      lastFenceValue, submitted := 0, [];
    }

    method ExecuteCommandLists(commands: seq<C>)
      modifies this
      ensures lastFenceValue == old(lastFenceValue) + 1
      ensures submitted == old(submitted) + [Submitted(commands, lastFenceValue)]
    {
      lastFenceValue := lastFenceValue + 1;
      submitted := submitted + [Submitted(commands, lastFenceValue)];
    }

    function GetCurrentCompletionEvent(): nat
      reads this
    {
      lastFenceValue
    }

    function GetNextCompletionEvent(): nat
      reads this
    {
      lastFenceValue + 1
    }
  }

  class ExecutionContext<C> {
    const queue: CommandQueue<C>
    const batches: array<seq<C>>
    var writeBatchIndex: nat
    var nextFlushValue: nat
    var flushRequested: bool
    var exitRequested: bool
    var statusOk: bool
    ghost var flushing: bool              // control state of the execution thread
    ghost var stopped: bool
    ghost var appended: seq<Tagged<C>>    // every append with the value it returned

    /** The state of the submission protocol, with a GPU that has not run yet. */
    ghost function Model(): State<C>
      reads this, queue, batches
      requires batches.Length == 2 && writeBatchIndex < 2
    {
      State(batches[writeBatchIndex], batches[1 - writeBatchIndex], flushing, nextFlushValue,
            queue.lastFenceValue, flushRequested, stopped, statusOk, queue.submitted, 0, 0, appended)
    }

    /** Two batches, in a state that satisfies the protocol's invariant. */
    ghost predicate Valid()
      reads this, queue, batches
    {
      batches.Length == 2 && writeBatchIndex < 2 && nextFlushValue > 0 && Inv(Model())
    }

    constructor ()
      ensures Valid() && fresh(queue) && fresh(batches) && Model() == Init()
    {
      queue := new CommandQueue();
      batches := new seq<C>[2](_ => []);
      writeBatchIndex, flushRequested, exitRequested, statusOk := 0, false, false, true;
      flushing, stopped, appended := false, false, [];
      new;
      nextFlushValue := queue.GetCurrentCompletionEvent();
      nextFlushValue := nextFlushValue + 1;
      InitInv<C>();
    }

    /** CopyBufferRegionRaw and its six siblings: extend the write batch and return the next flush event. */
    method Append(command: C) returns (event: nat)
      requires Valid()
      modifies this, batches
      ensures Valid() && Model() == Step(old(Model()), Event.Append(command))
      ensures |appended| == |old(appended)| + 1 && event == appended[|old(appended)|].fence
    {
      StepInv(Model(), Event.Append(command));
      batches[writeBatchIndex] := batches[writeBatchIndex] + [command];
      appended := appended + [Tagged(command, nextFlushValue)];
      event := nextFlushValue;
    }

    /** The event that covers every append made so far. */
    method GetCurrentCompletionEvent() returns (event: nat)
      requires Valid()
      ensures event == if appended == [] then 0 else appended[|appended| - 1].fence
    {
      CurrentEventIsTight(Model());
      event := nextFlushValue;
      if batches[writeBatchIndex] == [] {
        event := event - 1;
      }
    }

    method Flush() returns (event: nat)
      requires Valid()
      modifies this
      ensures Valid() && Model() == Step(old(Model()), Event<C>.RequestFlush)
      ensures event == if appended == [] then 0 else appended[|appended| - 1].fence
      ensures flushRequested
    {
      hide Inv;
      StepInv(Model(), Event<C>.RequestFlush);
      event := GetCurrentCompletionEvent();
      flushRequested := true;
    }

    method RequestExit()
      requires Valid()
      modifies this
      ensures Valid() && Model() == old(Model()) && exitRequested
    {
      exitRequested := true;
    }

    /** The locked section at the top of the execution thread's loop; `due` is the size or time condition. */
    method PollLocked(due: bool) returns (exit: bool, flush: bool)
      requires Valid() && !flushing && !stopped
      modifies this
      ensures Valid() && exitRequested == old(exitRequested) && exit == exitRequested && flush == flushing
      ensures Model() == Step(old(Model()), if exit then Event<C>.Exit else Event<C>.Poll(due))
      ensures flush <==> !exit && old(batches[writeBatchIndex]) != [] && (old(flushRequested) || due)
      ensures flush ==> batches[1 - writeBatchIndex] == old(batches[writeBatchIndex]) && batches[writeBatchIndex] == []
      ensures nextFlushValue == old(nextFlushValue) + if flush then 1 else 0
    {
      StepInv(Model(), if exitRequested then Event<C>.Exit else Event<C>.Poll(due));
      exit, flush := exitRequested, false;
      if exit {
        stopped := true;
        return;
      }
      if batches[writeBatchIndex] == [] {
        return;
      }
      if flushRequested || due {
        writeBatchIndex := (writeBatchIndex + 1) % 2;
        flush := true;
        nextFlushValue := nextFlushValue + 1;
        flushing := true;
      }
      flushRequested := false;
    }

    /** The unlocked rest of an iteration: record the batch, close the list, submit it, clear the batch. */
    method RecordAndExecute(closeSucceeds: bool)
      requires Valid() && flushing && !stopped
      modifies this, queue, batches
      ensures Valid() && Model() == Step(old(Model()), if closeSucceeds then Event<C>.Execute else Event<C>.CloseFails)
    {
      StepInv(Model(), if closeSucceeds then Event<C>.Execute else Event<C>.CloseFails);
      var batchIndex := 1 - writeBatchIndex;
      var commandList: seq<C> := [];
      for i := 0 to |batches[batchIndex]|
        invariant commandList == batches[batchIndex][..i]
      {
        commandList := commandList + [batches[batchIndex][i]];
      }
      assert commandList == batches[batchIndex];
      if !closeSucceeds {
        statusOk, stopped := false, true;
        return;
      }
      queue.ExecuteCommandLists(commandList);
      batches[batchIndex] := [];
      flushing := false;
    }
  }
}
