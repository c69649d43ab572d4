/**
 * The ring of command allocators under the Open-then-Execute protocol
 * (tfdml/core/dml_command_allocator_ring.h with tfdml/core/dml_command_list.cc and dml_command_queue.cc).
 */
module CommandAllocatorRing {
  import opened Fences

  /** Position j of the ring counted from the one after `current`, which therefore comes last. */
  function Slot(current: nat, count: nat, j: nat): (i: nat)
    requires current < count && j < count
    ensures i < count
  {
    if current + 1 + j < count then current + 1 + j else current + 1 + j - count
  }

  function EarliestOther(current: nat, count: nat): (i: nat)
    requires current < count
    ensures i == Slot(current, count, 0)
  {
    if current + 1 == count then assert count % count == 0; (current + 1) % count else (current + 1) % count
  }

  /** Read from current + 1 round to current, completion values never decrease. */
  ghost predicate Rising(values: seq<nat>, current: nat) {
    && current < |values|
    && forall i, j :: 0 <= i < j < |values| ==>
         values[Slot(current, |values|, i)] <= values[Slot(current, |values|, j)]
  }

  /** If even the newest work is done, so is the oldest: the assertion of GetNextAllocator. */
  lemma OldestFinishesFirst(values: seq<nat>, current: nat)
    requires Rising(values, current)
    ensures values[EarliestOther(current, |values|)] <= values[current]
  {
    var n := |values|;
    assert Slot(current, n, n - 1) == current;
    if 1 < n { assert values[Slot(current, n, 0)] <= values[Slot(current, n, n - 1)]; }
  }

  /** No slot's work is done before the oldest one's. */
  lemma EarliestIsLeast(values: seq<nat>, current: nat, i: nat)
    requires Rising(values, current) && i < |values|
    ensures values[EarliestOther(current, |values|)] <= values[i]
  {
    var n := |values|;
    var j := if current < i then i - current - 1 else i + n - current - 1;
    assert Slot(current, n, j) == i;
    if 0 < j { assert values[Slot(current, n, 0)] <= values[Slot(current, n, j)]; }
  }

  /** Giving the newest value to the oldest slot and making it current keeps the order. */
  lemma RisingAfterAdvance(values: seq<nat>, current: nat, newest: nat)
    requires Rising(values, current) && forall v <- values :: v <= newest
    ensures var next := EarliestOther(current, |values|); Rising(values[next := newest], next)
  {
    var n, next := |values|, EarliestOther(current, |values|);
    var values' := values[next := newest];
    forall i, j | 0 <= i < j < n ensures values'[Slot(next, n, i)] <= values'[Slot(next, n, j)] {
      assert Slot(next, n, i) == Slot(current, n, i + 1);
      if j + 1 < n {
        assert Slot(next, n, j) == Slot(current, n, j + 1);
        assert values[Slot(current, n, i + 1)] <= values[Slot(current, n, j + 1)];
      } else {
        assert Slot(next, n, j) == next;
        assert values[Slot(current, n, i + 1)] in values;
      }
    }
  }

  /** Extending the current slot's work keeps the order too. */
  lemma RisingAfterReuse(values: seq<nat>, current: nat, newest: nat)
    requires Rising(values, current) && forall v <- values :: v <= newest
    ensures Rising(values[current := newest], current)
  {
    var n, values' := |values|, values[current := newest];
    forall i, j | 0 <= i < j < n ensures values'[Slot(current, n, i)] <= values'[Slot(current, n, j)] {
      assert Slot(current, n, i) != current;
      assert values[Slot(current, n, i)] in values;
      assert values[Slot(current, n, i)] <= values[Slot(current, n, j)];
    }
  }

  /**
   * A command list with its allocator ring and the queue it submits to. `workDone[i]` is the fence value behind
   * the last submission recorded with allocator i.
   */
  class RecordingRing {
    const fence: Fence
    const completionValues: array<nat>
    var currentAllocator: nat
    var lastFenceValue: nat
    ghost var recording: bool
    ghost var workDone: seq<nat>

    ghost predicate Valid()
      reads this, completionValues
    {
      && Rising(completionValues[..], currentAllocator)
      && |workDone| == completionValues.Length
      && (forall i :: 0 <= i < |workDone| ==> workDone[i] <= completionValues[i])
      && (forall i :: 0 <= i < |workDone| ==> completionValues[i] <= lastFenceValue + if recording then 1 else 0)
      && (recording ==> completionValues[currentAllocator] == lastFenceValue + 1)
    }

    constructor (fence: Fence, count: nat)
      requires 0 < count
      ensures Valid() && !recording && this.fence == fence && completionValues.Length == count && lastFenceValue == 0
      ensures fresh(completionValues)
    {
      this.fence := fence;
      completionValues := new nat[count](_ => 0);
      currentAllocator, lastFenceValue, recording := 0, 0, false;
      workDone := seq(count, _ => 0);
    }

    method IsSignaled(value: nat) returns (r: bool)
      modifies fence
      ensures old(fence.completed) <= fence.completed && r == (value <= fence.completed)
    {
      var completed := fence.GetCompletedValue();
      r := value <= completed;
    }

    /** The allocator for the next recording; `reset` tells whether its memory was recycled for it. */
    method GetNextAllocator(nextCompletionValue: nat) returns (allocator: nat, reset: bool)
      requires Rising(completionValues[..], currentAllocator)
      requires forall i :: 0 <= i < completionValues.Length ==> completionValues[i] <= nextCompletionValue
      modifies this`currentAllocator, completionValues, fence
      ensures Rising(completionValues[..], currentAllocator) && allocator == currentAllocator
      ensures completionValues[..] == old(completionValues[..])[allocator := nextCompletionValue]
      ensures old(fence.completed) <= fence.completed
      ensures reset ==> old(completionValues[..])[allocator] <= fence.completed
      ensures !reset ==> allocator == old(currentAllocator)
      ensures reset ==> allocator == (old(currentAllocator) + 1) % completionValues.Length
      ensures reset <==> exists i :: 0 <= i < completionValues.Length && old(completionValues[i]) <= fence.completed
    {
      var earliestOther := EarliestOther(currentAllocator, completionValues.Length);
      ghost var values := completionValues[..];
      OldestFinishesFirst(values, currentAllocator);
      var currentDone := IsSignaled(completionValues[currentAllocator]);
      var otherDone := IsSignaled(completionValues[earliestOther]);
      assert !currentDone || otherDone;
      reset := IsSignaled(completionValues[earliestOther]);
      assert reset <==> exists i :: 0 <= i < |values| && values[i] <= fence.completed by {
        forall i | 0 <= i < |values| ensures values[earliestOther] <= values[i] {
          EarliestIsLeast(values, currentAllocator, i);
        }
      }
      if reset {
        RisingAfterAdvance(values, currentAllocator, nextCompletionValue);
        currentAllocator := earliestOther;
      } else {
        RisingAfterReuse(values, currentAllocator, nextCompletionValue);
      }
      completionValues[currentAllocator] := nextCompletionValue;
      assert completionValues[..] == values[currentAllocator := nextCompletionValue];
      allocator := currentAllocator;
    }

    /** An allocator is reset only when all the work ever recorded with it has finished on the GPU. */
    method Open() returns (allocator: nat, reset: bool)
      requires Valid() && !recording
      modifies this, completionValues, fence
      ensures Valid() && recording && allocator == currentAllocator < |workDone|
      ensures lastFenceValue == old(lastFenceValue) && workDone == old(workDone)
      ensures old(fence.completed) <= fence.completed
      ensures reset ==> workDone[allocator] <= fence.completed
      ensures reset <==> exists i :: 0 <= i < completionValues.Length && old(completionValues[i]) <= fence.completed
    {
      allocator, reset := GetNextAllocator(lastFenceValue + 1);
      recording := true;
    }

    /** Submits what was recorded since Open; the signal is the value Open stored. */
    method Execute()
      requires Valid() && recording
      modifies this
      ensures Valid() && !recording && lastFenceValue == old(lastFenceValue) + 1
      ensures currentAllocator == old(currentAllocator) < |workDone|
      ensures workDone == old(workDone)[currentAllocator := lastFenceValue]
    {
      lastFenceValue := lastFenceValue + 1;
      workDone := workDone[currentAllocator := lastFenceValue];
      recording := false;
    }
  }
}
