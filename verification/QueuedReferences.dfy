/** Kernels kept alive until the GPU has finished with them (tfdml/core/dml_kernel_manager.cc). */
module QueuedReferences {
  import opened Fences

  datatype GpuEvent = GpuEvent(fence: Fence, value: Word)

  datatype Reference<K> = Reference(kernel: K, event: GpuEvent)

  /** An element of the vector; moving out of it leaves nothing to read. */
  datatype Slot<K> = Holds(reference: Reference<K>) | MovedFrom

  // ---------- Splitting a queue ----------

  /** The references whose flag is the wanted one, in order. */
  function Where<K>(refs: seq<Reference<K>>, taken: seq<bool>, wanted: bool): (r: seq<Reference<K>>)
    requires |refs| == |taken|
    ensures |r| <= |refs|
  {
    if refs == [] then []
    else
      var last := |refs| - 1;
      Where(refs[..last], taken[..last], wanted) + if taken[last] == wanted then [refs[last]] else []
  }

  lemma WhereStep<K>(refs: seq<Reference<K>>, taken: seq<bool>, r: Reference<K>, flag: bool, wanted: bool)
    requires |refs| == |taken|
    ensures Where(refs + [r], taken + [flag], wanted) == Where(refs, taken, wanted) + if flag == wanted then [r] else []
  {
    assert (refs + [r])[..|refs|] == refs && (taken + [flag])[..|taken|] == taken;
  }

  /** Splitting loses and duplicates nothing. */
  lemma {:induction false} SplitKeepsAll<K>(refs: seq<Reference<K>>, taken: seq<bool>)
    requires |refs| == |taken|
    ensures multiset(Where(refs, taken, true)) + multiset(Where(refs, taken, false)) == multiset(refs)
  {
    if refs != [] {
      var last := |refs| - 1;
      SplitKeepsAll(refs[..last], taken[..last]);
      assert refs == refs[..last] + [refs[last]];
    }
  }

  /** Two references kept, or two freed, stand in the order they were queued in. */
  lemma {:induction false} SplitKeepsOrder<K>(refs: seq<Reference<K>>, taken: seq<bool>, wanted: bool)
      returns (origin: seq<nat>)
    requires |refs| == |taken|
    ensures |origin| == |Where(refs, taken, wanted)|
    ensures forall i :: 0 <= i < |origin| ==>
              origin[i] < |refs| && taken[origin[i]] == wanted && refs[origin[i]] == Where(refs, taken, wanted)[i]
    ensures forall i, j :: 0 <= i < j < |origin| ==> origin[i] < origin[j]
  {
    if refs == [] {
      origin := [];
    } else {
      var last := |refs| - 1;
      origin := SplitKeepsOrder(refs[..last], taken[..last], wanted);
      if taken[last] == wanted { origin := origin + [last]; }
    }
  }

  // ---------- The queue ----------

  ghost predicate Held<K>(slots: seq<Slot<K>>, refs: seq<Reference<K>>) {
    |slots| == |refs| && forall i :: 0 <= i < |slots| ==> slots[i] == Holds(refs[i])
  }

  /** Where a set of fences stands. */
  ghost function Completed(fences: set<Fence>): map<Fence, Word>
    reads fences
  {
    map f: Fence | f in fences :: f.completed
  }

  /** Every read of a fence returned a value between where the fence stood at the start and where it stands now. */
  ghost predicate Read<K>(refs: seq<Reference<K>>, seen: seq<Word>, start: map<Fence, Word>, now: map<Fence, Word>) {
    && |seen| <= |refs|
    && forall i :: 0 <= i < |seen| ==>
         var f := refs[i].event.fence;
         f in start && f in now && start[f] <= seen[i] <= now[f]
  }

  lemma ReadMore<K>(refs: seq<Reference<K>>, seen: seq<Word>, start: map<Fence, Word>, before: map<Fence, Word>,
                    now: map<Fence, Word>, value: Word)
    requires Read(refs, seen, start, before) && Rises(start, before) && Rises(before, now) && |seen| < |refs|
    requires var f := refs[|seen|].event.fence; f in start && before[f] <= value <= now[f]
    ensures Read(refs, seen + [value], start, now) && Rises(start, now)
  {
  }

  method ReadFence<K>(fence: Fence, ghost refs: seq<Reference<K>>, ghost seen: seq<Word>,
                      ghost start: map<Fence, Word>, ghost fences: set<Fence>) returns (completed: Word)
    requires Read(refs, seen, start, Completed(fences)) && Rises(start, Completed(fences)) && |seen| < |refs|
    requires fence == refs[|seen|].event.fence && fence in fences && fence in start
    modifies fence
    ensures Read(refs, seen + [completed], start, Completed(fences)) && Rises(start, Completed(fences))
  {
    ghost var before := Completed(fences);
    completed := fence.GetCompletedValue();
    assert Rises(before, Completed(fences));
    ReadMore(refs, seen, start, before, Completed(fences), completed);
  }

  /** Which references were found signalled. */
  function Signaled<K>(refs: seq<Reference<K>>, seen: seq<Word>): (r: seq<bool>)
    requires |seen| == |refs|
    ensures |r| == |refs|
  {
    seq(|refs|, i requires 0 <= i < |refs| => refs[i].event.value <= seen[i])
  }

  ghost predicate Rises(start: map<Fence, Word>, now: map<Fence, Word>) {
    forall f <- start :: f in now && start[f] <= now[f]
  }

  /**
   * Halfway through: the slots before dst hold what was kept, those from it on are untouched, and those between
   * have been moved from.
   */
  ghost predicate Compacted<K>(slots: seq<Slot<K>>, dst: nat, it: nat, refs: seq<Reference<K>>, seen: seq<Word>,
                               free: seq<Reference<K>>) {
    && dst <= it <= |slots| == |refs| && |seen| == it
    && Held(slots[..dst], Where(refs[..it], Signaled(refs[..it], seen), false))
    && (forall i :: it <= i < |refs| ==> slots[i] == Holds(refs[i]))
    && free == Where(refs[..it], Signaled(refs[..it], seen), true)
  }

  lemma SignaledStep<K>(refs: seq<Reference<K>>, seen: seq<Word>, it: nat, value: Word)
    requires it < |refs| && |seen| == it
    ensures refs[..it + 1] == refs[..it] + [refs[it]]
    ensures Signaled(refs[..it + 1], seen + [value]) ==
              Signaled(refs[..it], seen) + [refs[it].event.value <= value]
  {
  }

  lemma NothingVisited<K>(slots: seq<Slot<K>>, refs: seq<Reference<K>>, start: map<Fence, Word>)
    requires Held(slots, refs)
    ensures Compacted(slots, 0, 0, refs, [], []) && Rises(start, start) && Read(refs, [], start, start)
  {
    assert refs[..0] == [] && slots[..0] == [];
  }

  lemma InPlace<K>(slots: seq<Slot<K>>, dst: nat, it: nat, refs: seq<Reference<K>>, seen: seq<Word>,
                   free: seq<Reference<K>>)
    requires Compacted(slots, dst, it, refs, seen, free) && it < |slots|
    ensures dst <= it < |refs| && |seen| == it && slots[it] == Holds(refs[it]) && refs[it] in refs
  {
  }

  lemma AllCompacted<K>(slots: seq<Slot<K>>, dst: nat, refs: seq<Reference<K>>, seen: seq<Word>, free: seq<Reference<K>>)
    requires Compacted(slots, dst, |slots|, refs, seen, free)
    ensures dst <= |slots| && |seen| == |refs|
    ensures Held(slots[..dst], Where(refs, Signaled(refs, seen), false))
    ensures free == Where(refs, Signaled(refs, seen), true)
  {
    assert refs[..|slots|] == refs;
  }

  lemma FreeStep<K>(slots: seq<Slot<K>>, dst: nat, it: nat, refs: seq<Reference<K>>, seen: seq<Word>,
                    free: seq<Reference<K>>, value: Word)
    requires Compacted(slots, dst, it, refs, seen, free) && it < |refs| && refs[it].event.value <= value
    ensures Compacted(slots[it := MovedFrom], dst, it + 1, refs, seen + [value], free + [refs[it]])
  {
    SignaledStep(refs, seen, it, value);
    WhereStep(refs[..it], Signaled(refs[..it], seen), refs[it], true, true);
    WhereStep(refs[..it], Signaled(refs[..it], seen), refs[it], true, false);
  }

  lemma KeepStep<K>(slots: seq<Slot<K>>, dst: nat, it: nat, refs: seq<Reference<K>>, seen: seq<Word>,
                    free: seq<Reference<K>>, value: Word)
    requires Compacted(slots, dst, it, refs, seen, free) && it < |refs| && value < refs[it].event.value
    ensures dst == it ==> Compacted(slots, dst + 1, it + 1, refs, seen + [value], free)
    ensures dst < it ==>
              Compacted(slots[dst := Holds(refs[it])][it := MovedFrom], dst + 1, it + 1, refs, seen + [value], free)
  {
    SignaledStep(refs, seen, it, value);
    WhereStep(refs[..it], Signaled(refs[..it], seen), refs[it], false, true);
    WhereStep(refs[..it], Signaled(refs[..it], seen), refs[it], false, false);
  }

  class ReferenceQueue<K> {
    var queuedReferences: seq<Slot<K>>
    /** What the slots hold, between calls. */
    ghost var contents: seq<Reference<K>>

    ghost predicate Valid()
      reads this
    {
      Held(queuedReferences, contents)
    }

    ghost function FencesOf(): set<Fence>
      reads this
    {
      set r | r in contents :: r.event.fence
    }

    constructor ()
      ensures Valid() && contents == []
    {
      queuedReferences, contents := [], [];
    }

    method QueueReference(kernel: K, gpuEvent: GpuEvent)
      requires Valid()
      modifies this
      ensures Valid() && contents == old(contents) + [Reference(kernel, gpuEvent)]
    {
      queuedReferences := queuedReferences + [Holds(Reference(kernel, gpuEvent))];
      contents := contents + [Reference(kernel, gpuEvent)];
    }

    /**
     * Each fence is read once per reference, and may advance between two reads: exactly the references found
     * signalled are freed, the rest stay in order.
     */
    method ReleaseCompletedReferences() returns (referencesToFree: seq<Reference<K>>, ghost seen: seq<Word>)
      requires Valid()
      modifies this, FencesOf()
      ensures Valid() && |seen| == |old(contents)|
      ensures referencesToFree == Where(old(contents), Signaled(old(contents), seen), true)
      ensures contents == Where(old(contents), Signaled(old(contents), seen), false)
      ensures Read(old(contents), seen, old(Completed(FencesOf())),
                   Completed(old(FencesOf())))
    {
      hide Compacted, Read, Rises, Where, Signaled;
      referencesToFree, seen := [], [];
      ghost var refs, fences := contents, FencesOf();
      ghost var start := Completed(fences);
      var dst, it := 0, 0;
      NothingVisited(queuedReferences, refs, start);
      while it < |queuedReferences|
        invariant it <= |queuedReferences| && Compacted(queuedReferences, dst, it, refs, seen, referencesToFree)
        invariant Rises(start, Completed(fences))
        invariant Read(refs, seen, start, Completed(fences))
      {
        InPlace(queuedReferences, dst, it, refs, seen, referencesToFree);
        var reference := queuedReferences[it].reference;
        var completed := ReadFence(reference.event.fence, refs, seen, start, fences);
        if reference.event.value <= completed {
          FreeStep(queuedReferences, dst, it, refs, seen, referencesToFree, completed);
          referencesToFree := referencesToFree + [reference];
          queuedReferences := queuedReferences[it := MovedFrom];
        } else {
          KeepStep(queuedReferences, dst, it, refs, seen, referencesToFree, completed);
          if it != dst {
            queuedReferences := queuedReferences[dst := Holds(reference)][it := MovedFrom];
          }
          dst := dst + 1;
        }
        seen := seen + [completed];
        it := it + 1;
      }
      AllCompacted(queuedReferences, dst, refs, seen, referencesToFree);
      queuedReferences := queuedReferences[..dst];
      contents := Where(refs, Signaled(refs, seen), false);
    }
  }

  /** What was signalled before the call is freed by it, and what is still unsignalled after it is kept. */
  lemma FreesExactlyTheSignalled<K>(refs: seq<Reference<K>>, seen: seq<Word>, start: map<Fence, Word>,
                                    now: map<Fence, Word>, i: nat)
    requires |seen| == |refs| && Read(refs, seen, start, now) && i < |refs|
    ensures var e := refs[i].event;
            && (e.value <= start[e.fence] ==> Signaled(refs, seen)[i])
            && (now[e.fence] < e.value ==> !Signaled(refs, seen)[i])
  {
  }
}
