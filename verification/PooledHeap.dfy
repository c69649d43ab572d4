/** Ring-buffer suballocation of staging heaps (tfdml/core/dml_pooled_heap.cc). */
module PooledHeap {
  import opened Wrappers
  import opened Fences

  const MIN_CHUNK_SIZE: nat := 0x10_0000
  const ALIGNMENT: nat := 512
  const TWO_64: nat := 0x1_0000_0000_0000_0000

  // ---------- Data ----------

  datatype Allocation = Allocation(size: nat, offset: nat, doneValue: nat) {
    function End(): nat { offset + size }
  }

  /** `resource` names the committed buffer, so that a chunk keeps its identity when others are released. */
  datatype Chunk = Chunk(capacity: nat, resource: nat, allocations: seq<Allocation>)

  predicate Disjoint(off0: nat, size0: nat, off1: nat, size1: nat) {
    off0 + size0 <= off1 || off1 + size1 <= off0
  }

  /** `(offset + 511) & ~511` on 64-bit words; see AlignmentBits for the bit-level reading of the mask. */
  function Align(offset: nat): (r: nat)
    ensures offset + ALIGNMENT <= TWO_64 ==> offset <= r < offset + ALIGNMENT && r % ALIGNMENT == 0
    ensures offset + ALIGNMENT <= TWO_64 && offset % ALIGNMENT == 0 ==> r == offset
  {
    var sum := (offset + ALIGNMENT - 1) % TWO_64;
    sum - sum % ALIGNMENT
  }

  /** Masking with the complement of 511 subtracts the remainder modulo 512, on every 64-bit word. */
  lemma AlignmentBits(word: bv64)
    ensures word & !511 == word - word % 512
    ensures (word & !511) % 512 == 0
  {
  }

  /** Where a new allocation goes, branch for branch as the heap decides it. */
  function FindOffset(chunk: Chunk, size: nat): Option<nat> {
    if chunk.capacity < size then None
    else if chunk.allocations == [] then Some(0)
    else
      var first := chunk.allocations[0];
      var last := chunk.allocations[|chunk.allocations| - 1];
      var begin := Align(last.End());
      if (begin + size) % TWO_64 < begin then None
      else if first.offset <= last.offset then
        if begin + size <= chunk.capacity then Some(begin)
        else if size <= first.offset then Some(0)
        else None
      else if begin + size <= first.offset then Some(begin)
      else None
  }

  // ---------- The ring invariant ----------

  predicate AllocationOk(chunk: Chunk, a: Allocation) {
    0 < a.size && a.offset % ALIGNMENT == 0 && a.End() <= chunk.capacity
  }

  /** Allocation i sits on the first aligned offset behind its predecessor. */
  predicate Follows(a: seq<Allocation>, i: nat)
    requires 0 < i < |a|
  {
    a[i].offset == Align(a[i - 1].End())
  }

  /**
   * The first `lap` allocations follow each other upwards without room for another aligned one;
   * the rest restart at offset 0, do the same, and end before the oldest allocation begins.
   */
  ghost predicate RingAt(chunk: Chunk, lap: nat) {
    var a := chunk.allocations;
    && chunk.capacity + ALIGNMENT <= TWO_64
    && lap <= |a| && (a != [] ==> 0 < lap)
    && (forall i :: 0 <= i < |a| ==> AllocationOk(chunk, a[i]))
    && (forall i :: 0 < i < |a| && i != lap ==> Follows(a, i))
    && (forall i, j :: 0 <= i < j < |a| ==> a[i].doneValue <= a[j].doneValue)
    && (lap < |a| ==> a[lap].offset == 0 && a[|a| - 1].End() <= a[0].offset)
  }

  ghost predicate Ring(chunk: Chunk) {
    exists lap: nat :: RingAt(chunk, lap)
  }

  /** Within a lap, offsets ascend: i ends before j begins. */
  lemma {:induction false} LapAscends(chunk: Chunk, lap: nat, i: nat, j: nat)
    requires RingAt(chunk, lap)
    requires i < j < |chunk.allocations|
    requires j < lap || lap <= i
    ensures chunk.allocations[i].End() <= chunk.allocations[j].offset
    decreases j - i
  {
    if i + 1 < j {
      LapAscends(chunk, lap, i, j - 1);
    }
    assert AllocationOk(chunk, chunk.allocations[j - 1]) && Follows(chunk.allocations, j);
  }

  /** Across laps, the younger allocation lies wholly before the older one. */
  lemma LapsApart(chunk: Chunk, lap: nat, i: nat, j: nat)
    requires RingAt(chunk, lap)
    requires i < lap <= j < |chunk.allocations|
    ensures chunk.allocations[j].End() <= chunk.allocations[i].offset
  {
    var a := chunk.allocations;
    if 0 < i { LapAscends(chunk, lap, 0, i); }
    if j < |a| - 1 { LapAscends(chunk, lap, j, |a| - 1); }
    assert AllocationOk(chunk, a[i]) && AllocationOk(chunk, a[j]);
  }

  /** Live allocations of a chunk never share a byte. */
  lemma RingDisjoint(chunk: Chunk, i: nat, j: nat)
    requires Ring(chunk)
    requires i < |chunk.allocations| && j < |chunk.allocations| && i != j
    ensures Disjoint(chunk.allocations[i].offset, chunk.allocations[i].size,
                     chunk.allocations[j].offset, chunk.allocations[j].size)
  {
    var lap: nat :| RingAt(chunk, lap);
    var lo, hi := if i < j then i else j, if i < j then j else i;
    if lo < lap <= hi {
      LapsApart(chunk, lap, lo, hi);
    } else {
      LapAscends(chunk, lap, lo, hi);
    }
  }

  /** The offset may be given to a new allocation: aligned, in bounds and clear of every live one. */
  predicate CanPlace(chunk: Chunk, offset: nat, size: nat) {
    && offset % ALIGNMENT == 0
    && offset + size <= chunk.capacity
    && forall i :: 0 <= i < |chunk.allocations| ==>
         Disjoint(offset, size, chunk.allocations[i].offset, chunk.allocations[i].size)
  }

  function Push(chunk: Chunk, a: Allocation): Chunk {
    chunk.(allocations := chunk.allocations + [a])
  }

  /** The lap boundary after placing an allocation at `offset`. */
  function LapAfter(chunk: Chunk, lap: nat, offset: nat): nat {
    if lap == |chunk.allocations| && (lap == 0 || chunk.allocations[lap - 1].offset < offset) then lap + 1 else lap
  }

  lemma FoundOffsetExtendsRing(chunk: Chunk, lap: nat, size: nat, doneValue: nat)
    requires RingAt(chunk, lap) && 0 < size
    requires FindOffset(chunk, size).Some?
    requires forall i :: 0 <= i < |chunk.allocations| ==> chunk.allocations[i].doneValue <= doneValue
    ensures var offset := FindOffset(chunk, size).value;
            RingAt(Push(chunk, Allocation(size, offset, doneValue)), LapAfter(chunk, lap, offset))
  {
    var a := chunk.allocations;
    var offset := FindOffset(chunk, size).value;
    if a != [] {
      var last := a[|a| - 1];
      assert AllocationOk(chunk, last) && AllocationOk(chunk, a[0]);
      if lap == |a| {
        if 1 < |a| { LapAscends(chunk, lap, 0, |a| - 1); }
      }
      assert lap < |a| ==> last.offset < a[0].offset;
      assert lap == |a| ==> a[0].offset <= last.offset;
    }
    var c' := Push(chunk, Allocation(size, offset, doneValue));
    assert AllocationOk(c', c'.allocations[|a|]);
    forall i | 0 <= i < |c'.allocations| ensures AllocationOk(c', c'.allocations[i]) {
      if i < |a| { assert AllocationOk(chunk, a[i]); }
    }
    forall i | 0 < i < |c'.allocations| && i != LapAfter(chunk, lap, offset) ensures Follows(c'.allocations, i) {
      assert i < |a| ==> Follows(a, i);
    }
  }

  /** Soundness: a found offset is a legal placement, and recording it keeps the ring. */
  lemma FoundOffsetIsFree(chunk: Chunk, size: nat, doneValue: nat)
    requires Ring(chunk) && 0 < size
    requires FindOffset(chunk, size).Some?
    requires forall i :: 0 <= i < |chunk.allocations| ==> chunk.allocations[i].doneValue <= doneValue
    ensures CanPlace(chunk, FindOffset(chunk, size).value, size)
    ensures Ring(Push(chunk, Allocation(size, FindOffset(chunk, size).value, doneValue)))
  {
    var lap: nat :| RingAt(chunk, lap);
    FoundOffsetExtendsRing(chunk, lap, size, doneValue);
    var offset := FindOffset(chunk, size).value;
    var c' := Push(chunk, Allocation(size, offset, doneValue));
    forall i | 0 <= i < |chunk.allocations|
      ensures Disjoint(offset, size, chunk.allocations[i].offset, chunk.allocations[i].size)
    {
      RingDisjoint(c', |chunk.allocations|, i);
    }
    assert AllocationOk(c', c'.allocations[|chunk.allocations|]);
  }

  lemma AlignIsLeast(x: nat, offset: nat)
    requires x <= offset && offset % ALIGNMENT == 0 && offset + ALIGNMENT <= TWO_64
    ensures Align(x) <= offset
  {
    var up := x + ALIGNMENT - 1;
    assert up - up % ALIGNMENT == up / ALIGNMENT * ALIGNMENT;
    assert up / ALIGNMENT <= (offset + ALIGNMENT - 1) / ALIGNMENT == offset / ALIGNMENT;
  }

  /** No aligned hole is left between neighbours of one lap, so a placement above i is above every later j. */
  lemma {:induction false} NoHoleInLap(chunk: Chunk, lap: nat, offset: nat, size: nat, i: nat, j: nat)
    requires RingAt(chunk, lap) && CanPlace(chunk, offset, size) && 0 < size
    requires i <= j < |chunk.allocations|
    requires j < lap || lap <= i
    requires chunk.allocations[i].End() <= offset
    ensures chunk.allocations[j].End() <= offset
    decreases j - i
  {
    if i < j {
      NoHoleInLap(chunk, lap, offset, size, i, j - 1);
      AlignIsLeast(chunk.allocations[j - 1].End(), offset);
      assert Follows(chunk.allocations, j);
      assert Disjoint(offset, size, chunk.allocations[j].offset, chunk.allocations[j].size);
    }
  }

  /** The 64-bit sum of the aligned end and the size wraps, which the heap treats as "no room". */
  predicate OverflowGuard(chunk: Chunk, size: nat) {
    && size <= chunk.capacity
    && chunk.allocations != []
    && TWO_64 <= Align(chunk.allocations[|chunk.allocations| - 1].End()) + size
  }

  /** A ring that has wrapped: its newest allocation lies before its oldest. */
  predicate Wrapped(chunk: Chunk) {
    var a := chunk.allocations;
    a != [] && a[|a| - 1].offset < a[0].offset
  }

  /** The stretch behind the last allocation before the wrap, which a wrapped ring has given up. */
  predicate InLostTail(chunk: Chunk, offset: nat) {
    var a := chunk.allocations;
    && Wrapped(chunk)
    && forall i :: 0 <= i < |a| ==> a[i].End() <= offset
  }

  lemma PlacementIsFound(chunk: Chunk, size: nat, offset: nat)
    requires Ring(chunk) && 0 < size
    requires CanPlace(chunk, offset, size) && !InLostTail(chunk, offset) && !OverflowGuard(chunk, size)
    ensures FindOffset(chunk, size).Some?
  {
    var a := chunk.allocations;
    if a != [] {
      var lap: nat :| RingAt(chunk, lap);
      var last := |a| - 1;
      assert AllocationOk(chunk, a[0]) && AllocationOk(chunk, a[last]);
      assert Disjoint(offset, size, a[0].offset, a[0].size);
      if lap == |a| {
        if 0 < last { LapAscends(chunk, lap, 0, last); }
        if a[0].End() <= offset {
          NoHoleInLap(chunk, lap, offset, size, 0, last);
          AlignIsLeast(a[last].End(), offset);
        }
      } else {
        assert Disjoint(offset, size, a[lap].offset, a[lap].size);
        NoHoleInLap(chunk, lap, offset, size, lap, last);
        AlignIsLeast(a[last].End(), offset);
        if a[0].End() <= offset {
          forall i | 0 <= i < |a| ensures a[i].End() <= offset {
            if i < lap { NoHoleInLap(chunk, lap, offset, size, 0, i); } else { LapsApart(chunk, lap, 0, i); }
          }
        }
      }
    }
  }

  /** The search fails exactly when the guard fires or every legal placement lies in the lost tail. */
  lemma FindOffsetComplete(chunk: Chunk, size: nat)
    requires Ring(chunk) && 0 < size
    ensures FindOffset(chunk, size).None? <==>
              OverflowGuard(chunk, size)
              || forall offset: nat :: CanPlace(chunk, offset, size) ==> InLostTail(chunk, offset)
  {
    forall offset: nat | CanPlace(chunk, offset, size) && !InLostTail(chunk, offset) && !OverflowGuard(chunk, size)
      ensures FindOffset(chunk, size).Some?
    {
      PlacementIsFound(chunk, size, offset);
    }
    if FindOffset(chunk, size).Some? {
      var a := chunk.allocations;
      var offset := FindOffset(chunk, size).value;
      var doneValue := if a == [] then 0 else a[|a| - 1].doneValue;
      FoundOffsetIsFree(chunk, size, doneValue);
      if a != [] { assert AllocationOk(chunk, a[0]) && AllocationOk(chunk, a[|a| - 1]); }
      assert CanPlace(chunk, offset, size) && !InLostTail(chunk, offset);
    }
  }

  /** In a chunk that has not wrapped, and unless the guard fires, failure means that there is no legal placement. */
  lemma UnwrappedFailureIsHonest(chunk: Chunk, size: nat)
    requires Ring(chunk) && 0 < size && !Wrapped(chunk) && !OverflowGuard(chunk, size)
    ensures FindOffset(chunk, size).None? <==> forall offset: nat :: !CanPlace(chunk, offset, size)
  {
    FindOffsetComplete(chunk, size);
    assert forall offset: nat :: !InLostTail(chunk, offset);
  }

  /**
   * In a wrapped chunk, a failing search has missed a legal placement exactly when the size fits behind the last
   * allocation before the wrap.
   */
  lemma WrappedFailureIsHonestUnless(chunk: Chunk, lap: nat, size: nat)
    requires RingAt(chunk, lap) && lap < |chunk.allocations| && 0 < size && !OverflowGuard(chunk, size)
    requires FindOffset(chunk, size).None?
    ensures (exists offset: nat :: CanPlace(chunk, offset, size)) <==>
              Align(chunk.allocations[lap - 1].End()) + size <= chunk.capacity
  {
    var a := chunk.allocations;
    var tail := Align(a[lap - 1].End());
    FindOffsetComplete(chunk, size);
    assert AllocationOk(chunk, a[lap - 1]);
    if offset: nat :| CanPlace(chunk, offset, size) {
      assert InLostTail(chunk, offset) && a[lap - 1].End() <= offset;
      AlignIsLeast(a[lap - 1].End(), offset);
    }
    if tail + size <= chunk.capacity {
      forall i | 0 <= i < |a| ensures Disjoint(tail, size, a[i].offset, a[i].size) {
        if i < lap - 1 { LapAscends(chunk, lap, i, lap - 1); }
        if lap <= i { LapsApart(chunk, lap, lap - 1, i); }
      }
      assert CanPlace(chunk, tail, size);
    }
  }

  /** A wrapped chunk that misses a placement: 512 bytes at 1047552 are free, but the search does not find them. */
  function LostTailChunk(): Chunk {
    Chunk(MIN_CHUNK_SIZE, 0, [Allocation(1045504, 2048, 1), Allocation(2048, 0, 1)])
  }

  lemma LostTailIsRing()
    ensures RingAt(LostTailChunk(), 1)
  {
    var c := LostTailChunk();
    assert AllocationOk(c, c.allocations[0]) && AllocationOk(c, c.allocations[1]);
  }

  lemma LostTailIsMissed()
    ensures !OverflowGuard(LostTailChunk(), 512) && FindOffset(LostTailChunk(), 512) == None
    ensures CanPlace(LostTailChunk(), 1047552, 512)
  {
    assert Align(2048) == 2048;
  }

  /** It is within reach of a fresh chunk: place 2048 bytes, then 1045504, reclaim the first, place 2048 again. */
  lemma LostTailIsReached()
    ensures var c1 := Chunk(MIN_CHUNK_SIZE, 0, [Allocation(2048, 0, 0)]);
            var c2 := Push(c1, Allocation(1045504, 2048, 1));
            && FindOffset(Chunk(MIN_CHUNK_SIZE, 0, []), 2048) == Some(0)
            && FindOffset(c1, 1045504) == Some(2048)
            && FindOffset(PopFront(c2), 2048) == Some(0)
            && Push(PopFront(c2), Allocation(2048, 0, 1)) == LostTailChunk()
  {
    assert Align(2048) == 2048 && Align(1047552) == 1047552;
  }

  /** Up to 2^62 bytes, far beyond any committed buffer, the guard never fires. */
  lemma GuardNeedsHugeChunk(chunk: Chunk, size: nat)
    requires Ring(chunk) && chunk.capacity <= TWO_64 / 4
    ensures !OverflowGuard(chunk, size)
  {
    var a := chunk.allocations;
    if a != [] { assert AllocationOk(chunk, a[|a| - 1]); }
  }

  // ---------- Reclaiming ----------

  function PopFront(chunk: Chunk): Chunk
    requires chunk.allocations != []
  {
    chunk.(allocations := chunk.allocations[1..])
  }

  lemma PopFrontKeepsRing(chunk: Chunk)
    requires Ring(chunk) && chunk.allocations != []
    ensures Ring(PopFront(chunk))
  {
    var a := chunk.allocations;
    var lap: nat :| RingAt(chunk, lap);
    var lap' := if lap == 1 then |a| - 1 else lap - 1;
    var c' := PopFront(chunk);
    forall i | 0 <= i < |c'.allocations| ensures AllocationOk(c', c'.allocations[i]) {
      assert AllocationOk(chunk, a[i + 1]);
    }
    forall i | 0 < i < |c'.allocations| && i != lap'
      ensures Follows(c'.allocations, i)
    {
      assert Follows(a, i + 1);
    }
    if 1 < lap < |a| { LapAscends(chunk, lap, 0, 1); }
    assert RingAt(c', lap');
  }

  /**
   * What reclaiming leaves of a chunk: the allocations from the first one still in use onwards. `low` and
   * `high` are the completed fence value before and after, since the fence may advance meanwhile.
   */
  ghost predicate Reclaimed(before: Chunk, after: Chunk, low: nat, high: nat) {
    exists k: nat :: ReclaimedBy(before, after, k, low, high)
  }

  ghost predicate ReclaimedBy(before: Chunk, after: Chunk, k: nat, low: nat, high: nat) {
    && k <= |before.allocations|
    && after == before.(allocations := before.allocations[k..])
    && (forall i :: 0 <= i < k ==> before.allocations[i].doneValue <= high)
    && (forall i :: k <= i < |before.allocations| ==> low < before.allocations[i].doneValue)
  }

  lemma ReclaimedWidens(before: Chunk, after: Chunk, low: nat, high: nat, low': nat, high': nat)
    requires Reclaimed(before, after, low, high) && low' <= low && high <= high'
    ensures Reclaimed(before, after, low', high')
  {
    var k: nat :| ReclaimedBy(before, after, k, low, high);
    assert ReclaimedBy(before, after, k, low', high');
  }

  lemma {:induction false} DropKeepsRing(chunk: Chunk, k: nat)
    requires Ring(chunk) && k <= |chunk.allocations|
    ensures Ring(chunk.(allocations := chunk.allocations[k..]))
    decreases k
  {
    if k == 0 {
      assert chunk.allocations[0..] == chunk.allocations;
    } else {
      PopFrontKeepsRing(chunk);
      DropKeepsRing(PopFront(chunk), k - 1);
      assert chunk.allocations[1..][k - 1..] == chunk.allocations[k..];
    }
  }

  // ---------- The pool of chunks ----------

  function Total(chunks: seq<Chunk>): nat {
    if chunks == [] then 0 else Total(chunks[..|chunks| - 1]) + chunks[|chunks| - 1].capacity
  }

  /** Capacities add up. */
  lemma {:induction false} TotalSplits(a: seq<Chunk>, b: seq<Chunk>)
    ensures Total(a + b) == Total(a) + Total(b)
  {
    if b == [] {
      assert a + b == a;
    } else {
      assert (a + b)[..|a + b| - 1] == a + b[..|b| - 1];
      TotalSplits(a, b[..|b| - 1]);
    }
  }

  function Power2(n: nat): nat { if n == 0 then 1 else 2 * Power2(n - 1) }

  /** Every chunk is at least 1MB and at least as large as all the chunks before it together. */
  ghost predicate Grows(chunks: seq<Chunk>) {
    chunks == [] ||
    var last := |chunks| - 1;
    Grows(chunks[..last]) && MIN_CHUNK_SIZE <= chunks[last].capacity && Total(chunks[..last]) <= chunks[last].capacity
  }

  /** Buffers are named in the order they were committed, all below `bound`. */
  ghost predicate Named(chunks: seq<Chunk>, bound: nat) {
    chunks == [] ||
    var last := |chunks| - 1;
    chunks[last].resource < bound && Named(chunks[..last], chunks[last].resource)
  }

  ghost predicate PoolOk(chunks: seq<Chunk>, bound: nat) {
    && (forall c <- chunks :: Ring(c))
    && Named(chunks, bound)
    && Grows(chunks)
  }

  lemma {:induction false} NamesDistinct(chunks: seq<Chunk>, bound: nat, i: nat, j: nat)
    requires Named(chunks, bound) && i < j < |chunks|
    ensures chunks[i].resource < chunks[j].resource < bound
  {
    var last := |chunks| - 1;
    if j == last {
      NamesBounded(chunks[..last], chunks[last].resource, i);
    } else {
      NamesDistinct(chunks[..last], chunks[last].resource, i, j);
    }
  }

  lemma {:induction false} NamesBounded(chunks: seq<Chunk>, bound: nat, i: nat)
    requires Named(chunks, bound) && i < |chunks|
    ensures chunks[i].resource < bound
  {
    if i < |chunks| - 1 {
      NamesBounded(chunks[..|chunks| - 1], chunks[|chunks| - 1].resource, i);
    }
  }

  lemma {:induction false} PoolGrowth(chunks: seq<Chunk>)
    requires Grows(chunks) && chunks != []
    ensures Power2(|chunks| - 1) * MIN_CHUNK_SIZE <= Total(chunks)
  {
    var front := chunks[..|chunks| - 1];
    if front != [] {
      PoolGrowth(front);
    }
  }

  /** Chunks stay sorted by capacity. */
  lemma {:induction false} PoolSorted(chunks: seq<Chunk>, i: nat, j: nat)
    requires Grows(chunks) && i < j < |chunks|
    ensures chunks[i].capacity <= chunks[j].capacity
  {
    var last := |chunks| - 1;
    if j == last {
      TotalDominates(chunks[..last], i);
    } else {
      PoolSorted(chunks[..last], i, j);
    }
  }

  lemma {:induction false} TotalDominates(chunks: seq<Chunk>, i: nat)
    requires i < |chunks|
    ensures chunks[i].capacity <= Total(chunks)
  {
    if i < |chunks| - 1 {
      TotalDominates(chunks[..|chunks| - 1], i);
    }
  }

  lemma PoolAppend(chunks: seq<Chunk>, c: Chunk, bound: nat)
    requires PoolOk(chunks, c.resource) && Ring(c) && c.resource < bound
    requires MIN_CHUNK_SIZE <= c.capacity && Total(chunks) <= c.capacity
    ensures PoolOk(chunks + [c], bound) && Total(chunks + [c]) == Total(chunks) + c.capacity
  {
    assert (chunks + [c])[..|chunks|] == chunks;
  }

  /** The growth bound and the naming only look at capacities and names. */
  lemma {:induction false} SameShape(chunks: seq<Chunk>, chunks': seq<Chunk>, bound: nat)
    requires |chunks| == |chunks'|
    requires forall i :: 0 <= i < |chunks| ==>
               chunks'[i].capacity == chunks[i].capacity && chunks'[i].resource == chunks[i].resource
    ensures Total(chunks) == Total(chunks') && Grows(chunks) == Grows(chunks')
    ensures Named(chunks, bound) == Named(chunks', bound)
  {
    if chunks != [] {
      var last := |chunks| - 1;
      SameShape(chunks[..last], chunks'[..last], chunks[last].resource);
    }
  }

  /** Replacing the allocations of one chunk by another ring keeps the pool. */
  lemma PoolUpdate(chunks: seq<Chunk>, bound: nat, i: nat, allocations: seq<Allocation>)
    requires PoolOk(chunks, bound) && i < |chunks|
    requires Ring(chunks[i].(allocations := allocations))
    ensures PoolOk(chunks[i := chunks[i].(allocations := allocations)], bound)
    ensures Total(chunks[i := chunks[i].(allocations := allocations)]) == Total(chunks)
  {
    var chunks' := chunks[i := chunks[i].(allocations := allocations)];
    SameShape(chunks, chunks', bound);
  }

  datatype Reservation = Reservation(chunk: nat, offset: nat)

  /** The lowest chunk with room, if any. */
  function FirstFit(chunks: seq<Chunk>, size: nat): (r: Option<Reservation>)
    ensures r.Some? ==> r.value.chunk < |chunks| && FindOffset(chunks[r.value.chunk], size) == Some(r.value.offset)
    ensures r.Some? ==> forall i :: 0 <= i < r.value.chunk ==> FindOffset(chunks[i], size).None?
    ensures r.None? ==> forall i :: 0 <= i < |chunks| ==> FindOffset(chunks[i], size).None?
  {
    if chunks == [] then None
    else
      var last := |chunks| - 1;
      match FirstFit(chunks[..last], size)
      case Some(r) => Some(r)
      case None =>
        match FindOffset(chunks[last], size)
        case Some(offset) => Some(Reservation(last, offset))
        case None => None
  }

  /** At least doubles the pool. */
  function NewChunkSize(chunks: seq<Chunk>, size: nat): nat {
    Max(Total(chunks), Max(MIN_CHUNK_SIZE, size))
  }

  /**
   * The pool and the place a reservation yields, or None when a new chunk is needed and the device cannot
   * commit that many bytes. `resource` names the buffer the device would create.
   */
  function Reserved(chunks: seq<Chunk>, size: nat, available: nat, resource: nat): Option<(seq<Chunk>, Reservation)> {
    match FirstFit(chunks, size)
    case Some(r) => Some((chunks, r))
    case None =>
      var capacity := NewChunkSize(chunks, size);
      if available < capacity then None
      else Some((chunks + [Chunk(capacity, resource, [])], Reservation(|chunks|, 0)))
  }

  predicate Fits(chunks: seq<Chunk>, size: nat) {
    exists i :: 0 <= i < |chunks| && FindOffset(chunks[i], size).Some?
  }

  /**
   * A new chunk is committed exactly when no chunk has room, and then has the capacity of all others together, of
   * the minimum chunk, or of the request, whichever is largest; otherwise the first chunk with room is used, and the
   * pool stays as it is.
   */
  lemma ReservedReuses(chunks: seq<Chunk>, size: nat, available: nat, resource: nat)
    ensures Reserved(chunks, size, available, resource).None? ==>
              !Fits(chunks, size) && (available < Total(chunks) || available < MIN_CHUNK_SIZE || available < size)
    ensures Reserved(chunks, size, available, resource).Some? && Fits(chunks, size) ==>
              var (chunks', r) := Reserved(chunks, size, available, resource).value;
              && chunks' == chunks && r.chunk < |chunks| && FindOffset(chunks[r.chunk], size) == Some(r.offset)
              && forall i :: 0 <= i < r.chunk ==> FindOffset(chunks[i], size).None?
    ensures Reserved(chunks, size, available, resource).Some? && !Fits(chunks, size) ==>
              var (chunks', r) := Reserved(chunks, size, available, resource).value;
              && |chunks'| == |chunks| + 1 && chunks <= chunks' && r == Reservation(|chunks|, 0)
              && var c := chunks'[|chunks|];
                 && c.allocations == [] && c.resource == resource
                 && Total(chunks) <= c.capacity && MIN_CHUNK_SIZE <= c.capacity && size <= c.capacity <= available
                 && (c.capacity == Total(chunks) || c.capacity == MIN_CHUNK_SIZE || c.capacity == size)
  {
    hide FindOffset;
    var first := FirstFit(chunks, size);
    if first.Some? { assert FindOffset(chunks[first.value.chunk], size).Some?; }
  }

  /** A reservation keeps the pool and lies in free space. */
  lemma ReservedIsSound(chunks: seq<Chunk>, size: nat, available: nat, resource: nat)
    requires PoolOk(chunks, resource) && 0 < size && available + ALIGNMENT <= TWO_64
    requires Reserved(chunks, size, available, resource).Some?
    ensures var (chunks', r) := Reserved(chunks, size, available, resource).value;
            && PoolOk(chunks', resource + |chunks'| - |chunks|) && r.chunk < |chunks'|
            && chunks <= chunks' && |chunks'| <= |chunks| + 1
            && FindOffset(chunks'[r.chunk], size) == Some(r.offset)
            && CanPlace(chunks'[r.chunk], r.offset, size)
  {
    var (chunks', r) := Reserved(chunks, size, available, resource).value;
    if chunks' != chunks {
      var c := Chunk(NewChunkSize(chunks, size), resource, []);
      assert RingAt(c, 0);
      PoolAppend(chunks, c, resource + 1);
    }
    var a := chunks'[r.chunk].allocations;
    FoundOffsetIsFree(chunks'[r.chunk], size, if a == [] then 0 else a[|a| - 1].doneValue);
  }

  /** The reserved range shares no byte with any live allocation of any chunk. */
  lemma ReservedAvoidsLive(chunks: seq<Chunk>, size: nat, available: nat, resource: nat, chunk: Chunk, a: Allocation)
    requires PoolOk(chunks, resource) && 0 < size && available + ALIGNMENT <= TWO_64
    requires Reserved(chunks, size, available, resource).Some?
    requires chunk in chunks && a in chunk.allocations
    ensures var (chunks', r) := Reserved(chunks, size, available, resource).value;
            && 0 < a.size && r.chunk < |chunks'|
            && (chunk.resource == chunks'[r.chunk].resource ==> Disjoint(r.offset, size, a.offset, a.size))
  {
    ReservedIsSound(chunks, size, available, resource);
    var (chunks', r) := Reserved(chunks, size, available, resource).value;
    var k :| 0 <= k < |chunks| && chunks[k] == chunk;
    var j :| 0 <= j < |chunk.allocations| && chunk.allocations[j] == a;
    var bound := resource + |chunks'| - |chunks|;
    if k < r.chunk { NamesDistinct(chunks', bound, k, r.chunk); }
    if r.chunk < k { NamesDistinct(chunks', bound, r.chunk, k); }
    LiveIsNonEmpty(chunk, a);
  }

  lemma LiveIsNonEmpty(chunk: Chunk, a: Allocation)
    requires Ring(chunk) && a in chunk.allocations
    ensures 0 < a.size
  {
    var lap: nat :| RingAt(chunk, lap);
    var j :| 0 <= j < |chunk.allocations| && chunk.allocations[j] == a;
    assert AllocationOk(chunk, chunk.allocations[j]);
  }

  /** Recording the reserved range under a fence value no smaller than the recorded ones. */
  function Record(chunks: seq<Chunk>, r: Reservation, size: nat, doneValue: nat): seq<Chunk>
    requires r.chunk < |chunks|
  {
    chunks[r.chunk := Push(chunks[r.chunk], Allocation(size, r.offset, doneValue))]
  }

  lemma RecordKeepsPool(chunks: seq<Chunk>, bound: nat, r: Reservation, size: nat, doneValue: nat)
    requires PoolOk(chunks, bound) && 0 < size && r.chunk < |chunks|
    requires FindOffset(chunks[r.chunk], size) == Some(r.offset)
    requires forall a <- chunks[r.chunk].allocations :: a.doneValue <= doneValue
    ensures PoolOk(Record(chunks, r, size, doneValue), bound)
    ensures Total(Record(chunks, r, size, doneValue)) == Total(chunks)
  {
    FoundOffsetIsFree(chunks[r.chunk], size, doneValue);
    PoolUpdate(chunks, bound, r.chunk, chunks[r.chunk].allocations + [Allocation(size, r.offset, doneValue)]);
  }

  /** The chunks that still hold allocations, in order. */
  function InUse(chunks: seq<Chunk>): (r: seq<Chunk>)
    ensures forall c :: c in r <==> c in chunks && c.allocations != []
  {
    if chunks == [] then []
    else
      var last := chunks[|chunks| - 1];
      assert chunks == chunks[..|chunks| - 1] + [last];
      if last.allocations == [] then InUse(chunks[..|chunks| - 1]) else InUse(chunks[..|chunks| - 1]) + [last]
  }

  /** Releasing unused chunks keeps every pool invariant, growth included. */
  lemma {:induction false} InUseKeepsPool(chunks: seq<Chunk>, bound: nat)
    requires PoolOk(chunks, bound)
    ensures PoolOk(InUse(chunks), bound) && Total(InUse(chunks)) <= Total(chunks)
  {
    if chunks != [] {
      var front, last := chunks[..|chunks| - 1], chunks[|chunks| - 1];
      InUseKeepsPool(front, last.resource);
      if last.allocations == [] {
        NamedWidens(InUse(front), last.resource, bound);
      } else {
        PoolAppend(InUse(front), last, bound);
      }
    }
  }

  lemma NamedWidens(chunks: seq<Chunk>, bound: nat, bound': nat)
    requires Named(chunks, bound) && bound <= bound'
    ensures Named(chunks, bound')
  {
  }

  // ---------- The heap object ----------

  class PooledHeap {
    var chunks: seq<Chunk>
    var totalCapacity: nat
    var nextResource: nat  // the name the device gives to the next committed buffer

    ghost predicate Valid()
      reads this
    {
      PoolOk(chunks, nextResource) && totalCapacity == Total(chunks)
    }

    constructor ()
      ensures Valid() && chunks == [] && nextResource == 0
    {
      chunks, totalCapacity, nextResource := [], 0, 0;
    }

    /** The first chunk with room for the allocation. */
    method FindChunk(size: nat) returns (r: Option<Reservation>)
      ensures r == FirstFit(chunks, size)
    {
      var i := 0;
      while i < |chunks|
        invariant 0 <= i <= |chunks|
        invariant forall j :: 0 <= j < i ==> FindOffset(chunks[j], size).None?
      {
        var offset := FindOffset(chunks[i], size);
        if offset.Some? {
          return Some(Reservation(i, offset.value));
        }
        i := i + 1;
      }
      r := None;
    }

    /** `available` is how much the device can still commit; less than a needed chunk is out of memory. */
    method Reserve(size: nat, available: nat) returns (r: Option<Reservation>)
      requires Valid() && 0 < size && available + ALIGNMENT <= TWO_64
      modifies this
      ensures Valid()
      ensures match Reserved(old(chunks), size, available, old(nextResource))
              case None => r == None && chunks == old(chunks)
              case Some(result) => chunks == result.0 && r == Some(result.1)
      ensures nextResource == old(nextResource) + |chunks| - |old(chunks)|
      ensures r.Some? ==> r.value.chunk < |chunks| && CanPlace(chunks[r.value.chunk], r.value.offset, size)
    {
      hide PoolOk, FindOffset, CanPlace, FirstFit;
      if Reserved(chunks, size, available, nextResource).Some? {
        ReservedIsSound(chunks, size, available, nextResource);
      }
      r := FindChunk(size);
      if r == None {
        var newChunkSize := Max(totalCapacity, Max(MIN_CHUNK_SIZE, size));
        if newChunkSize <= available {
          r := Some(Reservation(|chunks|, 0));
          assert (chunks + [Chunk(newChunkSize, nextResource, [])])[..|chunks|] == chunks;
          chunks := chunks + [Chunk(newChunkSize, nextResource, [])];
          nextResource := nextResource + 1;
          totalCapacity := totalCapacity + newChunkSize;
        }
      }
    }

    /** What the upload and readback heaps do with a reservation once they know its completion value. */
    method RecordAllocation(r: Reservation, size: nat, doneValue: nat)
      requires Valid() && 0 < size && r.chunk < |chunks|
      requires FindOffset(chunks[r.chunk], size) == Some(r.offset)
      requires forall a <- chunks[r.chunk].allocations :: a.doneValue <= doneValue
      modifies this
      ensures Valid() && chunks == Record(old(chunks), r, size, doneValue)
      ensures totalCapacity == old(totalCapacity) && nextResource == old(nextResource)
    {
      RecordKeepsPool(chunks, nextResource, r, size, doneValue);
      chunks := Record(chunks, r, size, doneValue);
    }

    /** Frees, in every chunk, exactly the ranges whose fence value had been reached when it was read. */
    method ReclaimAllocations(fence: Fence)
      requires Valid()
      modifies this, fence
      ensures Valid() && totalCapacity == old(totalCapacity) && nextResource == old(nextResource)
      ensures old(fence.completed) <= fence.completed && |chunks| == |old(chunks)|
      ensures forall i :: 0 <= i < |chunks| ==>
                Reclaimed(old(chunks)[i], chunks[i], old(fence.completed), fence.completed)
    {
      var i := 0;
      while i < |chunks|
        invariant 0 <= i <= |chunks| == |old(chunks)| && Valid() && old(fence.completed) <= fence.completed
        invariant totalCapacity == old(totalCapacity) && nextResource == old(nextResource)
        invariant forall j :: i <= j < |chunks| ==> chunks[j] == old(chunks)[j]
        invariant forall j :: 0 <= j < i ==>
                    Reclaimed(old(chunks)[j], chunks[j], old(fence.completed), fence.completed)
      {
        ghost var chunks0, low, high := old(chunks), old(fence.completed), fence.completed;
        ghost var chunks1 := chunks;
        ReclaimChunk(i, fence);
        ReclaimedWidens(chunks0[i], chunks[i], high, fence.completed, low, fence.completed);
        forall j | 0 <= j < i ensures Reclaimed(chunks0[j], chunks[j], low, fence.completed) {
          ReclaimedWidens(chunks0[j], chunks1[j], low, high, low, fence.completed);
        }
        i := i + 1;
      }
    }

    method ReclaimChunk(i: nat, fence: Fence)
      requires Valid() && i < |chunks|
      modifies this, fence
      ensures Valid() && totalCapacity == old(totalCapacity) && nextResource == old(nextResource)
      ensures old(fence.completed) <= fence.completed
      ensures |chunks| == |old(chunks)|
      ensures forall j :: 0 <= j < |chunks| && j != i ==> chunks[j] == old(chunks)[j]
      ensures Reclaimed(old(chunks)[i], chunks[i], old(fence.completed), fence.completed)
    {
      ghost var chunks0, before := chunks, chunks[i];
      ghost var k: nat := 0;
      var inUse := false;
      while !inUse && chunks[i].allocations != []
        invariant totalCapacity == old(totalCapacity) && nextResource == old(nextResource)
        invariant old(fence.completed) <= fence.completed
        invariant k <= |before.allocations|
        invariant chunks == chunks0[i := before.(allocations := before.allocations[k..])]
        invariant forall j :: 0 <= j < k ==> before.allocations[j].doneValue <= fence.completed
        invariant inUse ==> k < |before.allocations| && old(fence.completed) < before.allocations[k].doneValue
        decreases |chunks[i].allocations|, !inUse
      {
        var completed := fence.GetCompletedValue();
        if chunks[i].allocations[0].doneValue <= completed {
          chunks := chunks[i := PopFront(chunks[i])];
          k := k + 1;
        } else {
          inUse := true;
        }
      }
      DropKeepsRing(before, k);
      PoolUpdate(chunks0, nextResource, i, before.allocations[k..]);
      assert ReclaimedBy(before, chunks[i], k, old(fence.completed), fence.completed) by {
        var lap: nat :| RingAt(before, lap);
      }
    }

    /** Reclaims, releases the chunks left without allocations and recounts the capacity. */
    method Trim(fence: Fence) returns (ghost reclaimed: seq<Chunk>)
      requires Valid()
      modifies this, fence
      ensures Valid() && nextResource == old(nextResource) && old(fence.completed) <= fence.completed
      ensures |reclaimed| == |old(chunks)| && chunks == InUse(reclaimed)
      ensures forall i :: 0 <= i < |reclaimed| ==>
                Reclaimed(old(chunks)[i], reclaimed[i], old(fence.completed), fence.completed)
    {
      hide PoolOk, Reclaimed, InUse, Total;
      ReclaimAllocations(fence);
      reclaimed := chunks;
      InUseKeepsPool(reclaimed, nextResource);
      chunks := RemoveUnused(chunks);
      totalCapacity := CountCapacity(chunks);
    }
  }

  /** The remove-and-erase pass of Trim. */
  method RemoveUnused(chunks: seq<Chunk>) returns (kept: seq<Chunk>)
    ensures kept == InUse(chunks)
  {
    kept := [];
    for i := 0 to |chunks|
      invariant kept == InUse(chunks[..i])
    {
      assert chunks[..i + 1][..i] == chunks[..i];
      if chunks[i].allocations != [] {
        kept := kept + [chunks[i]];
      }
    }
    assert chunks[..|chunks|] == chunks;
  }

  /** The recount pass of Trim. */
  method CountCapacity(chunks: seq<Chunk>) returns (total: nat)
    ensures total == Total(chunks)
  {
    total := 0;
    for i := 0 to |chunks|
      invariant total == Total(chunks[..i])
    {
      assert chunks[..i + 1][..i] == chunks[..i];
      total := total + chunks[i].capacity;
    }
    assert chunks[..|chunks|] == chunks;
  }
}
