/** The bytes behind pooled chunks, as the CPU and the GPU see them. */
module StagingMemory {
  import opened Wrappers
  import opened PooledHeap

  type Bytes = seq<bv8>

  /** Reading outside a committed buffer yields nothing, which no request asks for. */
  function Read(memory: map<nat, Bytes>, resource: nat, offset: nat, size: nat): Bytes {
    if resource in memory && offset + size <= |memory[resource]| then memory[resource][offset..offset + size] else []
  }

  function Overwrite(bytes: Bytes, offset: nat, data: Bytes): Bytes
    requires offset + |data| <= |bytes|
  {
    bytes[..offset] + data + bytes[offset + |data|..]
  }

  /** memcpy into a mapped buffer; outside one it is lost, so that losing bytes would show. */
  function Write(memory: map<nat, Bytes>, resource: nat, offset: nat, data: Bytes): map<nat, Bytes> {
    if resource in memory && offset + |data| <= |memory[resource]|
    then memory[resource := Overwrite(memory[resource], offset, data)]
    else memory
  }

  lemma WriteThenRead(memory: map<nat, Bytes>, resource: nat, offset: nat, data: Bytes)
    requires resource in memory && offset + |data| <= |memory[resource]|
    ensures Read(Write(memory, resource, offset, data), resource, offset, |data|) == data
  {
  }

  /** A write changes no range that it does not touch. */
  lemma WriteElsewhere(memory: map<nat, Bytes>, resource: nat, offset: nat, data: Bytes,
                       resource': nat, offset': nat, size': nat)
    requires resource != resource' || Disjoint(offset, |data|, offset', size')
    ensures Read(Write(memory, resource, offset, data), resource', offset', size') ==
            Read(memory, resource', offset', size')
  {
  }

  /** Buffers of released chunks are gone. */
  function Release(memory: map<nat, Bytes>, kept: seq<Chunk>): (r: map<nat, Bytes>)
    ensures forall c <- kept :: c.resource in memory ==>
              c.resource in r && r[c.resource] == memory[c.resource]
  {
    map c <- kept | c.resource in memory :: c.resource := memory[c.resource]
  }

  /** The buffers after a reservation; a newly committed one holds whatever it happens to hold. */
  function Committed(memory: map<nat, Bytes>, grown: bool, resource: nat, contents: Bytes): map<nat, Bytes> {
    if grown then memory[resource := contents] else memory
  }

  ghost predicate Backed(chunks: seq<Chunk>, memory: map<nat, Bytes>) {
    forall c <- chunks :: c.resource in memory && |memory[c.resource]| == c.capacity
  }

  // ---------- A pooled heap with its bytes ----------

  /** No recorded range waits for more than `bound`, the last value given out. */
  ghost predicate DoneBy(chunks: seq<Chunk>, bound: nat) {
    forall c <- chunks :: forall a <- c.allocations :: a.doneValue <= bound
  }

  ghost predicate HeapOk(chunks: seq<Chunk>, nextResource: nat, memory: map<nat, Bytes>, bound: nat) {
    PoolOk(chunks, nextResource) && Backed(chunks, memory) && DoneBy(chunks, bound)
  }

  lemma HeapWidens(chunks: seq<Chunk>, nextResource: nat, memory: map<nat, Bytes>, bound: nat, bound': nat)
    requires HeapOk(chunks, nextResource, memory, bound) && bound <= bound'
    ensures HeapOk(chunks, nextResource, memory, bound')
  {
  }

  lemma WriteKeepsBacked(chunks: seq<Chunk>, memory: map<nat, Bytes>, resource: nat, offset: nat, data: Bytes)
    requires Backed(chunks, memory)
    ensures Backed(chunks, Write(memory, resource, offset, data))
  {
  }

  predicate Holds(chunk: Chunk, resource: nat, a: Allocation) {
    chunk.resource == resource && a in chunk.allocations
  }

  /** The range is recorded and has not been reclaimed. */
  ghost predicate Live(chunks: seq<Chunk>, resource: nat, a: Allocation) {
    exists chunk <- chunks :: Holds(chunk, resource, a)
  }

  /** Reserving keeps the heap, keeps what is live, and hands out a range that no live one touches. */
  lemma HeapReserve(chunks: seq<Chunk>, nextResource: nat, memory: map<nat, Bytes>, bound: nat,
                    size: nat, available: nat, contents: Bytes)
    requires HeapOk(chunks, nextResource, memory, bound)
    requires 0 < size && available + ALIGNMENT <= TWO_64 && |contents| == NewChunkSize(chunks, size)
    requires Reserved(chunks, size, available, nextResource).Some?
    ensures var (chunks', r) := Reserved(chunks, size, available, nextResource).value;
            var memory' := Committed(memory, |chunks'| > |chunks|, nextResource, contents);
            && HeapOk(chunks', nextResource + |chunks'| - |chunks|, memory', bound)
            && r.chunk < |chunks'| && FindOffset(chunks'[r.chunk], size) == Some(r.offset)
            && r.offset + size <= chunks'[r.chunk].capacity
  {
    ReservedIsSound(chunks, size, available, nextResource);
    var (chunks', r) := Reserved(chunks, size, available, nextResource).value;
    var memory' := Committed(memory, |chunks'| > |chunks|, nextResource, contents);
    forall d <- chunks' ensures d.resource in memory' && |memory'[d.resource]| == d.capacity {
      if d in chunks {
        var k :| 0 <= k < |chunks| && chunks[k] == d;
        NamesBounded(chunks, nextResource, k);
      }
    }
  }

  /** Reserving a range and filling it. */
  lemma HeapStage(chunks: seq<Chunk>, nextResource: nat, memory: map<nat, Bytes>, bound: nat,
                  data: Bytes, available: nat, contents: Bytes)
    requires HeapOk(chunks, nextResource, memory, bound)
    requires data != [] && available + ALIGNMENT <= TWO_64 && |contents| == NewChunkSize(chunks, |data|)
    requires Reserved(chunks, |data|, available, nextResource).Some?
    ensures var (chunks', r) := Reserved(chunks, |data|, available, nextResource).value;
            var memory' := Committed(memory, |chunks'| > |chunks|, nextResource, contents);
            var resource := chunks'[r.chunk].resource;
            var memory'' := Write(memory', resource, r.offset, data);
            && HeapOk(chunks', nextResource + |chunks'| - |chunks|, memory'', bound)
            && r.chunk < |chunks'| && FindOffset(chunks'[r.chunk], |data|) == Some(r.offset)
            && Read(memory'', resource, r.offset, |data|) == data
  {
    HeapReserve(chunks, nextResource, memory, bound, |data|, available, contents);
    var (chunks', r) := Reserved(chunks, |data|, available, nextResource).value;
    var memory' := Committed(memory, |chunks'| > |chunks|, nextResource, contents);
    WriteThenRead(memory', chunks'[r.chunk].resource, r.offset, data);
    WriteKeepsBacked(chunks', memory', chunks'[r.chunk].resource, r.offset, data);
  }

  lemma LiveAfterReserve(chunks: seq<Chunk>, nextResource: nat, memory: map<nat, Bytes>, bound: nat,
                         size: nat, available: nat, contents: Bytes, resource: nat, a: Allocation)
    requires HeapOk(chunks, nextResource, memory, bound) && Live(chunks, resource, a)
    requires 0 < size && available + ALIGNMENT <= TWO_64
    requires Reserved(chunks, size, available, nextResource).Some?
    ensures var (chunks', r) := Reserved(chunks, size, available, nextResource).value;
            var memory' := Committed(memory, |chunks'| > |chunks|, nextResource, contents);
            && Live(chunks', resource, a) && 0 < a.size && r.chunk < |chunks'|
            && (resource == chunks'[r.chunk].resource ==> Disjoint(r.offset, size, a.offset, a.size))
            && Read(memory', resource, a.offset, a.size) == Read(memory, resource, a.offset, a.size)
  {
    var chunk :| chunk in chunks && Holds(chunk, resource, a);
    ReservedAvoidsLive(chunks, size, available, nextResource, chunk, a);
    var (chunks', r) := Reserved(chunks, size, available, nextResource).value;
    var k :| 0 <= k < |chunks| && chunks[k] == chunk;
    assert chunks'[k] == chunk;
    NamesBounded(chunks, nextResource, k);
  }

  lemma HeapRecord(chunks: seq<Chunk>, nextResource: nat, memory: map<nat, Bytes>, bound: nat,
                   r: Reservation, size: nat, doneValue: nat)
    requires HeapOk(chunks, nextResource, memory, bound) && bound <= doneValue
    requires 0 < size && r.chunk < |chunks| && FindOffset(chunks[r.chunk], size) == Some(r.offset)
    ensures HeapOk(Record(chunks, r, size, doneValue), nextResource, memory, doneValue)
    ensures Live(Record(chunks, r, size, doneValue), chunks[r.chunk].resource, Allocation(size, r.offset, doneValue))
  {
    RecordKeepsPool(chunks, nextResource, r, size, doneValue);
    var chunks' := Record(chunks, r, size, doneValue);
    assert Holds(chunks'[r.chunk], chunks[r.chunk].resource, Allocation(size, r.offset, doneValue));
    forall d <- chunks' ensures d.resource in memory && |memory[d.resource]| == d.capacity {
      if d != chunks'[r.chunk] { assert d in chunks; }
    }
    forall d <- chunks', a <- d.allocations ensures a.doneValue <= doneValue {
      if d == chunks'[r.chunk] {
        assert a in chunks[r.chunk].allocations || a.doneValue == doneValue;
      } else {
        assert d in chunks;
      }
    }
  }

  lemma LiveAfterRecord(chunks: seq<Chunk>, r: Reservation, size: nat, doneValue: nat, resource: nat, a: Allocation)
    requires r.chunk < |chunks| && Live(chunks, resource, a)
    ensures Live(Record(chunks, r, size, doneValue), resource, a)
  {
    var chunk :| chunk in chunks && Holds(chunk, resource, a);
    var k :| 0 <= k < |chunks| && chunks[k] == chunk;
    assert Holds(Record(chunks, r, size, doneValue)[k], resource, a);
  }

  lemma HeapPop(chunks: seq<Chunk>, nextResource: nat, memory: map<nat, Bytes>, bound: nat, n: nat)
    requires HeapOk(chunks, nextResource, memory, bound)
    requires n < |chunks| && chunks[n].allocations != []
    ensures HeapOk(chunks[n := PopFront(chunks[n])], nextResource, memory, bound)
  {
    PopFrontKeepsRing(chunks[n]);
    PoolUpdate(chunks, nextResource, n, chunks[n].allocations[1..]);
    var chunks' := chunks[n := PopFront(chunks[n])];
    forall d <- chunks'
      ensures d.resource in memory && |memory[d.resource]| == d.capacity
      ensures forall a <- d.allocations :: a.doneValue <= bound
    {
      if d == chunks'[n] {
        assert forall a <- d.allocations :: a in chunks[n].allocations;
      } else {
        assert d in chunks;
      }
    }
  }

  /** Popping a range with another completion value leaves this one live. */
  lemma LiveAfterPop(chunks: seq<Chunk>, n: nat, resource: nat, a: Allocation)
    requires n < |chunks| && chunks[n].allocations != [] && Live(chunks, resource, a)
    requires chunks[n].allocations[0].doneValue != a.doneValue
    ensures Live(chunks[n := PopFront(chunks[n])], resource, a)
  {
    var chunk :| chunk in chunks && Holds(chunk, resource, a);
    var k :| 0 <= k < |chunks| && chunks[k] == chunk;
    assert chunk.allocations == [chunk.allocations[0]] + chunk.allocations[1..];
    assert Holds(chunks[n := PopFront(chunks[n])][k], resource, a);
  }

  lemma HeapTrim(chunks: seq<Chunk>, nextResource: nat, memory: map<nat, Bytes>, bound: nat)
    requires HeapOk(chunks, nextResource, memory, bound)
    ensures HeapOk(InUse(chunks), nextResource, Release(memory, InUse(chunks)), bound)
  {
    InUseKeepsPool(chunks, nextResource);
  }

  /** A chunk with a live range is in use, so Trim neither drops it nor its bytes. */
  lemma LiveAfterTrim(chunks: seq<Chunk>, memory: map<nat, Bytes>, resource: nat, a: Allocation)
    requires Backed(chunks, memory) && Live(chunks, resource, a)
    ensures Live(InUse(chunks), resource, a)
    ensures Read(Release(memory, InUse(chunks)), resource, a.offset, a.size) ==
            Read(memory, resource, a.offset, a.size)
  {
    var chunk :| chunk in chunks && Holds(chunk, resource, a);
    assert chunk in InUse(chunks);
  }

  /** Two live ranges with different completion values share no byte. */
  lemma LiveDisjoint(chunks: seq<Chunk>, nextResource: nat, resource: nat, a: Allocation, resource': nat, a': Allocation)
    requires PoolOk(chunks, nextResource) && Live(chunks, resource, a) && Live(chunks, resource', a')
    requires a.doneValue != a'.doneValue
    ensures resource != resource' || Disjoint(a.offset, a.size, a'.offset, a'.size)
  {
    var c :| c in chunks && Holds(c, resource, a);
    var c' :| c' in chunks && Holds(c', resource', a');
    var k :| 0 <= k < |chunks| && chunks[k] == c;
    var k' :| 0 <= k' < |chunks| && chunks[k'] == c';
    if k < k' { NamesDistinct(chunks, nextResource, k, k'); }
    if k' < k { NamesDistinct(chunks, nextResource, k', k); }
    if k == k' {
      var j :| 0 <= j < |c.allocations| && c.allocations[j] == a;
      var j' :| 0 <= j' < |c.allocations| && c.allocations[j'] == a';
      RingDisjoint(c, j, j');
    }
  }

  /** A live range lies inside its buffer. */
  lemma LiveInBuffer(chunks: seq<Chunk>, nextResource: nat, memory: map<nat, Bytes>, resource: nat, a: Allocation)
    requires PoolOk(chunks, nextResource) && Backed(chunks, memory) && Live(chunks, resource, a)
    ensures resource in memory && a.offset + a.size <= |memory[resource]|
  {
    var c :| c in chunks && Holds(c, resource, a);
    var lap: nat :| RingAt(c, lap);
    var j :| 0 <= j < |c.allocations| && c.allocations[j] == a;
    assert AllocationOk(c, c.allocations[j]);
  }
}
