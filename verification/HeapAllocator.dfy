/** Pointers that carry a device, an allocation ID and an offset (tfdml/core/dml_tagged_pointer.cc). */
module TaggedPointers {

  /** A pointer value: 4 bits of device ID, 20 of allocation ID and 40 of offset, from the top. */
  type Pointer = bv64

  datatype TaggedPointer = TaggedPointer(deviceId: bv64, allocationId: bv64, offset: bv64)

  predicate Packable(deviceId: bv64, allocationId: bv64, offset: bv64) {
    deviceId < 0x10 && allocationId < 0x10_0000 && offset < 0x100_0000_0000
  }

  function Pack(deviceId: bv64, allocationId: bv64, offset: bv64): Pointer
    requires Packable(deviceId, allocationId, offset)
  {
    (deviceId << 60) | (allocationId << 40) | offset
  }

  function Unpack(ptr: Pointer): TaggedPointer {
    TaggedPointer(ptr >> 60, (ptr >> 40) & 0xF_FFFF, ptr & 0xFF_FFFF_FFFF)
  }

  /** The three fields as a number: the device above the ID above the offset. */
  lemma PackIsPositional(deviceId: bv64, allocationId: bv64, offset: bv64)
    requires Packable(deviceId, allocationId, offset)
    ensures Pack(deviceId, allocationId, offset) ==
              deviceId * 0x1000_0000_0000_0000 + allocationId * 0x100_0000_0000 + offset
  {
  }

  /** Unpacking inverts packing, so distinct parts give distinct pointers. */
  lemma UnpackPack(deviceId: bv64, allocationId: bv64, offset: bv64)
    requires Packable(deviceId, allocationId, offset)
    ensures Unpack(Pack(deviceId, allocationId, offset)) == TaggedPointer(deviceId, allocationId, offset)
  {
    DeviceBits(deviceId, allocationId, offset);
    AllocationBits(deviceId, allocationId, offset);
    OffsetBits(deviceId, allocationId, offset);
  }

  lemma DeviceBits(d: bv64, a: bv64, o: bv64)
    requires d < 0x10 && a < 0x10_0000 && o < 0x100_0000_0000
    ensures ((d << 60) | (a << 40) | o) >> 60 == d
  {
  }

  lemma AllocationBits(d: bv64, a: bv64, o: bv64)
    requires d < 0x10 && a < 0x10_0000 && o < 0x100_0000_0000
    ensures (((d << 60) | (a << 40) | o) >> 40) & 0xF_FFFF == a
  {
  }

  lemma OffsetBits(d: bv64, a: bv64, o: bv64)
    requires d < 0x10 && a < 0x10_0000 && o < 0x100_0000_0000
    ensures ((d << 60) | (a << 40) | o) & 0xFF_FFFF_FFFF == o
  {
  }

  /** Packing inverts unpacking: every pointer value has parts. */
  lemma PackUnpack(ptr: Pointer)
    ensures var t := Unpack(ptr);
            Packable(t.deviceId, t.allocationId, t.offset) && Pack(t.deviceId, t.allocationId, t.offset) == ptr
  {
  }

  /** Moving a pointer by less than a window moves its offset and nothing else. */
  lemma PackPlus(deviceId: bv64, allocationId: bv64, k: bv64)
    requires Packable(deviceId, allocationId, k)
    ensures Pack(deviceId, allocationId, 0) + k == Pack(deviceId, allocationId, k)
    ensures Unpack(Pack(deviceId, allocationId, 0) + k) == TaggedPointer(deviceId, allocationId, k)
  {
    UnpackPack(deviceId, allocationId, k);
  }

  lemma MovedPointer(ptr: Pointer, deviceId: bv64, allocationId: bv64, k: bv64)
    requires Packable(deviceId, allocationId, k) && allocationId != 0 && ptr == Pack(deviceId, allocationId, 0)
    ensures ptr + k != 0 && Unpack(ptr + k).allocationId == allocationId && Unpack(ptr + k).offset == k
  {
    PackPlus(deviceId, allocationId, k);
    PackNotNull(deviceId, allocationId, k);
  }

  lemma PackNotNull(deviceId: bv64, allocationId: bv64, offset: bv64)
    requires Packable(deviceId, allocationId, offset) && allocationId != 0
    ensures Pack(deviceId, allocationId, offset) != 0
  {
    UnpackPack(deviceId, allocationId, offset);
  }

  /** The 2^40-byte window that starts at a pointer. */
  predicate InWindow(ptr: Pointer, base: Pointer) {
    base <= ptr && ptr - base < 0x100_0000_0000
  }

  /** Windows of different allocation IDs share no address. */
  lemma WindowsDisjoint(d1: bv64, id1: bv64, d2: bv64, id2: bv64, ptr: Pointer)
    requires Packable(d1, id1, 0) && Packable(d2, id2, 0) && id1 != id2
    requires InWindow(ptr, Pack(d1, id1, 0))
    ensures !InWindow(ptr, Pack(d2, id2, 0))
  {
    WindowHasId(d1, id1, ptr);
    if InWindow(ptr, Pack(d2, id2, 0)) { WindowHasId(d2, id2, ptr); }
  }

  lemma WindowHasId(deviceId: bv64, allocationId: bv64, ptr: Pointer)
    requires Packable(deviceId, allocationId, 0) && InWindow(ptr, Pack(deviceId, allocationId, 0))
    ensures Unpack(ptr).allocationId == allocationId
  {
    var k := ptr - Pack(deviceId, allocationId, 0);
    PackPlus(deviceId, allocationId, k);
    assert ptr == Pack(deviceId, allocationId, 0) + k;
  }
}

/** Allocation IDs and buffer regions (tfdml/core/dml_heap_allocator.cc). */
module HeapAllocator {
  import opened Wrappers
  import opened TaggedPointers

  const MAX_ALLOCATION_ID: nat := 0xF_FFFF

  /** A region of an allocation's three resources. */
  datatype Region<A> = Region(offset: bv64, size: nat, allocation: A)

  // ---------- IDs as words ----------

  /** An ID as the word Pack takes. */
  function IdWord(id: nat): bv64
    requires id < 0x10_0000
  {
    id as bv64
  }

  lemma WordBackAndForth(id: nat)
    requires id < 0x10_0000
    ensures (id as bv64) as nat == id
  {
    assert id == id % 0x1_0000_0000_0000_0000;
  }

  lemma WordIsSmall(id: nat)
    requires id < 0x10_0000
    ensures (id as bv64) < 0x10_0000
  {
  }

  lemma WordIsPackable(deviceId: bv64, id: nat)
    requires id < 0x10_0000 && deviceId < 0x10
    ensures Packable(deviceId, IdWord(id), 0)
  {
    WordIsSmall(id);
  }

  lemma WordsDiffer(id1: nat, id2: nat)
    requires id1 <= MAX_ALLOCATION_ID && id2 <= MAX_ALLOCATION_ID && id1 != id2
    ensures IdWord(id1) != IdWord(id2)
  {
    WordBackAndForth(id1);
    WordBackAndForth(id2);
  }

  /** The allocation a pointer belongs to. */
  function IdOf(ptr: Pointer): nat {
    Unpack(ptr).allocationId as nat
  }

  /** What Alloc returns for an ID. */
  function PointerFor(deviceId: bv64, id: nat): Pointer
    requires id <= MAX_ALLOCATION_ID && deviceId < 0x10
  {
    WordIsPackable(deviceId, id);
    Pack(deviceId, IdWord(id), 0)
  }

  lemma WordNotZero(id: nat)
    requires 0 < id < 0x10_0000
    ensures IdWord(id) != 0
  {
    WordBackAndForth(id);
  }

  lemma IdFits(deviceId: bv64, id: nat, k: bv64)
    requires 0 < id < 0x10_0000 && deviceId < 0x10 && k < 0x100_0000_0000
    ensures Packable(deviceId, IdWord(id), k) && IdWord(id) != 0 && IdWord(id) as nat == id
  {
    WordIsPackable(deviceId, id);
    WordBackAndForth(id);
    WordNotZero(id);
  }

  lemma MovedIsNotNull(deviceId: bv64, id: nat, k: bv64)
    requires 0 < id <= MAX_ALLOCATION_ID && deviceId < 0x10 && k < 0x100_0000_0000
    ensures PointerFor(deviceId, id) + k != 0
  {
    IdFits(deviceId, id, k);
    MovedPointer(PointerFor(deviceId, id), deviceId, IdWord(id), k);
  }

  /** Any offset below 2^40 into an allocation leads back to that allocation... */
  lemma MovedKeepsId(deviceId: bv64, id: nat, k: bv64)
    requires 0 < id <= MAX_ALLOCATION_ID && deviceId < 0x10 && k < 0x100_0000_0000
    ensures IdOf(PointerFor(deviceId, id) + k) == id
  {
    IdFits(deviceId, id, k);
    MovedPointer(PointerFor(deviceId, id), deviceId, IdWord(id), k);
  }

  /** ... at that offset. */
  lemma MovedShowsOffset(deviceId: bv64, id: nat, k: bv64)
    requires 0 < id <= MAX_ALLOCATION_ID && deviceId < 0x10 && k < 0x100_0000_0000
    ensures Unpack(PointerFor(deviceId, id) + k).offset == k
  {
    IdFits(deviceId, id, k);
    MovedPointer(PointerFor(deviceId, id), deviceId, IdWord(id), k);
  }

  /** The pointer lies k bytes into the window of an allocation. */
  predicate PointsInto(ptr: Pointer, deviceId: bv64, id: nat, k: bv64) {
    && deviceId < 0x10 && 0 < id <= MAX_ALLOCATION_ID && k < 0x100_0000_0000
    && ptr == PointerFor(deviceId, id) + k
  }

  lemma PointsIntoOne(ptr: Pointer, deviceId: bv64, id: nat, k: bv64)
    requires PointsInto(ptr, deviceId, id, k)
    ensures ptr != 0 && IdOf(ptr) == id && Unpack(ptr).offset == k
  {
    MovedIsNotNull(deviceId, id, k);
    MovedKeepsId(deviceId, id, k);
    MovedShowsOffset(deviceId, id, k);
  }

  lemma NullPointsNowhere()
    ensures forall deviceId: bv64, id: nat, k: bv64 :: !PointsInto(0, deviceId, id, k)
  {
    forall deviceId: bv64, id: nat, k: bv64 | PointsInto(0, deviceId, id, k) ensures false {
      MovedIsNotNull(deviceId, id, k);
    }
  }

  /** The pointer itself. */
  lemma PointerResolves(deviceId: bv64, id: nat)
    requires 0 < id <= MAX_ALLOCATION_ID && deviceId < 0x10
    ensures var ptr := PointerFor(deviceId, id);
            ptr != 0 && IdOf(ptr) == id && Unpack(ptr).offset == 0
  {
    WordIsPackable(deviceId, id);
    WordBackAndForth(id);
    WordNotZero(id);
    UnpackPack(deviceId, IdWord(id), 0);
    PackNotNull(deviceId, IdWord(id), 0);
  }

  /** Allocations with different IDs own disjoint windows of 2^40 bytes, whatever devices their pointers name. */
  lemma PointersOwnWindows(d1: bv64, id1: nat, d2: bv64, id2: nat, ptr: Pointer)
    requires id1 <= MAX_ALLOCATION_ID && id2 <= MAX_ALLOCATION_ID && id1 != id2 && d1 < 0x10 && d2 < 0x10
    ensures !(InWindow(ptr, PointerFor(d1, id1)) && InWindow(ptr, PointerFor(d2, id2)))
  {
    WordIsPackable(d1, id1);
    WordIsPackable(d2, id2);
    WordsDiffer(id1, id2);
    if InWindow(ptr, PointerFor(d1, id1)) { WindowsDisjoint(d1, IdWord(id1), d2, IdWord(id2), ptr); }
  }

  // ---------- IDs in use ----------

  /** Live and free IDs are disjoint and together are exactly 1..current. */
  ghost predicate Partition(live: set<nat>, free: seq<nat>, current: nat) {
    && current <= MAX_ALLOCATION_ID && Distinct(free)
    && (forall id <- free :: id !in live)
    && (forall id :: id in live || id in free <==> 1 <= id <= current)
  }

  /** Taking the last free ID into use. */
  lemma TakeFree(live: set<nat>, free: seq<nat>, current: nat)
    requires Partition(live, free, current) && free != []
    ensures var id := free[|free| - 1];
            1 <= id <= current && id !in live && Partition(live + {id}, free[..|free| - 1], current)
  {
    var last := |free| - 1;
    assert free == free[..last] + [free[last]];
    assert free[last] in free && free[last] !in free[..last];
    forall id ensures id in live + {free[last]} || id in free[..last] <==> id in live || id in free {
    }
  }

  /** With no free ID, the next number has never been issued. */
  lemma TakeNext(live: set<nat>, current: nat)
    requires Partition(live, [], current) && current != MAX_ALLOCATION_ID
    ensures current + 1 !in live && Partition(live + {current + 1}, [], current + 1)
  {
  }

  /** Every ID that fits into a pointer names a live allocation. */
  ghost predicate AllLive(live: set<nat>) {
    forall id :: 1 <= id <= MAX_ALLOCATION_ID ==> id in live
  }

  lemma NotAllLive(live: set<nat>, id: nat)
    requires 1 <= id <= MAX_ALLOCATION_ID && id !in live
    ensures !AllLive(live)
  {
  }

  lemma GiveBack(live: set<nat>, free: seq<nat>, current: nat, id: nat)
    requires Partition(live, free, current) && id in live
    ensures Partition(live - {id}, free + [id], current)
  {
  }

  class HeapAllocator<A> {
    var currentAllocationId: nat
    var freeAllocationIds: seq<nat>
    var allocationsById: map<nat, A>

    ghost predicate Valid()
      reads this
    {
      Partition(allocationsById.Keys, freeAllocationIds, currentAllocationId)
    }

    constructor ()
      ensures Valid() && allocationsById == map[]
    {
      currentAllocationId, freeAllocationIds, allocationsById := 0, [], map[];
    }

    ghost predicate Exhausted()
      reads this
    {
      AllLive(allocationsById.Keys)
    }

    method TryReserveAllocationID() returns (id: Option<nat>)
      requires Valid()
      modifies this`currentAllocationId, this`freeAllocationIds
      ensures id.None? <==> Exhausted()
      ensures id.None? ==> Valid() && unchanged(this)
      ensures id.Some? ==>
                && 1 <= id.value <= MAX_ALLOCATION_ID && id.value !in allocationsById
                && Partition(allocationsById.Keys + {id.value}, freeAllocationIds, currentAllocationId)
    {
      if freeAllocationIds != [] {
        TakeFree(allocationsById.Keys, freeAllocationIds, currentAllocationId);
        var freed := freeAllocationIds[|freeAllocationIds| - 1];
        NotAllLive(allocationsById.Keys, freed);
        freeAllocationIds := freeAllocationIds[..|freeAllocationIds| - 1];
        return Some(freed);
      }
      if currentAllocationId == MAX_ALLOCATION_ID {
        return None;
      }
      TakeNext(allocationsById.Keys, currentAllocationId);
      currentAllocationId := currentAllocationId + 1;
      NotAllLive(allocationsById.Keys, currentAllocationId);
      return Some(currentAllocationId);
    }

    method ReleaseAllocationID(id: nat)
      modifies this`freeAllocationIds
      ensures freeAllocationIds == old(freeAllocationIds) + [id]
    {
      freeAllocationIds := freeAllocationIds + [id];
    }

    /**
     * The allocation was created without the lock; None stands for out of memory there, and for the null pointer
     * in the result.
     */
    method Alloc(deviceId: bv64, sizeInBytes: nat, created: Option<A>) returns (ptr: Option<Pointer>)
      requires Valid() && deviceId < 0x10
      modifies this
      ensures Valid()
      ensures ptr.None? <==> sizeInBytes == 0 || created.None? || old(Exhausted())
      ensures ptr.None? ==> allocationsById == old(allocationsById)
      ensures ptr.Some? ==>
                var id := IdOf(ptr.value);
                && 1 <= id <= MAX_ALLOCATION_ID && ptr.value == PointerFor(deviceId, id) && ptr.value != 0
                && id !in old(allocationsById) && allocationsById == old(allocationsById)[id := created.value]
    {
      if sizeInBytes == 0 {
        return None;
      }
      if created == None {
        return None;
      }
      var id := TryReserveAllocationID();
      if id == None {
        return None;
      }
      PointerResolves(deviceId, id.value);
      allocationsById := allocationsById[id.value := created.value];
      assert allocationsById.Keys == old(allocationsById).Keys + {id.value};
      ptr := Some(PointerFor(deviceId, id.value));
    }

    /** false, with nothing changed, where a CHECK aborts. */
    method Free(ptr: Pointer) returns (ok: bool)
      requires Valid()
      modifies this
      ensures Valid()
      ensures ok <==> ptr != 0 && Unpack(ptr).offset == 0 && IdOf(ptr) in old(allocationsById)
      ensures allocationsById == if ok then old(allocationsById) - {IdOf(ptr)} else old(allocationsById)
    {
      if ptr == 0 {
        return false;
      }
      var taggedPtr := Unpack(ptr);
      if taggedPtr.offset != 0 {
        return false;
      }
      var id := taggedPtr.allocationId as nat;
      if id !in allocationsById {
        return false;
      }
      GiveBack(allocationsById.Keys, freeAllocationIds, currentAllocationId, id);
      ReleaseAllocationID(id);
      allocationsById := allocationsById - {id};
      assert allocationsById.Keys == old(allocationsById).Keys - {id};
      ok := true;
    }

    /**
     * None where a CHECK aborts. A pointer k bytes into a live allocation, k below 2^40, resolves to that
     * allocation at offset k.
     */
    method CreateBufferRegion(ptr: Pointer, sizeInBytes: nat) returns (r: Option<Region<A>>)
      requires Valid()
      ensures r.None? <==> ptr == 0 || IdOf(ptr) !in allocationsById
      ensures forall deviceId: bv64, id: nat, k: bv64 :: PointsInto(ptr, deviceId, id, k) && id in allocationsById ==>
                r == Some(Region(k, sizeInBytes, allocationsById[id]))
      ensures r.Some? ==> r.value == Region(Unpack(ptr).offset, sizeInBytes, allocationsById[IdOf(ptr)])
    {
      hide Pack, Unpack, PointsInto, PointerFor;
      if ptr == 0 {
        NullPointsNowhere();
        return None;
      }
      var taggedPtr := Unpack(ptr);
      var id := taggedPtr.allocationId as nat;
      forall deviceId: bv64, id: nat, k: bv64 | PointsInto(ptr, deviceId, id, k)
        ensures IdOf(ptr) == id && Unpack(ptr).offset == k
      {
        PointsIntoOne(ptr, deviceId, id, k);
      }
      if id !in allocationsById {
        return None;
      }
      r := Some(Region(taggedPtr.offset, sizeInBytes, allocationsById[id]));
    }
  }
}
