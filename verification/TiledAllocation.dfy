/** Large allocations tiled over many small heaps (tfdml/core/dml_heap_allocator.cc). */
module TiledAllocation {
  import opened Wrappers
  import opened MixedRadix

  const TILE_SIZE: nat := 0x1_0000

  /** Tile t of a resource is backed by tile `at` of a heap. */
  datatype Mapping = Mapping(heap: nat, at: nat)

  datatype Allocation = Allocation(resourceTiles: nat, heapTiles: seq<nat>, resources: seq<map<nat, Mapping>>)

  function Sum(sizes: seq<nat>): nat {
    if sizes == [] then 0 else Sum(sizes[..|sizes| - 1]) + sizes[|sizes| - 1]
  }

  /** The only mapping there should be: heaps filled in order, each up to max tiles. */
  function Expected(tiles: nat, max: nat): map<nat, Mapping>
    requires 0 < max
  {
    map t: nat | t < tiles :: Mapping(t / max, t % max)
  }

  // ---------- What D3D12 does ----------

  function Place(heap: nat, start: nat, t: nat): Mapping
    requires start <= t
  {
    Mapping(heap, t - start)
  }

  /** UpdateTileMappings with one region and one range: tiles start.. of the resource onto tiles 0.. of the heap. */
  function UpdateTileMappings(resource: map<nat, Mapping>, start: nat, heap: nat, count: nat): map<nat, Mapping> {
    resource + map t: nat | start <= t < start + count :: Place(heap, start, t)
  }

  /** The tiles before heap i. */
  function Start(i: nat, max: nat): nat {
    i * max
  }

  /** The heaps so far hold the tiles before them, all of them full when another one follows. */
  lemma OneMoreHeap(i: nat, max: nat, size: nat)
    requires 0 < max && size <= max
    ensures UpdateTileMappings(Expected(Start(i, max), max), Start(i, max), i, size) ==
              Expected(Start(i, max) + size, max)
  {
    var start := Start(i, max);
    forall t: nat | start <= t < start + size ensures Mapping(t / max, t % max) == Place(i, start, t) {
      DivModOf(i, t - start, max);
    }
    SamePlaces(start, i, size, max);
  }

  lemma SamePlaces(start: nat, i: nat, size: nat, max: nat)
    requires 0 < max
    requires forall t: nat :: start <= t < start + size ==> Mapping(t / max, t % max) == Place(i, start, t)
    ensures UpdateTileMappings(Expected(start, max), start, i, size) == Expected(start + size, max)
  {
    var (updated, now) := (UpdateTileMappings(Expected(start, max), start, i, size), Expected(start + size, max));
    assert forall t: nat :: t in updated <==> t in now;
    assert forall t: nat | t in updated :: updated[t] == now[t];
  }

  /** Rounding up: the number of units of size unit that hold size, for a positive size. */
  function RoundUp(size: nat, unit: nat): (n: nat)
    requires 0 < size && 0 < unit
    ensures 1 <= n
  {
    1 + (size - 1) / unit
  }

  lemma RoundUpBounds(size: nat, unit: nat)
    requires 0 < size && 0 < unit
    ensures (RoundUp(size, unit) - 1) * unit < size <= RoundUp(size, unit) * unit
  {
    var n := (size - 1) / unit;
    assert size - 1 == unit * n + (size - 1) % unit;
    RemainderBound(size - 1, unit);
    MulDistrib(n, 1, unit);
  }

  /** Size of heap i. */
  function HeapSize(i: nat, tiles: nat, max: nat): int {
    if tiles - Start(i, max) < max then tiles - Start(i, max) else max
  }

  /** All heaps before the last are full, and the last one takes the rest. */
  lemma BeforeLast(i: nat, heaps: nat, max: nat, tiles: nat)
    requires 0 < max && 0 < tiles && i < heaps == RoundUp(tiles, max)
    ensures Start(i, max) < tiles
    ensures i + 1 < heaps ==> Start(i + 1, max) == Start(i, max) + HeapSize(i, tiles, max)
    ensures i + 1 == heaps ==> tiles == Start(i, max) + HeapSize(i, tiles, max)
    ensures 1 <= HeapSize(i, tiles, max) <= max
  {
    RoundUpBounds(tiles, max);
    MulMono(i, heaps - 1, max);
    MulDistrib(i, 1, max);
    if i + 1 < heaps { MulMono(i + 1, heaps - 1, max); }
  }

  /**
   * None when the device runs out of memory; outOfMemory says at which creation, three resources and then the
   * heaps, if at any.
   */
  method TryCreateTiledAllocation(sizeInBytes: nat, max: nat, outOfMemory: Option<nat>) returns (r: Option<Allocation>)
    requires 0 < sizeInBytes && 0 < max
    ensures r.None? <==> outOfMemory.Some? && outOfMemory.value < 3 + RoundUp(RoundUp(sizeInBytes, TILE_SIZE), max)
    ensures r.Some? ==>
              && sizeInBytes <= r.value.resourceTiles * TILE_SIZE < sizeInBytes + TILE_SIZE
              && Tiled(r.value, max)
  {
    hide HeapSize, Start, Expected, UpdateTileMappings, HeapsOk, RoundUp;
    var resourceSizeInTiles := RoundUp(sizeInBytes, TILE_SIZE);
    RoundUpBounds(sizeInBytes, TILE_SIZE);
    for i := 0 to 3
      invariant outOfMemory.Some? ==> i <= outOfMemory.value
    {
      if outOfMemory == Some(i) {
        return None;
      }
    }
    var heapCount := RoundUp(resourceSizeInTiles, max);
    var uav, copySrc, copyDst: map<nat, Mapping> := map[], map[], map[];
    var heaps: seq<nat> := [];
    var regionStart, unmapped := 0, resourceSizeInTiles;
    NothingMapped(resourceSizeInTiles, max);
    for i := 0 to heapCount
      invariant regionStart + unmapped == resourceSizeInTiles
      invariant regionStart == if i < heapCount then Start(i, max) else resourceSizeInTiles
      invariant uav == copySrc == copyDst == Expected(regionStart, max)
      invariant HeapsOk(heaps, i, regionStart, resourceSizeInTiles, max)
      invariant outOfMemory.Some? ==> 3 + i <= outOfMemory.value
    {
      BeforeLast(i, heapCount, max, resourceSizeInTiles);
      var heapSizeInTiles := if unmapped < max then unmapped else max;
      IsHeapSize(i, resourceSizeInTiles, max);
      if outOfMemory == Some(3 + i) {
        return None;
      }
      OneMoreHeap(i, max, heapSizeInTiles);
      OneMoreSize(heaps, i, regionStart, resourceSizeInTiles, max);
      heaps := heaps + [heapSizeInTiles];
      uav := UpdateTileMappings(uav, regionStart, i, heapSizeInTiles);
      copySrc := UpdateTileMappings(copySrc, regionStart, i, heapSizeInTiles);
      copyDst := UpdateTileMappings(copyDst, regionStart, i, heapSizeInTiles);
      regionStart := regionStart + heapSizeInTiles;
      unmapped := unmapped - heapSizeInTiles;
    }
    r := Some(Allocation(resourceSizeInTiles, heaps, [uav, copySrc, copyDst]));
  }

  /** The heaps created so far, and the tiles they hold together. */
  predicate HeapsOk(heaps: seq<nat>, count: nat, total: nat, tiles: nat, max: nat) {
    && |heaps| == count && Sum(heaps) == total
    && forall i :: 0 <= i < |heaps| ==> 1 <= heaps[i] == HeapSize(i, tiles, max) <= max
  }

  /** All three resources map every tile exactly once: tile t to tile t % max of heap t / max. */
  predicate Tiled(a: Allocation, max: nat)
    requires 0 < max
  {
    && 0 < a.resourceTiles
    && a.resources == [Expected(a.resourceTiles, max), Expected(a.resourceTiles, max), Expected(a.resourceTiles, max)]
    && HeapsOk(a.heapTiles, RoundUp(a.resourceTiles, max), a.resourceTiles, a.resourceTiles, max)
  }

  lemma NothingMapped(tiles: nat, max: nat)
    requires 0 < max
    ensures Expected(0, max) == map[] && Start(0, max) == 0 && HeapsOk([], 0, 0, tiles, max)
  {
  }

  lemma IsHeapSize(i: nat, tiles: nat, max: nat)
    requires Start(i, max) < tiles
    ensures var unmapped := tiles - Start(i, max);
            HeapSize(i, tiles, max) == if unmapped < max then unmapped else max
  {
  }

  lemma OneMoreSize(heaps: seq<nat>, i: nat, total: nat, tiles: nat, max: nat)
    requires HeapsOk(heaps, i, total, tiles, max) && 1 <= HeapSize(i, tiles, max) <= max
    ensures HeapsOk(heaps + [HeapSize(i, tiles, max)], i + 1, total + HeapSize(i, tiles, max), tiles, max)
  {
    var heaps' := heaps + [HeapSize(i, tiles, max)];
    assert heaps'[..|heaps'| - 1] == heaps;
  }

  /** No two tiles of a resource share a place... */
  lemma TilesDoNotOverlap(tiles: nat, max: nat, t: nat, u: nat)
    requires 0 < max && t < tiles && u < tiles && t != u
    ensures Expected(tiles, max)[t] != Expected(tiles, max)[u]
  {
    DivMod(t, max);
    DivMod(u, max);
  }

  /** ... and every place lies inside its heap. */
  lemma TileInsideHeap(tiles: nat, max: nat, t: nat)
    requires 0 < max && t < tiles
    ensures var place := Expected(tiles, max)[t];
            place.heap < RoundUp(tiles, max) && place.at < HeapSize(place.heap, tiles, max)
  {
    DivMod(t, max);
    RoundUpBounds(tiles, max);
    DivBound(t, RoundUp(tiles, max), max);
  }
}
