/** DirectML operator graphs as values: strided views, packing, slicing and DepthToSpace, down to buffer positions. */
module TensorGraph {
  import opened Wrappers
  import opened MixedRadix

  /**
   * A graph over one packed input. Reinterpret is a view of the same buffer; Identity and Slice (with steps of 1)
   * write a packed buffer; DepthToSpace, in depth-column-row order, writes with the strides its policy chose.
   */
  datatype Graph =
    | InputTensor(sizes: Shape)
    | Reinterpret(of: Graph, sizes: Shape, strides: seq<nat>)
    | Identity(of: Graph)
    | Slice(of: Graph, offsets: seq<nat>, sizes: Shape)
    | DepthToSpace(of: Graph, blockSize: nat, strides: seq<nat>)

  predicate WellFormed(g: Graph)
    decreases g, 0
  {
    match g
    case InputTensor(_) => true
    case Reinterpret(of, sizes, strides) => WellFormed(of) && |sizes| == |strides|
    case Identity(of) => WellFormed(of)
    case Slice(of, offsets, sizes) => WellFormed(of) && |offsets| == |sizes| == |Sizes(of)|
    case DepthToSpace(of, blockSize, strides) =>
      WellFormed(of) && |Sizes(of)| == 4 && |strides| == 4 && 0 < blockSize
  }

  function Sizes(g: Graph): Shape
    requires WellFormed(g)
    decreases g, 1
  {
    match g
    case InputTensor(sizes) => sizes
    case Reinterpret(_, sizes, _) => sizes
    case Identity(of) => Sizes(of)
    case Slice(_, _, sizes) => sizes
    case DepthToSpace(of, blockSize, _) => DepthToSpaceSizes(Sizes(of), blockSize)
  }

  /** Channels left when a block of bs by bs elements is taken out of the depth. */
  function DepthPerBlock(depth: nat, bs: nat): nat
    requires 0 < bs
  {
    MulMono(1, bs, bs);
    depth / (bs * bs)
  }

  /** The depth that holds channel c of the block element in row i and column j. */
  function BlockDepth(i: nat, j: nat, bs: nat, channels: nat, c: nat): nat {
    (i * bs + j) * channels + c
  }

  function DepthToSpaceSizes(sizes: Shape, blockSize: nat): (r: Shape)
    requires |sizes| == 4 && 0 < blockSize
    ensures |r| == 4
  {
    [sizes[0], DepthPerBlock(sizes[1], blockSize), sizes[2] * blockSize, sizes[3] * blockSize]
  }

  function Strides(g: Graph): seq<nat>
    requires WellFormed(g)
    ensures |Strides(g)| == |Sizes(g)|
  {
    match g
    case Reinterpret(_, _, strides) => strides
    case DepthToSpace(_, _, strides) => strides
    case InputTensor(_) => PackedStrides(Sizes(g))
    case Identity(_) => PackedStrides(Sizes(g))
    case Slice(_, _, _) => PackedStrides(Sizes(g))
  }

  function View(of: Graph, sizes: Shape, strides: seq<nat>): (g: Graph)
    requires WellFormed(of) && |sizes| == |strides|
    ensures WellFormed(g) && Sizes(g) == sizes
  {
    Reinterpret(of, sizes, strides)
  }

  function Packed(of: Graph): (g: Graph)
    requires WellFormed(of)
    ensures WellFormed(g) && Sizes(g) == Sizes(of)
  {
    Identity(of)
  }

  function BlocksOut(of: Graph, blockSize: nat, strides: seq<nat>): (g: Graph)
    requires WellFormed(of) && |Sizes(of)| == 4 && |strides| == 4 && 0 < blockSize
    ensures WellFormed(g) && Sizes(g) == DepthToSpaceSizes(Sizes(of), blockSize) && Strides(g) == strides
  {
    DepthToSpace(of, blockSize, strides)
  }

  function Cut(of: Graph, offsets: seq<nat>, sizes: Shape): (g: Graph)
    requires WellFormed(of) && |offsets| == |sizes| == |Sizes(of)|
    ensures WellFormed(g) && Sizes(g) == sizes
  {
    Slice(of, offsets, sizes)
  }

  /** DepthToSpace in depth-column-row order: which element of the input an output index holds. */
  function DepthToSpaceSource(sizes: Shape, bs: nat, idx: seq<nat>): (r: seq<nat>)
    requires |sizes| == |idx| == 4 && 0 < bs
    ensures |r| == 4
  {
    [idx[0], BlockDepth(idx[2] % bs, idx[3] % bs, bs, DepthPerBlock(sizes[1], bs), idx[1]), idx[2] / bs, idx[3] / bs]
  }

  ghost predicate Stored(g: Graph, idx: seq<nat>, position: nat) {
    WellFormed(g) && IndexOf(idx, Sizes(g)) && Dot(idx, Strides(g)) == position
  }

  /** Which position of the input buffer the element at an index was copied from. */
  ghost function At(g: Graph, idx: seq<nat>): Option<nat>
    requires WellFormed(g) && |idx| == |Sizes(g)|
    decreases g, 0
  {
    match g
    case InputTensor(sizes) =>
      if Dot(idx, PackedStrides(sizes)) < Product(sizes) then Some(Dot(idx, PackedStrides(sizes))) else None
    case Reinterpret(of, _, strides) => Buffer(of, Dot(idx, strides))
    case Identity(of) => At(of, idx)
    case Slice(of, offsets, _) => At(of, Shift(idx, offsets))
    case DepthToSpace(of, blockSize, _) => At(of, DepthToSpaceSource(Sizes(of), blockSize, idx))
  }

  /** Which position of the input buffer a position of the graph's buffer was copied from; None if never written. */
  ghost function Buffer(g: Graph, position: nat): Option<nat>
    requires WellFormed(g)
    decreases g, 1
  {
    match g
    case InputTensor(sizes) => if position < Product(sizes) then Some(position) else None
    case Reinterpret(of, _, _) => Buffer(of, position)
    case _ =>
      if exists idx :: Stored(g, idx, position) then
        var idx :| Stored(g, idx, position);
        At(g, idx)
      else None
  }

  /** A packed tensor stores each element at its row-major position. */
  lemma PackedBuffer(g: Graph, idx: seq<nat>)
    requires WellFormed(g) && IndexOf(idx, Sizes(g)) && (g.Identity? || g.Slice?)
    ensures Buffer(g, Ravel(Sizes(g), idx)) == At(g, idx)
  {
    var position := Ravel(Sizes(g), idx);
    PackedIsRavel(Sizes(g), idx);
    assert Stored(g, idx, position);
    forall other | Stored(g, other, position) ensures other == idx {
      PackedIsRavel(Sizes(g), other);
      UnravelRavel(Sizes(g), idx);
      UnravelRavel(Sizes(g), other);
    }
  }

  /** The input tensor, and any packed view of it, reads its buffer directly. */
  lemma PackedView(g: Graph, sizes: Shape, idx: seq<nat>)
    requires WellFormed(g) && IndexOf(idx, sizes)
    ensures At(Reinterpret(g, sizes, PackedStrides(sizes)), idx) == Buffer(g, Ravel(sizes, idx))
  {
    PackedIsRavel(sizes, idx);
  }
}
