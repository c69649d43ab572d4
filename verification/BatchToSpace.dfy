/** BatchToSpaceND: its defining element mapping, the folding of trivial dimensions, and forwarding
    (tfdml/kernels/dml_batch_to_space_op.cc). */
module BatchToSpace {
  import opened Wrappers
  import opened MixedRadix

  const MAX_BLOCK_DIMS: nat := 3

  type Crop = (int, int)

  // ---------- Coordinate-wise arithmetic ----------

  function Scaled(size: nat, block: nat): nat {
    size * block
  }

  function Times(a: seq<nat>, b: seq<nat>): (r: seq<nat>)
    requires |a| == |b|
    ensures |r| == |a|
  {
    seq(|a|, i requires 0 <= i < |a| => Scaled(a[i], b[i]))
  }

  predicate Positive(blocks: seq<nat>) {
    forall b <- blocks :: 0 < b
  }

  function Quotients(y: seq<nat>, blocks: seq<nat>): (r: seq<nat>)
    requires |y| == |blocks| && Positive(blocks)
    ensures |r| == |y|
  {
    seq(|y|, i requires 0 <= i < |y| => assert blocks[i] in blocks; y[i] / blocks[i])
  }

  function Remainders(y: seq<nat>, blocks: seq<nat>): (r: seq<nat>)
    requires |y| == |blocks| && Positive(blocks)
    ensures |r| == |y|
  {
    seq(|y|, i requires 0 <= i < |y| => assert blocks[i] in blocks; y[i] % blocks[i])
  }

  lemma {:induction false} PositiveBlocks(blocks: seq<nat>)
    ensures 0 < Product(blocks) <==> Positive(blocks)
  {
    ZeroElements(blocks);
    if b :| b in blocks && b == 0 {
      var i :| 0 <= i < |blocks| && blocks[i] == b;
      assert blocks[i] == 0;
    }
    if i :| 0 <= i < |blocks| && blocks[i] == 0 {
      assert blocks[i] in blocks;
    }
  }

  // ---------- The defining element mapping ----------

  /** Batch entries per combination of phases. */
  function Slab(batch: nat, blocks: seq<nat>): nat
    requires 0 < Product(blocks)
  {
    batch / Product(blocks)
  }

  /** The batch slab of an index: its phases as digits. */
  function Phase(blocks: seq<nat>, starts: seq<nat>, x: seq<nat>): nat
    requires |blocks| == |starts| == |x| && Positive(blocks)
  {
    Ravel(blocks, Remainders(Shift(x, starts), blocks))
  }

  /** Digit d above n, in units of unit. */
  function Combine(d: nat, unit: nat, n: nat): nat {
    d * unit + n
  }

  /** The input batch entry behind output batch entry n at place x. */
  function SourceBatch(batch: nat, blocks: seq<nat>, starts: seq<nat>, x: seq<nat>, n: nat): nat
    requires |blocks| == |starts| == |x| && Positive(blocks) && 0 < Product(blocks)
  {
    Combine(Phase(blocks, starts, x), Slab(batch, blocks), n)
  }

  /**
   * Where an output element comes from: dimension i of the space takes cell (x+crop)/block, and the phases
   * (x+crop) % block, read as digits, select the batch slab.
   */
  function Source(inputShape: Shape, blocks: seq<nat>, starts: seq<nat>, o: seq<nat>): (r: seq<nat>)
    requires |o| == |inputShape| && 1 + |blocks| <= |inputShape| && |starts| == |blocks| && Positive(blocks)
    ensures |r| == |inputShape|
  {
    var m := |blocks|;
    var x := o[1..1 + m];
    PositiveBlocks(blocks);
    [SourceBatch(inputShape[0], blocks, starts, x, o[0])] + Quotients(Shift(x, starts), blocks) + o[1 + m..]
  }

  predicate CropFits(size: nat, block: nat, crop: Crop) {
    0 <= crop.0 && 0 <= crop.1 && crop.0 + crop.1 <= size * block
  }

  predicate CropsFit(sizes: Shape, blocks: seq<nat>, crops: seq<Crop>) {
    |sizes| == |blocks| == |crops| && forall i :: 0 <= i < |sizes| ==> CropFits(sizes[i], blocks[i], crops[i])
  }

  function CroppedSizes(sizes: Shape, blocks: seq<nat>, crops: seq<Crop>): (r: Shape)
    requires CropsFit(sizes, blocks, crops)
    ensures |r| == |sizes|
  {
    seq(|sizes|, i requires 0 <= i < |sizes| => sizes[i] * blocks[i] - crops[i].0 - crops[i].1)
  }

  function Starts(crops: seq<Crop>): (r: seq<nat>)
    requires forall i :: 0 <= i < |crops| ==> 0 <= crops[i].0
    ensures |r| == |crops|
  {
    seq(|crops|, i requires 0 <= i < |crops| => crops[i].0)
  }

  function OutputShape(inputShape: Shape, blocks: seq<nat>, crops: seq<Crop>): (r: Shape)
    requires 1 + |blocks| <= |inputShape| && 0 < Product(blocks)
    requires CropsFit(inputShape[1..1 + |blocks|], blocks, crops)
    ensures |r| == |inputShape|
  {
    var m := |blocks|;
    [Slab(inputShape[0], blocks)] + CroppedSizes(inputShape[1..1 + m], blocks, crops) + inputShape[1 + m..]
  }

  // ---------- Initialize ----------

  predicate Trivial(block: nat, crop: Crop) {
    block == 1 && crop == (0, 0)
  }

  function Prefix(blocks: seq<nat>, crops: seq<Crop>): (n: nat)
    requires |blocks| == |crops|
    ensures n <= |blocks|
  {
    if blocks == [] || !Trivial(blocks[0], crops[0]) then 0 else 1 + Prefix(blocks[1..], crops[1..])
  }

  function Suffix(blocks: seq<nat>, crops: seq<Crop>): (n: nat)
    requires |blocks| == |crops|
    ensures n <= |blocks|
  {
    var last := |blocks| - 1;
    if blocks == [] || !Trivial(blocks[last], crops[last]) then 0 else 1 + Suffix(blocks[..last], crops[..last])
  }

  /** First and one past the last of the block dimensions that cannot be folded away. */
  function Inner(blocks: seq<nat>, crops: seq<Crop>): (r: (nat, nat))
    requires |blocks| == |crops|
    ensures r.0 <= r.1 <= |blocks|
  {
    var p := Prefix(blocks, crops);
    (p, |blocks| - Suffix(blocks[p..], crops[p..]))
  }

  predicate Acceptable(inputShape: Shape, blocks: seq<nat>, crops: seq<Crop>) {
    && 1 + |blocks| <= |inputShape| && |crops| == |blocks|
    && 0 < Product(blocks) && inputShape[0] % Product(blocks) == 0
    && CropsFit(inputShape[1..1 + |blocks|], blocks, crops)
    && var (lo, hi) := Inner(blocks, crops); hi - lo <= MAX_BLOCK_DIMS
  }

  /** What Initialize leaves behind for the kernel. */
  datatype Plan = Plan(
    internalInput: Shape, internalOutput: Shape, outputShape: Shape,
    blockDims: nat, blockSizes: seq<nat>, crops: seq<Crop>)

  predicate CountedOutside(blocks: seq<nat>, crops: seq<Crop>, lo: nat, hi: nat) {
    && |blocks| == |crops| && lo <= hi <= |blocks|
    && (forall i :: 0 <= i < lo ==> Trivial(blocks[i], crops[i]))
    && (forall i :: hi <= i < |blocks| ==> Trivial(blocks[i], crops[i]))
  }

  lemma {:induction false} PrefixIsTrivial(blocks: seq<nat>, crops: seq<Crop>)
    requires |blocks| == |crops|
    ensures forall i :: 0 <= i < Prefix(blocks, crops) ==> Trivial(blocks[i], crops[i])
    ensures Prefix(blocks, crops) < |blocks| ==> !Trivial(blocks[Prefix(blocks, crops)], crops[Prefix(blocks, crops)])
  {
    if blocks != [] && Trivial(blocks[0], crops[0]) {
      var n := Prefix(blocks[1..], crops[1..]);
      PrefixIsTrivial(blocks[1..], crops[1..]);
      forall i | 0 <= i < n + 1 ensures Trivial(blocks[i], crops[i]) {
        if 0 < i { assert Trivial(blocks[1..][i - 1], crops[1..][i - 1]); }
      }
    }
  }

  lemma {:induction false} SuffixIsTrivial(blocks: seq<nat>, crops: seq<Crop>)
    requires |blocks| == |crops|
    ensures forall i :: |blocks| - Suffix(blocks, crops) <= i < |blocks| ==> Trivial(blocks[i], crops[i])
    ensures var n := |blocks| - Suffix(blocks, crops); 0 < n ==> !Trivial(blocks[n - 1], crops[n - 1])
  {
    var last := |blocks| - 1;
    if blocks != [] && Trivial(blocks[last], crops[last]) {
      SuffixIsTrivial(blocks[..last], crops[..last]);
      forall i | |blocks| - Suffix(blocks, crops) <= i < |blocks| ensures Trivial(blocks[i], crops[i]) {
        if i < last { assert Trivial(blocks[..last][i], crops[..last][i]); }
      }
    }
  }

  /** Everything outside the inner dimensions has block 1 and no crop. */
  lemma OutsideIsTrivial(blocks: seq<nat>, crops: seq<Crop>)
    requires |blocks| == |crops|
    ensures var (lo, hi) := Inner(blocks, crops); CountedOutside(blocks, crops, lo, hi)
  {
    var (lo, hi) := Inner(blocks, crops);
    PrefixIsTrivial(blocks, crops);
    SuffixIsTrivial(blocks[lo..], crops[lo..]);
    forall i | hi <= i < |blocks| ensures Trivial(blocks[i], crops[i]) {
      assert Trivial(blocks[lo..][i - lo], crops[lo..][i - lo]);
    }
  }

  /** As much is folded as can be: any stretch of dimensions with nothing but trivial ones outside is no shorter. */
  lemma InnerIsLeast(blocks: seq<nat>, crops: seq<Crop>, lo: nat, hi: nat)
    requires CountedOutside(blocks, crops, lo, hi)
    ensures Inner(blocks, crops).1 - Inner(blocks, crops).0 <= hi - lo
  {
    var (first, last) := Inner(blocks, crops);
    PrefixIsTrivial(blocks, crops);
    SuffixIsTrivial(blocks[first..], crops[first..]);
    if first < last {
      assert !Trivial(blocks[first], crops[first]);
      assert !Trivial(blocks[last - 1], crops[last - 1]);
    }
  }

  /** What is accepted, without saying how the folding is found. */
  lemma AcceptedExactly(inputShape: Shape, blocks: seq<nat>, crops: seq<Crop>)
    ensures Acceptable(inputShape, blocks, crops) <==>
              && 1 + |blocks| <= |inputShape| && |crops| == |blocks|
              && 0 < Product(blocks) && inputShape[0] % Product(blocks) == 0
              && (forall i :: 0 <= i < |blocks| ==>
                    0 <= crops[i].0 && 0 <= crops[i].1 && crops[i].0 + crops[i].1 <= inputShape[1 + i] * blocks[i])
              && exists lo: nat, hi: nat :: CountedOutside(blocks, crops, lo, hi) && hi - lo <= 3
  {
    if 1 + |blocks| <= |inputShape| && |crops| == |blocks| {
      OutsideIsTrivial(blocks, crops);
      if lo: nat, hi: nat :| CountedOutside(blocks, crops, lo, hi) && hi - lo <= 3 {
        InnerIsLeast(blocks, crops, lo, hi);
      }
      var space := inputShape[1..1 + |blocks|];
      if CropsFit(space, blocks, crops) {
        forall i | 0 <= i < |blocks| ensures CropFits(inputShape[1 + i], blocks[i], crops[i]) {
          assert CropFits(space[i], blocks[i], crops[i]);
        }
      }
    }
  }

  method CountPrefix(blocks: seq<nat>, crops: seq<Crop>) returns (n: nat)
    requires |blocks| == |crops|
    ensures n == Prefix(blocks, crops)
  {
    n := 0;
    assert blocks[0..] == blocks && crops[0..] == crops;
    while n < |blocks|
      invariant n <= |blocks| && Prefix(blocks, crops) == n + Prefix(blocks[n..], crops[n..])
    {
      var dim := n;
      if crops[dim].0 != 0 || crops[dim].1 != 0 || blocks[dim] != 1 {
        break;
      }
      assert blocks[n..][1..] == blocks[n + 1..] && crops[n..][1..] == crops[n + 1..];
      n := n + 1;
    }
  }

  method CountSuffix(blocks: seq<nat>, crops: seq<Crop>, prefix: nat) returns (n: nat)
    requires |blocks| == |crops| && prefix <= |blocks|
    ensures n == Suffix(blocks[prefix..], crops[prefix..])
  {
    n := 0;
    ghost var b, c := blocks[prefix..], crops[prefix..];
    assert b[..|b|] == b && c[..|b|] == c;
    while n < |blocks| - prefix
      invariant n <= |b| && Suffix(b, c) == n + Suffix(b[..|b| - n], c[..|b| - n])
    {
      var dim := |blocks| - 1 - n;
      assert b[..|b| - n][|b| - n - 1] == blocks[dim] && c[..|b| - n][|b| - n - 1] == crops[dim];
      if crops[dim].0 != 0 || crops[dim].1 != 0 || blocks[dim] != 1 {
        break;
      }
      assert b[..|b| - n][..|b| - n - 1] == b[..|b| - n - 1] && c[..|b| - n][..|b| - n - 1] == c[..|b| - n - 1];
      n := n + 1;
    }
  }

  /** Products over a stretch of sizes, as three of the loops accumulate them. */
  method Accumulate(start: nat, sizes: Shape) returns (product: nat)
    ensures product == start * Product(sizes)
  {
    product := start;
    for i := 0 to |sizes|
      invariant product == start * Product(sizes[..i])
    {
      assert sizes[..i + 1] == sizes[..i] + [sizes[i]];
      ProductConcat(sizes[..i], [sizes[i]]);
      Singleton(sizes[i], 0);
      MulAssoc(start, Product(sizes[..i]), sizes[i]);
      product := product * sizes[i];
    }
    assert sizes[..|sizes|] == sizes;
  }

  method CropDims(sizes: Shape, blocks: seq<nat>, crops: seq<Crop>) returns (r: Option<Shape>)
    requires |sizes| == |blocks| == |crops|
    ensures r.Some? <==> CropsFit(sizes, blocks, crops)
    ensures r.Some? ==> r.value == CroppedSizes(sizes, blocks, crops)
  {
    var cropped: Shape := [];
    for i := 0 to |sizes|
      invariant |cropped| == i
      invariant forall j :: 0 <= j < i ==> CropFits(sizes[j], blocks[j], crops[j])
      invariant forall j :: 0 <= j < i ==> cropped[j] == sizes[j] * blocks[j] - crops[j].0 - crops[j].1
    {
      var cropStart, cropEnd := crops[i].0, crops[i].1;
      if !(0 <= cropStart && 0 <= cropEnd) {
        return None;
      }
      var croppedSize := sizes[i] * blocks[i] - cropStart - cropEnd;
      if croppedSize < 0 {
        return None;
      }
      cropped := cropped + [croppedSize];
    }
    r := Some(cropped);
  }

  /** Batch size with the leading dimensions folded in. */
  function FoldedBatch(batch: nat, pre: Shape): nat {
    batch * Product(pre)
  }

  function FoldedEntry(pre: Shape, n: nat, xp: seq<nat>): nat
    requires |xp| == |pre|
  {
    n * Product(pre) + Ravel(pre, xp)
  }

  /** The folded shapes in terms of the inner dimensions lo..hi. */
  function PlanFor(inputShape: Shape, blocks: seq<nat>, crops: seq<Crop>): Plan
    requires Acceptable(inputShape, blocks, crops)
  {
    var (lo, hi) := Inner(blocks, crops);
    var batch := FoldedBatch(inputShape[0], inputShape[1..1 + lo]);
    var depth := Product(inputShape[1 + hi..]);
    var sizes := inputShape[1 + lo..1 + hi];
    OutsideIsTrivial(blocks, crops);
    InnerCropsFit(inputShape, blocks, crops, lo, hi);
    Plan([batch] + sizes + [depth],
         [Slab(batch, blocks)] + CroppedSizes(sizes, blocks[lo..hi], crops[lo..hi]) + [depth],
         OutputShape(inputShape, blocks, crops),
         hi - lo, blocks[lo..hi], crops[lo..hi])
  }

  lemma InnerCropsFit(inputShape: Shape, blocks: seq<nat>, crops: seq<Crop>, lo: nat, hi: nat)
    requires 1 + |blocks| <= |inputShape| && CountedOutside(blocks, crops, lo, hi)
    ensures CropsFit(inputShape[1..1 + |blocks|], blocks, crops)
       <==> CropsFit(inputShape[1 + lo..1 + hi], blocks[lo..hi], crops[lo..hi])
  {
    var all, inner := inputShape[1..1 + |blocks|], inputShape[1 + lo..1 + hi];
    if CropsFit(all, blocks, crops) {
      forall i | 0 <= i < |inner| ensures CropFits(inner[i], blocks[lo..hi][i], crops[lo..hi][i]) {
        assert CropFits(all[lo + i], blocks[lo + i], crops[lo + i]);
      }
    }
    if CropsFit(inner, blocks[lo..hi], crops[lo..hi]) {
      forall i | 0 <= i < |all| ensures CropFits(all[i], blocks[i], crops[i]) {
        if lo <= i < hi { assert CropFits(inner[i - lo], blocks[lo..hi][i - lo], crops[lo..hi][i - lo]); }
      }
    }
  }

  /** The folded dimensions keep their sizes, so the external shape is the uniformly cropped one. */
  lemma OutputShapeSplits(inputShape: Shape, blocks: seq<nat>, crops: seq<Crop>, lo: nat, hi: nat)
    requires 1 + |blocks| <= |inputShape| && CountedOutside(blocks, crops, lo, hi) && 0 < Product(blocks)
    requires CropsFit(inputShape[1..1 + |blocks|], blocks, crops)
    ensures CropsFit(inputShape[1 + lo..1 + hi], blocks[lo..hi], crops[lo..hi])
    ensures OutputShape(inputShape, blocks, crops) ==
              [Slab(inputShape[0], blocks)] + inputShape[1..1 + lo]
              + CroppedSizes(inputShape[1 + lo..1 + hi], blocks[lo..hi], crops[lo..hi]) + inputShape[1 + hi..]
  {
    Stretch(inputShape, 1, 1 + |blocks|, lo, hi);
    ShapeInParts([Slab(inputShape[0], blocks)], inputShape[1..1 + |blocks|], inputShape[1 + |blocks|..],
                 blocks, crops, lo, hi);
  }

  lemma Stretch(s: seq<nat>, a: nat, b: nat, lo: nat, hi: nat)
    requires a <= b <= |s| && lo <= hi <= b - a
    ensures s[a..b][..lo] == s[a..a + lo] && s[a..b][lo..hi] == s[a + lo..a + hi]
    ensures s[a..b][hi..] + s[b..] == s[a + hi..]
  {
  }

  lemma ShapeInParts(front: Shape, space: Shape, rest: Shape, blocks: seq<nat>, crops: seq<Crop>, lo: nat, hi: nat)
    requires CropsFit(space, blocks, crops) && CountedOutside(blocks, crops, lo, hi)
    ensures CropsFit(space[lo..hi], blocks[lo..hi], crops[lo..hi])
    ensures front + CroppedSizes(space, blocks, crops) + rest ==
              front + space[..lo] + CroppedSizes(space[lo..hi], blocks[lo..hi], crops[lo..hi]) + (space[hi..] + rest)
  {
    CroppedSplits(space, blocks, crops, lo, hi);
    var inner := CroppedSizes(space[lo..hi], blocks[lo..hi], crops[lo..hi]);
    Regroup(front, space[..lo], inner, space[hi..], rest);
  }

  lemma Regroup(a: seq<nat>, b: seq<nat>, c: seq<nat>, d: seq<nat>, e: seq<nat>)
    ensures a + (b + c + d) + e == a + b + c + (d + e)
  {
  }

  lemma CroppedSplits(sizes: Shape, blocks: seq<nat>, crops: seq<Crop>, lo: nat, hi: nat)
    requires CropsFit(sizes, blocks, crops) && CountedOutside(blocks, crops, lo, hi)
    ensures CropsFit(sizes[lo..hi], blocks[lo..hi], crops[lo..hi])
    ensures CroppedSizes(sizes, blocks, crops) ==
              sizes[..lo] + CroppedSizes(sizes[lo..hi], blocks[lo..hi], crops[lo..hi]) + sizes[hi..]
  {
    forall i | 0 <= i < hi - lo ensures CropFits(sizes[lo..hi][i], blocks[lo..hi][i], crops[lo..hi][i]) {
      assert CropFits(sizes[lo + i], blocks[lo + i], crops[lo + i]);
    }
    var all := CroppedSizes(sizes, blocks, crops);
    var split := sizes[..lo] + CroppedSizes(sizes[lo..hi], blocks[lo..hi], crops[lo..hi]) + sizes[hi..];
    forall i | 0 <= i < |sizes| ensures all[i] == split[i] {
      if i < lo || hi <= i { assert Trivial(blocks[i], crops[i]); }
    }
  }

  /** None is an InvalidArgument status. The output shape is the uniformly cropped one, whatever was folded. */
  method Initialize(inputShape: Shape, blocks: seq<nat>, crops: seq<Crop>) returns (r: Option<Plan>)
    ensures r.Some? <==> Acceptable(inputShape, blocks, crops)
    ensures r.Some? ==> r.value == PlanFor(inputShape, blocks, crops)
  {
    if |inputShape| < 1 + |blocks| || |blocks| != |crops| {
      return None;
    }
    var prefix := CountPrefix(blocks, crops);
    var suffix := CountSuffix(blocks, crops, prefix);
    ghost var inner := Inner(blocks, crops);
    var lo, hi := prefix, |blocks| - suffix;
    assert (lo, hi) == inner;
    OutsideIsTrivial(blocks, crops);
    var blockProduct := Accumulate(1, blocks);
    if !(0 < blockProduct) {
      return None;
    }
    var batch := inputShape[0];
    if batch % blockProduct != 0 {
      return None;
    }
    if MAX_BLOCK_DIMS < hi - lo {
      return None;
    }
    InnerCropsFit(inputShape, blocks, crops, lo, hi);
    var inputBatch := Accumulate(batch, inputShape[1..1 + prefix]);
    var cropped := CropDims(inputShape[1 + lo..1 + hi], blocks[lo..hi], crops[lo..hi]);
    if cropped == None {
      return None;
    }
    var depth := Accumulate(1, inputShape[1 + hi..]);
    OutputShapeSplits(inputShape, blocks, crops, lo, hi);
    r := Some(Plan(
      [inputBatch] + inputShape[1 + lo..1 + hi] + [depth],
      [inputBatch / blockProduct] + cropped.value + [depth],
      [batch / blockProduct] + inputShape[1..1 + lo] + cropped.value + inputShape[1 + hi..],
      hi - lo, blocks[lo..hi], crops[lo..hi]));
  }

  // ---------- Folding keeps the mapping ----------

  function Ones(n: nat): (r: seq<nat>)
    ensures |r| == n
  {
    seq(n, _ => 1)
  }

  function Zeros(n: nat): (r: seq<nat>)
    ensures |r| == n
  {
    seq(n, _ => 0)
  }

  lemma {:induction false} OnesVanish(n: nat)
    ensures Product(Ones(n)) == 1 && Ravel(Ones(n), Zeros(n)) == 0
  {
    if 0 < n {
      OnesVanish(n - 1);
      assert Ones(n)[1..] == Ones(n - 1) && Zeros(n)[1..] == Zeros(n - 1);
    }
  }

  /** Blocks of 1 around the inner ones change neither the product nor the position of the digits. */
  lemma Surrounded(p: nat, inner: seq<nat>, s: nat, digits: seq<nat>)
    requires |inner| == |digits|
    ensures Product(Ones(p) + inner + Ones(s)) == Product(inner)
    ensures Ravel(Ones(p) + inner + Ones(s), Zeros(p) + digits + Zeros(s)) == Ravel(inner, digits)
  {
    OnesVanish(p);
    OnesVanish(s);
    ProductConcat(Ones(p), inner);
    ProductConcat(Ones(p) + inner, Ones(s));
    RavelConcat(Ones(p), inner, Zeros(p), digits);
    RavelConcat(Ones(p) + inner, Ones(s), Zeros(p) + digits, Zeros(s));
  }

  lemma FoldedFront(a: Shape, rest: Shape, i: seq<nat>, j: seq<nat>)
    requires |i| == |a| && |j| == |rest|
    ensures Ravel(a + rest, i + j) == Ravel([Product(a)] + rest, [Ravel(a, i)] + j)
    ensures Product(a + rest) == Product([Product(a)] + rest)
  {
    RavelConcat(a, rest, i, j);
    ProductConcat(a, rest);
    RavelConcat([Product(a)], rest, [Ravel(a, i)], j);
    ProductConcat([Product(a)], rest);
    Singleton(Product(a), Ravel(a, i));
  }

  lemma FoldedBack(rest: Shape, c: Shape, j: seq<nat>, k: seq<nat>)
    requires |j| == |rest| && |k| == |c|
    ensures Ravel(rest + c, j + k) == Ravel(rest + [Product(c)], j + [Ravel(c, k)])
    ensures Product(rest + c) == Product(rest + [Product(c)])
  {
    RavelConcat(rest, c, j, k);
    ProductConcat(rest, c);
    RavelConcat(rest, [Product(c)], j, [Ravel(c, k)]);
    ProductConcat(rest, [Product(c)]);
    Singleton(Product(c), Ravel(c, k));
  }

  /** Folding the outer dimensions of a tensor into its first and last keeps every position. */
  lemma FoldedRavel(a: Shape, mid: Shape, c: Shape, i: seq<nat>, j: seq<nat>, k: seq<nat>)
    requires |i| == |a| && |j| == |mid| && |k| == |c|
    ensures Ravel(a + mid + c, i + j + k) == Ravel([Product(a)] + mid + [Product(c)], [Ravel(a, i)] + j + [Ravel(c, k)])
    ensures Product(a + mid + c) == Product([Product(a)] + mid + [Product(c)])
  {
    FoldedBack(a + mid, c, i + j, k);
    assert a + mid + [Product(c)] == a + (mid + [Product(c)]) && i + j + [Ravel(c, k)] == i + (j + [Ravel(c, k)]);
    FoldedFront(a, mid + [Product(c)], i, j + [Ravel(c, k)]);
    assert [Product(a)] + (mid + [Product(c)]) == [Product(a)] + mid + [Product(c)];
    assert [Ravel(a, i)] + (j + [Ravel(c, k)]) == [Ravel(a, i)] + j + [Ravel(c, k)];
  }

  lemma OnesAround(p: nat, inner: seq<nat>, s: nat)
    requires Positive(inner)
    ensures Positive(Ones(p) + inner + Ones(s))
  {
  }

  /** The mapping written in parts: the folded dimensions pass straight through. */
  lemma SourceSplits(batch: nat, pre: Shape, space: Shape, tail: Shape, s: nat, inner: seq<nat>, starts: seq<nat>,
      n: nat, xp: seq<nat>, x: seq<nat>, r: seq<nat>)
    requires |xp| == |pre| && |x| == |space| == |inner| == |starts| && |r| == |tail| && s <= |tail| && Positive(inner)
    requires 0 < Product(inner)
    ensures Positive(Ones(|pre|) + inner + Ones(s))
    ensures Source([batch] + pre + space + tail, Ones(|pre|) + inner + Ones(s), Zeros(|pre|) + starts + Zeros(s),
              [n] + xp + x + r) ==
            [SourceBatch(batch, inner, starts, x, n)] + xp + Quotients(Shift(x, starts), inner) + r
  {
    var p, x', xs := |pre|, xp + x + r[..s], r[..s];
    var blocks, allStarts := Ones(p) + inner + Ones(s), Zeros(p) + starts + Zeros(s);
    OnesAround(p, inner, s);
    PositiveBlocks(inner);
    PhaseSplits(xp, x, xs, inner, starts);
    assert r == xs + r[s..];
    SourceOf([batch] + pre + space + tail, blocks, allStarts, n, x', r[s..]);
    Regroup([n], xp, x, xs, r[s..]);
    Regroup([SourceBatch(batch, inner, starts, x, n)], xp, Quotients(Shift(x, starts), inner), xs, r[s..]);
  }

  lemma SourceOf(inputShape: Shape, blocks: seq<nat>, starts: seq<nat>, n: nat, x: seq<nat>, rest: seq<nat>)
    requires |x| == |blocks| == |starts| && 1 + |x| + |rest| == |inputShape| && Positive(blocks) && 0 < Product(blocks)
    ensures Source(inputShape, blocks, starts, [n] + x + rest) ==
              [SourceBatch(inputShape[0], blocks, starts, x, n)] + Quotients(Shift(x, starts), blocks) + rest
  {
    PositiveBlocks(blocks);
    var o := [n] + x + rest;
    assert o[1..1 + |blocks|] == x && o[1 + |blocks|..] == rest;
  }

  lemma PhaseSplits(xp: seq<nat>, x: seq<nat>, xs: seq<nat>, inner: seq<nat>, starts: seq<nat>)
    requires |x| == |inner| == |starts| && Positive(inner)
    ensures var blocks, allStarts := Ones(|xp|) + inner + Ones(|xs|), Zeros(|xp|) + starts + Zeros(|xs|);
            && Positive(blocks) && Product(blocks) == Product(inner)
            && Phase(blocks, allStarts, xp + x + xs) == Phase(inner, starts, x)
            && Quotients(Shift(xp + x + xs, allStarts), blocks) == xp + Quotients(Shift(x, starts), inner) + xs
  {
    ShiftSplits(xp, x, xs, starts);
    DivideSplits(xp, Shift(x, starts), xs, inner);
    Surrounded(|xp|, inner, |xs|, Remainders(Shift(x, starts), inner));
  }

  lemma ShiftSplits(xp: seq<nat>, x: seq<nat>, xs: seq<nat>, starts: seq<nat>)
    requires |x| == |starts|
    ensures Shift(xp + x + xs, Zeros(|xp|) + starts + Zeros(|xs|)) == xp + Shift(x, starts) + xs
  {
  }

  lemma DivideSplits(yp: seq<nat>, y: seq<nat>, ys: seq<nat>, inner: seq<nat>)
    requires |y| == |inner| && Positive(inner)
    ensures Positive(Ones(|yp|) + inner + Ones(|ys|))
    ensures Quotients(yp + y + ys, Ones(|yp|) + inner + Ones(|ys|)) == yp + Quotients(y, inner) + ys
    ensures Remainders(yp + y + ys, Ones(|yp|) + inner + Ones(|ys|)) ==
              Zeros(|yp|) + Remainders(y, inner) + Zeros(|ys|)
  {
  }

  lemma SlabScales(batch: nat, p: nat, blocks: seq<nat>)
    requires 0 < Product(blocks) && batch % Product(blocks) == 0
    ensures Slab(batch * p, blocks) == Slab(batch, blocks) * p
    ensures batch == Slab(batch, blocks) * Product(blocks)
  {
    var b, slab := Product(blocks), Slab(batch, blocks);
    assert batch == slab * b;
    MulAssoc(slab, b, p);
    MulAssoc(slab, p, b);
    assert batch * p == slab * p * b + 0;
    DivModOf(slab * p, 0, b);
  }

  lemma BatchScales(batch: nat, pre: Shape, blocks: seq<nat>, starts: seq<nat>, x: seq<nat>, n: nat, xp: seq<nat>)
    requires |blocks| == |starts| == |x| && Positive(blocks) && |xp| == |pre|
    requires 0 < Product(blocks) && batch % Product(blocks) == 0
    ensures SourceBatch(FoldedBatch(batch, pre), blocks, starts, x, FoldedEntry(pre, n, xp)) ==
              FoldedEntry(pre, SourceBatch(batch, blocks, starts, x, n), xp)
  {
    var p := Product(pre);
    SlabScales(batch, p, blocks);
    MulDistrib(Phase(blocks, starts, x) * Slab(batch, blocks), n, p);
    MulAssoc(Phase(blocks, starts, x), Slab(batch, blocks), p);
  }

  lemma BatchFolds(batch: nat, pre: Shape, n: nat, xp: seq<nat>)
    requires |xp| == |pre|
    ensures Product([batch] + pre) == FoldedBatch(batch, pre)
    ensures Ravel([batch] + pre, [n] + xp) == FoldedEntry(pre, n, xp)
  {
    ProductConcat([batch], pre);
    RavelConcat([batch], pre, [n], xp);
    Singleton(batch, n);
  }

  /** Folding keeps the source position of every output element. */
  lemma FoldedSource(batch: nat, pre: Shape, space: Shape, tail: Shape, s: nat, inner: seq<nat>, starts: seq<nat>,
      n: nat, xp: seq<nat>, x: seq<nat>, r: seq<nat>)
    requires |xp| == |pre| && |x| == |space| == |inner| == |starts| && |r| == |tail| && s <= |tail| && Positive(inner)
    requires 0 < Product(inner) && batch % Product(inner) == 0
    requires Positive(Ones(|pre|) + inner + Ones(s))
    ensures var folded := [FoldedBatch(batch, pre)] + space + [Product(tail)];
            var input := [batch] + pre + space + tail;
            Ravel(folded, Source(folded, inner, starts, [FoldedEntry(pre, n, xp)] + x + [Ravel(tail, r)])) ==
            Ravel(input, Source(input, Ones(|pre|) + inner + Ones(s), Zeros(|pre|) + starts + Zeros(s), [n] + xp + x + r))
  {
    var q := Quotients(Shift(x, starts), inner);
    var sb := SourceBatch(batch, inner, starts, x, n);
    SourceSplits(batch, pre, space, tail, s, inner, starts, n, xp, x, r);
    SourceOf([FoldedBatch(batch, pre)] + space + [Product(tail)], inner, starts, FoldedEntry(pre, n, xp), x, [Ravel(tail, r)]);
    BatchScales(batch, pre, inner, starts, x, n, xp);
    FoldedRavel([batch] + pre, space, tail, [sb] + xp, q, r);
    BatchFolds(batch, pre, sb, xp);
  }

  /** Blocks and crop starts, with the folded ones spelled out. */
  lemma BlocksSplit(blocks: seq<nat>, crops: seq<Crop>, lo: nat, hi: nat)
    requires CountedOutside(blocks, crops, lo, hi)
    requires forall i :: 0 <= i < |crops| ==> 0 <= crops[i].0
    ensures blocks == Ones(lo) + blocks[lo..hi] + Ones(|blocks| - hi)
    ensures Starts(crops) == Zeros(lo) + Starts(crops[lo..hi]) + Zeros(|blocks| - hi)
    ensures Product(blocks) == Product(blocks[lo..hi])
  {
    OnesOutside(blocks, crops, lo, hi);
    ZerosOutside(blocks, crops, lo, hi);
    Surrounded(lo, blocks[lo..hi], |blocks| - hi, blocks[lo..hi]);
  }

  lemma ZerosOutside(blocks: seq<nat>, crops: seq<Crop>, lo: nat, hi: nat)
    requires CountedOutside(blocks, crops, lo, hi)
    requires forall i :: 0 <= i < |crops| ==> 0 <= crops[i].0
    ensures Starts(crops) == Zeros(lo) + Starts(crops[lo..hi]) + Zeros(|blocks| - hi)
  {
    forall i | 0 <= i < lo || hi <= i < |blocks| ensures crops[i].0 == 0 {
      assert Trivial(blocks[i], crops[i]);
    }
  }

  lemma OnesOutside(blocks: seq<nat>, crops: seq<Crop>, lo: nat, hi: nat)
    requires CountedOutside(blocks, crops, lo, hi)
    ensures blocks == Ones(lo) + blocks[lo..hi] + Ones(|blocks| - hi)
  {
    forall i | 0 <= i < lo || hi <= i < |blocks| ensures blocks[i] == 1 {
      assert Trivial(blocks[i], crops[i]);
    }
  }

  lemma NonNegativeStarts(sizes: Shape, blocks: seq<nat>, crops: seq<Crop>)
    requires CropsFit(sizes, blocks, crops)
    ensures forall i :: 0 <= i < |crops| ==> 0 <= crops[i].0
  {
    forall i | 0 <= i < |crops| ensures 0 <= crops[i].0 {
      assert CropFits(sizes[i], blocks[i], crops[i]);
    }
  }

  /** An output index with the folded coordinates folded. */
  function FoldedIndex(inputShape: Shape, lo: nat, hi: nat, o: seq<nat>): (r: seq<nat>)
    requires |o| == |inputShape| && lo <= hi && 1 + hi <= |inputShape|
    ensures |r| == hi - lo + 2
  {
    [FoldedEntry(inputShape[1..1 + lo], o[0], o[1..1 + lo])] + o[1 + lo..1 + hi]
    + [Ravel(inputShape[1 + hi..], o[1 + hi..])]
  }

  lemma Parts(s: seq<nat>, lo: nat, hi: nat)
    requires lo <= hi && 1 + hi <= |s|
    ensures s == [s[0]] + s[1..1 + lo] + s[1 + lo..1 + hi] + s[1 + hi..]
  {
  }

  /** The folded problem is a problem of the same kind. */
  lemma PlanIsInstance(inputShape: Shape, blocks: seq<nat>, crops: seq<Crop>)
    requires Acceptable(inputShape, blocks, crops)
    ensures var plan := PlanFor(inputShape, blocks, crops);
            && 0 < Product(plan.blockSizes) && |plan.blockSizes| == plan.blockDims == |plan.internalInput| - 2
            && plan.internalInput[0] % Product(plan.blockSizes) == 0
            && CropsFit(plan.internalInput[1..1 + plan.blockDims], plan.blockSizes, plan.crops)
            && plan.internalOutput == OutputShape(plan.internalInput, plan.blockSizes, plan.crops)
  {
    var plan := PlanFor(inputShape, blocks, crops);
    var (lo, hi) := Inner(blocks, crops);
    OutsideIsTrivial(blocks, crops);
    InnerCropsFit(inputShape, blocks, crops, lo, hi);
    NonNegativeStarts(inputShape[1..1 + |blocks|], blocks, crops);
    BlocksSplit(blocks, crops, lo, hi);
    DivisibleScales(inputShape[0], Product(inputShape[1..1 + lo]), Product(blocks));
    assert plan.internalInput[1..1 + plan.blockDims] == inputShape[1 + lo..1 + hi];
    assert plan.internalInput[1 + plan.blockDims..] == [Product(inputShape[1 + hi..])];
  }

  lemma DivisibleScales(batch: nat, p: nat, b: nat)
    requires 0 < b && batch % b == 0
    ensures batch * p % b == 0
  {
    var slab := batch / b;
    MulAssoc(slab, b, p);
    MulAssoc(slab, p, b);
    assert batch * p == slab * p * b + 0;
    DivModOf(slab * p, 0, b);
  }

  /**
   * Folding is sound: the folded output index has the same position in the output buffer, and its source under
   * the folded problem is the same input position as the source of the original index.
   */
  lemma FoldingKeepsMapping(inputShape: Shape, blocks: seq<nat>, crops: seq<Crop>, o: seq<nat>)
    requires Acceptable(inputShape, blocks, crops) && Positive(blocks)
    requires IndexOf(o, OutputShape(inputShape, blocks, crops))
    requires forall i :: 0 <= i < |crops| ==> 0 <= crops[i].0
    ensures var plan := PlanFor(inputShape, blocks, crops);
            var (lo, hi) := Inner(blocks, crops);
            var folded := FoldedIndex(inputShape, lo, hi, o);
            && IndexOf(folded, plan.internalOutput)
            && Ravel(plan.internalOutput, folded) == Ravel(plan.outputShape, o)
            && Positive(plan.blockSizes) && (forall i :: 0 <= i < |plan.crops| ==> 0 <= plan.crops[i].0)
            && Ravel(plan.internalInput, Source(plan.internalInput, plan.blockSizes, Starts(plan.crops), folded)) ==
               Ravel(inputShape, Source(inputShape, blocks, Starts(crops), o))
  {
    var (lo, hi) := Inner(blocks, crops);
    OutsideIsTrivial(blocks, crops);
    BlocksSplit(blocks, crops, lo, hi);
    PositiveBlocks(blocks[lo..hi]);
    var (pre, space, tail) := (inputShape[1..1 + lo], inputShape[1 + lo..1 + hi], inputShape[1 + hi..]);
    var (xp, x, r) := (o[1..1 + lo], o[1 + lo..1 + hi], o[1 + hi..]);
    var (inner, crop) := (blocks[lo..hi], crops[lo..hi]);
    Parts(inputShape, lo, hi);
    Parts(o, lo, hi);
    FoldedSource(inputShape[0], pre, space, tail, |blocks| - hi, inner, Starts(crop), o[0], xp, x, r);
    OutputFolds(inputShape, blocks, crops, lo, hi, o);
  }

  lemma OutputFolds(inputShape: Shape, blocks: seq<nat>, crops: seq<Crop>, lo: nat, hi: nat, o: seq<nat>)
    requires Acceptable(inputShape, blocks, crops) && Inner(blocks, crops) == (lo, hi)
    requires IndexOf(o, OutputShape(inputShape, blocks, crops))
    ensures var plan := PlanFor(inputShape, blocks, crops);
            && IndexOf(FoldedIndex(inputShape, lo, hi, o), plan.internalOutput)
            && Ravel(plan.internalOutput, FoldedIndex(inputShape, lo, hi, o)) == Ravel(plan.outputShape, o)
  {
    OutsideIsTrivial(blocks, crops);
    InnerCropsFit(inputShape, blocks, crops, lo, hi);
    OutputShapeSplits(inputShape, blocks, crops, lo, hi);
    var (pre, tail, slab) := (inputShape[1..1 + lo], inputShape[1 + hi..], Slab(inputShape[0], blocks));
    var mid := CroppedSizes(inputShape[1 + lo..1 + hi], blocks[lo..hi], crops[lo..hi]);
    Parts(o, lo, hi);
    OutputFoldsInParts(slab, pre, mid, tail, o[0], o[1..1 + lo], o[1 + lo..1 + hi], o[1 + hi..]);
    SlabScales(inputShape[0], Product(pre), blocks);
  }

  lemma OutputFoldsInParts(slab: nat, pre: Shape, mid: Shape, tail: Shape, n: nat, xp: seq<nat>, x: seq<nat>, r: seq<nat>)
    requires |xp| == |pre| && |x| == |mid| && |r| == |tail|
    requires IndexOf([n] + xp + x + r, [slab] + pre + mid + tail)
    ensures var folded := [FoldedBatch(slab, pre)] + mid + [Product(tail)];
            var idx := [FoldedEntry(pre, n, xp)] + x + [Ravel(tail, r)];
            && IndexOf(idx, folded) && Ravel(folded, idx) == Ravel([slab] + pre + mid + tail, [n] + xp + x + r)
  {
    var o := [n] + xp + x + r;
    assert IndexOf([n] + xp, [slab] + pre) && IndexOf(x, mid) && IndexOf(r, tail) by {
      SplitIndex(o, [slab] + pre, mid, tail);
      assert o[..1 + |pre|] == [n] + xp && o[1 + |pre|..1 + |pre| + |mid|] == x && o[1 + |pre| + |mid|..] == r;
    }
    FoldedRavel([slab] + pre, mid, tail, [n] + xp, x, r);
    BatchFolds(slab, pre, n, xp);
    RavelBound([slab] + pre, [n] + xp);
    RavelBound(tail, r);
    Wrapped(FoldedEntry(pre, n, xp), x, Ravel(tail, r), FoldedBatch(slab, pre), mid, Product(tail));
  }

  lemma Wrapped(i: nat, x: seq<nat>, k: nat, a: nat, mid: Shape, c: nat)
    requires i < a && k < c && IndexOf(x, mid)
    ensures IndexOf([i] + x + [k], [a] + mid + [c])
  {
  }

  lemma SplitIndex(o: seq<nat>, a: Shape, b: Shape, c: Shape)
    requires IndexOf(o, a + b + c)
    ensures IndexOf(o[..|a|], a) && IndexOf(o[|a|..|a| + |b|], b) && IndexOf(o[|a| + |b|..], c)
  {
    var all := a + b + c;
    forall i | 0 <= i < |b| ensures o[|a|..|a| + |b|][i] < b[i] { assert all[|a| + i] == b[i]; }
    forall i | 0 <= i < |c| ensures o[|a| + |b|..][i] < c[i] { assert all[|a| + |b| + i] == c[i]; }
  }

  // ---------- The mapping stays inside the input ----------

  lemma PhaseBound(blocks: seq<nat>, starts: seq<nat>, x: seq<nat>)
    requires |blocks| == |starts| == |x| && Positive(blocks)
    ensures Phase(blocks, starts, x) < Product(blocks)
  {
    var digits := Remainders(Shift(x, starts), blocks);
    forall i | 0 <= i < |digits| ensures digits[i] < blocks[i] {
      assert blocks[i] in blocks;
    }
    RavelBound(blocks, digits);
  }

  lemma SourceBatchBound(batch: nat, blocks: seq<nat>, starts: seq<nat>, x: seq<nat>, n: nat)
    requires |blocks| == |starts| == |x| && Positive(blocks)
    requires 0 < Product(blocks) && batch % Product(blocks) == 0 && n < Slab(batch, blocks)
    ensures SourceBatch(batch, blocks, starts, x, n) < batch
  {
    PhaseBound(blocks, starts, x);
    SlabScales(batch, 1, blocks);
    DigitBound(Phase(blocks, starts, x), Product(blocks), n, Slab(batch, blocks));
  }

  lemma DigitBound(d: nat, base: nat, n: nat, unit: nat)
    requires d < base && n < unit
    ensures Combine(d, unit, n) < Scaled(base, unit)
  {
    MulMono(d + 1, base, unit);
    MulDistrib(d, 1, unit);
  }

  lemma CellBound(x: nat, size: nat, block: nat, crop: Crop)
    requires 0 < block && CropFits(size, block, crop) && x < size * block - crop.0 - crop.1
    ensures (x + crop.0) / block < size
  {
    DivBound(x + crop.0, size, block);
  }

  lemma CellsInBounds(space: Shape, blocks: seq<nat>, crops: seq<Crop>, x: seq<nat>)
    requires CropsFit(space, blocks, crops) && Positive(blocks) && IndexOf(x, CroppedSizes(space, blocks, crops))
    requires forall i :: 0 <= i < |crops| ==> 0 <= crops[i].0
    ensures IndexOf(Quotients(Shift(x, Starts(crops)), blocks), space)
  {
    var cells := Quotients(Shift(x, Starts(crops)), blocks);
    forall i | 0 <= i < |space| ensures cells[i] < space[i] {
      assert blocks[i] in blocks && CropFits(space[i], blocks[i], crops[i]);
      assert x[i] < CroppedSizes(space, blocks, crops)[i];
      CellBound(x[i], space[i], blocks[i], crops[i]);
    }
  }

  lemma JoinIndex(i: seq<nat>, j: seq<nat>, k: seq<nat>, a: Shape, b: Shape, c: Shape)
    requires IndexOf(i, a) && IndexOf(j, b) && IndexOf(k, c)
    ensures IndexOf(i + j + k, a + b + c)
  {
  }

  lemma SourceInBoundsInParts(batch: nat, space: Shape, rest: Shape, blocks: seq<nat>, crops: seq<Crop>,
      n: nat, x: seq<nat>, r: seq<nat>)
    requires Positive(blocks) && 0 < Product(blocks) && batch % Product(blocks) == 0 && CropsFit(space, blocks, crops)
    requires n < Slab(batch, blocks) && IndexOf(x, CroppedSizes(space, blocks, crops)) && IndexOf(r, rest)
    requires forall i :: 0 <= i < |crops| ==> 0 <= crops[i].0
    ensures IndexOf(Source([batch] + space + rest, blocks, Starts(crops), [n] + x + r), [batch] + space + rest)
  {
    var starts := Starts(crops);
    SourceBatchBound(batch, blocks, starts, x, n);
    CellsInBounds(space, blocks, crops, x);
    JoinIndex([SourceBatch(batch, blocks, starts, x, n)], Quotients(Shift(x, starts), blocks), r, [batch], space, rest);
    SourceOf([batch] + space + rest, blocks, starts, n, x, r);
  }

  /** Every output element has a source inside the input. */
  lemma SourceInBounds(inputShape: Shape, blocks: seq<nat>, crops: seq<Crop>, o: seq<nat>)
    requires 1 + |blocks| <= |inputShape| && Positive(blocks) && 0 < Product(blocks)
    requires inputShape[0] % Product(blocks) == 0 && CropsFit(inputShape[1..1 + |blocks|], blocks, crops)
    requires IndexOf(o, OutputShape(inputShape, blocks, crops))
    requires forall i :: 0 <= i < |crops| ==> 0 <= crops[i].0
    ensures IndexOf(Source(inputShape, blocks, Starts(crops), o), inputShape)
  {
    var m := |blocks|;
    Halves(inputShape, m);
    Halves(o, m);
    OutputIndexInParts(Slab(inputShape[0], blocks), CroppedSizes(inputShape[1..1 + m], blocks, crops),
                       inputShape[1 + m..], o);
    SourceInBoundsInParts(inputShape[0], inputShape[1..1 + m], inputShape[1 + m..], blocks, crops,
                          o[0], o[1..1 + m], o[1 + m..]);
  }

  lemma OutputIndexInParts(slab: nat, mid: Shape, rest: Shape, o: seq<nat>)
    requires IndexOf(o, [slab] + mid + rest)
    ensures o[0] < slab && IndexOf(o[1..1 + |mid|], mid) && IndexOf(o[1 + |mid|..], rest)
  {
    SplitIndex(o, [slab], mid, rest);
    assert o[..1][0] == o[0];
  }

  lemma Halves(s: seq<nat>, m: nat)
    requires 1 + m <= |s|
    ensures s == [s[0]] + s[1..1 + m] + s[1 + m..]
  {
  }

  // ---------- Forwarding ----------

  /** With nothing left after folding, the shape is unchanged and every element comes from its own place. */
  lemma ForwardedIsIdentity(inputShape: Shape, blocks: seq<nat>, crops: seq<Crop>, o: seq<nat>)
    requires Acceptable(inputShape, blocks, crops) && Positive(blocks)
    requires PlanFor(inputShape, blocks, crops).blockDims == 0 && |o| == |inputShape|
    ensures OutputShape(inputShape, blocks, crops) == inputShape
    ensures (forall i :: 0 <= i < |crops| ==> 0 <= crops[i].0)
    ensures Source(inputShape, blocks, Starts(crops), o) == o
  {
    var (lo, hi) := Inner(blocks, crops);
    OutsideIsTrivial(blocks, crops);
    NonNegativeStarts(inputShape[1..1 + |blocks|], blocks, crops);
    assert hi == lo;
    AllFolded(blocks, crops, lo);
    UntouchedShape(inputShape, blocks, crops, lo);
    Parts(inputShape, lo, lo);
    Parts(o, lo, lo);
    UntouchedSource(inputShape[0], inputShape[1..1 + lo], inputShape[1 + lo..], |blocks| - lo,
                    o[0], o[1..1 + lo], o[1 + lo..]);
    assert inputShape[1 + lo..1 + lo] == [] && o[1 + lo..1 + lo] == [];
    hide Source, OutputShape;
  }

  lemma AllFolded(blocks: seq<nat>, crops: seq<Crop>, lo: nat)
    requires CountedOutside(blocks, crops, lo, lo)
    requires forall i :: 0 <= i < |crops| ==> 0 <= crops[i].0
    ensures blocks == Ones(lo) + [] + Ones(|blocks| - lo)
    ensures Starts(crops) == Zeros(lo) + [] + Zeros(|blocks| - lo)
    ensures Product(blocks) == 1
  {
    BlocksSplit(blocks, crops, lo, lo);
    assert crops[lo..lo] == [] && blocks[lo..lo] == [] && Starts(crops[lo..lo]) == [];
  }

  lemma UntouchedShape(inputShape: Shape, blocks: seq<nat>, crops: seq<Crop>, lo: nat)
    requires 1 + |blocks| <= |inputShape| && CountedOutside(blocks, crops, lo, lo) && Product(blocks) == 1
    ensures CropsFit(inputShape[1..1 + |blocks|], blocks, crops)
    ensures OutputShape(inputShape, blocks, crops) == inputShape
  {
    InnerCropsFit(inputShape, blocks, crops, lo, lo);
    OutputShapeSplits(inputShape, blocks, crops, lo, lo);
    assert Slab(inputShape[0], blocks) == inputShape[0];
    assert CroppedSizes(inputShape[1 + lo..1 + lo], blocks[lo..lo], crops[lo..lo]) == [];
    Parts(inputShape, lo, lo);
  }

  lemma UntouchedSource(batch: nat, pre: Shape, tail: Shape, s: nat, n: nat, xp: seq<nat>, r: seq<nat>)
    requires |xp| == |pre| && |r| == |tail| && s <= |tail|
    ensures Positive(Ones(|pre|) + [] + Ones(s))
    ensures Source([batch] + pre + [] + tail, Ones(|pre|) + [] + Ones(s), Zeros(|pre|) + [] + Zeros(s),
              [n] + xp + [] + r) == [n] + xp + [] + r
  {
    SourceSplits(batch, pre, [], tail, s, [], [], n, xp, [], r);
    assert Shift([], []) == [] && Quotients([], []) == [];
  }

  /** On a non-empty input, equal shapes already mean that there is nothing left after folding. */
  lemma SameShapeMeansForwarded(inputShape: Shape, blocks: seq<nat>, crops: seq<Crop>)
    requires Acceptable(inputShape, blocks, crops) && Product(inputShape) != 0
    requires OutputShape(inputShape, blocks, crops) == inputShape
    ensures PlanFor(inputShape, blocks, crops).blockDims == 0
  {
    ZeroElements(inputShape);
    var b := Product(blocks);
    assert inputShape[0] != 0 && Slab(inputShape[0], blocks) == inputShape[0];
    NoShrink(inputShape[0], b);
    UnitBlocks(blocks);
    var m := |blocks|;
    forall i | 0 <= i < m ensures Trivial(blocks[i], crops[i]) {
      assert CropFits(inputShape[1..1 + m][i], blocks[i], crops[i]);
      assert OutputShape(inputShape, blocks, crops)[1 + i] == inputShape[1 + i];
    }
    AllPrefix(blocks, crops);
  }

  lemma NoShrink(x: nat, b: nat)
    requires 0 < x && 0 < b && x / b == x
    ensures b == 1
  {
    if 2 <= b { DivBound(x, x, b); }
  }

  lemma {:induction false} UnitBlocks(blocks: seq<nat>)
    requires Product(blocks) == 1
    ensures forall i :: 0 <= i < |blocks| ==> blocks[i] == 1
  {
    if blocks != [] {
      UnitBlocks(blocks[1..]);
      forall i | 0 <= i < |blocks| ensures blocks[i] == 1 {
        if 0 < i { assert blocks[i] == blocks[1..][i - 1]; }
      }
    }
  }

  lemma {:induction false} AllPrefix(blocks: seq<nat>, crops: seq<Crop>)
    requires |blocks| == |crops| && forall i :: 0 <= i < |blocks| ==> Trivial(blocks[i], crops[i])
    ensures Prefix(blocks, crops) == |blocks|
  {
    if blocks != [] { AllPrefix(blocks[1..], crops[1..]); }
  }

  /** The output is the input: same shape, and every element from its own place. */
  ghost predicate IsIdentity(inputShape: Shape, blocks: seq<nat>, crops: seq<Crop>) {
    && Acceptable(inputShape, blocks, crops) && Positive(blocks)
    && (forall i :: 0 <= i < |crops| ==> 0 <= crops[i].0)
    && OutputShape(inputShape, blocks, crops) == inputShape
    && forall o :: |o| == |inputShape| ==> Source(inputShape, blocks, Starts(crops), o) == o
  }

  /** An input is forwarded only when the mapping is the identity, and a non-empty one of unchanged shape always. */
  method GetForwardableInputIndex(inputShape: Shape, ghost blocks: seq<nat>, ghost crops: seq<Crop>, plan: Plan,
      outputIndex: nat) returns (r: Option<nat>)
    requires Acceptable(inputShape, blocks, crops) && plan == PlanFor(inputShape, blocks, crops)
    ensures r.Some? <==> outputIndex == 0 && inputShape == plan.outputShape && plan.blockDims == 0
    ensures r.Some? ==> r.value == outputIndex == 0 && IsIdentity(inputShape, blocks, crops)
    ensures outputIndex == 0 && Product(inputShape) != 0 && OutputShape(inputShape, blocks, crops) == inputShape ==>
              r == Some(0)
  {
    if outputIndex != 0 {
      return None;
    }
    if inputShape != plan.outputShape {
      return None;
    }
    r := None;
    PositiveBlocks(blocks);
    if Product(inputShape) != 0 {
      SameShapeMeansForwarded(inputShape, blocks, crops);
    }
    if plan.blockDims == 0 {
      forall o: seq<nat> | |o| == |inputShape|
        ensures OutputShape(inputShape, blocks, crops) == inputShape
        ensures forall i :: 0 <= i < |crops| ==> 0 <= crops[i].0
        ensures Source(inputShape, blocks, Starts(crops), o) == o
      {
        ForwardedIsIdentity(inputShape, blocks, crops, o);
      }
      ForwardedIsIdentity(inputShape, blocks, crops, inputShape);
      r := Some(0);
    }
  }

  /**
   * An empty input may keep its shape and still not be forwarded: batch 0 and two rows, in blocks of two, with one
   * row cropped at either end.
   */
  lemma EmptyMayNotBeForwarded()
    ensures Acceptable([0, 2], [2], [(1, 1)]) && OutputShape([0, 2], [2], [(1, 1)]) == [0, 2]
    ensures PlanFor([0, 2], [2], [(1, 1)]).blockDims == 1
  {
    var shape: Shape, blocks: seq<nat>, crops: seq<Crop> := [0, 2], [2], [(1, 1)];
    Singleton(2, 0);
    assert shape[1..2] == [2] && shape[2..] == [];
    assert CropFits(2, 2, (1, 1));
    assert !Trivial(2, (1, 1));
    assert blocks[0..] == blocks && crops[0..] == crops;
    assert CroppedSizes([2], blocks, crops) == [2];
  }
}
