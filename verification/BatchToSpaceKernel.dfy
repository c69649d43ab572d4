/** The operator graphs DmlBatchToSpaceKernel builds, and what they compute (tfdml/kernels/dml_batch_to_space_op.cc). */
module BatchToSpaceKernel {
  import opened Wrappers
  import opened MixedRadix
  import opened TensorGraph
  import opened BatchToSpace

  // ---------- Interleaving ----------

  function Interleave(a: seq<nat>, b: seq<nat>): (r: seq<nat>)
    requires |a| == |b|
    ensures |r| == 2 * |a|
  {
    if a == [] then [] else [a[0], b[0]] + Interleave(a[1..], b[1..])
  }

  lemma {:induction false} InterleaveSnoc(a: seq<nat>, b: seq<nat>, x: nat, y: nat)
    requires |a| == |b|
    ensures Interleave(a + [x], b + [y]) == Interleave(a, b) + [x, y]
  {
    if a == [] {
      assert Interleave([], []) == [];
    } else {
      assert (a + [x])[1..] == a[1..] + [x] && (b + [y])[1..] == b[1..] + [y];
      InterleaveSnoc(a[1..], b[1..], x, y);
    }
  }

  lemma {:induction false} InterleaveIndex(i: seq<nat>, j: seq<nat>, a: Shape, b: Shape)
    requires IndexOf(i, a) && IndexOf(j, b) && |a| == |b|
    ensures IndexOf(Interleave(i, j), Interleave(a, b))
  {
    if a != [] { InterleaveIndex(i[1..], j[1..], a[1..], b[1..]); }
  }

  lemma {:induction false} InterleaveDot(i: seq<nat>, j: seq<nat>, s: seq<nat>, t: seq<nat>)
    requires |i| == |j| == |s| == |t|
    ensures Dot(Interleave(i, j), Interleave(s, t)) == Dot(i, s) + Dot(j, t)
  {
    if i != [] {
      InterleaveDot(i[1..], j[1..], s[1..], t[1..]);
      DotPair(i[0], j[0], Interleave(i[1..], j[1..]), s[0], t[0], Interleave(s[1..], t[1..]));
    }
  }

  lemma DotPair(i: nat, j: nat, idx: seq<nat>, s: nat, t: nat, strides: seq<nat>)
    requires |idx| == |strides|
    ensures Dot([i, j] + idx, [s, t] + strides) == i * s + j * t + Dot(idx, strides)
  {
    DotConcat([i, j], idx, [s, t], strides);
    assert [i, j][1..] == [j] && [s, t][1..] == [t];
  }

  lemma RavelPair(a: nat, b: nat, rest: Shape, i: nat, j: nat, idx: seq<nat>)
    requires |idx| == |rest|
    ensures Ravel([a, b] + rest, [i, j] + idx) == Ravel([Scaled(a, b)] + rest, [Combine(i, b, j)] + idx)
    ensures Product([a, b] + rest) == Product([Scaled(a, b)] + rest)
  {
    assert [a, b] == [a] + [b] && [i, j] == [i] + [j];
    FoldedFront([a, b], rest, [i, j], idx);
    RavelConcat([a], [b], [i], [j]);
    ProductConcat([a], [b]);
    Singleton(a, i);
    Singleton(b, j);
  }

  lemma SplitOne(a: nat, b: nat, q: nat, r: nat, t: Shape, i: Shape, ti: seq<nat>, ii: seq<nat>)
    requires |t| == |ti| && |i| == |ii| && Ravel(t, ti) == Ravel(i, ii) && Product(t) == Product(i)
    ensures Ravel([Scaled(a, b)] + t, [Combine(q, b, r)] + ti) == Ravel([a, b] + i, [q, r] + ii)
    ensures Product([Scaled(a, b)] + t) == Product([a, b] + i)
  {
    RavelPair(a, b, i, q, r, ii);
    SwapTail(Scaled(a, b), Combine(q, b, r), t, i, ti, ii);
  }

  lemma SwapTail(m: nat, y: nat, t: Shape, i: Shape, ti: seq<nat>, ii: seq<nat>)
    requires |t| == |ti| && |i| == |ii| && Ravel(t, ti) == Ravel(i, ii) && Product(t) == Product(i)
    ensures Ravel([m] + t, [y] + ti) == Ravel([m] + i, [y] + ii)
    ensures Product([m] + t) == Product([m] + i)
  {
    RavelConcat([m], t, [y], ti);
    RavelConcat([m], i, [y], ii);
    ProductConcat([m], t);
    ProductConcat([m], i);
  }

  /** Splitting each dimension into cells of a block keeps the row-major position. */
  lemma {:induction false} SplitRavel(sizes: Shape, blocks: seq<nat>, y: seq<nat>)
    requires |sizes| == |blocks| == |y| && Positive(blocks)
    ensures Ravel(Times(sizes, blocks), y) ==
              Ravel(Interleave(sizes, blocks), Interleave(Quotients(y, blocks), Remainders(y, blocks)))
    ensures Product(Times(sizes, blocks)) == Product(Interleave(sizes, blocks))
  {
    if y != [] {
      var (s, b, rest) := (sizes[1..], blocks[1..], y[1..]);
      assert forall v <- b :: v in blocks;
      SplitRavel(s, b, rest);
      assert blocks[0] in blocks;
      var q, r := Quotients(y, blocks)[0], Remainders(y, blocks)[0];
      DivMod(y[0], blocks[0]);
      assert Combine(q, blocks[0], r) == y[0];
      SplitOne(sizes[0], blocks[0], q, r, Times(s, b), Interleave(s, b), rest,
               Interleave(Quotients(rest, b), Remainders(rest, b)));
      assert Quotients(y, blocks)[1..] == Quotients(rest, b) && Remainders(y, blocks)[1..] == Remainders(rest, b);
      assert Times(sizes, blocks) == [Scaled(sizes[0], blocks[0])] + Times(s, b) && y == [y[0]] + rest;
    } else {
      assert Times(sizes, blocks) == [] && Interleave(sizes, blocks) == [];
    }
  }

  // ---------- The general path ----------

  /** [blocks, batch, space, rest] rearranged to [batch, space interleaved with blocks, rest]. */
  function Permute(v: seq<nat>, k: nat): (r: seq<nat>)
    requires 2 * k < |v|
    ensures |r| == |v|
  {
    [v[k]] + Interleave(v[k + 1..2 * k + 1], v[..k]) + v[2 * k + 1..]
  }

  function PairProducts(v: seq<nat>): seq<nat> {
    if |v| < 2 then [] else [Scaled(v[0], v[1])] + PairProducts(v[2..])
  }

  function Merge(v: seq<nat>, k: nat): (r: seq<nat>)
    requires 2 * k < |v|
  {
    [v[0]] + PairProducts(v[1..2 * k + 1]) + v[2 * k + 1..]
  }

  function Reshaped(input: Shape, blocks: seq<nat>, slab: nat): (r: Shape)
    requires |input| == |blocks| + 2
    ensures |r| == 2 * |blocks| + 2
  {
    blocks + [slab] + input[1..]
  }

  function PermutedGraph(input: Shape, blocks: seq<nat>, slab: nat): (g: Graph)
    requires |input| == |blocks| + 2
    ensures WellFormed(g) && Sizes(g) == Permute(Reshaped(input, blocks, slab), |blocks|)
  {
    var (k, reshaped) := (|blocks|, Reshaped(input, blocks, slab));
    View(InputTensor(input), Permute(reshaped, k), Permute(PackedStrides(reshaped), k))
  }

  function GeneralGraph(input: Shape, blocks: seq<nat>, slab: nat): (g: Graph)
    requires |input| == |blocks| + 2
    ensures WellFormed(g) && Sizes(g) == Merge(Permute(Reshaped(input, blocks, slab), |blocks|), |blocks|)
  {
    var merged := Merge(Permute(Reshaped(input, blocks, slab), |blocks|), |blocks|);
    View(Packed(PermutedGraph(input, blocks, slab)), merged, PackedStrides(merged))
  }

  /** The loop that rearranges sizes and strides alike. */
  method PermuteLoop(v: seq<nat>, k: nat) returns (r: seq<nat>)
    requires 2 * k < |v|
    ensures r == Permute(v, k)
  {
    r := [v[k]];
    for i := 0 to k
      invariant r == [v[k]] + Interleave(v[k + 1..k + 1 + i], v[..i])
    {
      InterleaveSnoc(v[k + 1..k + 1 + i], v[..i], v[k + i + 1], v[i]);
      assert v[k + 1..k + 2 + i] == v[k + 1..k + 1 + i] + [v[k + i + 1]] && v[..i + 1] == v[..i] + [v[i]];
      r := r + [v[k + i + 1]];
      r := r + [v[i]];
    }
    r := AppendRest(r, v, 2 * k + 1);
  }

  method AppendRest(front: seq<nat>, v: seq<nat>, from: nat) returns (r: seq<nat>)
    requires from <= |v|
    ensures r == front + v[from..]
  {
    r := front;
    for i := from to |v|
      invariant r == front + v[from..i]
    {
      r := r + [v[i]];
    }
  }

  lemma {:induction false} PairProductsSnoc(v: seq<nat>, x: nat, y: nat)
    requires |v| % 2 == 0
    ensures PairProducts(v + [x, y]) == PairProducts(v) + [Scaled(x, y)]
  {
    if v == [] {
      assert PairProducts([x, y]) == [Scaled(x, y)] + PairProducts([]);
      assert [] + [x, y] == [x, y];
    } else {
      assert (v + [x, y])[2..] == v[2..] + [x, y];
      PairProductsSnoc(v[2..], x, y);
    }
  }

  method MergeLoop(v: seq<nat>, k: nat) returns (r: seq<nat>)
    requires 2 * k < |v|
    ensures r == Merge(v, k)
  {
    r := [v[0]];
    var i := 1;
    while i <= 2 * k
      invariant 1 <= i <= 2 * k + 1 && i % 2 == 1
      invariant r == [v[0]] + PairProducts(v[1..i])
    {
      PairProductsSnoc(v[1..i], v[i], v[i + 1]);
      assert v[1..i + 2] == v[1..i] + [v[i], v[i + 1]];
      r := r + [Scaled(v[i], v[i + 1])];
      i := i + 2;
    }
    r := AppendRest(r, v, 2 * k + 1);
  }

  method BuildGeneral(input: Shape, blocks: seq<nat>) returns (g: Graph)
    requires |input| == |blocks| + 2 && 0 < Product(blocks)
    ensures g == GeneralGraph(input, blocks, Slab(input[0], blocks))
  {
    var k := |blocks|;
    var blockShapeProduct := Accumulate(1, blocks);
    var reshapedSizes := AppendRest([], blocks, 0);
    reshapedSizes := reshapedSizes + [input[0] / blockShapeProduct];
    reshapedSizes := AppendRest(reshapedSizes, input, 1);
    assert reshapedSizes == Reshaped(input, blocks, Slab(input[0], blocks));
    var reshapedStrides := ComputePackedStrides(reshapedSizes);
    var permStrides := PermuteLoop(reshapedStrides, k);
    var permSizes := PermuteLoop(reshapedSizes, k);
    var permuted := View(InputTensor(input), permSizes, permStrides);
    var merged := MergeLoop(permSizes, k);
    var strides := ComputePackedStrides(merged);
    g := View(Packed(permuted), merged, strides);
  }

  /** Permuting index and strides alike keeps the offset. */
  lemma PermuteDot(idx: seq<nat>, strides: seq<nat>, k: nat)
    requires 2 * k < |idx| == |strides|
    ensures Dot(Permute(idx, k), Permute(strides, k)) == Dot(idx, strides)
  {
    CutInFour(idx, k);
    CutInFour(strides, k);
    DotOfParts(idx[..k], [idx[k]], idx[k + 1..2 * k + 1], idx[2 * k + 1..],
               strides[..k], [strides[k]], strides[k + 1..2 * k + 1], strides[2 * k + 1..]);
  }

  lemma CutInFour(v: seq<nat>, k: nat)
    requires 2 * k < |v|
    ensures v == v[..k] + [v[k]] + v[k + 1..2 * k + 1] + v[2 * k + 1..]
  {
  }

  lemma DotOfParts(f: seq<nat>, n: seq<nat>, h: seq<nat>, c: seq<nat>,
                   sf: seq<nat>, sn: seq<nat>, sh: seq<nat>, sc: seq<nat>)
    requires |f| == |sf| == |h| == |sh| && |n| == |sn| && |c| == |sc|
    ensures Dot(n + Interleave(h, f) + c, sn + Interleave(sh, sf) + sc) == Dot(f + n + h + c, sf + sn + sh + sc)
  {
    DotConcat(f + n + h, c, sf + sn + sh, sc);
    DotConcat(f + n, h, sf + sn, sh);
    DotConcat(f, n, sf, sn);
    DotConcat(n + Interleave(h, f), c, sn + Interleave(sh, sf), sc);
    DotConcat(n, Interleave(h, f), sn, Interleave(sh, sf));
    InterleaveDot(h, f, sh, sf);
  }

  lemma {:induction false} PairsOfInterleave(a: seq<nat>, b: seq<nat>)
    requires |a| == |b|
    ensures PairProducts(Interleave(a, b)) == Times(a, b)
  {
    if a != [] {
      PairsOfInterleave(a[1..], b[1..]);
      assert Interleave(a, b)[2..] == Interleave(a[1..], b[1..]);
      assert Times(a, b) == [Scaled(a[0], b[0])] + Times(a[1..], b[1..]);
    }
  }

  lemma PermuteParts(f: seq<nat>, n: nat, h: seq<nat>, c: nat)
    requires |f| == |h|
    ensures Permute(f + [n] + (h + [c]), |f|) == [n] + Interleave(h, f) + [c]
  {
    hide Interleave;
    FourParts(f, n, h, c);
  }

  lemma FourParts(f: seq<nat>, n: nat, h: seq<nat>, c: nat)
    requires |f| == |h|
    ensures var (k, v) := (|f|, f + [n] + (h + [c]));
            v[..k] == f && v[k] == n && v[k + 1..2 * k + 1] == h && v[2 * k + 1..] == [c]
  {
  }

  lemma MergedSizes(slab: nat, space: Shape, depth: nat, blocks: seq<nat>)
    requires |space| == |blocks|
    ensures var permuted := Permute(blocks + [slab] + (space + [depth]), |blocks|);
            && permuted == [slab] + Interleave(space, blocks) + [depth]
            && Merge(permuted, |blocks|) == [slab] + Times(space, blocks) + [depth]
  {
    var k := |blocks|;
    PermuteParts(blocks, slab, space, depth);
    PairsOfInterleave(space, blocks);
    var permuted := [slab] + Interleave(space, blocks) + [depth];
    assert permuted[1..2 * k + 1] == Interleave(space, blocks) && permuted[2 * k + 1..] == [depth];
  }

  lemma SwapMiddle(a: Shape, t: Shape, t': Shape, c: Shape, i: seq<nat>, j: seq<nat>, j': seq<nat>, k: seq<nat>)
    requires |a| == |i| && |t| == |j| && |t'| == |j'| && |c| == |k|
    requires Ravel(t, j) == Ravel(t', j') && Product(t) == Product(t')
    ensures Ravel(a + t + c, i + j + k) == Ravel(a + t' + c, i + j' + k)
  {
    RavelConcat(a + t, c, i + j, k);
    RavelConcat(a + t', c, i + j', k);
    RavelConcat(a, t, i, j);
    RavelConcat(a, t', i, j');
  }

  lemma RemaindersIndex(y: seq<nat>, blocks: seq<nat>)
    requires |y| == |blocks| && Positive(blocks)
    ensures IndexOf(Remainders(y, blocks), blocks)
  {
    forall i | 0 <= i < |y| ensures Remainders(y, blocks)[i] < blocks[i] {
      assert blocks[i] in blocks;
    }
  }

  lemma QuotientsIndex(y: seq<nat>, sizes: Shape, blocks: seq<nat>)
    requires |sizes| == |blocks| && Positive(blocks) && IndexOf(y, Times(sizes, blocks))
    ensures IndexOf(Quotients(y, blocks), sizes)
  {
    forall i | 0 <= i < |y| ensures Quotients(y, blocks)[i] < sizes[i] {
      assert blocks[i] in blocks && y[i] < Times(sizes, blocks)[i];
      DivBound(y[i], sizes[i], blocks[i]);
    }
  }

  /** The reshaped position of phases, batch entry, cells and depth is the input position of their source. */
  lemma ReshapedPosition(slab: nat, rest: Shape, blocks: seq<nat>, f: seq<nat>, n: nat, h: seq<nat>)
    requires |f| == |blocks| && |h| == |rest|
    ensures Ravel(blocks + [slab] + rest, f + [n] + h) ==
              Ravel([Scaled(Product(blocks), slab)] + rest, [Combine(Ravel(blocks, f), slab, n)] + h)
  {
    FoldedFront(blocks + [slab], rest, f + [n], h);
    AppendDigit(blocks, slab, f, n);
  }

  lemma AppendDigit(blocks: seq<nat>, unit: nat, f: seq<nat>, n: nat)
    requires |f| == |blocks|
    ensures Product(blocks + [unit]) == Scaled(Product(blocks), unit)
    ensures Ravel(blocks + [unit], f + [n]) == Combine(Ravel(blocks, f), unit, n)
  {
    ProductConcat(blocks, [unit]);
    RavelConcat(blocks, [unit], f, [n]);
    Singleton(unit, n);
  }

  lemma PermutedReads(slab: nat, space: Shape, depth: nat, blocks: seq<nat>, n: nat, h: seq<nat>, f: seq<nat>, c: nat)
    requires |space| == |blocks|
    requires IndexOf(h, space) && IndexOf(f, blocks) && n < slab && c < depth
    ensures var input := [Scaled(Product(blocks), slab)] + space + [depth];
            At(PermutedGraph(input, blocks, slab), [n] + Interleave(h, f) + [c]) ==
            Some(Ravel(input, [Combine(Ravel(blocks, f), slab, n)] + h + [c]))
  {
    var (batch, entry, k) := (Scaled(Product(blocks), slab), Combine(Ravel(blocks, f), slab, n), |blocks|);
    var input := [batch] + space + [depth];
    var (reshaped, idx) := (Reshaped(input, blocks, slab), f + [n] + (h + [c]));
    assert input[1..] == space + [depth];
    var source := [entry] + h + [c];
    assert [entry] + (h + [c]) == source && [batch] + (space + [depth]) == input;
    ReshapedPosition(slab, space + [depth], blocks, f, n, h + [c]);
    PermuteParts(f, n, h, c);
    PermuteDot(idx, PackedStrides(reshaped), k);
    PackedIsRavel(reshaped, idx);
    RavelBound(blocks, f);
    DigitBound(Ravel(blocks, f), Product(blocks), n, slab);
    JoinIndex([entry], h, [c], [batch], space, [depth]);
    RavelBound(input, source);
  }

  /** Merging cells with phases: the merged view reads the element the permuted tensor holds for them. */
  lemma MergedReads(input: Shape, slab: nat, space: Shape, depth: nat, blocks: seq<nat>, n: nat, y: seq<nat>, c: nat)
    requires |space| == |blocks| && Positive(blocks) && |input| == |blocks| + 2 && input[1..] == space + [depth]
    requires n < slab && IndexOf(y, Times(space, blocks)) && c < depth
    ensures Sizes(GeneralGraph(input, blocks, slab)) == [slab] + Times(space, blocks) + [depth]
    ensures At(GeneralGraph(input, blocks, slab), [n] + y + [c]) ==
            At(PermutedGraph(input, blocks, slab), [n] + Interleave(Quotients(y, blocks), Remainders(y, blocks)) + [c])
  {
    MergedSizes(slab, space, depth, blocks);
    var (h, f) := (Quotients(y, blocks), Remainders(y, blocks));
    var packed := Packed(PermutedGraph(input, blocks, slab));
    JoinIndex([n], y, [c], [slab], Times(space, blocks), [depth]);
    PackedView(packed, [slab] + Times(space, blocks) + [depth], [n] + y + [c]);
    SplitRavel(space, blocks, y);
    SwapMiddle([slab], Times(space, blocks), Interleave(space, blocks), [depth], [n], y, Interleave(h, f), [c]);
    RemaindersIndex(y, blocks);
    QuotientsIndex(y, space, blocks);
    InterleaveIndex(h, f, space, blocks);
    JoinIndex([n], Interleave(h, f), [c], [slab], Interleave(space, blocks), [depth]);
    PackedBuffer(packed, [n] + Interleave(h, f) + [c]);
  }

  /** The general graph before slicing: every element comes from its source in the uncropped problem. */
  lemma GeneralComputesSource(batch: nat, slab: nat, space: Shape, depth: nat, blocks: seq<nat>, n: nat, y: seq<nat>, c: nat)
    requires |space| == |blocks| && Positive(blocks) && 0 < Product(blocks)
    requires batch == Scaled(Product(blocks), slab) && slab == Slab(batch, blocks)
    requires n < slab && IndexOf(y, Times(space, blocks)) && c < depth
    ensures var (input, idx) := ([batch] + space + [depth], [n] + y + [c]);
            var g := GeneralGraph(input, blocks, slab);
            && Sizes(g) == [slab] + Times(space, blocks) + [depth]
            && At(g, idx) == Some(Ravel(input, Source(input, blocks, Zeros(|blocks|), idx)))
  {
    var input := [batch] + space + [depth];
    assert input[1..] == space + [depth];
    RemaindersIndex(y, blocks);
    QuotientsIndex(y, space, blocks);
    UncroppedSource(input, slab, blocks, n, y, c);
    MergedReads(input, slab, space, depth, blocks, n, y, c);
    PermutedReads(slab, space, depth, blocks, n, Quotients(y, blocks), Remainders(y, blocks), c);
  }

  lemma UncroppedSource(input: Shape, slab: nat, blocks: seq<nat>, n: nat, y: seq<nat>, c: nat)
    requires |input| == |blocks| + 2 && |y| == |blocks| && Positive(blocks) && 0 < Product(blocks)
    requires slab == Slab(input[0], blocks)
    ensures Source(input, blocks, Zeros(|blocks|), [n] + y + [c]) ==
              [Combine(Ravel(blocks, Remainders(y, blocks)), slab, n)] + Quotients(y, blocks) + [c]
  {
    assert Shift(y, Zeros(|blocks|)) == y;
    SourceOf(input, blocks, Zeros(|blocks|), n, y, [c]);
  }

  // ---------- The DepthToSpace path ----------

  /** The last dimension brought to the front. */
  function RotateIn(v: seq<nat>): (r: seq<nat>)
    requires |v| == 4
    ensures |r| == 4
  {
    [v[3], v[0], v[1], v[2]]
  }

  /** The first dimension sent to the back. */
  function RotateOut(v: seq<nat>): (r: seq<nat>)
    requires |v| == 4
    ensures |r| == 4
  {
    [v[1], v[2], v[3], v[0]]
  }

  lemma Dot4(i: seq<nat>, s: seq<nat>)
    requires |i| == |s| == 4
    ensures Dot(i, s) == i[0] * s[0] + i[1] * s[1] + i[2] * s[2] + i[3] * s[3]
  {
    assert Dot(i[1..], s[1..]) == i[1] * s[1] + Dot(i[2..], s[2..]) by {
      assert i[1..][1..] == i[2..] && s[1..][1..] == s[2..];
    }
    assert Dot(i[2..], s[2..]) == i[2] * s[2] + Dot(i[3..], s[3..]) by {
      assert i[2..][1..] == i[3..] && s[2..][1..] == s[3..];
    }
    assert Dot(i[3..], s[3..]) == i[3] * s[3] by {
      assert i[3..][1..] == [] && s[3..][1..] == [];
    }
  }

  lemma RotateDot(i: seq<nat>, s: seq<nat>)
    requires |i| == |s| == 4
    ensures Dot(RotateIn(i), RotateIn(s)) == Dot(i, s)
  {
    Dot4(i, s);
    Dot4(RotateIn(i), RotateIn(s));
  }

  /** The strides the output policy chooses: packed in the rotated order. */
  function PolicyStrides(sizes: Shape): (r: seq<nat>)
    requires |sizes| == 4
    ensures |r| == 4
  {
    RotateIn(PackedStrides(RotateOut(sizes)))
  }

  function RotatedInput(input: Shape): (g: Graph)
    requires |input| == 4
    ensures WellFormed(g) && Sizes(g) == RotateIn(input)
  {
    View(InputTensor(input), RotateIn(input), RotateIn(PackedStrides(input)))
  }

  function BlocksGraph(input: Shape, bs: nat): (g: Graph)
    requires |input| == 4 && 0 < bs
    ensures WellFormed(g) && Sizes(g) == DepthToSpaceSizes(RotateIn(input), bs)
  {
    BlocksOut(RotatedInput(input), bs, PolicyStrides(DepthToSpaceSizes(RotateIn(input), bs)))
  }

  function FastGraph(input: Shape, bs: nat): (g: Graph)
    requires |input| == 4 && 0 < bs
    ensures WellFormed(g) && Sizes(g) == RotateOut(Sizes(BlocksGraph(input, bs)))
  {
    var sizes := DepthToSpaceSizes(RotateIn(input), bs);
    View(BlocksGraph(input, bs), RotateOut(sizes), RotateOut(PolicyStrides(sizes)))
  }

  method ChooseOutputStrides(sizes: Shape) returns (strides: seq<nat>)
    requires |sizes| == 4
    ensures strides == PolicyStrides(sizes)
  {
    var packed := ComputePackedStrides([sizes[1], sizes[2], sizes[3], sizes[0]]);
    strides := [packed[3], packed[0], packed[1], packed[2]];
  }

  method BuildFast(input: Shape, bs: nat) returns (g: Graph)
    requires |input| == 4 && 0 < bs
    ensures g == FastGraph(input, bs)
  {
    var inputStrides := ComputePackedStrides(input);
    var view := View(InputTensor(input),
                     [input[3], input[0], input[1], input[2]],
                     [inputStrides[3], inputStrides[0], inputStrides[1], inputStrides[2]]);
    var sizes := DepthToSpaceSizes(Sizes(view), bs);
    var strides := ChooseOutputStrides(sizes);
    var blocks := BlocksOut(view, bs, strides);
    g := View(blocks, [sizes[1], sizes[2], sizes[3], sizes[0]], [strides[1], strides[2], strides[3], strides[0]]);
  }

  /** Under the chosen strides, DepthToSpace leaves its buffer packed in the rotated order. */
  lemma BlocksBuffer(input: Shape, bs: nat, idx: seq<nat>)
    requires |input| == 4 && 0 < bs && IndexOf(idx, RotateOut(Sizes(BlocksGraph(input, bs))))
    ensures var g := BlocksGraph(input, bs);
            Buffer(g, Ravel(RotateOut(Sizes(g)), idx)) == At(g, RotateIn(idx))
  {
    var g := BlocksGraph(input, bs);
    var sizes := RotateOut(Sizes(g));
    var position := Ravel(sizes, idx);
    RotateDot(idx, PackedStrides(sizes));
    PackedIsRavel(sizes, idx);
    assert Stored(g, RotateIn(idx), position);
    forall other | Stored(g, other, position) ensures other == RotateIn(idx) {
      var back := RotateOut(other);
      assert RotateIn(back) == other;
      RotateDot(back, PackedStrides(sizes));
      PackedIsRavel(sizes, back);
      UnravelRavel(sizes, idx);
      UnravelRavel(sizes, back);
      assert back == idx;
    }
  }

  /** Reading the rotated view of the input at a rotated index is reading the input. */
  lemma RotatedReads(input: Shape, idx: seq<nat>)
    requires |input| == 4 && IndexOf(idx, input)
    ensures At(RotatedInput(input), RotateIn(idx)) == Some(Ravel(input, idx))
  {
    RotateDot(idx, PackedStrides(input));
    PackedIsRavel(input, idx);
    RavelBound(input, idx);
  }

  lemma SquareProduct(bs: nat, i: nat, j: nat)
    ensures Product([bs, bs]) == bs * bs && Ravel([bs, bs], [i, j]) == Combine(i, bs, j)
  {
    assert [bs, bs] == [bs] + [bs] && [i, j] == [i] + [j];
    AppendDigit([bs], bs, [i], j);
    Singleton(bs, i);
  }

  /** The entry of the depth that DepthToSpace reads is the batch entry of the source. */
  lemma BlockDepthIsPhase(bs: nat, slab: nat, y1: nat, y2: nat, n: nat)
    requires 0 < bs
    ensures Positive([bs, bs])
    ensures BlockDepth(y1 % bs, y2 % bs, bs, slab, n) == Combine(Phase([bs, bs], Zeros(2), [y1, y2]), slab, n)
    ensures Quotients(Shift([y1, y2], Zeros(2)), [bs, bs]) == [y1 / bs, y2 / bs]
  {
    assert Shift([y1, y2], Zeros(2)) == [y1, y2];
    assert Remainders([y1, y2], [bs, bs]) == [y1 % bs, y2 % bs];
    SquareProduct(bs, y1 % bs, y2 % bs);
  }

  lemma SlabOfSquare(batch: nat, bs: nat)
    requires 0 < bs
    ensures 0 < Product([bs, bs]) && DepthPerBlock(batch, bs) == Slab(batch, [bs, bs])
  {
    SquareProduct(bs, 0, 0);
    MulMono(1, bs, bs);
  }

  /** The fast graph before slicing: every element comes from its source in the uncropped problem. */
  lemma FastComputesSource(batch: nat, s1: nat, s2: nat, depth: nat, bs: nat, n: nat, y1: nat, y2: nat, c: nat)
    requires 0 < bs && 0 < Product([bs, bs]) && Positive([bs, bs]) && batch % Product([bs, bs]) == 0
    requires n < Slab(batch, [bs, bs]) && y1 < Scaled(s1, bs) && y2 < Scaled(s2, bs) && c < depth
    ensures var (input, idx) := ([batch, s1, s2, depth], [n, y1, y2, c]);
            && Sizes(FastGraph(input, bs)) == [Slab(batch, [bs, bs]), Scaled(s1, bs), Scaled(s2, bs), depth]
            && At(FastGraph(input, bs), idx) == Some(Ravel(input, Source(input, [bs, bs], Zeros(2), idx)))
  {
    var (input, idx, slab) := ([batch, s1, s2, depth], [n, y1, y2, c], Slab(batch, [bs, bs]));
    SlabOfSquare(batch, bs);
    FastSizes(input, bs);
    PackedView(BlocksGraph(input, bs), [slab, Scaled(s1, bs), Scaled(s2, bs), depth], idx);
    BlocksBuffer(input, bs, idx);
    SourceOfFour(batch, s1, s2, depth, bs, n, y1, y2, c);
  }

  lemma FastSizes(input: Shape, bs: nat)
    requires |input| == 4 && 0 < bs
    ensures Sizes(FastGraph(input, bs)) ==
              [DepthPerBlock(input[0], bs), Scaled(input[1], bs), Scaled(input[2], bs), input[3]]
    ensures FastGraph(input, bs) == View(BlocksGraph(input, bs), Sizes(FastGraph(input, bs)),
                                         PackedStrides(Sizes(FastGraph(input, bs))))
  {
    var sizes := DepthToSpaceSizes(RotateIn(input), bs);
    assert RotateOut(RotateIn(PackedStrides(RotateOut(sizes)))) == PackedStrides(RotateOut(sizes));
  }

  lemma SourceOfFour(batch: nat, s1: nat, s2: nat, depth: nat, bs: nat, n: nat, y1: nat, y2: nat, c: nat)
    requires 0 < bs && 0 < Product([bs, bs]) && Positive([bs, bs]) && batch % Product([bs, bs]) == 0
    requires n < Slab(batch, [bs, bs]) && y1 < Scaled(s1, bs) && y2 < Scaled(s2, bs) && c < depth
    ensures var (input, idx) := ([batch, s1, s2, depth], [n, y1, y2, c]);
            At(BlocksGraph(input, bs), RotateIn(idx)) == Some(Ravel(input, Source(input, [bs, bs], Zeros(2), idx)))
  {
    var (input, idx, slab) := ([batch, s1, s2, depth], [n, y1, y2, c], Slab(batch, [bs, bs]));
    SlabOfSquare(batch, bs);
    BlockDepthIsPhase(bs, slab, y1, y2, n);
    var source := [BlockDepth(y1 % bs, y2 % bs, bs, slab, n), y1 / bs, y2 / bs, c];
    SourceOf(input, [bs, bs], Zeros(2), n, [y1, y2], [c]);
    assert [n] + [y1, y2] + [c] == idx;
    assert Source(input, [bs, bs], Zeros(2), idx) == source;
    SourceBatchBound(batch, [bs, bs], Zeros(2), [y1, y2], n);
    DivBound(y1, s1, bs);
    DivBound(y2, s2, bs);
    RotatedReads(input, source);
  }

  // ---------- The whole kernel ----------

  /** A problem as Initialize hands it over: one batch, one depth, and a block per dimension between. */
  predicate Problem(input: Shape, blocks: seq<nat>, crops: seq<Crop>) {
    && |input| == |blocks| + 2 && |crops| == |blocks|
    && Positive(blocks) && 0 < Product(blocks) && input[0] % Product(blocks) == 0
    && CropsFit(input[1..1 + |blocks|], blocks, crops)
    && forall i :: 0 <= i < |crops| ==> 0 <= crops[i].0
  }

  predicate UsesDepthToSpace(input: Shape, blocks: seq<nat>)
    requires |input| == |blocks| + 2
  {
    |input| == 4 && blocks[1] == blocks[0]
  }

  function UncroppedShape(input: Shape, blocks: seq<nat>): (r: Shape)
    requires |input| == |blocks| + 2 && 0 < Product(blocks)
    ensures |r| == |input|
  {
    [Slab(input[0], blocks)] + Times(input[1..1 + |blocks|], blocks) + [input[1 + |blocks|]]
  }

  lemma ThreeParts(input: Shape, k: nat)
    requires |input| == k + 2
    ensures input == [input[0]] + input[1..1 + k] + [input[1 + k]]
  {
  }

  lemma SlabFactor(batch: nat, blocks: seq<nat>)
    requires 0 < Product(blocks) && batch % Product(blocks) == 0
    ensures batch == Scaled(Product(blocks), Slab(batch, blocks))
  {
    SlabScales(batch, 1, blocks);
  }

  /** The general graph on whole shapes. */
  lemma GeneralReads(input: Shape, blocks: seq<nat>, idx: seq<nat>)
    requires |input| == |blocks| + 2 && Positive(blocks) && 0 < Product(blocks) && input[0] % Product(blocks) == 0
    requires IndexOf(idx, UncroppedShape(input, blocks))
    ensures var g := GeneralGraph(input, blocks, Slab(input[0], blocks));
            && Sizes(g) == UncroppedShape(input, blocks)
            && At(g, idx) == Some(Ravel(input, Source(input, blocks, Zeros(|blocks|), idx)))
  {
    var k, slab := |blocks|, Slab(input[0], blocks);
    ThreeParts(input, k);
    ThreeParts(idx, k);
    SlabFactor(input[0], blocks);
    SplitIndex(idx, [slab], Times(input[1..1 + k], blocks), [input[1 + k]]);
    assert idx[..1][0] == idx[0] && idx[1 + k..][0] == idx[1 + k];
    GeneralComputesSource(input[0], slab, input[1..1 + k], input[1 + k], blocks, idx[0], idx[1..1 + k], idx[1 + k]);
  }

  /** The fast graph on whole shapes. */
  lemma FastReads(input: Shape, blocks: seq<nat>, idx: seq<nat>)
    requires |input| == |blocks| + 2 && Positive(blocks) && 0 < Product(blocks) && input[0] % Product(blocks) == 0
    requires UsesDepthToSpace(input, blocks) && IndexOf(idx, UncroppedShape(input, blocks))
    ensures 0 < blocks[0]
    ensures var g := FastGraph(input, blocks[0]);
            && Sizes(g) == UncroppedShape(input, blocks)
            && At(g, idx) == Some(Ravel(input, Source(input, blocks, Zeros(|blocks|), idx)))
  {
    assert blocks[0] in blocks && blocks == [blocks[0], blocks[0]];
    var sizes := UncroppedShape(input, blocks);
    assert Times(input[1..3], blocks) == [Scaled(input[1], blocks[0]), Scaled(input[2], blocks[0])];
    assert sizes == [Slab(input[0], blocks), Scaled(input[1], blocks[0]), Scaled(input[2], blocks[0]), input[3]];
    assert input == [input[0], input[1], input[2], input[3]] && idx == [idx[0], idx[1], idx[2], idx[3]];
    FastComputesSource(input[0], input[1], input[2], input[3], blocks[0], idx[0], idx[1], idx[2], idx[3]);
  }

  lemma GeneralSizes(input: Shape, blocks: seq<nat>, slab: nat)
    requires |input| == |blocks| + 2
    ensures Sizes(GeneralGraph(input, blocks, slab)) ==
              [slab] + Times(input[1..1 + |blocks|], blocks) + [input[1 + |blocks|]]
  {
    var k := |blocks|;
    assert input[1..] == input[1..1 + k] + [input[1 + k]];
    MergedSizes(slab, input[1..1 + k], input[1 + k], blocks);
  }

  lemma FastUncroppedSizes(input: Shape, blocks: seq<nat>)
    requires |input| == |blocks| + 2 && Positive(blocks) && 0 < Product(blocks) && UsesDepthToSpace(input, blocks)
    ensures 0 < blocks[0] && Sizes(FastGraph(input, blocks[0])) == UncroppedShape(input, blocks)
  {
    var bs := blocks[0];
    assert bs in blocks && blocks == [bs, bs];
    SquareShape(input, bs);
    SlabOfSquare(input[0], bs);
    FastSizes(input, bs);
  }

  lemma SquareShape(input: Shape, bs: nat)
    requires |input| == 4 && 0 < Product([bs, bs])
    ensures UncroppedShape(input, [bs, bs]) ==
              [Slab(input[0], [bs, bs]), Scaled(input[1], bs), Scaled(input[2], bs), input[3]]
  {
    assert Times(input[1..3], [bs, bs]) == [Scaled(input[1], bs), Scaled(input[2], bs)];
  }

  lemma PathSizes(input: Shape, blocks: seq<nat>)
    requires |input| == |blocks| + 2 && Positive(blocks) && 0 < Product(blocks)
    ensures Sizes(GeneralGraph(input, blocks, Slab(input[0], blocks))) == UncroppedShape(input, blocks)
    ensures UsesDepthToSpace(input, blocks) ==>
              0 < blocks[0] && Sizes(FastGraph(input, blocks[0])) == UncroppedShape(input, blocks)
  {
    GeneralSizes(input, blocks, Slab(input[0], blocks));
    if UsesDepthToSpace(input, blocks) { FastUncroppedSizes(input, blocks); }
  }

  function Uncropped(input: Shape, blocks: seq<nat>): (g: Graph)
    requires |input| == |blocks| + 2 && Positive(blocks) && 0 < Product(blocks)
    ensures WellFormed(g) && Sizes(g) == UncroppedShape(input, blocks)
  {
    PathSizes(input, blocks);
    if UsesDepthToSpace(input, blocks) then FastGraph(input, blocks[0])
    else GeneralGraph(input, blocks, Slab(input[0], blocks))
  }

  /** Both paths end in a packed view, so the buffer holds each element at its row-major position. */
  lemma UncroppedBuffer(input: Shape, blocks: seq<nat>, idx: seq<nat>)
    requires |input| == |blocks| + 2 && Positive(blocks) && 0 < Product(blocks) && input[0] % Product(blocks) == 0
    requires IndexOf(idx, UncroppedShape(input, blocks))
    ensures var (g, position) := (Uncropped(input, blocks), Ravel(UncroppedShape(input, blocks), idx));
            && Buffer(g, position) == At(g, idx)
            && At(g, idx) == Some(Ravel(input, Source(input, blocks, Zeros(|blocks|), idx)))
  {
    PathSizes(input, blocks);
    var sizes := UncroppedShape(input, blocks);
    PackedIsRavel(sizes, idx);
    if UsesDepthToSpace(input, blocks) {
      FastReads(input, blocks, idx);
      FastSizes(input, blocks[0]);
    } else {
      GeneralReads(input, blocks, idx);
    }
  }

  /** Wherever the guard lets the fast path run, its buffer equals the general path's, position by position. */
  lemma FastEqualsGeneral(input: Shape, blocks: seq<nat>, position: nat)
    requires |input| == |blocks| + 2 && Positive(blocks) && 0 < Product(blocks) && input[0] % Product(blocks) == 0
    requires UsesDepthToSpace(input, blocks) && position < Product(UncroppedShape(input, blocks))
    ensures 0 < blocks[0]
    ensures var (fast, general) := (FastGraph(input, blocks[0]), GeneralGraph(input, blocks, Slab(input[0], blocks)));
            && Sizes(fast) == Sizes(general) && Strides(fast) == Strides(general)
            && Buffer(fast, position) == Buffer(general, position) && Buffer(fast, position).Some?
  {
    PathSizes(input, blocks);
    var sizes := UncroppedShape(input, blocks);
    var idx := Unravel(sizes, position);
    RavelUnravel(sizes, position);
    PackedIsRavel(sizes, idx);
    FastReads(input, blocks, idx);
    FastSizes(input, blocks[0]);
    GeneralReads(input, blocks, idx);
  }

  // ---------- Slicing ----------

  predicate Cropped(crop: Crop) {
    crop.0 != 0 || crop.1 != 0
  }

  predicate SliceRequired(crops: seq<Crop>) {
    exists crop :: crop in crops && Cropped(crop)
  }

  method IsSliceRequired(crops: seq<Crop>) returns (doSlice: bool)
    ensures doSlice == SliceRequired(crops)
    ensures doSlice <==> exists i :: 0 <= i < |crops| && crops[i] != (0, 0)
  {
    doSlice := false;
    for i := 0 to |crops|
      invariant doSlice == SliceRequired(crops[..i])
    {
      assert crops[..i + 1] == crops[..i] + [crops[i]];
      var startCrop, endCrop := crops[i].0, crops[i].1;
      if startCrop != 0 || endCrop != 0 {
        assert Cropped(crops[i]);
        doSlice := true;
      }
    }
    assert crops[..|crops|] == crops;
    SliceWhenCropped(crops);
  }

  lemma SliceWhenCropped(crops: seq<Crop>)
    ensures SliceRequired(crops) <==> exists i :: 0 <= i < |crops| && crops[i] != (0, 0)
  {
    if crop :| crop in crops && Cropped(crop) {
      var i :| 0 <= i < |crops| && crops[i] == crop;
      assert crops[i] != (0, 0);
    }
    if i :| 0 <= i < |crops| && crops[i] != (0, 0) {
      assert crops[i] in crops && Cropped(crops[i]);
    }
  }

  function KernelGraph(input: Shape, blocks: seq<nat>, crops: seq<Crop>): (g: Graph)
    requires Problem(input, blocks, crops)
    ensures WellFormed(g) && |Sizes(g)| == |input|
  {
    if blocks == [] then Packed(InputTensor(input))
    else if SliceRequired(crops) then
      Cut(Uncropped(input, blocks), [0] + Starts(crops) + [0], ProblemOutput(input, blocks, crops))
    else Uncropped(input, blocks)
  }

  function ProblemOutput(input: Shape, blocks: seq<nat>, crops: seq<Crop>): (r: Shape)
    requires Problem(input, blocks, crops)
    ensures |r| == |input|
  {
    OutputShape(input, blocks, crops)
  }

  /** The output index shifted by the crops, before slicing. */
  lemma ShiftedIndex(input: Shape, blocks: seq<nat>, crops: seq<Crop>, idx: seq<nat>)
    requires Problem(input, blocks, crops) && IndexOf(idx, ProblemOutput(input, blocks, crops))
    ensures var shifted := Shift(idx, [0] + Starts(crops) + [0]);
            && IndexOf(shifted, UncroppedShape(input, blocks))
            && Source(input, blocks, Zeros(|blocks|), shifted) == Source(input, blocks, Starts(crops), idx)
  {
    var (k, starts) := (|blocks|, Starts(crops));
    var (n, x, c) := (idx[0], idx[1..1 + k], idx[1 + k]);
    ThreeParts(input, k);
    ThreeParts(idx, k);
    OutputInParts(input, blocks, crops);
    IndexParts(idx, Slab(input[0], blocks), CroppedSizes(input[1..1 + k], blocks, crops), input[1 + k]);
    ShiftParts(n, x, c, starts);
    ShiftInSpace(input[1..1 + k], blocks, crops, x);
    Wrapped(n, Shift(x, starts), c, Slab(input[0], blocks), Times(input[1..1 + k], blocks), input[1 + k]);
    ShiftedSource(input, blocks, starts, n, x, c);
  }

  lemma OutputInParts(input: Shape, blocks: seq<nat>, crops: seq<Crop>)
    requires Problem(input, blocks, crops)
    ensures var k := |blocks|;
            ProblemOutput(input, blocks, crops) ==
            [Slab(input[0], blocks)] + CroppedSizes(input[1..1 + k], blocks, crops) + [input[1 + k]]
  {
    assert input[1 + |blocks|..] == [input[1 + |blocks|]];
  }

  lemma ShiftParts(n: nat, x: seq<nat>, c: nat, starts: seq<nat>)
    requires |x| == |starts|
    ensures Shift([n] + x + [c], [0] + starts + [0]) == [n] + Shift(x, starts) + [c]
  {
  }

  lemma IndexParts(idx: seq<nat>, a: nat, mid: Shape, c: nat)
    requires IndexOf(idx, [a] + mid + [c])
    ensures idx[0] < a && IndexOf(idx[1..1 + |mid|], mid) && idx[1 + |mid|] < c
  {
    SplitIndex(idx, [a], mid, [c]);
    assert idx[..1][0] == idx[0] && idx[1 + |mid|..][0] == idx[1 + |mid|];
  }

  lemma ShiftedSource(input: Shape, blocks: seq<nat>, starts: seq<nat>, n: nat, x: seq<nat>, c: nat)
    requires |input| == |blocks| + 2 && |x| == |blocks| == |starts| && Positive(blocks) && 0 < Product(blocks)
    ensures Source(input, blocks, Zeros(|blocks|), [n] + Shift(x, starts) + [c]) ==
              Source(input, blocks, starts, [n] + x + [c])
  {
    SourceOf(input, blocks, Zeros(|blocks|), n, Shift(x, starts), [c]);
    SourceOf(input, blocks, starts, n, x, [c]);
    assert Shift(Shift(x, starts), Zeros(|blocks|)) == Shift(x, starts);
  }

  lemma ShiftInSpace(space: Shape, blocks: seq<nat>, crops: seq<Crop>, x: seq<nat>)
    requires CropsFit(space, blocks, crops) && IndexOf(x, CroppedSizes(space, blocks, crops))
    requires forall i :: 0 <= i < |crops| ==> 0 <= crops[i].0
    ensures IndexOf(Shift(x, Starts(crops)), Times(space, blocks))
  {
    forall i | 0 <= i < |x| ensures Shift(x, Starts(crops))[i] < Times(space, blocks)[i] {
      assert CropFits(space[i], blocks[i], crops[i]) && x[i] < CroppedSizes(space, blocks, crops)[i];
    }
  }

  lemma NoCrops(crops: seq<Crop>)
    requires !SliceRequired(crops) && forall i :: 0 <= i < |crops| ==> 0 <= crops[i].0
    ensures Starts(crops) == Zeros(|crops|)
    ensures forall i :: 0 <= i < |crops| ==> crops[i] == (0, 0)
  {
    forall i | 0 <= i < |crops| ensures crops[i] == (0, 0) {
      assert crops[i] in crops && !Cropped(crops[i]);
    }
  }

  /** Without crops the kernel's tensor has the output shape already. */
  lemma UncroppedIsOutput(input: Shape, blocks: seq<nat>, crops: seq<Crop>)
    requires Problem(input, blocks, crops) && !SliceRequired(crops)
    ensures ProblemOutput(input, blocks, crops) == UncroppedShape(input, blocks)
    ensures Starts(crops) == Zeros(|blocks|)
  {
    NoCrops(crops);
    var k := |blocks|;
    assert input[1 + k..] == [input[1 + k]];
    var space := input[1..1 + k];
    assert CroppedSizes(space, blocks, crops) == Times(space, blocks);
  }

  /** With no block dimensions the mapping is the identity. */
  lemma NothingToDo(input: Shape, crops: seq<Crop>, idx: seq<nat>)
    requires Problem(input, [], crops) && IndexOf(idx, ProblemOutput(input, [], crops))
    ensures ProblemOutput(input, [], crops) == input && Source(input, [], Starts(crops), idx) == idx
  {
    assert Slab(input[0], []) == input[0];
    assert input == [input[0]] + [] + input[1..] && idx == [idx[0]] + [] + idx[1..];
    SourceOf(input, [], Starts(crops), idx[0], [], idx[1..]);
    assert Shift([], Starts(crops)) == [] && Quotients([], []) == [];
  }

  /** The kernel's output buffer holds at every row-major position the element the defining mapping names. */
  lemma KernelReads(input: Shape, blocks: seq<nat>, crops: seq<Crop>, idx: seq<nat>)
    requires Problem(input, blocks, crops) && IndexOf(idx, ProblemOutput(input, blocks, crops))
    ensures var (g, output) := (KernelGraph(input, blocks, crops), ProblemOutput(input, blocks, crops));
            && Sizes(g) == output
            && Buffer(g, Ravel(output, idx)) == Some(Ravel(input, Source(input, blocks, Starts(crops), idx)))
  {
    var g := KernelGraph(input, blocks, crops);
    if blocks == [] {
      NothingToDo(input, crops, idx);
      PackedBuffer(g, idx);
      PackedIsRavel(input, idx);
      RavelBound(input, idx);
    } else if SliceRequired(crops) {
      PackedBuffer(g, idx);
      ShiftedIndex(input, blocks, crops, idx);
      UncroppedBuffer(input, blocks, Shift(idx, [0] + Starts(crops) + [0]));
    } else {
      UncroppedIsOutput(input, blocks, crops);
      UncroppedBuffer(input, blocks, idx);
    }
  }

  method SliceLoop(before: Shape, crops: seq<Crop>, ghost space: Shape, ghost blocks: seq<nat>)
      returns (offsets: seq<nat>, sizes: Shape)
    requires |before| == |crops| + 2 && CropsFit(space, blocks, crops) && before[1..1 + |crops|] == Times(space, blocks)
    requires forall i :: 0 <= i < |crops| ==> 0 <= crops[i].0
    ensures offsets == [0] + Starts(crops) + [0]
    ensures sizes == [before[0]] + CroppedSizes(space, blocks, crops) + [before[1 + |crops|]]
  {
    offsets := seq(|before|, _ => 0);
    sizes := before;
    for i := 0 to |crops|
      invariant |offsets| == |sizes| == |before|
      invariant forall j :: 0 <= j < |before| ==>
                  offsets[j] == if 1 <= j <= i then crops[j - 1].0 else 0
      invariant forall j :: 0 <= j < |before| ==>
                  sizes[j] == if 1 <= j <= i then before[j] - crops[j - 1].0 - crops[j - 1].1 else before[j]
    {
      assert CropFits(space[i], blocks[i], crops[i]) && before[1 + i] == Times(space, blocks)[i];
      var startCrop, endCrop := crops[i].0, crops[i].1;
      offsets := offsets[i + 1 := startCrop];
      sizes := sizes[i + 1 := before[i + 1] - startCrop - endCrop];
    }
    var expected := [before[0]] + CroppedSizes(space, blocks, crops) + [before[1 + |crops|]];
    forall j | 0 <= j < |before| ensures sizes[j] == expected[j] {
      if 1 <= j <= |crops| { assert before[j] == Times(space, blocks)[j - 1]; }
    }
    assert offsets == [0] + Starts(crops) + [0];
  }

  /** The graph contains the DepthToSpace operator. */
  predicate HasDepthToSpace(g: Graph) {
    match g
    case InputTensor(_) => false
    case Reinterpret(of, _, _) => HasDepthToSpace(of)
    case Identity(of) => HasDepthToSpace(of)
    case Slice(of, _, _) => HasDepthToSpace(of)
    case DepthToSpace(_, _, _) => true
  }

  lemma FastOperators(input: Shape, bs: nat)
    requires |input| == 4 && 0 < bs
    ensures HasDepthToSpace(FastGraph(input, bs)) && !FastGraph(input, bs).Slice?
  {
    hide Sizes, WellFormed, DepthToSpaceSizes, RotateIn, RotateOut, PolicyStrides;
    assert HasDepthToSpace(BlocksGraph(input, bs));
  }

  lemma GeneralOperators(input: Shape, blocks: seq<nat>, slab: nat)
    requires |input| == |blocks| + 2
    ensures !HasDepthToSpace(GeneralGraph(input, blocks, slab)) && !GeneralGraph(input, blocks, slab).Slice?
  {
    hide Sizes, WellFormed, Permute, Merge, Reshaped, PackedStrides;
    assert !HasDepthToSpace(InputTensor(input));
    assert !HasDepthToSpace(PermutedGraph(input, blocks, slab));
    assert !HasDepthToSpace(Packed(PermutedGraph(input, blocks, slab)));
  }

  /** The operator is used exactly for two equal block sizes, and a slice is made exactly if something is cropped. */
  lemma KernelOperators(input: Shape, blocks: seq<nat>, crops: seq<Crop>)
    requires Problem(input, blocks, crops)
    ensures HasDepthToSpace(KernelGraph(input, blocks, crops)) <==> |blocks| == 2 && blocks[0] == blocks[1]
    ensures KernelGraph(input, blocks, crops).Slice? <==> exists i :: 0 <= i < |crops| && crops[i] != (0, 0)
  {
    SliceWhenCropped(crops);
    if blocks != [] {
      if UsesDepthToSpace(input, blocks) {
        assert blocks[0] in blocks;
        FastOperators(input, blocks[0]);
      } else {
        GeneralOperators(input, blocks, Slab(input[0], blocks));
      }
    }
    hide FastGraph, GeneralGraph, WellFormed, Sizes, OutputShape, CropsFit, UncroppedShape, Product, SliceRequired;
  }

  method BuildKernel(input: Shape, blocks: seq<nat>, crops: seq<Crop>) returns (g: Graph)
    requires Problem(input, blocks, crops)
    ensures g == KernelGraph(input, blocks, crops)
    ensures HasDepthToSpace(g) <==> |blocks| == 2 && blocks[0] == blocks[1]
    ensures g.Slice? <==> exists i :: 0 <= i < |crops| && crops[i] != (0, 0)
  {
    KernelOperators(input, blocks, crops);
    if |blocks| == 0 {
      return Packed(InputTensor(input));
    }
    var useDmlOp := |input| == 4 && blocks[1] == blocks[0];
    var before: Graph;
    PathSizes(input, blocks);
    if useDmlOp {
      before := BuildFast(input, blocks[0]);
    } else {
      before := BuildGeneral(input, blocks);
    }
    g := SliceGraph(before, input, blocks, crops);
  }

  /** The slice at the end, when there is anything to crop. */
  method SliceGraph(before: Graph, ghost input: Shape, ghost blocks: seq<nat>, crops: seq<Crop>) returns (g: Graph)
    requires Problem(input, blocks, crops) && WellFormed(before) && Sizes(before) == UncroppedShape(input, blocks)
    ensures SliceRequired(crops) ==>
              g == Cut(before, [0] + Starts(crops) + [0], ProblemOutput(input, blocks, crops))
    ensures !SliceRequired(crops) ==> g == before
  {
    g := before;
    var doSlice := IsSliceRequired(crops);
    if doSlice {
      ghost var k := |blocks|;
      assert Sizes(before)[1..1 + k] == Times(input[1..1 + k], blocks);
      assert input[1 + k..] == [input[1 + k]];
      var offsets, sizes := SliceLoop(Sizes(before), crops, input[1..1 + k], blocks);
      g := Cut(before, offsets, sizes);
    }
  }

  // ---------- End to end ----------

  lemma AcceptableIsDefined(inputShape: Shape, blocks: seq<nat>, crops: seq<Crop>)
    requires Acceptable(inputShape, blocks, crops)
    ensures Positive(blocks) && forall i :: 0 <= i < |crops| ==> 0 <= crops[i].0
  {
    PositiveBlocks(blocks);
    NonNegativeStarts(inputShape[1..1 + |blocks|], blocks, crops);
  }

  lemma PlanIsProblem(inputShape: Shape, blocks: seq<nat>, crops: seq<Crop>)
    requires Acceptable(inputShape, blocks, crops)
    ensures var plan := PlanFor(inputShape, blocks, crops);
            && Problem(plan.internalInput, plan.blockSizes, plan.crops)
            && ProblemOutput(plan.internalInput, plan.blockSizes, plan.crops) == plan.internalOutput
  {
    var plan := PlanFor(inputShape, blocks, crops);
    PlanIsInstance(inputShape, blocks, crops);
    PositiveBlocks(plan.blockSizes);
    NonNegativeStarts(plan.internalInput[1..1 + plan.blockDims], plan.blockSizes, plan.crops);
  }

  /**
   * BatchToSpaceND is preserved: for every input shape, block list and crops that Initialize accepts, and every
   * index of the (external) output, the buffer the kernel writes holds at the index's row-major position the
   * input element at the row-major position of the index's source.
   */
  lemma BatchToSpaceIsPreserved(inputShape: Shape, blocks: seq<nat>, crops: seq<Crop>, o: seq<nat>)
    requires Acceptable(inputShape, blocks, crops)
    requires IndexOf(o, OutputShape(inputShape, blocks, crops))
    ensures Positive(blocks) && forall i :: 0 <= i < |crops| ==> 0 <= crops[i].0
    ensures var plan := PlanFor(inputShape, blocks, crops);
            var source := Source(inputShape, blocks, Starts(crops), o);
            && Problem(plan.internalInput, plan.blockSizes, plan.crops)
            && IndexOf(source, inputShape)
            && Buffer(KernelGraph(plan.internalInput, plan.blockSizes, plan.crops), Ravel(plan.outputShape, o)) ==
               Some(Ravel(inputShape, source))
  {
    AcceptableIsDefined(inputShape, blocks, crops);
    PlanIsProblem(inputShape, blocks, crops);
    FoldingKeepsMapping(inputShape, blocks, crops, o);
    SourceInBounds(inputShape, blocks, crops, o);
    var plan := PlanFor(inputShape, blocks, crops);
    var (lo, hi) := Inner(blocks, crops);
    KernelReads(plan.internalInput, plan.blockSizes, plan.crops, FoldedIndex(inputShape, lo, hi, o));
  }
}
