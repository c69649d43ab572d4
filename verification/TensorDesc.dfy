/** Tensor descriptions: broadcast strides, leading padding and layout swizzling (tfdml/core/dml_tensor_desc.cc). */
module TensorDesc {
  import opened Wrappers
  import opened MixedRadix

  const NCHW_DIMENSION_COUNT: nat := 4
  const NCDHW_DIMENSION_COUNT: nat := 5
  const DIMENSION_COUNT_MAX: nat := 5
  const DIMENSION_COUNT_MAX1: nat := 8

  datatype Axis = N | C | D | H | W

  datatype Desc = Desc(sizes: seq<nat>, strides: seq<nat>)

  // ---------- Broadcasting ----------

  /** The physical shape with 1s in front, one size per logical dimension. */
  function Physical(rank: nat, shape: Shape): (r: Shape)
    ensures |r| == rank
  {
    seq(rank, i requires 0 <= i < rank => if rank <= |shape| + i then shape[|shape| + i - rank] else 1)
  }

  /** The physical shape stretches to the logical one: sizes agree or the physical size is 1. */
  predicate Stretches(dims: Shape, physical: Shape)
    requires |dims| == |physical|
  {
    forall i :: 0 <= i < |dims| ==> dims[i] == physical[i] || physical[i] == 1
  }

  /** The index with every stretched coordinate set to 0. */
  function Collapse(idx: seq<nat>, dims: Shape, physical: Shape): (r: seq<nat>)
    requires |idx| == |dims| == |physical|
    ensures |r| == |idx|
  {
    seq(|idx|, i requires 0 <= i < |idx| => if dims[i] == physical[i] then idx[i] else 0)
  }

  /** Strides that skip stretched dimensions and pack the others. */
  function BroadcastStrides(dims: Shape, physical: Shape): (r: seq<nat>)
    requires |dims| == |physical|
    ensures |r| == |dims|
  {
    if dims == [] then []
    else
      [if dims[0] == physical[0] then Product(physical[1..]) else 0] + BroadcastStrides(dims[1..], physical[1..])
  }

  /** A broadcast view finds an index at the row-major offset of its collapsed index in the physical tensor. */
  lemma {:induction false} BroadcastReadsPhysical(idx: seq<nat>, dims: Shape, physical: Shape)
    requires |idx| == |dims| == |physical|
    ensures Dot(idx, BroadcastStrides(dims, physical)) == Ravel(physical, Collapse(idx, dims, physical))
  {
    if dims != [] {
      BroadcastReadsPhysical(idx[1..], dims[1..], physical[1..]);
      assert BroadcastStrides(dims, physical)[1..] == BroadcastStrides(dims[1..], physical[1..]);
      assert Collapse(idx, dims, physical)[1..] == Collapse(idx[1..], dims[1..], physical[1..]);
    }
  }

  lemma CollapseIsIndex(idx: seq<nat>, dims: Shape, physical: Shape)
    requires IndexOf(idx, dims) && |dims| == |physical| && Stretches(dims, physical)
    ensures IndexOf(Collapse(idx, dims, physical), physical)
  {
  }

  /** The 1s in front do not matter: the offset is the one in the shape the caller gave. */
  lemma {:induction false} LeadingOnes(ones: nat, shape: Shape, idx: seq<nat>)
    requires IndexOf(idx, seq(ones, _ => 1) + shape)
    ensures Ravel(seq(ones, _ => 1) + shape, idx) == Ravel(shape, idx[ones..])
    ensures IndexOf(idx[ones..], shape)
    decreases ones
  {
    var all := seq(ones, _ => 1) + shape;
    if ones == 0 {
      assert all == shape && idx[0..] == idx;
    } else {
      assert all[1..] == seq(ones - 1, _ => 1) + shape;
      assert idx[0] == 0;
      LeadingOnes(ones - 1, shape, idx[1..]);
      assert idx[1..][ones - 1..] == idx[ones..];
    }
    forall i | 0 <= i < |shape| ensures idx[ones..][i] < shape[i] {
      assert all[ones + i] == shape[i];
    }
  }

  /**
   * For every logical index, the strides lead to the row-major offset, in the caller's physical shape, of the
   * trailing coordinates with the stretched ones set to 0.
   */
  lemma StridesReadPhysical(idx: seq<nat>, dims: Shape, shape: Shape)
    requires IndexOf(idx, dims) && |shape| <= |dims| && Stretches(dims, Physical(|dims|, shape))
    ensures var physical := Physical(|dims|, shape);
            var collapsed := Collapse(idx, dims, physical)[|dims| - |shape|..];
            && IndexOf(collapsed, shape)
            && Dot(idx, BroadcastStrides(dims, physical)) == Ravel(shape, collapsed) < Product(shape)
  {
    var physical := Physical(|dims|, shape);
    BroadcastReadsPhysical(idx, dims, physical);
    CollapseIsIndex(idx, dims, physical);
    var ones := |dims| - |shape|;
    assert physical == seq(ones, _ => 1) + shape;
    LeadingOnes(ones, shape, Collapse(idx, dims, physical));
    RavelBound(shape, Collapse(idx, dims, physical)[ones..]);
  }

  /** A broadcast view repeats its tensor along the stretched dimensions, and is one-to-one in the others. */
  lemma SameOffsetExactly(i: seq<nat>, j: seq<nat>, dims: Shape, physical: Shape)
    requires IndexOf(i, dims) && IndexOf(j, dims) && |dims| == |physical| && Stretches(dims, physical)
    ensures Dot(i, BroadcastStrides(dims, physical)) == Dot(j, BroadcastStrides(dims, physical)) <==>
            forall k :: 0 <= k < |dims| && physical[k] != 1 ==> i[k] == j[k]
  {
    var ci, cj := Collapse(i, dims, physical), Collapse(j, dims, physical);
    BroadcastReadsPhysical(i, dims, physical);
    BroadcastReadsPhysical(j, dims, physical);
    CollapseIsIndex(i, dims, physical);
    CollapseIsIndex(j, dims, physical);
    UnravelRavel(physical, ci);
    UnravelRavel(physical, cj);
    if Ravel(physical, ci) == Ravel(physical, cj) {
      assert ci == cj;
      forall k | 0 <= k < |dims| && physical[k] != 1 ensures i[k] == j[k] {
        assert ci[k] == i[k] && cj[k] == j[k];
      }
    }
    if forall k :: 0 <= k < |dims| && physical[k] != 1 ==> i[k] == j[k] {
      forall k | 0 <= k < |dims| ensures ci[k] == cj[k] {
        if dims[k] == physical[k] && physical[k] == 1 { assert i[k] == 0 && j[k] == 0; }
      }
      assert ci == cj;
    }
  }

  /** The backward walk; None where the CHECK aborts. */
  method ComputeStrides(dimensions: Shape, nonBroadcastDimensions: Shape) returns (r: Option<seq<nat>>)
    ensures r.Some? <==> Stretches(dimensions, Physical(|dimensions|, nonBroadcastDimensions))
    ensures r.Some? ==> r.value == BroadcastStrides(dimensions, Physical(|dimensions|, nonBroadcastDimensions))
  {
    var rank := |dimensions|;
    ghost var physical := Physical(rank, nonBroadcastDimensions);
    var strides := seq(rank, _ => 0);
    var currentStride := 1;
    var i := 0;
    while i < rank
      invariant 0 <= i <= rank == |strides|
      invariant currentStride == Product(physical[rank - i..])
      invariant strides[rank - i..] == BroadcastStrides(dimensions[rank - i..], physical[rank - i..])
      invariant forall j :: rank - i <= j < rank ==> dimensions[j] == physical[j] || physical[j] == 1
    {
      var dimIndex := rank - i - 1;
      var nonBroadcastDimIndex := |nonBroadcastDimensions| - i - 1;
      var dimSize := dimensions[dimIndex];
      var nonBroadcastDimSize := if 0 <= nonBroadcastDimIndex then nonBroadcastDimensions[nonBroadcastDimIndex] else 1;
      assert nonBroadcastDimSize == physical[dimIndex];
      var isDimBroadcast := dimSize != nonBroadcastDimSize;
      if isDimBroadcast && nonBroadcastDimSize != 1 {
        return None;
      }
      assert dimensions[dimIndex..][1..] == dimensions[rank - i..] && physical[dimIndex..][1..] == physical[rank - i..];
      if isDimBroadcast {
        strides := strides[dimIndex := 0];
      } else {
        strides := strides[dimIndex := currentStride];
        currentStride := currentStride * dimSize;
      }
      assert strides[dimIndex..] == [strides[dimIndex]] + strides[rank - i..];
      i := i + 1;
    }
    assert dimensions[0..] == dimensions && physical[0..] == physical && strides[0..] == strides;
    r := Some(strides);
  }

  // ---------- Without a layout: up to eight dimensions, padded in front ----------

  function PadCount(rank: nat, addLeadingDimensions: bool): nat {
    if addLeadingDimensions && rank < NCHW_DIMENSION_COUNT then NCHW_DIMENSION_COUNT - rank else 0
  }

  method Create(dimensions: Shape, nonBroadcastDimensions: Shape, addLeadingDimensions: bool) returns (r: Option<Desc>)
    ensures r.Some? <==>
              && |nonBroadcastDimensions| <= |dimensions| <= DIMENSION_COUNT_MAX1
              && Stretches(dimensions, Physical(|dimensions|, nonBroadcastDimensions))
    ensures r.Some? ==>
              var pad := PadCount(|dimensions|, addLeadingDimensions);
              && r.value.sizes == seq(pad, _ => 1) + dimensions
              && r.value.strides ==
                   seq(pad, _ => 0) + BroadcastStrides(dimensions, Physical(|dimensions|, nonBroadcastDimensions))
              && (addLeadingDimensions ==> NCHW_DIMENSION_COUNT <= |r.value.sizes|)
              && (!addLeadingDimensions || NCHW_DIMENSION_COUNT <= |dimensions| ==> |r.value.sizes| == |dimensions|)
              && (addLeadingDimensions && |dimensions| < NCHW_DIMENSION_COUNT ==>
                   |r.value.sizes| == NCHW_DIMENSION_COUNT)
  {
    if |dimensions| < |nonBroadcastDimensions| || DIMENSION_COUNT_MAX1 < |dimensions| {
      return None;
    }
    var strides := ComputeStrides(dimensions, nonBroadcastDimensions);
    if strides == None {
      return None;
    }
    var dmlSizes, dmlStrides: seq<nat> := [], [];
    if addLeadingDimensions && |dimensions| < NCHW_DIMENSION_COUNT {
      dmlSizes := seq(NCHW_DIMENSION_COUNT - |dimensions|, _ => 1);
      dmlStrides := seq(NCHW_DIMENSION_COUNT - |dimensions|, _ => 0);
    }
    r := Some(Desc(dmlSizes + dimensions, dmlStrides + strides.value));
  }

  /** Padding in front changes neither the offset of an index nor the number of elements. */
  lemma {:induction false} PaddingKeepsOffsets(pad: nat, sizes: Shape, strides: seq<nat>, idx: seq<nat>)
    requires |sizes| == |strides| == |idx|
    ensures Dot(seq(pad, _ => 0) + idx, seq(pad, _ => 0) + strides) == Dot(idx, strides)
    ensures Product(seq(pad, _ => 1) + sizes) == Product(sizes)
    decreases pad
  {
    if pad == 0 {
      assert seq(pad, _ => 0) + idx == idx && seq(pad, _ => 0) + strides == strides && seq(pad, _ => 1) + sizes == sizes;
    } else {
      PaddingKeepsOffsets(pad - 1, sizes, strides, idx);
      assert (seq(pad, _ => 0) + idx)[1..] == seq(pad - 1, _ => 0) + idx;
      assert (seq(pad, _ => 0) + strides)[1..] == seq(pad - 1, _ => 0) + strides;
      assert (seq(pad, _ => 1) + sizes)[1..] == seq(pad - 1, _ => 1) + sizes;
    }
  }

  // ---------- With a layout: swizzled into NCHW or NCDHW ----------

  /** The order of DML's own dimensions, with and without depth. */
  const DML_NCHW := [N, C, H, W]
  const DML_NCDHW := [N, C, D, H, W]

  /** Where an axis lives among the DML dimensions; None where the switch is fatal. */
  function DimensionIndex(axis: Axis, dimensionCount: nat): Option<nat> {
    if dimensionCount == NCHW_DIMENSION_COUNT then
      match axis case N => Some(0) case C => Some(1) case H => Some(2) case W => Some(3) case D => None
    else
      match axis case N => Some(0) case C => Some(1) case D => Some(2) case H => Some(3) case W => Some(4)
  }

  function DimensionCount(layout: seq<Axis>): nat {
    if D in layout then NCDHW_DIMENSION_COUNT else NCHW_DIMENSION_COUNT
  }

  function Position(layout: seq<Axis>, i: nat): (p: nat)
    requires i < |layout|
    ensures p < DimensionCount(layout) && DimensionIndex(layout[i], DimensionCount(layout)) == Some(p)
  {
    DimensionIndex(layout[i], DimensionCount(layout)).value
  }

  lemma PositionsDistinct(layout: seq<Axis>, i: nat, j: nat)
    requires Distinct(layout) && i < j < |layout|
    ensures Position(layout, i) != Position(layout, j)
  {
  }

  /** The first n values moved to the positions of their axes, the rest left at a default. */
  function Swizzle(layout: seq<Axis>, values: seq<nat>, default_: nat, n: nat): (r: seq<nat>)
    requires n <= |layout| == |values|
    ensures |r| == DimensionCount(layout)
  {
    if n == 0 then seq(DimensionCount(layout), _ => default_)
    else Swizzle(layout, values, default_, n - 1)[Position(layout, n - 1) := values[n - 1]]
  }

  /** Positions not yet assigned still hold the default. */
  lemma {:induction false} Unassigned(layout: seq<Axis>, values: seq<nat>, default_: nat, n: nat, i: nat)
    requires n <= i < |layout| == |values| && Distinct(layout)
    ensures Swizzle(layout, values, default_, n)[Position(layout, i)] == default_
    decreases n
  {
    if 0 < n {
      PositionsDistinct(layout, n - 1, i);
      Unassigned(layout, values, default_, n - 1, i);
    }
  }

  /** Every axis finds its value at its position. */
  lemma {:induction false} Assigned(layout: seq<Axis>, values: seq<nat>, default_: nat, n: nat, i: nat)
    requires i < n <= |layout| == |values| && Distinct(layout)
    ensures Swizzle(layout, values, default_, n)[Position(layout, i)] == values[i]
    decreases n
  {
    if i < n - 1 {
      PositionsDistinct(layout, i, n - 1);
      Assigned(layout, values, default_, n - 1, i);
    }
  }

  /** Nothing is assigned to the position of an axis that is not in the layout. */
  lemma {:induction false} Untouched(layout: seq<Axis>, values: seq<nat>, default_: nat, n: nat, j: nat)
    requires n <= |layout| == |values| && j < DimensionCount(layout)
    requires forall i :: 0 <= i < n ==> Position(layout, i) != j
    ensures Swizzle(layout, values, default_, n)[j] == default_
    decreases n
  {
    if 0 < n { Untouched(layout, values, default_, n - 1, j); }
  }

  /** The dimensions DML expects for a layout, in its order. */
  function DmlOrder(layout: seq<Axis>): seq<Axis> {
    if D in layout then DML_NCDHW else DML_NCHW
  }

  /** `swizzled` is `values` rearranged from the layout into DML's order, with a default for the absent axes. */
  ghost predicate InDmlOrder(layout: seq<Axis>, values: seq<nat>, default_: nat, swizzled: seq<nat>)
    requires |layout| == |values|
  {
    var order := DmlOrder(layout);
    && |swizzled| == |order|
    && (forall i, j :: 0 <= i < |layout| && 0 <= j < |order| && layout[i] == order[j] ==> swizzled[j] == values[i])
    && (forall j :: 0 <= j < |order| && order[j] !in layout ==> swizzled[j] == default_)
  }

  lemma PositionInOrder(layout: seq<Axis>, i: nat)
    requires i < |layout|
    ensures |DmlOrder(layout)| == DimensionCount(layout) && DmlOrder(layout)[Position(layout, i)] == layout[i]
  {
    if D !in layout { assert layout[i] != D; }
  }

  lemma OrderDistinct(layout: seq<Axis>, j: nat, k: nat)
    requires j < |DmlOrder(layout)| && k < |DmlOrder(layout)| && DmlOrder(layout)[j] == DmlOrder(layout)[k]
    ensures j == k
  {
  }

  /** Swizzling arrives at NCHW, or at NCDHW if there is a depth. */
  lemma SwizzleIsDmlOrder(layout: seq<Axis>, values: seq<nat>, default_: nat)
    requires Distinct(layout) && |layout| == |values|
    ensures InDmlOrder(layout, values, default_, Swizzle(layout, values, default_, |layout|))
  {
    var order, n := DmlOrder(layout), |layout|;
    forall i, j | 0 <= i < n && 0 <= j < |order| && layout[i] == order[j]
      ensures Swizzle(layout, values, default_, n)[j] == values[i]
    {
      PositionInOrder(layout, i);
      OrderDistinct(layout, j, Position(layout, i));
      Assigned(layout, values, default_, n, i);
    }
    forall j | 0 <= j < |order| && order[j] !in layout ensures Swizzle(layout, values, default_, n)[j] == default_ {
      forall i | 0 <= i < n ensures Position(layout, i) != j { PositionInOrder(layout, i); }
      Untouched(layout, values, default_, n, j);
    }
  }

  lemma {:induction false} DotUpdate(idx: seq<nat>, strides: seq<nat>, p: nat, x: nat, y: nat)
    requires p < |idx| == |strides| && strides[p] == 0
    ensures Dot(idx[p := x], strides[p := y]) == Dot(idx, strides) + x * y
  {
    if p == 0 {
      assert idx[p := x][1..] == idx[1..] && strides[p := y][1..] == strides[1..];
    } else {
      assert idx[p := x][1..] == idx[1..][p - 1 := x] && strides[p := y][1..] == strides[1..][p - 1 := y];
      DotUpdate(idx[1..], strides[1..], p - 1, x, y);
    }
  }

  lemma {:induction false} ProductUpdate(sizes: Shape, p: nat, x: nat)
    requires p < |sizes| && sizes[p] == 1
    ensures Product(sizes[p := x]) == Product(sizes) * x
  {
    if p == 0 {
      assert sizes[p := x][1..] == sizes[1..];
    } else {
      assert sizes[p := x][1..] == sizes[1..][p - 1 := x];
      ProductUpdate(sizes[1..], p - 1, x);
      MulAssoc(sizes[0], Product(sizes[1..]), x);
    }
  }

  lemma {:induction false} SwizzleBlank(n: nat)
    ensures Dot(seq(n, _ => 0), seq(n, _ => 0)) == 0 && Product(seq(n, _ => 1)) == 1
  {
    if 0 < n {
      SwizzleBlank(n - 1);
      assert seq(n, _ => 0)[1..] == seq(n - 1, _ => 0) && seq(n, _ => 1)[1..] == seq(n - 1, _ => 1);
    }
  }

  lemma {:induction false} SwizzlePrefix(layout: seq<Axis>, sizes: Shape, strides: seq<nat>, idx: seq<nat>, n: nat)
    requires n <= |layout| == |sizes| == |strides| == |idx| && Distinct(layout)
    ensures Dot(Swizzle(layout, idx, 0, n), Swizzle(layout, strides, 0, n)) == Dot(idx[..n], strides[..n])
    ensures Product(Swizzle(layout, sizes, 1, n)) == Product(sizes[..n])
    decreases n
  {
    if n == 0 {
      SwizzleBlank(DimensionCount(layout));
    } else {
      var p := Position(layout, n - 1);
      SwizzlePrefix(layout, sizes, strides, idx, n - 1);
      Unassigned(layout, strides, 0, n - 1, n - 1);
      Unassigned(layout, sizes, 1, n - 1, n - 1);
      DotUpdate(Swizzle(layout, idx, 0, n - 1), Swizzle(layout, strides, 0, n - 1), p, idx[n - 1], strides[n - 1]);
      ProductUpdate(Swizzle(layout, sizes, 1, n - 1), p, sizes[n - 1]);
      assert idx[..n] == idx[..n - 1] + [idx[n - 1]] && strides[..n] == strides[..n - 1] + [strides[n - 1]];
      assert sizes[..n] == sizes[..n - 1] + [sizes[n - 1]];
      DotConcat(idx[..n - 1], [idx[n - 1]], strides[..n - 1], [strides[n - 1]]);
      ProductConcat(sizes[..n - 1], [sizes[n - 1]]);
    }
  }

  /** Swizzling keeps the offset of every index, the number of elements, and each coordinate's range. */
  lemma SwizzleKeepsOffsets(layout: seq<Axis>, sizes: Shape, strides: seq<nat>, idx: seq<nat>)
    requires |layout| == |sizes| == |strides| && Distinct(layout) && IndexOf(idx, sizes)
    ensures var n := |layout|;
            && Dot(Swizzle(layout, idx, 0, n), Swizzle(layout, strides, 0, n)) == Dot(idx, strides)
            && Product(Swizzle(layout, sizes, 1, n)) == Product(sizes)
            && IndexOf(Swizzle(layout, idx, 0, n), Swizzle(layout, sizes, 1, n))
  {
    var n := |layout|;
    SwizzlePrefix(layout, sizes, strides, idx, n);
    assert idx[..n] == idx && strides[..n] == strides && sizes[..n] == sizes;
    SwizzledIndex(layout, sizes, idx, n);
  }

  lemma {:induction false} SwizzledIndex(layout: seq<Axis>, sizes: Shape, idx: seq<nat>, n: nat)
    requires n <= |layout| == |sizes| && IndexOf(idx, sizes)
    ensures IndexOf(Swizzle(layout, idx, 0, n), Swizzle(layout, sizes, 1, n))
    decreases n
  {
    if 0 < n { SwizzledIndex(layout, sizes, idx, n - 1); }
  }

  /** None where a CHECK aborts; a layout without repeats is the caller's duty, as the assertion says. */
  method CreateWithLayout(dimensions: Shape, nonBroadcastDimensions: Shape, layout: seq<Axis>) returns (r: Option<Desc>)
    requires Distinct(layout)
    ensures r.Some? <==>
              && |nonBroadcastDimensions| <= |dimensions| <= DIMENSION_COUNT_MAX
              && layout != [] && |layout| == |dimensions|
              && Stretches(dimensions, Physical(|dimensions|, nonBroadcastDimensions))
    ensures r.Some? ==>
              && r.value.sizes == Swizzle(layout, dimensions, 1, |layout|)
              && r.value.strides == Swizzle(layout,
                   BroadcastStrides(dimensions, Physical(|dimensions|, nonBroadcastDimensions)), 0, |layout|)
              && InDmlOrder(layout, dimensions, 1, r.value.sizes)
              && InDmlOrder(layout, BroadcastStrides(dimensions, Physical(|dimensions|, nonBroadcastDimensions)), 0,
                   r.value.strides)
  {
    if |dimensions| < |nonBroadcastDimensions| || DIMENSION_COUNT_MAX < |dimensions| {
      return None;
    }
    if layout == [] || |layout| != |dimensions| {
      return None;
    }
    var computed := ComputeStrides(dimensions, nonBroadcastDimensions);
    if computed == None {
      return None;
    }
    var strides := computed.value;
    var hasDepthDim := D in layout;
    var dmlDimensionCount := if hasDepthDim then NCDHW_DIMENSION_COUNT else NCHW_DIMENSION_COUNT;
    var dmlSizes := seq(dmlDimensionCount, _ => 1);
    var dmlStrides := seq(dmlDimensionCount, _ => 0);
    for i := 0 to |layout|
      invariant dmlSizes == Swizzle(layout, dimensions, 1, i) && dmlStrides == Swizzle(layout, strides, 0, i)
    {
      var dmlDimIndex := Position(layout, i);
      dmlSizes := dmlSizes[dmlDimIndex := dimensions[i]];
      dmlStrides := dmlStrides[dmlDimIndex := strides[i]];
    }
    SwizzleIsDmlOrder(layout, dimensions, 1);
    SwizzleIsDmlOrder(layout, strides, 0);
    r := Some(Desc(dmlSizes, dmlStrides));
  }

  /** End to end: a swizzled description finds every logical index at its collapsed row-major offset. */
  lemma LayoutReadsPhysical(idx: seq<nat>, dims: Shape, shape: Shape, layout: seq<Axis>)
    requires Distinct(layout) && |layout| == |dims| && |shape| <= |dims|
    requires IndexOf(idx, dims) && Stretches(dims, Physical(|dims|, shape))
    ensures var physical := Physical(|dims|, shape);
            var strides := Swizzle(layout, BroadcastStrides(dims, physical), 0, |layout|);
            && Dot(Swizzle(layout, idx, 0, |layout|), strides) ==
                 Ravel(shape, Collapse(idx, dims, physical)[|dims| - |shape|..])
            && Product(Swizzle(layout, dims, 1, |layout|)) == Product(dims)
  {
    StridesReadPhysical(idx, dims, shape);
    SwizzleKeepsOffsets(layout, dims, BroadcastStrides(dims, Physical(|dims|, shape)), idx);
  }

  // ---------- The layouts themselves ----------

  datatype Format = Nhwc | Nchw

  /** The format's own order, which gains a D only at rank 5. */
  function AxisOrder(format: Format, rank: nat): (r: seq<Axis>)
    ensures |r| == if rank == 5 then 5 else 4
  {
    match format
    case Nhwc => if rank == 5 then [N, D, H, W, C] else [N, H, W, C]
    case Nchw => if rank == 5 then [N, C, D, H, W] else [N, C, H, W]
  }

  /** The trailing axes of that order. */
  function LastAxes(format: Format, rank: nat): (r: seq<Axis>)
    requires rank <= DIMENSION_COUNT_MAX
    ensures |r| == rank
  {
    AxisOrder(format, rank)[|AxisOrder(format, rank)| - rank..]
  }

  lemma FiveDistinct(a: Axis, b: Axis, c: Axis, d: Axis, e: Axis)
    requires a != b && a != c && a != d && a != e && b != c && b != d && b != e && c != d && c != e && d != e
    ensures Distinct([a, b, c, d, e])
  {
  }

  lemma FourDistinct(a: Axis, b: Axis, c: Axis, d: Axis)
    requires a != b && a != c && a != d && b != c && b != d && c != d
    ensures Distinct([a, b, c, d])
  {
  }

  lemma OrderIsDistinct(format: Format, rank: nat)
    ensures Distinct(AxisOrder(format, rank))
    ensures D in AxisOrder(format, rank) <==> rank == 5
  {
    FiveDistinct(N, D, H, W, C);
    FiveDistinct(N, C, D, H, W);
    FourDistinct(N, H, W, C);
    FourDistinct(N, C, H, W);
  }

  /** No axis occurs twice in a layout, so it may be swizzled; it calls for NCDHW exactly at rank 5. */
  lemma LayoutsAreDistinct(format: Format, rank: nat)
    requires rank <= DIMENSION_COUNT_MAX
    ensures Distinct(LastAxes(format, rank))
    ensures D in LastAxes(format, rank) <==> rank == 5
  {
    hide AxisOrder;
    var order := AxisOrder(format, rank);
    OrderIsDistinct(format, rank);
    DropKeepsDistinct(order, |order| - rank);
    assert order[0..] == order;
  }

  lemma DropKeepsDistinct(axes: seq<Axis>, n: nat)
    requires Distinct(axes) && n <= |axes|
    ensures Distinct(axes[n..]) && forall axis <- axes[n..] :: axis in axes
  {
  }

  lemma NhwcLast(rank: nat)
    requires rank <= DIMENSION_COUNT_MAX
    ensures LastAxes(Nhwc, rank) == match rank
              case 0 => [] case 1 => [C] case 2 => [W, C] case 3 => [H, W, C] case 4 => [N, H, W, C]
              case _ => [N, D, H, W, C]
  {
  }

  lemma NchwLast(rank: nat)
    requires rank <= DIMENSION_COUNT_MAX
    ensures LastAxes(Nchw, rank) == match rank
              case 0 => [] case 1 => [W] case 2 => [H, W] case 3 => [C, H, W] case 4 => [N, C, H, W]
              case _ => [N, C, D, H, W]
  {
  }

  /** The layout of a format; None for more than five dimensions. */
  method GetTensorLayout(format: Format, rank: nat) returns (r: Option<seq<Axis>>)
    ensures r.Some? <==> rank <= DIMENSION_COUNT_MAX
    ensures r.Some? ==> r.value == LastAxes(format, rank)
  {
    if DIMENSION_COUNT_MAX < rank {
      return None;
    }
    var layout: seq<Axis>;
    match format {
      case Nhwc => layout := NhwcLayout(rank);
      case Nchw => layout := NchwLayout(rank);
    }
    r := Some(layout);
  }

  method NhwcLayout(rank: nat) returns (layout: seq<Axis>)
    requires rank <= DIMENSION_COUNT_MAX
    ensures layout == LastAxes(Nhwc, rank)
  {
    hide LastAxes;
    NhwcLast(rank);
    layout := [];
    if 4 <= rank { layout := layout + [N]; }
    if 5 <= rank { layout := layout + [D]; }
    if 3 <= rank { layout := layout + [H]; }
    if 2 <= rank { layout := layout + [W]; }
    if 1 <= rank { layout := layout + [C]; }
  }

  method NchwLayout(rank: nat) returns (layout: seq<Axis>)
    requires rank <= DIMENSION_COUNT_MAX
    ensures layout == LastAxes(Nchw, rank)
  {
    hide LastAxes;
    NchwLast(rank);
    layout := [];
    if 4 <= rank { layout := layout + [N]; }
    if 3 <= rank { layout := layout + [C]; }
    if 5 <= rank { layout := layout + [D]; }
    if 2 <= rank { layout := layout + [H]; }
    if 1 <= rank { layout := layout + [W]; }
  }
}
