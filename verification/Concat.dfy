/** Concatenation along one axis, collapsed to three dimensions (tfdml/kernels/dml_concat_op.cc). */
module Concat {
  import opened Wrappers
  import opened MixedRadix

  /** A packed tensor. */
  datatype Tensor<T> = Tensor(shape: Shape, data: seq<T>) {
    predicate Valid() { |data| == Product(shape) }
  }

  // ---------- Shape checking ----------

  function SizeAlong(shape: Shape, axis: nat): nat {
    if axis < |shape| then shape[axis] else 0
  }

  /** Sum of the sizes along the axis. */
  function Extent<T>(inputs: seq<Tensor<T>>, axis: nat): nat {
    if inputs == [] then 0 else SizeAlong(inputs[0].shape, axis) + Extent(inputs[1..], axis)
  }

  predicate SameBesides(a: Shape, b: Shape, axis: nat) {
    |a| == |b| && forall j :: 0 <= j < |a| && j != axis ==> a[j] == b[j]
  }

  predicate Joinable<T>(inputs: seq<Tensor<T>>, axis: nat) {
    inputs != [] && axis < |inputs[0].shape|
    && forall i :: 0 <= i < |inputs| ==> SameBesides(inputs[i].shape, inputs[0].shape, axis)
  }

  /** The normalised axis; negative values count from the end. */
  function NormalizedAxis(rank: nat, concatDim: int): int {
    if concatDim < 0 then concatDim + rank else concatDim
  }

  lemma TimesAtMost(rank: nat, q: int, bound: int)
    requires q <= bound
    ensures rank * q <= rank * bound
  {
  }

  /** The axis is in range from -rank up to rank, and is then the given number modulo the rank. */
  lemma AxisIsModulo(rank: nat, concatDim: int)
    ensures 0 <= NormalizedAxis(rank, concatDim) < rank <==> 0 - rank <= concatDim < rank
    ensures 0 - rank <= concatDim < rank ==> NormalizedAxis(rank, concatDim) == concatDim % rank
  {
    if 0 - rank <= concatDim < rank {
      var q := concatDim / rank;
      assert concatDim == rank * q + concatDim % rank;
      if q < -1 { TimesAtMost(rank, q, -2); }
      if 0 < q { TimesAtMost(rank, -q, -1); }
    }
  }

  /**
   * The checks of the initialisation helper; None is an InvalidArgument status. The size it accumulates is the
   * extent of the concatenation.
   */
  method Initialize<T>(inputs: seq<Tensor<T>>, concatDim: int) returns (r: Option<(nat, nat)>)
    requires inputs != []
    ensures var axis := NormalizedAxis(|inputs[0].shape|, concatDim);
            && (r.Some? <==> 0 <= axis && Joinable(inputs, axis))
            && (r.Some? ==> r.value == (axis, Extent(inputs, axis)))
  {
    var first := inputs[0].shape;
    var concatAxis := if concatDim < 0 then concatDim + |first| else concatDim;
    if !(0 <= concatAxis < |first|) {
      return None;
    }
    var total := first[concatAxis];
    for i := 1 to |inputs|
      invariant forall k :: 0 <= k < i ==> SameBesides(inputs[k].shape, first, concatAxis)
      invariant total + Extent(inputs[i..], concatAxis) == Extent(inputs, concatAxis)
    {
      var shape := inputs[i].shape;
      if |shape| != |first| {
        return None;
      }
      total := total + shape[concatAxis];
      for j := 0 to |shape|
        invariant forall k :: 0 <= k < j && k != concatAxis ==> shape[k] == first[k]
      {
        if j != concatAxis && shape[j] != first[j] {
          return None;
        }
      }
      assert inputs[i..][1..] == inputs[i + 1..];
    }
    r := Some((concatAxis, total));
  }

  // ---------- N-dimensional concatenation ----------

  ghost predicate Inputs<T>(inputs: seq<Tensor<T>>, axis: nat, first: Shape) {
    axis < |first| && forall t <- inputs :: t.Valid() && SameBesides(t.shape, first, axis)
  }

  /** Which tensor a position along the axis falls into, and where in it. */
  function Locate<T>(inputs: seq<Tensor<T>>, axis: nat, a: nat): (r: (Tensor<T>, nat))
    requires forall t <- inputs :: axis < |t.shape|
    requires a < Extent(inputs, axis)
    ensures r.0 in inputs && r.1 < r.0.shape[axis]
  {
    var size := inputs[0].shape[axis];
    if a < size then (inputs[0], a) else Locate(inputs[1..], axis, a - size)
  }

  /** The element of the concatenation at an index: the defining equation, for any rank. */
  function ElementAt<T>(inputs: seq<Tensor<T>>, axis: nat, idx: seq<nat>): Option<T>
    requires forall t <- inputs :: |t.shape| == |idx| && t.Valid()
    requires axis < |idx| && idx[axis] < Extent(inputs, axis)
  {
    var (t, local) := Locate(inputs, axis, idx[axis]);
    Fetch(t, idx[axis := local])
  }

  function Fetch<T>(t: Tensor<T>, idx: seq<nat>): Option<T>
    requires |t.shape| == |idx|
  {
    var position := Ravel(t.shape, idx);
    if position < |t.data| then Some(t.data[position]) else None
  }

  // ---------- The kernel ----------

  function Collapsed(shape: Shape, axis: nat): Shape
    requires axis < |shape|
  {
    [Product(shape[..axis]), shape[axis], Product(shape[axis + 1..])]
  }

  /** The same data described with three dimensions. */
  function Flattened<T>(t: Tensor<T>, axis: nat, left: nat, right: nat): (r: Tensor<T>)
    requires axis < |t.shape|
    ensures |r.shape| == 3 && r.shape[1] == t.shape[axis]
  {
    Tensor([left, t.shape[axis], right], t.data)
  }

  /** What the kernel hands to DirectML: the non-empty inputs with three dimensions each. */
  function KernelInputs<T>(inputs: seq<Tensor<T>>, axis: nat, left: nat, right: nat): (r: seq<Tensor<T>>)
    requires forall t <- inputs :: axis < |t.shape|
    ensures forall t <- r :: |t.shape| == 3
  {
    if inputs == [] then []
    else
      var t := inputs[0];
      (if Product(t.shape) == 0 then [] else [Flattened(t, axis, left, right)])
      + KernelInputs(inputs[1..], axis, left, right)
  }

  /** The product of the sizes on one side of the axis. */
  method SideSize(shape: Shape, from: nat, to: nat) returns (size: nat)
    requires from <= to <= |shape|
    ensures size == Product(shape[from..to])
  {
    size := 1;
    for i := from to to
      invariant size == Product(shape[from..i])
    {
      assert shape[from..i + 1] == shape[from..i] + [shape[i]];
      ProductConcat(shape[from..i], [shape[i]]);
      size := size * shape[i];
    }
  }

  method FilterInputs<T>(inputs: seq<Tensor<T>>, axis: nat, left: nat, right: nat) returns (r: seq<Tensor<T>>)
    requires forall t <- inputs :: axis < |t.shape|
    ensures r == KernelInputs(inputs, axis, left, right)
  {
    r := [];
    assert inputs[0..] == inputs;
    var n := 0;
    while n < |inputs|
      invariant 0 <= n <= |inputs|
      invariant r + KernelInputs(inputs[n..], axis, left, right) == KernelInputs(inputs, axis, left, right)
    {
      var t := inputs[n];
      KernelInputsStep(inputs[n..], axis, left, right);
      assert inputs[n..][1..] == inputs[n + 1..];
      if Product(t.shape) != 0 {
        r := r + [Flattened(t, axis, left, right)];
      }
      n := n + 1;
    }
    assert r + [] == r;
  }

  lemma KernelInputsStep<T>(inputs: seq<Tensor<T>>, axis: nat, left: nat, right: nat)
    requires inputs != [] && forall t <- inputs :: axis < |t.shape|
    ensures var (t, rest) := (inputs[0], KernelInputs(inputs[1..], axis, left, right));
            KernelInputs(inputs, axis, left, right) ==
              if Product(t.shape) == 0 then rest else [Flattened(t, axis, left, right)] + rest
  {
    var rest := KernelInputs(inputs[1..], axis, left, right);
    assert [] + rest == rest;
  }

  /** The sizes and the filter, as the kernel's constructor computes them. */
  method BuildKernel<T>(inputs: seq<Tensor<T>>, outputShape: Shape, axis: nat)
    returns (left: nat, right: nat, kernelInputs: seq<Tensor<T>>)
    requires axis < |outputShape| && forall t <- inputs :: axis < |t.shape|
    ensures left == Product(outputShape[..axis]) && right == Product(outputShape[axis + 1..])
    ensures kernelInputs == KernelInputs(inputs, axis, left, right)
  {
    left := SideSize(outputShape, 0, axis);
    right := SideSize(outputShape, axis + 1, |outputShape|);
    assert outputShape[0..axis] == outputShape[..axis];
    assert outputShape[axis + 1..|outputShape|] == outputShape[axis + 1..];
    kernelInputs := FilterInputs(inputs, axis, left, right);
  }

  /** Join along dimension 1 of three: the element of the joined, packed tensor at a linear position. */
  function Joined<T>(kernelInputs: seq<Tensor<T>>, left: nat, total: nat, right: nat, position: nat): Option<T>
    requires forall t <- kernelInputs :: |t.shape| == 3
    requires position < Product([left, total, right]) && Extent(kernelInputs, 1) == total
  {
    var idx := Unravel([left, total, right], position);
    RavelUnravel([left, total, right], position);
    var (t, local) := Locate(kernelInputs, 1, idx[1]);
    Fetch(t, idx[1 := local])
  }

  // ---------- Equivalence ----------

  /** Position a of input k lies behind all of the inputs before it. */
  lemma {:induction false} LocateAt<T>(inputs: seq<Tensor<T>>, axis: nat, k: nat, a: nat)
    requires (forall t <- inputs :: axis < |t.shape|) && k < |inputs| && a < inputs[k].shape[axis]
    ensures Extent(inputs[..k], axis) + a < Extent(inputs, axis)
    ensures Locate(inputs, axis, Extent(inputs[..k], axis) + a) == (inputs[k], a)
  {
    if 0 < k {
      LocateAt(inputs[1..], axis, k - 1, a);
      assert inputs[..k][1..] == inputs[1..][..k - 1];
    }
  }

  /** Splitting an index at the axis. */
  lemma CollapseKeepsPosition(shape: Shape, axis: nat, idx: seq<nat>)
    requires axis < |shape| == |idx|
    ensures Ravel(shape, idx) == Ravel(Collapsed(shape, axis),
              [Ravel(shape[..axis], idx[..axis]), idx[axis], Ravel(shape[axis + 1..], idx[axis + 1..])])
  {
    CutAtAxis(shape, axis);
    CutAtAxis(idx, axis);
    CollapseParts(shape[..axis], shape[axis], shape[axis + 1..], idx[..axis], idx[axis], idx[axis + 1..]);
  }

  lemma CutAtAxis(s: seq<nat>, axis: nat)
    requires axis < |s|
    ensures s == s[..axis] + ([s[axis]] + s[axis + 1..])
  {
  }

  lemma CollapseParts(a: Shape, m: nat, b: Shape, i: seq<nat>, j: nat, k: seq<nat>)
    requires |a| == |i| && |b| == |k|
    ensures Ravel(a + ([m] + b), i + ([j] + k)) == Ravel([Product(a), m, Product(b)], [Ravel(a, i), j, Ravel(b, k)])
  {
    RavelConcat(a, [m] + b, i, [j] + k);
    RavelConcat([m], b, [j], k);
    ProductConcat([m], b);
    Singleton(m, j);
    Ravel3(Product(a), m, Product(b), Ravel(a, i), j, Ravel(b, k));
  }

  /** Empty inputs have no extent along the axis when the other sizes are positive. */
  lemma EmptyMeansNoExtent(shape: Shape, axis: nat, first: Shape)
    requires axis < |first| && SameBesides(shape, first, axis) && Product(shape) == 0
    requires 0 < Product(first[..axis]) && 0 < Product(first[axis + 1..])
    ensures shape[axis] == 0
  {
    SizeOfInput(shape, axis, first);
    NoElements(Product(first[..axis]), shape[axis], Product(first[axis + 1..]));
  }

  lemma {:induction false} FilterKeepsExtent<T>(inputs: seq<Tensor<T>>, axis: nat, first: Shape, left: nat, right: nat)
    requires Inputs(inputs, axis, first)
    requires left == Product(first[..axis]) && right == Product(first[axis + 1..]) && 0 < left && 0 < right
    ensures Extent(KernelInputs(inputs, axis, left, right), 1) == Extent(inputs, axis)
  {
    if inputs != [] {
      var t, rest := inputs[0], KernelInputs(inputs[1..], axis, left, right);
      FilterKeepsExtent(inputs[1..], axis, first, left, right);
      KernelInputsStep(inputs, axis, left, right);
      if Product(t.shape) == 0 {
        EmptyMeansNoExtent(t.shape, axis, first);
      } else {
        assert KernelInputs(inputs, axis, left, right)[1..] == rest;
      }
    }
  }

  /** Locating in a list whose first tensor is known. */
  lemma LocateStep<T>(t: Tensor<T>, rest: seq<Tensor<T>>, axis: nat, a: nat)
    requires axis < |t.shape| && (forall u <- rest :: axis < |u.shape|)
    requires a < t.shape[axis] + Extent(rest, axis)
    ensures (forall u <- [t] + rest :: axis < |u.shape|) && Extent([t] + rest, axis) == t.shape[axis] + Extent(rest, axis)
    ensures Locate([t] + rest, axis, a) ==
              if a < t.shape[axis] then (t, a) else Locate(rest, axis, a - t.shape[axis])
  {
    assert ([t] + rest)[1..] == rest;
  }

  /** Locating among the kernel's inputs, when an input left out has no extent. */
  lemma KernelLocateStep<T>(inputs: seq<Tensor<T>>, axis: nat, left: nat, right: nat, a: nat)
    requires inputs != [] && (forall t <- inputs :: axis < |t.shape|)
    requires Product(inputs[0].shape) == 0 ==> inputs[0].shape[axis] == 0
    requires a < inputs[0].shape[axis] + Extent(KernelInputs(inputs[1..], axis, left, right), 1)
    ensures a < Extent(KernelInputs(inputs, axis, left, right), 1)
    ensures Locate(KernelInputs(inputs, axis, left, right), 1, a) ==
              if a < inputs[0].shape[axis] then (Flattened(inputs[0], axis, left, right), a)
              else Locate(KernelInputs(inputs[1..], axis, left, right), 1, a - inputs[0].shape[axis])
  {
    hide Locate, KernelInputs, Product, Flattened, Extent;
    KernelInputsStep(inputs, axis, left, right);
    if Product(inputs[0].shape) != 0 {
      LocateStep(Flattened(inputs[0], axis, left, right), KernelInputs(inputs[1..], axis, left, right), 1, a);
    }
  }

  /** So leaving the empty inputs out moves nothing. */
  lemma {:induction false} FilterKeepsLocate<T>(inputs: seq<Tensor<T>>, axis: nat, first: Shape, left: nat, right: nat,
                                                a: nat)
    requires Inputs(inputs, axis, first) && a < Extent(inputs, axis)
    requires left == Product(first[..axis]) && right == Product(first[axis + 1..]) && 0 < left && 0 < right
    ensures a < Extent(KernelInputs(inputs, axis, left, right), 1)
    ensures var (t, local) := Locate(inputs, axis, a);
            Locate(KernelInputs(inputs, axis, left, right), 1, a) == (Flattened(t, axis, left, right), local)
  {
    hide KernelInputs, Product, Flattened;
    var size := inputs[0].shape[axis];
    if Product(inputs[0].shape) == 0 { EmptyMeansNoExtent(inputs[0].shape, axis, first); }
    FilterKeepsExtent(inputs[1..], axis, first, left, right);
    KernelLocateStep(inputs, axis, left, right, a);
    if size <= a {
      FilterKeepsLocate(inputs[1..], axis, first, left, right, a - size);
    }
  }

  lemma SizeOfInput(shape: Shape, axis: nat, first: Shape)
    requires axis < |first| && SameBesides(shape, first, axis)
    ensures Product(shape) == Product(first[..axis]) * (shape[axis] * Product(first[axis + 1..]))
    ensures shape[..axis] == first[..axis] && shape[axis + 1..] == first[axis + 1..]
  {
    assert shape == first[..axis] + ([shape[axis]] + first[axis + 1..]);
    ProductConcat(first[..axis], [shape[axis]] + first[axis + 1..]);
    assert ([shape[axis]] + first[axis + 1..])[1..] == first[axis + 1..];
  }

  /** A non-empty input means that the sizes besides the axis are all positive. */
  lemma NonEmptyMeansPositive(shape: Shape, axis: nat, first: Shape)
    requires axis < |first| && SameBesides(shape, first, axis) && Product(shape) != 0
    ensures 0 < Product(first[..axis]) && 0 < Product(first[axis + 1..])
  {
    SizeOfInput(shape, axis, first);
  }

  /**
   * For any rank, any axis and any joinable inputs of which at least one is non-empty: the packed result of the
   * three-dimensional join, read at the row-major position of an index, is the concatenation at that index.
   */
  lemma JoinIsConcat<T>(inputs: seq<Tensor<T>>, axis: nat, first: Shape, idx: seq<nat>)
    requires Inputs(inputs, axis, first) && exists t :: t in inputs && Product(t.shape) != 0
    requires IndexOf(idx, first[axis := Extent(inputs, axis)])
    ensures var left, right := Product(first[..axis]), Product(first[axis + 1..]);
            var total := Extent(inputs, axis);
            var output := first[axis := total];
            var kernelInputs := KernelInputs(inputs, axis, left, right);
            && Extent(kernelInputs, 1) == total
            && Ravel(output, idx) < Product(output) == Product([left, total, right])
            && Joined(kernelInputs, left, total, right, Ravel(output, idx)) == ElementAt(inputs, axis, idx)
            && ElementAt(inputs, axis, idx).Some?
  {
    var left, right := Product(first[..axis]), Product(first[axis + 1..]);
    var total := Extent(inputs, axis);
    var output := first[axis := total];
    var some :| some in inputs && Product(some.shape) != 0;
    NonEmptyMeansPositive(some.shape, axis, first);
    FilterKeepsExtent(inputs, axis, first, left, right);
    FilterKeepsLocate(inputs, axis, first, left, right, idx[axis]);
    OutputPosition(first, axis, total, idx);
    var l, r := Ravel(first[..axis], idx[..axis]), Ravel(first[axis + 1..], idx[axis + 1..]);
    UnravelRavel([left, total, right], [l, idx[axis], r]);
    var (t, local) := Locate(inputs, axis, idx[axis]);
    assert [l, idx[axis], r][1 := local] == [l, local, r];
    InputPosition(t, axis, first, idx, local);
  }

  /**
   * In other words: element idx of input k, whose coordinate along the axis is moved behind the inputs before it,
   * is what the join stores at that place of the output.
   */
  lemma InputsStandInOrder<T>(inputs: seq<Tensor<T>>, axis: nat, first: Shape, k: nat, idx: seq<nat>)
    requires Inputs(inputs, axis, first) && k < |inputs| && IndexOf(idx, inputs[k].shape)
    ensures var left, right := Product(first[..axis]), Product(first[axis + 1..]);
            var total := Extent(inputs, axis);
            var kernelInputs := KernelInputs(inputs, axis, left, right);
            var moved := idx[axis := Extent(inputs[..k], axis) + idx[axis]];
            var position := Ravel(first[axis := total], moved);
            && IndexOf(moved, first[axis := total])
            && Extent(kernelInputs, 1) == total && position < Product([left, total, right])
            && Ravel(inputs[k].shape, idx) < |inputs[k].data|
            && Joined(kernelInputs, left, total, right, position) ==
                 Some(inputs[k].data[Ravel(inputs[k].shape, idx)])
  {
    hide Joined, KernelInputs, Locate;
    var t := inputs[k];
    assert t in inputs && t.Valid() && SameBesides(t.shape, first, axis);
    LocateAt(inputs, axis, k, idx[axis]);
    RavelBound(t.shape, idx);
    var moved := idx[axis := Extent(inputs[..k], axis) + idx[axis]];
    JoinIsConcat(inputs, axis, first, moved);
    assert moved[axis := idx[axis]] == idx;
  }

  lemma IndexTail(idx: seq<nat>, sizes: Shape, n: nat)
    requires IndexOf(idx, sizes) && n <= |sizes|
    ensures IndexOf(idx[n..], sizes[n..])
  {
  }

  lemma {:induction false} NoExtent<T>(inputs: seq<Tensor<T>>, axis: nat)
    requires forall t <- inputs :: axis < |t.shape|
    ensures Extent(inputs, axis) == 0 <==> forall t <- inputs :: t.shape[axis] == 0
  {
    if inputs != [] {
      NoExtent(inputs[1..], axis);
      assert inputs == [inputs[0]] + inputs[1..];
    }
  }

  /** The kernel is skipped, because all inputs are empty, exactly when the concatenation has no elements. */
  lemma NoOpExactlyWhenEmpty<T>(inputs: seq<Tensor<T>>, axis: nat, first: Shape)
    requires Inputs(inputs, axis, first)
    ensures (forall t <- inputs :: Product(t.shape) == 0) <==> Product(first[axis := Extent(inputs, axis)]) == 0
  {
    var total := Extent(inputs, axis);
    var left, right := Product(first[..axis]), Product(first[axis + 1..]);
    NoExtent(inputs, axis);
    SizeOfInput(first[axis := total], axis, first);
    NoElements(left, total, right);
    forall t <- inputs ensures Product(t.shape) == 0 <==> left == 0 || t.shape[axis] == 0 || right == 0 {
      SizeOfInput(t.shape, axis, first);
      NoElements(left, t.shape[axis], right);
    }
  }

  lemma NoElements(x: nat, y: nat, z: nat)
    ensures x * (y * z) == 0 <==> x == 0 || y == 0 || z == 0
  {
  }

  /** The output index as a three-dimensional one. */
  lemma OutputPosition(first: Shape, axis: nat, total: nat, idx: seq<nat>)
    requires axis < |first| && IndexOf(idx, first[axis := total])
    ensures var left, right := Product(first[..axis]), Product(first[axis + 1..]);
            var l, r := Ravel(first[..axis], idx[..axis]), Ravel(first[axis + 1..], idx[axis + 1..]);
            && IndexOf([l, idx[axis], r], [left, total, right])
            && Ravel(first[axis := total], idx) == Ravel([left, total, right], [l, idx[axis], r])
            && Product(first[axis := total]) == Product([left, total, right])
            && Ravel(first[axis := total], idx) < Product(first[axis := total])
  {
    var output := first[axis := total];
    assert output[..axis] == first[..axis] && output[axis + 1..] == first[axis + 1..];
    RavelBound(first[..axis], idx[..axis]);
    IndexTail(idx, output, axis + 1);
    RavelBound(first[axis + 1..], idx[axis + 1..]);
    CollapseKeepsPosition(output, axis, idx);
    RavelBound(output, idx);
    SizeOfInput(output, axis, first);
    Ravel3(Product(first[..axis]), total, Product(first[axis + 1..]), 0, 0, 0);
  }

  /** The element the join fetches from an input is the element the concatenation names. */
  lemma InputPosition<T>(t: Tensor<T>, axis: nat, first: Shape, idx: seq<nat>, local: nat)
    requires axis < |first| == |idx| && t.Valid() && SameBesides(t.shape, first, axis) && local < t.shape[axis]
    requires forall i :: 0 <= i < |idx| && i != axis ==> idx[i] < first[i]
    ensures var left, right := Product(first[..axis]), Product(first[axis + 1..]);
            var l, r := Ravel(first[..axis], idx[..axis]), Ravel(first[axis + 1..], idx[axis + 1..]);
            && Fetch(t, idx[axis := local]).Some?
            && Fetch(t, idx[axis := local]) == Fetch(Flattened(t, axis, left, right), [l, local, r])
  {
    SizeOfInput(t.shape, axis, first);
    var idx' := idx[axis := local];
    assert idx'[..axis] == idx[..axis] && idx'[axis + 1..] == idx[axis + 1..];
    CollapseKeepsPosition(t.shape, axis, idx');
    RavelBound(t.shape, idx');
  }
}
