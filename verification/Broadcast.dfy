/** Numpy-style broadcasting of tensor shapes (tfdml/core/dml_operator_helper.cc). */
module Broadcast {
  import opened Wrappers
  import opened MixedRadix
  import TD = TensorDesc

  /** Size p of a shape counted from the right; sizes beyond its rank are 1. */
  function SizeAt(shape: Shape, p: nat): nat {
    if p < |shape| then shape[|shape| - 1 - p] else 1
  }

  predicate Fits(x: nat, y: nat) {
    x == y || x == 1 || y == 1
  }

  predicate Compatible(a: Shape, b: Shape) {
    forall p :: 0 <= p < |a| && p < |b| ==> Fits(SizeAt(a, p), SizeAt(b, p))
  }

  /** Two sizes joined: 1 gives way, and 0 stays 0. */
  function Join(x: nat, y: nat): nat {
    if x == 1 then y else x
  }

  function Broadcasted(a: Shape, b: Shape): (r: Shape)
    ensures |r| == Max(|a|, |b|)
  {
    var rank := Max(|a|, |b|);
    seq<nat>(rank, i requires 0 <= i < rank => Join(SizeAt(a, rank - 1 - i), SizeAt(b, rank - 1 - i)))
  }

  lemma BroadcastedAt(a: Shape, b: Shape, p: nat)
    requires p < |Broadcasted(a, b)|
    ensures SizeAt(Broadcasted(a, b), p) == Join(SizeAt(a, p), SizeAt(b, p))
  {
  }

  /** None where the CHECK aborts. */
  method BroadcastTensorShape(a: Shape, b: Shape) returns (r: Option<Shape>)
    ensures r.Some? <==> Compatible(a, b)
    ensures r.Some? ==> r.value == Broadcasted(a, b)
  {
    if a == b {
      SameShape(a);
      return Some(a);
    }
    var outputRank := Max(|a|, |b|);
    var output: Shape := seq(outputRank, _ => 0);
    var inDim0Idx, inDim1Idx := |a| - 1, |b| - 1;
    var outDimIdx := outputRank - 1;
    while 0 <= outDimIdx
      invariant -1 <= outDimIdx < outputRank == |output|
      invariant inDim0Idx == (if outputRank - 1 - outDimIdx < |a| then |a| - 1 - (outputRank - 1 - outDimIdx) else -1)
      invariant inDim1Idx == (if outputRank - 1 - outDimIdx < |b| then |b| - 1 - (outputRank - 1 - outDimIdx) else -1)
      invariant forall p {:trigger SizeAt(a, p)} :: 0 <= p < outputRank - 1 - outDimIdx ==> Fits(SizeAt(a, p), SizeAt(b, p))
      invariant forall i :: outDimIdx < i < outputRank ==>
                  output[i] == Join(SizeAt(a, outputRank - 1 - i), SizeAt(b, outputRank - 1 - i))
    {
      var inDim0, inDim1 := 1, 1;
      if 0 <= inDim0Idx {
        inDim0 := a[inDim0Idx];
        inDim0Idx := inDim0Idx - 1;
      }
      if 0 <= inDim1Idx {
        inDim1 := b[inDim1Idx];
        inDim1Idx := inDim1Idx - 1;
      }
      ghost var p := outputRank - 1 - outDimIdx;
      assert inDim0 == SizeAt(a, p) && inDim1 == SizeAt(b, p);
      if !(inDim0 == inDim1 || inDim0 == 1 || inDim1 == 1) {
        return None;
      }
      var broadcastedDim := Max(inDim0, inDim1);
      if inDim0 == 0 || inDim1 == 0 {
        broadcastedDim := 0;
      }
      output := output[outDimIdx := broadcastedDim];
      outDimIdx := outDimIdx - 1;
    }
    r := Some(output);
    assert output == Broadcasted(a, b);
  }

  lemma SameShape(a: Shape)
    ensures Compatible(a, a) && Broadcasted(a, a) == a
  {
    var r := Broadcasted(a, a);
    forall i | 0 <= i < |a| ensures r[i] == a[i] {
      BroadcastedAt(a, a, |a| - 1 - i);
    }
  }

  // ---------- Many shapes ----------

  predicate PairwiseCompatible(shapes: seq<Shape>) {
    forall i, j :: 0 <= i < |shapes| && 0 <= j < |shapes| ==> Compatible(shapes[i], shapes[j])
  }

  function Rank(shapes: seq<Shape>): nat {
    if shapes == [] then 0 else Max(Rank(shapes[..|shapes| - 1]), |shapes[|shapes| - 1]|)
  }

  /**
   * What a common shape must be, independently of how it is computed: its rank is the largest, and each of its
   * sizes is one of the inputs', with every other input's size there equal to it or 1.
   */
  ghost predicate IsCommon(shapes: seq<Shape>, r: Shape) {
    && |r| == Rank(shapes)
    && forall p: nat {:trigger SizeAt(r, p)} :: p < |r| ==>
         && (forall s <- shapes :: SizeAt(s, p) == SizeAt(r, p) || SizeAt(s, p) == 1)
         && (SizeAt(r, p) == 1 || exists s :: s in shapes && SizeAt(s, p) == SizeAt(r, p))
  }

  lemma {:induction false} RankFacts(shapes: seq<Shape>)
    ensures forall s <- shapes :: |s| <= Rank(shapes)
    ensures shapes != [] ==> exists s :: s in shapes && |s| == Rank(shapes)
  {
    if shapes != [] {
      var front, last := shapes[..|shapes| - 1], shapes[|shapes| - 1];
      RankFacts(front);
      assert shapes == front + [last];
      assert last in shapes;
    }
  }

  /** There is at most one common shape, so order and grouping cannot matter. */
  lemma CommonIsUnique(shapes: seq<Shape>, shapes': seq<Shape>, r: Shape, r': Shape)
    requires IsCommon(shapes, r) && IsCommon(shapes', r') && shapes != []
    requires forall s :: s in shapes <==> s in shapes'
    ensures r == r'
  {
    RankFacts(shapes);
    RankFacts(shapes');
    var top :| top in shapes && |top| == Rank(shapes);
    assert shapes' != [] by { assert top in shapes'; }
    var top' :| top' in shapes' && |top'| == Rank(shapes');
    assert |r| == |r'|;
    forall i | 0 <= i < |r| ensures r[i] == r'[i] {
      var p := |r| - 1 - i;
      assert SizeAt(r, p) == r[i] && SizeAt(r', p) == r'[i];
    }
  }

  /** Adding one compatible shape to a common one yields the common shape of all. */
  lemma CommonExtends(shapes: seq<Shape>, r: Shape, s: Shape)
    requires IsCommon(shapes, r) && Compatible(r, s)
    ensures IsCommon(shapes + [s], Broadcasted(r, s))
  {
    var all, r' := shapes + [s], Broadcasted(r, s);
    assert all[..|all| - 1] == shapes;
    RankFacts(shapes);
    forall p: nat | p < |r'|
      ensures forall t <- all :: SizeAt(t, p) == SizeAt(r', p) || SizeAt(t, p) == 1
      ensures SizeAt(r', p) == 1 || exists t :: t in all && SizeAt(t, p) == SizeAt(r', p)
    {
      BroadcastedAt(r, s, p);
      assert p < |r| && p < |s| ==> Fits(SizeAt(r, p), SizeAt(s, p));
      assert s in all;
      if p < |r| && SizeAt(r, p) != 1 {
        var t :| t in shapes && SizeAt(t, p) == SizeAt(r, p);
        assert t in all;
      }
    }
  }

  /** A shape clashes with the common one exactly when it clashes with one of the shapes behind it. */
  lemma CompatibleWithCommon(shapes: seq<Shape>, r: Shape, s: Shape)
    requires IsCommon(shapes, r)
    ensures Compatible(r, s) <==> forall t <- shapes :: Compatible(t, s)
  {
    RankFacts(shapes);
    if Compatible(r, s) {
      forall t <- shapes, p: nat | p < |t| && p < |s| ensures Fits(SizeAt(t, p), SizeAt(s, p)) {
        assert p < |r| && Fits(SizeAt(r, p), SizeAt(s, p));
      }
    }
    if forall t <- shapes :: Compatible(t, s) {
      forall p: nat | p < |r| && p < |s| ensures Fits(SizeAt(r, p), SizeAt(s, p)) {
        if SizeAt(r, p) != 1 {
          var t :| t in shapes && SizeAt(t, p) == SizeAt(r, p);
          assert Compatible(t, s) && p < |t|;
        }
      }
    }
  }

  lemma CommonOfOne(s: Shape)
    ensures IsCommon([s], s)
  {
    assert [s][..0] == [];
    assert s in [s];
  }

  /**
   * The fold over all inputs: it succeeds exactly for pairwise compatible shapes, zero sizes included, and then
   * yields their common shape.
   */
  method BroadcastTensorShapes(shapes: seq<Shape>) returns (r: Option<Shape>)
    requires shapes != []
    ensures r.Some? <==> PairwiseCompatible(shapes)
    ensures r.Some? ==> IsCommon(shapes, r.value)
  {
    var accumulated := shapes[0];
    CommonOfOne(shapes[0]);
    SameShape(shapes[0]);
    assert shapes[..1] == [shapes[0]];
    for i := 0 to |shapes|
      invariant IsCommon(shapes[..if i == 0 then 1 else i], accumulated)
      invariant PairwiseCompatible(shapes[..if i == 0 then 1 else i])
    {
      var seen := shapes[..if i == 0 then 1 else i];
      CompatibleWithCommon(seen, accumulated, shapes[i]);
      var next := BroadcastTensorShape(accumulated, shapes[i]);
      if next == None {
        var t :| t in seen && !Compatible(t, shapes[i]);
        return None;
      }
      if i == 0 {
        assert next.value == accumulated;
      } else {
        CommonExtends(seen, accumulated, shapes[i]);
        assert shapes[..i + 1] == seen + [shapes[i]];
        MorePairs(seen, shapes[i]);
      }
      accumulated := next.value;
    }
    assert shapes[..|shapes|] == shapes;
    r := Some(accumulated);
  }

  lemma MorePairs(seen: seq<Shape>, s: Shape)
    requires PairwiseCompatible(seen) && forall t <- seen :: Compatible(t, s)
    ensures PairwiseCompatible(seen + [s])
  {
    SameShape(s);
    var all := seen + [s];
    forall i, j | 0 <= i < |all| && 0 <= j < |all| ensures Compatible(all[i], all[j]) {
      if i == |seen| && j < |seen| {
        assert Compatible(seen[j], s);
        forall p: nat | p < |s| && p < |seen[j]| ensures Fits(SizeAt(s, p), SizeAt(seen[j], p)) {
          assert Fits(SizeAt(seen[j], p), SizeAt(s, p));
        }
      }
    }
  }

  /** Grouping: broadcasting the results of two groups gives the common shape of all. */
  lemma CommonOfGroups(xs: seq<Shape>, ys: seq<Shape>, r: Shape, r': Shape)
    requires IsCommon(xs, r) && IsCommon(ys, r') && Compatible(r, r')
    ensures IsCommon(xs + ys, Broadcasted(r, r'))
  {
    var all, b := xs + ys, Broadcasted(r, r');
    RankFacts(xs);
    RankFacts(ys);
    RankConcat(xs, ys);
    forall p: nat | p < |b|
      ensures forall t <- all :: SizeAt(t, p) == SizeAt(b, p) || SizeAt(t, p) == 1
      ensures SizeAt(b, p) == 1 || exists t :: t in all && SizeAt(t, p) == SizeAt(b, p)
    {
      BroadcastedAt(r, r', p);
      assert p < |r| && p < |r'| ==> Fits(SizeAt(r, p), SizeAt(r', p));
      forall t <- all ensures SizeAt(t, p) == SizeAt(b, p) || SizeAt(t, p) == 1 {
        if t in xs { assert p < |r| || SizeAt(t, p) == 1; } else { assert p < |r'| || SizeAt(t, p) == 1; }
      }
      if p < |r| && SizeAt(r, p) != 1 {
        var t :| t in xs && SizeAt(t, p) == SizeAt(r, p);
        assert t in all;
      } else if SizeAt(b, p) != 1 {
        var t :| t in ys && SizeAt(t, p) == SizeAt(r', p);
        assert t in all;
      }
    }
  }

  lemma {:induction false} RankConcat(xs: seq<Shape>, ys: seq<Shape>)
    ensures Rank(xs + ys) == Max(Rank(xs), Rank(ys))
  {
    if ys == [] {
      assert xs + ys == xs;
    } else {
      assert (xs + ys)[..|xs + ys| - 1] == xs + ys[..|ys| - 1];
      RankConcat(xs, ys[..|ys| - 1]);
    }
  }

  /** Every input stretches to the common shape, so describing it with ComputeStrides never aborts. */
  lemma InputsStretch(shapes: seq<Shape>, r: Shape, s: Shape)
    requires IsCommon(shapes, r) && s in shapes
    ensures |s| <= |r| && TD.Stretches(r, TD.Physical(|r|, s))
  {
    RankFacts(shapes);
    forall i | 0 <= i < |r| ensures r[i] == TD.Physical(|r|, s)[i] || TD.Physical(|r|, s)[i] == 1 {
      var p := |r| - 1 - i;
      assert SizeAt(r, p) == r[i] && SizeAt(s, p) == TD.Physical(|r|, s)[i];
    }
  }

  /** A zero size is never stretched away. */
  lemma ZeroStays(shapes: seq<Shape>, r: Shape, s: Shape, p: nat)
    requires IsCommon(shapes, r) && s in shapes && p < |s| && SizeAt(s, p) == 0
    ensures p < |r| && SizeAt(r, p) == 0 && Product(r) == 0
  {
    RankFacts(shapes);
    assert SizeAt(r, p) == 0;
    assert r[|r| - 1 - p] == 0;
    ZeroElements(r);
  }
}
