/**
 * BatchToSpaceND moves elements: every input element has one place in the uncropped output, and is in the output
 * exactly if no crop covers that place (tfdml/kernels/dml_batch_to_space_op.cc, lines 141 to 207).
 */
module BatchToSpaceElements {
  import opened MixedRadix
  import opened BatchToSpace

  /** Cell and phase put together, dimension by dimension. */
  function Places(cells: seq<nat>, blocks: seq<nat>, phases: seq<nat>): (r: seq<nat>)
    requires |cells| == |blocks| == |phases|
    ensures |r| == |cells|
  {
    seq(|cells|, i requires 0 <= i < |cells| => Combine(cells[i], blocks[i], phases[i]))
  }

  lemma PlacesDivide(cells: seq<nat>, blocks: seq<nat>, phases: seq<nat>)
    requires |cells| == |blocks| && Positive(blocks) && IndexOf(phases, blocks)
    ensures Quotients(Places(cells, blocks, phases), blocks) == cells
    ensures Remainders(Places(cells, blocks, phases), blocks) == phases
  {
    forall i | 0 <= i < |cells|
      ensures Quotients(Places(cells, blocks, phases), blocks)[i] == cells[i]
      ensures Remainders(Places(cells, blocks, phases), blocks)[i] == phases[i]
    {
      assert blocks[i] in blocks;
      DivModOf(cells[i], phases[i], blocks[i]);
    }
  }

  lemma DividedPlaces(y: seq<nat>, blocks: seq<nat>)
    requires |y| == |blocks| && Positive(blocks)
    ensures Places(Quotients(y, blocks), blocks, Remainders(y, blocks)) == y
    ensures IndexOf(Remainders(y, blocks), blocks)
  {
    forall i | 0 <= i < |y|
      ensures Places(Quotients(y, blocks), blocks, Remainders(y, blocks))[i] == y[i]
      ensures Remainders(y, blocks)[i] < blocks[i]
    {
      assert blocks[i] in blocks;
      DivMod(y[i], blocks[i]);
    }
  }

  lemma EntryBounds(batch: nat, blocks: seq<nat>, b: nat)
    requires 0 < Product(blocks) && batch % Product(blocks) == 0 && b < batch
    ensures 0 < Slab(batch, blocks) && b / Slab(batch, blocks) < Product(blocks)
  {
    SlabScales(batch, 1, blocks);
    var slab, count := Slab(batch, blocks), Product(blocks);
    hide Slab, Product;
    assert slab != 0;
    EntryBound(b, batch, slab, count);
  }

  lemma EntryBound(b: nat, batch: nat, slab: nat, count: nat)
    requires 0 < slab && b < batch == slab * count
    ensures b / slab < count
  {
    DivBound(b, count, slab);
  }

  /** Which combination of phases a batch entry belongs to. */
  function PhaseOf(batch: nat, blocks: seq<nat>, b: nat): (p: nat)
    requires 0 < Product(blocks) && batch % Product(blocks) == 0 && b < batch
    ensures p < Product(blocks)
  {
    EntryBounds(batch, blocks, b);
    b / Slab(batch, blocks)
  }

  predicate Fits(inputShape: Shape, blocks: seq<nat>) {
    1 + |blocks| <= |inputShape| && Positive(blocks) && 0 < Product(blocks) && inputShape[0] % Product(blocks) == 0
  }

  /** Where an input element goes before cropping: its batch entry splits into phases and an output entry. */
  function PlaceOf(inputShape: Shape, blocks: seq<nat>, idx: seq<nat>): (r: seq<nat>)
    requires Fits(inputShape, blocks) && IndexOf(idx, inputShape)
    ensures |r| == |inputShape|
  {
    var m := |blocks|;
    var slab := Slab(inputShape[0], blocks);
    EntryBounds(inputShape[0], blocks, idx[0]);
    var phase := PhaseOf(inputShape[0], blocks, idx[0]);
    RavelUnravel(blocks, phase);
    [idx[0] % slab] + Places(idx[1..1 + m], blocks, Unravel(blocks, phase)) + idx[1 + m..]
  }

  /** The place an output index stands for, crops included. */
  function Uncropped(o: seq<nat>, starts: seq<nat>): (r: seq<nat>)
    requires 1 + |starts| <= |o|
    ensures |r| == |o|
  {
    [o[0]] + Shift(o[1..1 + |starts|], starts) + o[1 + |starts|..]
  }

  /** Splitting a batch entry into phases and output entry, and back. */
  lemma EntrySplits(batch: nat, blocks: seq<nat>, phases: seq<nat>, n: nat)
    requires Positive(blocks) && 0 < Product(blocks) && batch % Product(blocks) == 0
    requires IndexOf(phases, blocks) && n < Slab(batch, blocks)
    ensures var b := Combine(Ravel(blocks, phases), Slab(batch, blocks), n);
            && b < batch && b % Slab(batch, blocks) == n
            && PhaseOf(batch, blocks, b) == Ravel(blocks, phases) && Unravel(blocks, Ravel(blocks, phases)) == phases
  {
    SlabScales(batch, 1, blocks);
    UnravelRavel(blocks, phases);
    DigitBound(Ravel(blocks, phases), Product(blocks), n, Slab(batch, blocks));
    DivModOf(Ravel(blocks, phases), n, Slab(batch, blocks));
  }

  lemma EntryJoins(batch: nat, blocks: seq<nat>, b: nat)
    requires Positive(blocks) && 0 < Product(blocks) && batch % Product(blocks) == 0 && b < batch
    ensures 0 < Slab(batch, blocks)
    ensures var phases := Unravel(blocks, PhaseOf(batch, blocks, b));
            && IndexOf(phases, blocks)
            && Combine(Ravel(blocks, phases), Slab(batch, blocks), b % Slab(batch, blocks)) == b
  {
    EntryBounds(batch, blocks, b);
    RavelUnravel(blocks, PhaseOf(batch, blocks, b));
    DivMod(b, Slab(batch, blocks));
  }

  /** The source of an output index, in parts. */
  lemma SourceInParts(inputShape: Shape, blocks: seq<nat>, starts: seq<nat>, o: seq<nat>)
    requires Fits(inputShape, blocks) && |starts| == |blocks| && |o| == |inputShape|
    ensures var m := |blocks|;
            var y := Shift(o[1..1 + m], starts);
            Source(inputShape, blocks, starts, o) ==
              [Combine(Ravel(blocks, Remainders(y, blocks)), Slab(inputShape[0], blocks), o[0])]
              + Quotients(y, blocks) + o[1 + m..]
  {
    Halves(o, |blocks|);
    SourceOf(inputShape, blocks, starts, o[0], o[1..1 + |blocks|], o[1 + |blocks|..]);
  }

  lemma SameParts(a: nat, b: seq<nat>, c: seq<nat>, x: nat, y: seq<nat>, z: seq<nat>)
    requires |b| == |y| && [a] + b + c == [x] + y + z
    ensures a == x && b == y && c == z
  {
    var s, t := [a] + b + c, [x] + y + z;
    assert s[0] == a && s[1..1 + |b|] == b && s[1 + |b|..] == c;
    assert t[0] == x && t[1..1 + |y|] == y && t[1 + |y|..] == z;
  }

  /** The source of an output index goes back to the place that index stands for. */
  lemma SourceHasPlace(inputShape: Shape, blocks: seq<nat>, starts: seq<nat>, o: seq<nat>)
    requires Fits(inputShape, blocks) && |starts| == |blocks| && |o| == |inputShape|
    requires o[0] < Slab(inputShape[0], blocks) && IndexOf(Source(inputShape, blocks, starts, o), inputShape)
    ensures PlaceOf(inputShape, blocks, Source(inputShape, blocks, starts, o)) == Uncropped(o, starts)
  {
    var m, idx := |blocks|, Source(inputShape, blocks, starts, o);
    var y := Shift(o[1..1 + m], starts);
    SourceInParts(inputShape, blocks, starts, o);
    DividedPlaces(y, blocks);
    EntrySplits(inputShape[0], blocks, Remainders(y, blocks), o[0]);
    Halves(idx, m);
    SameParts(idx[0], idx[1..1 + m], idx[1 + m..],
              Combine(Ravel(blocks, Remainders(y, blocks)), Slab(inputShape[0], blocks), o[0]),
              Quotients(y, blocks), o[1 + m..]);
  }

  /** And an output index that stands for an element's place has that element as its source. */
  lemma PlaceHasSource(inputShape: Shape, blocks: seq<nat>, starts: seq<nat>, idx: seq<nat>, o: seq<nat>)
    requires Fits(inputShape, blocks) && |starts| == |blocks| && |o| == |inputShape| && IndexOf(idx, inputShape)
    requires Uncropped(o, starts) == PlaceOf(inputShape, blocks, idx)
    ensures Source(inputShape, blocks, starts, o) == idx
  {
    var m, slab := |blocks|, Slab(inputShape[0], blocks);
    EntryJoins(inputShape[0], blocks, idx[0]);
    var phases := Unravel(blocks, PhaseOf(inputShape[0], blocks, idx[0]));
    var y := Shift(o[1..1 + m], starts);
    SameParts(o[0], y, o[1 + m..], idx[0] % slab, Places(idx[1..1 + m], blocks, phases), idx[1 + m..]);
    PlacesDivide(idx[1..1 + m], blocks, phases);
    SourceInParts(inputShape, blocks, starts, o);
    Halves(idx, m);
  }

  // ---------- Which elements survive ----------

  /** No crop covers the place. */
  predicate Kept(inputShape: Shape, blocks: seq<nat>, crops: seq<Crop>, place: seq<nat>)
    requires |blocks| == |crops| && 1 + |blocks| <= |inputShape| == |place|
  {
    forall i :: 0 <= i < |blocks| ==>
      crops[i].0 <= place[1 + i] && place[1 + i] + crops[i].1 < inputShape[1 + i] * blocks[i]
  }

  /** The output index that stands for a kept place. */
  function CroppedIndex(crops: seq<Crop>, place: seq<nat>): (r: seq<nat>)
    requires 1 + |crops| <= |place|
    requires forall i :: 0 <= i < |crops| ==> 0 <= crops[i].0 <= place[1 + i]
    ensures |r| == |place|
  {
    seq(|place|, j requires 0 <= j < |place| => if 1 <= j <= |crops| then place[j] - crops[j - 1].0 else place[j])
  }

  /** Each output size, one dimension at a time. */
  lemma OutputSizes(inputShape: Shape, blocks: seq<nat>, crops: seq<Crop>, j: nat)
    requires Acceptable(inputShape, blocks, crops) && j < |inputShape|
    ensures OutputShape(inputShape, blocks, crops)[j] ==
              if j == 0 then Slab(inputShape[0], blocks)
              else if j <= |blocks| then inputShape[j] * blocks[j - 1] - crops[j - 1].0 - crops[j - 1].1
              else inputShape[j]
  {
  }

  /**
   * What cropping takes away is what is missing: batch, space and the rest of the output add up to the input's, with
   * the crops.
   */
  lemma OutputConserves(inputShape: Shape, blocks: seq<nat>, crops: seq<Crop>)
    requires Acceptable(inputShape, blocks, crops)
    ensures var out := OutputShape(inputShape, blocks, crops);
            && out[0] * Product(blocks) == inputShape[0]
            && (forall i :: 0 <= i < |blocks| ==> out[1 + i] + crops[i].0 + crops[i].1 == inputShape[1 + i] * blocks[i])
            && (forall j :: |blocks| < j < |out| ==> out[j] == inputShape[j])
  {
    SlabScales(inputShape[0], 1, blocks);
    forall i | 0 <= i < |blocks|
      ensures OutputShape(inputShape, blocks, crops)[1 + i] + crops[i].0 + crops[i].1 == inputShape[1 + i] * blocks[i]
    {
      OutputSizes(inputShape, blocks, crops, 1 + i);
    }
  }

  lemma AcceptableFits(inputShape: Shape, blocks: seq<nat>, crops: seq<Crop>)
    requires Acceptable(inputShape, blocks, crops)
    ensures Fits(inputShape, blocks) && forall i :: 0 <= i < |crops| ==> 0 <= crops[i].0
  {
    PositiveBlocks(blocks);
    NonNegativeStarts(inputShape[1..1 + |blocks|], blocks, crops);
  }

  /** An output index stands for a kept place. */
  lemma OutputIsKept(inputShape: Shape, blocks: seq<nat>, crops: seq<Crop>, o: seq<nat>)
    requires Acceptable(inputShape, blocks, crops) && (forall i :: 0 <= i < |crops| ==> 0 <= crops[i].0)
    requires IndexOf(o, OutputShape(inputShape, blocks, crops))
    ensures Kept(inputShape, blocks, crops, Uncropped(o, Starts(crops)))
    ensures CroppedIndex(crops, Uncropped(o, Starts(crops))) == o
  {
    var place := Uncropped(o, Starts(crops));
    forall i | 0 <= i < |blocks|
      ensures crops[i].0 <= place[1 + i] && place[1 + i] + crops[i].1 < inputShape[1 + i] * blocks[i]
      ensures place[1 + i] == o[1 + i] + crops[i].0
    {
      OutputSizes(inputShape, blocks, crops, 1 + i);
      assert o[1..1 + |crops|][i] == o[1 + i];
    }
  }

  /** And a kept place is that of an output index. */
  lemma KeptIsOutput(inputShape: Shape, blocks: seq<nat>, crops: seq<Crop>, idx: seq<nat>)
    requires Acceptable(inputShape, blocks, crops) && (forall i :: 0 <= i < |crops| ==> 0 <= crops[i].0)
    requires Fits(inputShape, blocks) && IndexOf(idx, inputShape)
    requires Kept(inputShape, blocks, crops, PlaceOf(inputShape, blocks, idx))
    ensures var o := CroppedIndex(crops, PlaceOf(inputShape, blocks, idx));
            && IndexOf(o, OutputShape(inputShape, blocks, crops))
            && Uncropped(o, Starts(crops)) == PlaceOf(inputShape, blocks, idx)
  {
    var place := PlaceOf(inputShape, blocks, idx);
    var o := CroppedIndex(crops, place);
    PlaceOutside(inputShape, blocks, idx);
    hide PlaceOf, Uncropped, OutputShape, Acceptable, Fits;
    assert |OutputShape(inputShape, blocks, crops)| == |o|;
    forall j | 0 <= j < |o| ensures o[j] < OutputShape(inputShape, blocks, crops)[j] {
      OutputSizes(inputShape, blocks, crops, j);
    }
    CropsUndone(crops, place);
  }

  /** Outside the space the place is a batch entry of the output, and the element's own coordinates. */
  lemma PlaceOutside(inputShape: Shape, blocks: seq<nat>, idx: seq<nat>)
    requires Fits(inputShape, blocks) && IndexOf(idx, inputShape)
    ensures PlaceOf(inputShape, blocks, idx)[0] < Slab(inputShape[0], blocks)
    ensures forall j :: |blocks| < j < |idx| ==> PlaceOf(inputShape, blocks, idx)[j] == idx[j]
  {
    EntryJoins(inputShape[0], blocks, idx[0]);
  }

  lemma CropsUndone(crops: seq<Crop>, place: seq<nat>)
    requires 1 + |crops| <= |place|
    requires forall i :: 0 <= i < |crops| ==> 0 <= crops[i].0 <= place[1 + i]
    ensures Uncropped(CroppedIndex(crops, place), Starts(crops)) == place
  {
  }

  /**
   * Every input element is in the output exactly if no crop covers its place, and then once: at its place less the
   * crops. Without crops the operation is a permutation of the elements.
   */
  lemma EveryElementOnce(inputShape: Shape, blocks: seq<nat>, crops: seq<Crop>, idx: seq<nat>)
    requires Acceptable(inputShape, blocks, crops) && IndexOf(idx, inputShape)
    ensures Fits(inputShape, blocks) && forall i :: 0 <= i < |crops| ==> 0 <= crops[i].0
    ensures forall o :: IndexOf(o, OutputShape(inputShape, blocks, crops)) ==>
              (Source(inputShape, blocks, Starts(crops), o) == idx <==>
               Kept(inputShape, blocks, crops, PlaceOf(inputShape, blocks, idx))
               && o == CroppedIndex(crops, PlaceOf(inputShape, blocks, idx)))
    ensures Kept(inputShape, blocks, crops, PlaceOf(inputShape, blocks, idx)) ==>
              IndexOf(CroppedIndex(crops, PlaceOf(inputShape, blocks, idx)), OutputShape(inputShape, blocks, crops))
  {
    AcceptableFits(inputShape, blocks, crops);
    var place, starts := PlaceOf(inputShape, blocks, idx), Starts(crops);
    hide PlaceOf, Acceptable, OutputShape, Source, Uncropped, Starts, Kept, CroppedIndex, Fits;
    if Kept(inputShape, blocks, crops, place) {
      KeptIsOutput(inputShape, blocks, crops, idx);
    }
    forall o | IndexOf(o, OutputShape(inputShape, blocks, crops))
      ensures Source(inputShape, blocks, starts, o) == idx <==>
              Kept(inputShape, blocks, crops, place) && o == CroppedIndex(crops, place)
    {
      SourceExactly(inputShape, blocks, crops, idx, o);
    }
  }

  lemma SourceExactly(inputShape: Shape, blocks: seq<nat>, crops: seq<Crop>, idx: seq<nat>, o: seq<nat>)
    requires Acceptable(inputShape, blocks, crops) && IndexOf(idx, inputShape)
    requires Fits(inputShape, blocks) && forall i :: 0 <= i < |crops| ==> 0 <= crops[i].0
    requires IndexOf(o, OutputShape(inputShape, blocks, crops))
    ensures var place := PlaceOf(inputShape, blocks, idx);
            Source(inputShape, blocks, Starts(crops), o) == idx <==>
            Kept(inputShape, blocks, crops, place) && o == CroppedIndex(crops, place)
  {
    OutputSizes(inputShape, blocks, crops, 0);
    OutputIsKept(inputShape, blocks, crops, o);
    if Source(inputShape, blocks, Starts(crops), o) == idx {
      SourceHasPlace(inputShape, blocks, Starts(crops), o);
    }
    if Kept(inputShape, blocks, crops, PlaceOf(inputShape, blocks, idx))
       && o == CroppedIndex(crops, PlaceOf(inputShape, blocks, idx)) {
      KeptIsOutput(inputShape, blocks, crops, idx);
      PlaceHasSource(inputShape, blocks, Starts(crops), idx, o);
    }
  }
}
