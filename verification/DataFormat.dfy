/** Format strings as permutations: DataFormatVecPermute and DataFormatDimMap
    (tfdml/kernels/dml_data_format_vec_permute.cc, tfdml/kernels/dml_data_format_dim_map.cc). */
module DataFormat {
  import opened Wrappers
  import opened MixedRadix

  type Byte = x: nat | x < 256

  type Format = seq<Byte>

  /** dst spells the characters of src, each once, in another order. */
  ghost predicate Permutation(src: Format, dst: Format) {
    Distinct(src) && Distinct(dst) && forall c :: c in src <==> c in dst
  }

  ghost function Chars(s: Format): set<Byte> {
    set c | c in s
  }

  lemma {:induction false} CharCount(s: Format)
    ensures |Chars(s)| <= |s|
    ensures Distinct(s) ==> |Chars(s)| == |s|
  {
    if s != [] {
      var last := |s| - 1;
      CharCount(s[..last]);
      assert s == s[..last] + [s[last]];
      assert Chars(s) == Chars(s[..last]) + {s[last]};
      if Distinct(s) {
        assert Distinct(s[..last]) && s[last] !in Chars(s[..last]);
      }
    }
  }

  lemma SubsetProperty(a: set<Byte>, b: set<Byte>)
    requires a <= b && |a| == |b|
    ensures a == b
  {
    assert |b| == |b - a| + |a|;
    assert b == b - a + a;
  }

  /** Equal length and the first string inside the second close the circle. */
  lemma SameChars(src: Format, dst: Format)
    requires Distinct(src) && Distinct(dst)
    ensures Permutation(src, dst) <==> |src| == |dst| && forall c <- dst :: c in src
  {
    CharCount(src);
    CharCount(dst);
    if Permutation(src, dst) {
      assert Chars(src) == Chars(dst);
    }
    if |src| == |dst| && forall c <- dst :: c in src {
      SubsetProperty(Chars(dst), Chars(src));
      forall c ensures c in src <==> c in dst {
        assert c in Chars(src) <==> c in Chars(dst);
      }
    }
  }

  /** The 256-entry table, switched on by src and off by dst. */
  method IsValidPermutation(src: Format, dst: Format) returns (ok: bool)
    ensures ok <==> Permutation(src, dst)
  {
    if |src| != |dst| {
      if Distinct(src) && Distinct(dst) { SameChars(src, dst); }
      return false;
    }
    var characters := new bool[256](_ => false);
    for i := 0 to |src|
      invariant Distinct(src[..i])
      invariant forall c: nat :: c < 256 ==> (characters[c] <==> c in src[..i])
    {
      var charIndex := src[i];
      if characters[charIndex] {
        assert !Distinct(src) by {
          var k :| 0 <= k < i && src[..i][k] == charIndex;
          assert src[k] == src[i];
        }
        return false;
      }
      characters[charIndex] := true;
      assert src[..i + 1] == src[..i] + [charIndex];
    }
    assert src[..|src|] == src;
    for j := 0 to |dst|
      invariant Distinct(dst[..j])
      invariant forall c <- dst[..j] :: c in src
      invariant forall c: nat :: c < 256 ==> (characters[c] <==> c in src && c !in dst[..j])
    {
      var charIndex := dst[j];
      if !characters[charIndex] {
        assert charIndex in dst;
        assert charIndex in dst[..j] ==> !Distinct(dst) by {
          if charIndex in dst[..j] {
            var k :| 0 <= k < j && dst[..j][k] == charIndex;
            assert dst[k] == dst[j];
          }
        }
        return false;
      }
      characters[charIndex] := false;
      assert dst[..j + 1] == dst[..j] + [charIndex];
    }
    assert dst[..|dst|] == dst;
    SameChars(src, dst);
    ok := true;
  }

  // ---------- The permutation table ----------

  function Find(s: Format, c: Byte): (i: nat)
    requires c in s
    ensures i < |s| && s[i] == c
  {
    if s[0] == c then 0 else 1 + Find(s[1..], c)
  }

  lemma FindAt(s: Format, i: nat)
    requires Distinct(s) && i < |s|
    ensures Find(s, s[i]) == i
  {
  }

  /** Entry i says where the i-th destination character stands in the source. */
  function Table(src: Format, dst: Format): (r: seq<nat>)
    requires forall c <- dst :: c in src
    ensures |r| == |dst| && forall i :: 0 <= i < |r| ==> r[i] < |src|
  {
    seq(|dst|, i requires 0 <= i < |dst| => assert dst[i] in dst; Find(src, dst[i]))
  }

  method BuildTable(src: Format, dst: Format) returns (permutations: seq<nat>)
    requires Distinct(src) && forall c <- dst :: c in src
    ensures permutations == Table(src, dst)
  {
    permutations := [];
    for dstIndex := 0 to |dst|
      invariant |permutations| == dstIndex
      invariant forall i :: 0 <= i < dstIndex ==> permutations[i] == Table(src, dst)[i]
    {
      assert dst[dstIndex] in src;
      ghost var was := permutations;
      for srcIndex := 0 to |src|
        invariant permutations == was && forall k :: 0 <= k < srcIndex ==> src[k] != dst[dstIndex]
      {
        if dst[dstIndex] == src[srcIndex] {
          FindAt(src, srcIndex);
          permutations := permutations + [srcIndex];
          break;
        }
      }
    }
  }

  /** Swapping the formats inverts the table. */
  lemma TablesInvert(src: Format, dst: Format, i: nat)
    requires Permutation(src, dst) && i < |src|
    ensures |src| == |dst|
    ensures Table(src, dst)[Table(dst, src)[i]] == i
  {
    SameChars(src, dst);
    assert src[i] in src;
    FindAt(src, i);
  }

  // ---------- Moving rows ----------

  /** Row i of a buffer of equally long rows. */
  function Row<T>(buffer: seq<T>, i: nat, stride: nat): seq<T>
    requires (i + 1) * stride <= |buffer|
  {
    RowStart(i, stride);
    buffer[i * stride..(i + 1) * stride]
  }

  lemma RowStart(i: nat, stride: nat)
    ensures 0 <= i * stride <= (i + 1) * stride == i * stride + stride
  {
  }

  lemma RowFits(i: nat, rows: nat, stride: nat)
    requires i < rows
    ensures (i + 1) * stride <= rows * stride
  {
    MulMono(i + 1, rows, stride);
  }

  /** Every row of the result is the row of the input that the table names. */
  ghost predicate Moved<T>(input: seq<T>, output: seq<T>, table: seq<nat>, stride: nat) {
    && |output| == |input| == |table| * stride
    && (forall i :: 0 <= i < |table| ==> table[i] < |table|)
    && forall i :: 0 <= i < |table| ==> SameRow(input, table[i], output, i, stride)
  }

  ghost predicate SameRow<T>(a: seq<T>, i: nat, b: seq<T>, j: nat, stride: nat) {
    (i + 1) * stride <= |a| && (j + 1) * stride <= |b| && Row(a, i, stride) == Row(b, j, stride)
  }

  /** One strided copy from buffer to buffer. */
  method CopyBuffer<T>(output: array<T>, dst: nat, input: seq<T>, src: nat, size: nat)
    requires dst + size <= output.Length && src + size <= |input|
    modifies output
    ensures output[..] == old(output[..dst]) + input[src..src + size] + old(output[dst + size..])
  {
    for k := 0 to size
      invariant output[..] == old(output[..dst]) + input[src..src + k] + old(output[dst + k..])
    {
      output[dst + k] := input[src + k];
    }
  }

  /** Writing one row leaves the rows before it alone. */
  lemma RowsBefore<T>(was: seq<T>, row: seq<T>, now: seq<T>, i: nat, stride: nat)
    requires (i + 1) * stride <= |was| && |row| == stride
    requires 0 <= i * stride <= i * stride + stride <= |was|
    requires now == was[..i * stride] + row + was[i * stride + stride..]
    ensures |now| == |was| && Row(now, i, stride) == row
    ensures forall j :: 0 <= j < i ==> SameRow(was, j, now, j, stride)
  {
    RowStart(i, stride);
    forall j | 0 <= j < i ensures SameRow(was, j, now, j, stride) {
      RowFits(j, i, stride);
      RowStart(j, stride);
    }
  }

  method CopyRow<T>(input: seq<T>, src: nat, output: array<T>, dst: nat, stride: nat)
    requires (src + 1) * stride <= |input| && (dst + 1) * stride <= output.Length
    modifies output
    ensures SameRow(input, src, output[..], dst, stride)
    ensures forall j :: 0 <= j < dst ==> SameRow(old(output[..]), j, output[..], j, stride)
  {
    RowStart(dst, stride);
    RowStart(src, stride);
    ghost var was := output[..];
    CopyBuffer(output, dst * stride, input, src * stride, stride);
    RowsBefore(was, Row(input, src, stride), output[..], dst, stride);
  }

  /** The first n rows of the result are in place. */
  ghost predicate MovedUpTo<T>(input: seq<T>, output: seq<T>, table: seq<nat>, n: nat, stride: nat)
    requires n <= |table|
  {
    forall j :: 0 <= j < n ==> SameRow(input, table[j], output, j, stride)
  }

  lemma OneMoreMoved<T>(input: seq<T>, was: seq<T>, now: seq<T>, table: seq<nat>, n: nat, stride: nat)
    requires n < |table| && MovedUpTo(input, was, table, n, stride)
    requires SameRow(input, table[n], now, n, stride)
    requires forall j :: 0 <= j < n ==> SameRow(was, j, now, j, stride)
    ensures MovedUpTo(input, now, table, n + 1, stride)
  {
    forall j | 0 <= j < n ensures SameRow(input, table[j], now, j, stride) {
      assert SameRow(input, table[j], was, j, stride) && SameRow(was, j, now, j, stride);
    }
  }

  method CopyRows<T>(input: seq<T>, output: array<T>, permutations: seq<nat>, stride: nat)
    requires |input| == output.Length == |permutations| * stride
    requires forall i :: 0 <= i < |permutations| ==> permutations[i] < |permutations|
    modifies output
    ensures Moved(input, output[..], permutations, stride)
  {
    for i := 0 to |permutations|
      invariant MovedUpTo(input, output[..], permutations, i, stride)
    {
      RowFits(i, |permutations|, stride);
      RowFits(permutations[i], |permutations|, stride);
      ghost var was := output[..];
      CopyRow(input, permutations[i], output, i, stride);
      OneMoreMoved(input, was, output[..], permutations, i, stride);
    }
  }

  lemma RowAtEnd(i: nat, stride: nat, position: nat, rows: nat)
    requires 0 < stride && position < rows * stride && i == position / stride
    ensures i < rows && i * stride <= position < (i + 1) * stride <= rows * stride
  {
    DivBound(position, rows, stride);
    RowFits(i, rows, stride);
  }

  /** Buffers whose rows agree are equal. */
  lemma RowsDetermine<T>(a: seq<T>, b: seq<T>, rows: nat, stride: nat)
    requires |a| == |b| == rows * stride
    requires forall i :: 0 <= i < rows ==> SameRow(a, i, b, i, stride)
    ensures a == b
  {
    if 0 < stride {
      forall p | 0 <= p < |a| ensures a[p] == b[p] {
        var i := p / stride;
        RowAtEnd(i, stride, p, rows);
        assert SameRow(a, i, b, i, stride);
        assert Row(a, i, stride)[p - i * stride] == a[p] && Row(b, i, stride)[p - i * stride] == b[p];
      }
    }
  }

  // ---------- DataFormatVecPermute ----------

  const LETTER_H: Byte := 72
  const LETTER_W: Byte := 87
  const LETTER_D: Byte := 68

  predicate IsSpatial(c: Byte, count: nat) {
    c == LETTER_H || c == LETTER_W || (count != 2 && c == LETTER_D)
  }

  /** The format without its other characters. */
  function Spatial(s: Format, count: nat): (r: Format)
    ensures forall c :: c in r <==> c in s && IsSpatial(c, count)
  {
    if s == [] then []
    else
      var last := |s| - 1;
      assert s == s[..last] + [s[last]];
      Spatial(s[..last], count) + if IsSpatial(s[last], count) then [s[last]] else []
  }

  lemma {:induction false} SpatialKeepsDistinct(s: Format, count: nat)
    requires Distinct(s)
    ensures Distinct(Spatial(s, count))
  {
    if s != [] {
      var last := |s| - 1;
      SpatialKeepsDistinct(s[..last], count);
      assert s[last] !in s[..last];
    }
  }

  /** H and W, and D as well in three dimensions. */
  predicate IsSpaceLetter(c: Byte, count: nat) {
    c == 'H' as int || c == 'W' as int || (count == 3 && c == 'D' as int)
  }

  /** `letters` are the format's spatial letters, each once, in the order in which they stand in the format. */
  ghost predicate SpatialLetters(format: Format, letters: Format, count: nat) {
    && (forall c :: c in letters <==> c in format && IsSpaceLetter(c, count))
    && forall i, j :: 0 <= i < j < |letters| ==> Find(format, letters[i]) < Find(format, letters[j])
  }

  lemma FindInFront(s: Format, c: Byte)
    requires s != [] && c in s[..|s| - 1] && Distinct(s)
    ensures c in s && Find(s, c) == Find(s[..|s| - 1], c)
  {
    FindAt(s, Find(s[..|s| - 1], c));
  }

  lemma {:induction false} SpatialAscends(s: Format, count: nat, i: nat, j: nat)
    requires Distinct(s) && i < j < |Spatial(s, count)|
    ensures Spatial(s, count)[i] in s && Spatial(s, count)[j] in s
    ensures Find(s, Spatial(s, count)[i]) < Find(s, Spatial(s, count)[j])
  {
    var last := |s| - 1;
    var (front, letters) := (Spatial(s[..last], count), Spatial(s, count));
    assert letters[i] in s && letters[j] in s && letters[i] in front && front[i] in s[..last];
    FindInFront(s, letters[i]);
    if j < |front| {
      assert front[j] in s[..last];
      FindInFront(s, letters[j]);
      SpatialAscends(s[..last], count, i, j);
    } else {
      FindAt(s, last);
    }
  }

  lemma SpatialIsLetters(s: Format, count: nat)
    requires Distinct(s) && 2 <= count <= 3
    ensures SpatialLetters(s, Spatial(s, count), count)
  {
    var letters := Spatial(s, count);
    forall i, j | 0 <= i < j < |letters|
      ensures letters[i] in s && letters[j] in s && Find(s, letters[i]) < Find(s, letters[j])
    {
      SpatialAscends(s, count, i, j);
    }
  }

  lemma SpatialPermutation(src: Format, dst: Format, count: nat)
    requires Permutation(src, dst)
    ensures Permutation(Spatial(src, count), Spatial(dst, count))
    ensures |Spatial(src, count)| == |Spatial(dst, count)|
  {
    SpatialKeepsDistinct(src, count);
    SpatialKeepsDistinct(dst, count);
    SameChars(Spatial(src, count), Spatial(dst, count));
  }

  /** The formats as the copy uses them: only the spatial letters when the input has a row per spatial dimension. */
  function Used(format: Format, rows: nat, full: nat): Format {
    if 2 <= full && rows == full - 2 then Spatial(format, full - 2) else format
  }

  /** The constructor's checks; false is an InvalidArgument status. */
  method CheckFormats(src: Format, dst: Format) returns (ok: bool)
    ensures ok <==> 4 <= |src| <= 5 && Permutation(src, dst)
  {
    if Distinct(src) && Distinct(dst) { SameChars(src, dst); }
    if !(|src| == 4 || |src| == 5) {
      return false;
    }
    if !(|dst| == 4 || |dst| == 5) {
      return false;
    }
    ok := IsValidPermutation(src, dst);
  }

  /** The format names the dimensions of the space: H and W, and D too if it has five letters. */
  predicate HasSpaceLetters(format: Format) {
    'H' as int in format && 'W' as int in format && (|format| == 5 ==> 'D' as int in format)
  }

  /** Filtering leaves as many letters as the space has dimensions exactly if none of them is missing. */
  lemma SpatialCount(s: Format)
    requires Distinct(s) && 4 <= |s| <= 5
    ensures |Spatial(s, |s| - 2)| == |s| - 2 <==> HasSpaceLetters(s)
  {
    var letters := Spatial(s, |s| - 2);
    SpatialKeepsDistinct(s, |s| - 2);
    CharCount(letters);
    var all: set<Byte> := if |s| == 5 then {LETTER_H, LETTER_W, LETTER_D} else {LETTER_H, LETTER_W};
    assert Chars(letters) <= all;
    if |letters| == |s| - 2 {
      SubsetProperty(Chars(letters), all);
      assert LETTER_H in Chars(letters) && LETTER_W in Chars(letters) && (|s| == 5 ==> LETTER_D in Chars(letters));
    }
    if HasSpaceLetters(s) {
      assert all <= Chars(letters);
      assert Chars(letters) == all;
    }
  }

  lemma ShapeSize(shape: Shape)
    requires |shape| == 1 || (|shape| == 2 && shape[1] == 2)
    ensures Product(shape) == shape[0] * |shape|
  {
    assert shape[1..] == [] || shape[1..] == [2];
    Singleton(2, 0);
  }

  /** The kernel; None is an InvalidArgument status. Rows are as long as the input has dimensions. */
  method Compute<T(0)>(src: Format, dst: Format, shape: Shape, input: seq<T>) returns (r: Option<seq<T>>)
    requires 4 <= |src| <= 5 && Permutation(src, dst) && |input| == Product(shape)
    ensures r.Some? <==>
              && (|shape| == 1 || (|shape| == 2 && shape[1] == 2))
              && (shape[0] == |src| || (shape[0] == |src| - 2 && HasSpaceLetters(src)))
    ensures r.Some? ==>
              var (s, d) := (Used(src, shape[0], |src|), Used(dst, shape[0], |src|));
              && Permutation(s, d) && |s| == |d| == shape[0] && Moved(input, r.value, Table(s, d), |shape|)
              && (shape[0] == |src| ==> s == src && d == dst)
              && (shape[0] != |src| ==> SpatialLetters(src, s, |src| - 2) && SpatialLetters(dst, d, |src| - 2))
  {
    if !(|shape| == 1 || |shape| == 2) {
      return None;
    }
    var fullDimCount := |src|;
    var spatialDimCount := fullDimCount - 2;
    if !(shape[0] == spatialDimCount || shape[0] == fullDimCount) {
      return None;
    }
    if |shape| == 2 && shape[1] != 2 {
      return None;
    }
    SameChars(src, dst);
    var srcFormat, dstFormat := src, dst;
    if shape[0] == spatialDimCount {
      srcFormat, dstFormat := Spatial(src, spatialDimCount), Spatial(dst, spatialDimCount);
      SpatialPermutation(src, dst, spatialDimCount);
      SpatialCount(src);
      SpatialIsLetters(src, spatialDimCount);
      SpatialIsLetters(dst, spatialDimCount);
      if !(|srcFormat| == spatialDimCount && |dstFormat| == spatialDimCount) {
        return None;
      }
    }
    SameChars(srcFormat, dstFormat);
    var permutations := BuildTable(srcFormat, dstFormat);
    ShapeSize(shape);
    var output := new T[|input|];
    CopyRows(input, output, permutations, |shape|);
    r := Some(output[..]);
  }

  /** The row of each dimension letter moves from the letter's place in src to its place in dst. */
  lemma RowsFollowLetters<T>(src: Format, dst: Format, input: seq<T>, output: seq<T>, stride: nat, c: Byte)
    requires Permutation(src, dst) && c in src && Moved(input, output, Table(src, dst), stride)
    ensures SameRow(input, Find(src, c), output, Find(dst, c), stride)
  {
    assert SameRow(input, Table(src, dst)[Find(dst, c)], output, Find(dst, c), stride);
  }

  /** Permuting again with the formats swapped gives the input back. */
  lemma SwappingUndoes<T>(src: Format, dst: Format, input: seq<T>, output: seq<T>, back: seq<T>, stride: nat)
    requires Permutation(src, dst)
    requires Moved(input, output, Table(src, dst), stride) && Moved(output, back, Table(dst, src), stride)
    ensures back == input
  {
    SameChars(src, dst);
    var there, again := Table(src, dst), Table(dst, src);
    forall i | 0 <= i < |src| ensures SameRow(input, i, back, i, stride) {
      TablesInvert(src, dst, i);
      assert SameRow(output, again[i], back, i, stride);
      assert SameRow(input, there[again[i]], output, again[i], stride);
    }
    RowsDetermine(input, back, |src|, stride);
  }

  // ---------- DataFormatDimMap ----------

  /** A loop counter as a 64-bit word. */
  function CounterWord(n: nat): bv64
    requires n <= 5
  {
    if n == 0 then 0 else if n == 1 then 1 else if n == 2 then 2 else if n == 3 then 3 else if n == 4 then 4 else 5
  }

  function ByteAt(packed: bv64, k: bv64): bv64
    requires k < 8
  {
    (packed >> (8 * k)) & 0xFF
  }

  /** Byte i of the word, counted from the least significant, has value v. */
  predicate ByteIs(packed: bv64, i: nat, v: nat)
    requires i < 5 && v < 5
  {
    ByteAt(packed, CounterWord(i)) == CounterWord(v)
  }

  lemma ByteIsOne(packed: bv64, i: nat, v: nat, w: nat)
    requires i < 5 && v < 5 && w < 5 && ByteIs(packed, i, v) && ByteIs(packed, i, w)
    ensures v == w
  {
  }

  /** Bytes from n upwards are still zero, and the shift is at byte n. */
  predicate Filled(packed: bv64, leftShift: bv64, n: nat)
    requires n <= 5
  {
    leftShift == 8 * CounterWord(n) && packed < (1 << leftShift)
  }

  function OrIn(packed: bv64, j: bv64, leftShift: bv64): bv64
    requires leftShift < 64
  {
    packed | (j << leftShift)
  }

  lemma OrInAt(packed: bv64, k: bv64, j: bv64)
    requires k < 5 && j < 5 && packed < (1 << (8 * k))
    ensures OrIn(packed, j, 8 * k) < (1 << (8 * (k + 1)))
    ensures ByteAt(OrIn(packed, j, 8 * k), k) == j
    ensures forall l: bv64 :: l < k ==> ByteAt(OrIn(packed, j, 8 * k), l) == ByteAt(packed, l)
  {
  }

  lemma CounterOrder(i: nat, n: nat)
    requires i < n <= 5
    ensures CounterWord(i) < CounterWord(n) <= 5
    ensures CounterWord(i + 1) == CounterWord(i) + 1
  {
  }

  /** Shifting one small value in fills byte n and keeps the bytes below. */
  lemma PackOne(packed: bv64, leftShift: bv64, n: nat, j: nat)
    requires n < 5 && j < 5 && Filled(packed, leftShift, n)
    ensures leftShift < 64
    ensures var now := OrIn(packed, CounterWord(j), leftShift);
            && Filled(now, leftShift + 8, n + 1) && ByteIs(now, n, j)
            && forall i, v :: 0 <= i < n && 0 <= v < 5 && ByteIs(packed, i, v) ==> ByteIs(now, i, v)
  {
    CounterOrder(n, 5);
    CounterOrder(j, 5);
    OrInAt(packed, CounterWord(n), CounterWord(j));
    forall i, v | 0 <= i < n && 0 <= v < 5 && ByteIs(packed, i, v)
      ensures ByteIs(OrIn(packed, CounterWord(j), leftShift), i, v)
    {
      CounterOrder(i, n);
    }
  }

  /** Byte i says where the i-th source character stands in the destination. */
  ghost predicate Packs(packed: bv64, src: Format, dst: Format, n: nat)
    requires n <= |src| <= 5 && |dst| <= 5 && forall c <- src :: c in dst
  {
    forall i :: 0 <= i < n ==> ByteIs(packed, i, Find(dst, src[i]))
  }

  lemma NothingFilled()
    ensures Filled(0, 0, 0)
  {
  }

  method PackMapping(src: Format, dst: Format) returns (packed: bv64)
    requires 4 <= |src| <= 5 && |dst| == |src| && Permutation(src, dst)
    ensures Packs(packed, src, dst, |src|)
  {
    packed := 0;
    var leftShift: bv64 := 0;
    NothingFilled();
    for i := 0 to |src|
      invariant Filled(packed, leftShift, i)
      invariant Packs(packed, src, dst, i)
    {
      assert src[i] in dst;
      ghost var was, shift := packed, leftShift;
      for j := 0 to |dst|
        invariant packed == was && leftShift == shift && forall k :: 0 <= k < j ==> dst[k] != src[i]
      {
        if dst[j] == src[i] {
          FindAt(dst, j);
          PackOne(packed, leftShift, i, j);
          packed := OrIn(packed, CounterWord(j), leftShift);
          leftShift := leftShift + 8;
          break;
        }
      }
    }
  }

  /** The gather parameters: four bytes from the low half, and a fifth from above it. */
  lemma HalvesHoldTheBytes(packed: bv64, k: bv64)
    requires k < 5
    ensures ByteAt(packed, k) == if k < 4 then ByteAt(packed & 0xFFFF_FFFF, k) else (packed >> 32) & 0xFF
  {
  }

  /** The packed bytes and VecPermute's table are inverse to each other, both ways. */
  lemma DimMapInvertsTable(src: Format, dst: Format, packed: bv64, i: nat)
    requires |src| == |dst| <= 5 && Permutation(src, dst) && i < |src| && Packs(packed, src, dst, |src|)
    ensures ByteIs(packed, Table(src, dst)[i], i)
    ensures forall m :: 0 <= m < |src| && ByteIs(packed, i, m) ==> Table(src, dst)[m] == i
  {
    assert dst[i] in dst && src[i] in src;
    FindAt(dst, i);
    FindAt(src, i);
    var at := Find(src, dst[i]);
    assert ByteIs(packed, at, Find(dst, src[at]));
    var back := Find(dst, src[i]);
    assert ByteIs(packed, i, back);
    forall m | 0 <= m < |src| && ByteIs(packed, i, m) ensures Table(src, dst)[m] == i {
      ByteIsOne(packed, i, back, m);
    }
  }
}
