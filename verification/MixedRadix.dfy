/** Row-major positions of multi-dimensional indices: the mixed-radix arithmetic behind every layout. */
module MixedRadix {

  type Shape = seq<nat>

  function Product(sizes: Shape): nat {
    if sizes == [] then 1 else sizes[0] * Product(sizes[1..])
  }

  /** idx is a valid index of a tensor of these sizes. */
  predicate IndexOf(idx: seq<nat>, sizes: Shape) {
    |idx| == |sizes| && forall i :: 0 <= i < |idx| ==> idx[i] < sizes[i]
  }

  /** The row-major position of an index. */
  function Ravel(sizes: Shape, idx: seq<nat>): nat
    requires |idx| == |sizes|
  {
    if sizes == [] then 0 else idx[0] * Product(sizes[1..]) + Ravel(sizes[1..], idx[1..])
  }

  /** The index at a row-major position. */
  function Unravel(sizes: Shape, position: nat): seq<nat>
    requires position < Product(sizes)
  {
    if sizes == [] then []
    else
      var rest := Product(sizes[1..]);
      assert rest != 0;
      RemainderBound(position, rest);
      [position / rest] + Unravel(sizes[1..], position % rest)
  }

  /** Where a strided view finds an index. */
  function Dot(idx: seq<nat>, strides: seq<nat>): nat
    requires |idx| == |strides|
  {
    if idx == [] then 0 else idx[0] * strides[0] + Dot(idx[1..], strides[1..])
  }

  lemma RemainderBound(position: nat, rest: nat)
    requires rest != 0
    ensures position % rest < rest
  {
  }

  /** The sum of two indices, coordinate by coordinate. */
  function Shift(a: seq<nat>, b: seq<nat>): (r: seq<nat>)
    requires |a| == |b|
    ensures |r| == |a|
  {
    seq(|a|, i requires 0 <= i < |a| => a[i] + b[i])
  }

  // ---------- Small facts of arithmetic ----------

  lemma DivMod(x: nat, n: nat)
    requires 0 < n
    ensures x == x / n * n + x % n && 0 <= x % n < n
  {
  }

  lemma MulMono(a: nat, b: nat, c: nat)
    requires a <= b
    ensures a * c <= b * c
  {
  }

  lemma DivModOf(q: nat, r: nat, n: nat)
    requires r < n
    ensures (q * n + r) / n == q && (q * n + r) % n == r
  {
    var x := q * n + r;
    assert x == n * (x / n) + x % n;
    assert n * (x / n - q) == r - x % n;
    if x / n < q { MulMono(x / n + 1, q, n); }
    if q < x / n { MulMono(q + 1, x / n, n); }
  }

  lemma DivBound(x: nat, q: nat, n: nat)
    requires 0 < n && x < q * n
    ensures x / n < q
  {
    assert n * (x / n) <= x;
    if q <= x / n { MulMono(q, x / n, n); }
  }

  lemma MulAssoc(a: nat, b: nat, c: nat)
    ensures a * b * c == a * (b * c)
  {
  }

  lemma MulDistrib(a: nat, b: nat, c: nat)
    ensures (a + b) * c == a * c + b * c
  {
  }

  // ---------- Product and Ravel ----------

  lemma {:induction false} ProductConcat(a: Shape, b: Shape)
    ensures Product(a + b) == Product(a) * Product(b)
  {
    if a == [] {
      assert a + b == b;
    } else {
      assert (a + b)[1..] == a[1..] + b;
      ProductConcat(a[1..], b);
      MulAssoc(a[0], Product(a[1..]), Product(b));
    }
  }

  lemma {:induction false} RavelConcat(a: Shape, b: Shape, i: seq<nat>, j: seq<nat>)
    requires |i| == |a| && |j| == |b|
    ensures Ravel(a + b, i + j) == Ravel(a, i) * Product(b) + Ravel(b, j)
  {
    if a == [] {
      assert a + b == b && i + j == j;
    } else {
      assert (a + b)[1..] == a[1..] + b && (i + j)[1..] == i[1..] + j;
      RavelConcat(a[1..], b, i[1..], j);
      ProductConcat(a[1..], b);
      MulAssoc(i[0], Product(a[1..]), Product(b));
      MulDistrib(i[0] * Product(a[1..]), Ravel(a[1..], i[1..]), Product(b));
    }
  }

  lemma Singleton(x: nat, i: nat)
    ensures Product([x]) == x && Ravel([x], [i]) == i
  {
  }

  lemma Ravel3(x: nat, y: nat, z: nat, i: nat, j: nat, k: nat)
    ensures Ravel([x, y, z], [i, j, k]) == i * (y * z) + (j * z + k)
    ensures Product([x, y, z]) == x * (y * z)
  {
    assert [x, y, z] == [x] + ([y] + [z]) && [i, j, k] == [i] + ([j] + [k]);
    RavelConcat([x], [y] + [z], [i], [j] + [k]);
    RavelConcat([y], [z], [j], [k]);
    ProductConcat([x], [y] + [z]);
    ProductConcat([y], [z]);
    Singleton(x, i);
    Singleton(y, j);
    Singleton(z, k);
  }

  lemma {:induction false} RavelBound(sizes: Shape, idx: seq<nat>)
    requires IndexOf(idx, sizes)
    ensures Ravel(sizes, idx) < Product(sizes)
  {
    if sizes != [] {
      RavelBound(sizes[1..], idx[1..]);
      MulMono(idx[0] + 1, sizes[0], Product(sizes[1..]));
      MulDistrib(idx[0], 1, Product(sizes[1..]));
    }
  }

  /** Unravel inverts Ravel. */
  lemma {:induction false} UnravelRavel(sizes: Shape, idx: seq<nat>)
    requires IndexOf(idx, sizes)
    ensures Ravel(sizes, idx) < Product(sizes) && Unravel(sizes, Ravel(sizes, idx)) == idx
  {
    RavelBound(sizes, idx);
    if sizes != [] {
      RavelBound(sizes[1..], idx[1..]);
      UnravelRavel(sizes[1..], idx[1..]);
      DivModOf(idx[0], Ravel(sizes[1..], idx[1..]), Product(sizes[1..]));
      assert idx == [idx[0]] + idx[1..];
    }
  }

  /** Ravel inverts Unravel, whose result is a valid index. */
  lemma {:induction false} RavelUnravel(sizes: Shape, position: nat)
    requires position < Product(sizes)
    ensures IndexOf(Unravel(sizes, position), sizes)
    ensures Ravel(sizes, Unravel(sizes, position)) == position
  {
    if sizes != [] {
      var rest := Product(sizes[1..]);
      assert rest != 0;
      RemainderBound(position, rest);
      RavelUnravel(sizes[1..], position % rest);
      DivBound(position, sizes[0], rest);
      var idx := Unravel(sizes, position);
      assert idx[1..] == Unravel(sizes[1..], position % rest);
    }
  }

  lemma {:induction false} ZeroElements(sizes: Shape)
    ensures Product(sizes) == 0 <==> exists i :: 0 <= i < |sizes| && sizes[i] == 0
  {
    if sizes != [] {
      ZeroElements(sizes[1..]);
      if Product(sizes) == 0 && sizes[0] != 0 {
        assert Product(sizes[1..]) == 0;
        var i :| 0 <= i < |sizes[1..]| && sizes[1..][i] == 0;
        assert sizes[i + 1] == 0;
      }
      if i :| 0 <= i < |sizes| && sizes[i] == 0 {
        if 0 < i { assert sizes[1..][i - 1] == 0; }
      }
    }
  }

  // ---------- Strides ----------

  /** Strides of a packed tensor. */
  function PackedStrides(sizes: Shape): (r: seq<nat>)
    ensures |r| == |sizes|
  {
    if sizes == [] then [] else [Product(sizes[1..])] + PackedStrides(sizes[1..])
  }

  lemma {:induction false} PackedStrideAt(sizes: Shape, i: nat)
    requires i < |sizes|
    ensures PackedStrides(sizes)[i] == Product(sizes[i + 1..])
  {
    if 0 < i {
      PackedStrideAt(sizes[1..], i - 1);
      assert sizes[1..][i..] == sizes[i + 1..];
    }
  }

  /** A packed view finds an index at its row-major position. */
  lemma {:induction false} PackedIsRavel(sizes: Shape, idx: seq<nat>)
    requires |idx| == |sizes|
    ensures Dot(idx, PackedStrides(sizes)) == Ravel(sizes, idx)
  {
    if sizes != [] {
      PackedIsRavel(sizes[1..], idx[1..]);
      assert PackedStrides(sizes)[1..] == PackedStrides(sizes[1..]);
    }
  }

  lemma {:induction false} DotConcat(a: seq<nat>, b: seq<nat>, s: seq<nat>, t: seq<nat>)
    requires |a| == |s| && |b| == |t|
    ensures Dot(a + b, s + t) == Dot(a, s) + Dot(b, t)
  {
    if a == [] {
      assert a + b == b && s + t == t;
    } else {
      assert (a + b)[1..] == a[1..] + b && (s + t)[1..] == s[1..] + t;
      DotConcat(a[1..], b, s[1..], t);
    }
  }

  /** The backward loop of ComputePackedStrides. */
  method ComputePackedStrides(sizes: Shape) returns (strides: seq<nat>)
    ensures strides == PackedStrides(sizes)
  {
    strides := seq(|sizes|, _ => 0);
    var stride := 1;
    var i := |sizes|;
    while 0 < i
      invariant 0 <= i <= |sizes| == |strides|
      invariant stride == Product(sizes[i..]) && strides[i..] == PackedStrides(sizes[i..])
    {
      i := i - 1;
      assert sizes[i..][1..] == sizes[i + 1..];
      strides := strides[i := stride];
      stride := stride * sizes[i];
      assert strides[i..] == [strides[i]] + strides[i + 1..];
    }
    assert strides[0..] == strides && sizes[0..] == sizes;
  }
}
