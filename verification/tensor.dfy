/**
 * Shapes and row-major views over flat buffers (gxnet/common.h): the
 * `gx_dims_flatten_size` fold, the `MDSpanRW`/`MDSpanRO` offset arithmetic for
 * one to four indices, and `gx_matrix_add`.  Both span flavours share their
 * indexing, so a single read-only `Span` models them; writes through a
 * mutable span are modelled by the functions that build whole new buffers.
 */
module Tensor {
  import opened Sums

  /** An ordered list of axis sizes, outermost first. */
  type Dims = seq<nat>

  /** The loop of `gx_dims_flatten_size`: multiply the axis sizes into `acc` from left to right. */
  function FoldMul(acc: nat, dims: Dims): nat
    decreases |dims|
  {
    if |dims| == 0 then acc else FoldMul(acc * dims[0], dims[1..])
  }

  /** `gx_dims_flatten_size`: the loop starts from 0 for an empty list and from 1 otherwise. */
  function FlattenSize(dims: Dims): nat
  {
    FoldMul(if |dims| > 0 then 1 else 0, dims)
  }

  /** Independent reference: the product of all axis sizes, right-recursive. */
  function Product(dims: Dims): nat
  {
    if |dims| == 0 then 1 else dims[0] * Product(dims[1..])
  }

  lemma {:induction false} FoldMulIsProduct(acc: nat, dims: Dims)
    ensures FoldMul(acc, dims) == acc * Product(dims)
    decreases |dims|
  {
    if |dims| > 0 {
      FoldMulIsProduct(acc * dims[0], dims[1..]);
    }
  }

  /** The flattened size is 0 for no axes and the product of all axes otherwise. */
  lemma FlattenSizeIsProduct(dims: Dims)
    ensures |dims| == 0 ==> FlattenSize(dims) == 0
    ensures |dims| > 0 ==> FlattenSize(dims) == Product(dims)
  {
    FoldMulIsProduct(if |dims| > 0 then 1 else 0, dims);
  }

  lemma FlattenSize2(dims: Dims)
    requires |dims| == 2
    ensures FlattenSize(dims) == dims[0] * dims[1]
  {
    FlattenSizeIsProduct(dims);
    assert Product(dims[1..]) == dims[1] * Product(dims[1..][1..]);
    assert dims[1..][1..] == [];
  }

  lemma FlattenSize3(dims: Dims)
    requires |dims| == 3
    ensures FlattenSize(dims) == dims[0] * (dims[1] * dims[2])
  {
    FlattenSizeIsProduct(dims);
    var t1, t2 := dims[1..], dims[1..][1..];
    assert Product(t1) == dims[1] * Product(t2);
    assert Product(t2) == dims[2] * Product(t2[1..]);
    assert t2[1..] == [];
  }

  lemma FlattenSize4(dims: Dims)
    requires |dims| == 4
    ensures FlattenSize(dims) == dims[0] * (dims[1] * (dims[2] * dims[3]))
  {
    FlattenSizeIsProduct(dims);
    var t1, t2, t3 := dims[1..], dims[1..][1..], dims[1..][1..][1..];
    assert Product(t1) == dims[1] * Product(t2);
    assert Product(t2) == dims[2] * Product(t3);
    assert Product(t3) == dims[3] * Product(t3[1..]);
    assert t3[1..] == [];
  }

  // ---------------------------------------------------------------------------
  // Row-major offsets, written as the accessors of common.h compute them.

  function Offset2(dims: Dims, i: nat, j: nat): nat
    requires |dims| == 2
  {
    i * dims[1] + j
  }

  function Offset3(dims: Dims, i: nat, j: nat, k: nat): nat
    requires |dims| == 3
  {
    (dims[1] * dims[2] * i) + (dims[2] * j) + k
  }

  function Offset4(dims: Dims, f: nat, c: nat, i: nat, j: nat): nat
    requires |dims| == 4
  {
    (dims[1] * dims[2] * dims[3] * f) + (dims[2] * dims[3] * c) + (dims[3] * i) + j
  }

  /** `a*w + b` with `b < w` stays below `n*w` when `a < n`. */
  lemma MixedBound(a: nat, b: nat, n: nat, w: nat)
    requires a < n && b < w
    ensures a * w + b < n * w
  {
    MulMono(a + 1, n, w);
  }

  /** Mixed-radix digits are unique: `a*w + b == a2*w + b2` with `b, b2 < w` forces equal digits. */
  lemma MixedUnique(a: int, b: int, a2: int, b2: int, w: int)
    requires 0 <= b < w && 0 <= b2 < w
    requires a * w + b == a2 * w + b2
    ensures a == a2 && b == b2
  {
    if a < a2 {
      AtLeastOnce(a2 - a, w);
    } else if a2 < a {
      AtLeastOnce(a - a2, w);
    }
  }

  lemma AtLeastOnce(k: int, w: int)
    requires k >= 1 && w >= 0
    ensures k * w >= w
  {
    MulMono(1, k, w);
  }

  /** Mixed-radix digits exist: every `t < n*w` is `a*w + b` for some `a < n`, `b < w`. */
  lemma MixedDecode(t: nat, n: nat, w: nat) returns (a: nat, b: nat)
    requires t < n * w
    ensures a < n && b < w && t == a * w + b
  {
    a, b := t / w, t % w;
    if a >= n {
      MulMono(n, a, w);
    }
  }

  lemma Offset3Horner(dims: Dims, i: nat, j: nat, k: nat)
    requires |dims| == 3
    ensures Offset3(dims, i, j, k) == (i * dims[1] + j) * dims[2] + k
  {
    var d1, d2 := dims[1], dims[2];
    calc {
      (i * d1 + j) * d2 + k;
      i * d1 * d2 + j * d2 + k;
      { assert i * d1 * d2 == d1 * d2 * i; }
      d1 * d2 * i + d2 * j + k;
    }
  }

  lemma Offset4Horner(dims: Dims, f: nat, c: nat, i: nat, j: nat)
    requires |dims| == 4
    ensures Offset4(dims, f, c, i, j) == ((f * dims[1] + c) * dims[2] + i) * dims[3] + j
  {
    var d1, d2, d3 := dims[1], dims[2], dims[3];
    calc {
      ((f * d1 + c) * d2 + i) * d3 + j;
      (f * d1 + c) * d2 * d3 + i * d3 + j;
      f * d1 * d2 * d3 + c * d2 * d3 + i * d3 + j;
      { assert f * d1 * d2 * d3 == d1 * d2 * d3 * f;
        assert c * d2 * d3 == d2 * d3 * c; }
      d1 * d2 * d3 * f + d2 * d3 * c + d3 * i + j;
    }
  }

  ghost predicate InBounds2(dims: Dims, i: nat, j: nat)
  {
    |dims| == 2 && i < dims[0] && j < dims[1]
  }

  ghost predicate InBounds3(dims: Dims, i: nat, j: nat, k: nat)
  {
    |dims| == 3 && i < dims[0] && j < dims[1] && k < dims[2]
  }

  ghost predicate InBounds4(dims: Dims, f: nat, c: nat, i: nat, j: nat)
  {
    |dims| == 4 && f < dims[0] && c < dims[1] && i < dims[2] && j < dims[3]
  }

  /** In-bounds indices address an element below the flattened size. */
  lemma Offset2Bound(dims: Dims, i: nat, j: nat)
    requires InBounds2(dims, i, j)
    ensures Offset2(dims, i, j) < FlattenSize(dims)
  {
    FlattenSize2(dims);
    MixedBound(i, j, dims[0], dims[1]);
  }

  lemma Offset3Bound(dims: Dims, i: nat, j: nat, k: nat)
    requires InBounds3(dims, i, j, k)
    ensures Offset3(dims, i, j, k) < FlattenSize(dims)
  {
    FlattenSize3(dims);
    Bound3(dims[0], dims[1], dims[2], i, j, k);
  }

  /** `Offset3Bound` on plain numbers. */
  lemma Bound3(a: nat, b: nat, c: nat, i: nat, j: nat, k: nat)
    requires i < a && j < b && k < c
    ensures b * c * i + c * j + k < a * (b * c)
  {
    MixedBound(j, k, b, c);
    assert c * j == j * c;
    MixedBound(i, c * j + k, a, b * c);
    assert b * c * i == i * (b * c);
  }

  lemma Offset4Bound(dims: Dims, f: nat, c: nat, i: nat, j: nat)
    requires InBounds4(dims, f, c, i, j)
    ensures Offset4(dims, f, c, i, j) < FlattenSize(dims)
  {
    FlattenSize4(dims);
    Bound4(dims[0], dims[1], dims[2], dims[3], f, c, i, j);
  }

  /** `Offset4Bound` on plain numbers. */
  lemma Bound4(a: nat, b: nat, c: nat, d: nat, f: nat, x: nat, i: nat, j: nat)
    requires f < a && x < b && i < c && j < d
    ensures b * c * d * f + c * d * x + d * i + j < a * (b * (c * d))
  {
    Bound3(b, c, d, x, i, j);
    MixedBound(f, c * d * x + d * i + j, a, b * (c * d));
    assert b * c * d * f == f * (b * (c * d));
  }

  /** Distinct in-bounds index tuples address distinct elements. */
  lemma Offset2Injective(dims: Dims, i: nat, j: nat, i2: nat, j2: nat)
    requires InBounds2(dims, i, j) && InBounds2(dims, i2, j2)
    requires Offset2(dims, i, j) == Offset2(dims, i2, j2)
    ensures i == i2 && j == j2
  {
    MixedUnique(i, j, i2, j2, dims[1]);
  }

  lemma Offset3Injective(dims: Dims, i: nat, j: nat, k: nat, i2: nat, j2: nat, k2: nat)
    requires InBounds3(dims, i, j, k) && InBounds3(dims, i2, j2, k2)
    requires Offset3(dims, i, j, k) == Offset3(dims, i2, j2, k2)
    ensures i == i2 && j == j2 && k == k2
  {
    Offset3Horner(dims, i, j, k);
    Offset3Horner(dims, i2, j2, k2);
    Horner3Unique(dims[1], dims[2], i, j, k, i2, j2, k2);
  }

  lemma Offset4Injective(dims: Dims, f: nat, c: nat, i: nat, j: nat, f2: nat, c2: nat, i2: nat, j2: nat)
    requires InBounds4(dims, f, c, i, j) && InBounds4(dims, f2, c2, i2, j2)
    requires Offset4(dims, f, c, i, j) == Offset4(dims, f2, c2, i2, j2)
    ensures f == f2 && c == c2 && i == i2 && j == j2
  {
    Offset4Horner(dims, f, c, i, j);
    Offset4Horner(dims, f2, c2, i2, j2);
    Horner4Unique(dims[1], dims[2], dims[3], f, c, i, j, f2, c2, i2, j2);
  }

  /** Four mixed-radix digits are unique. */
  lemma Horner4Unique(d1: nat, d2: nat, d3: nat, f: nat, c: nat, i: nat, j: nat, f2: nat, c2: nat, i2: nat, j2: nat)
    requires c < d1 && c2 < d1 && i < d2 && i2 < d2 && j < d3 && j2 < d3
    requires ((f * d1 + c) * d2 + i) * d3 + j == ((f2 * d1 + c2) * d2 + i2) * d3 + j2
    ensures f == f2 && c == c2 && i == i2 && j == j2
  {
    MixedUnique((f * d1 + c) * d2 + i, j, (f2 * d1 + c2) * d2 + i2, j2, d3);
    Horner3Unique(d1, d2, f, c, i, f2, c2, i2);
  }

  /** Three mixed-radix digits are unique. */
  lemma Horner3Unique(d1: nat, d2: nat, f: nat, c: nat, i: nat, f2: nat, c2: nat, i2: nat)
    requires c < d1 && c2 < d1 && i < d2 && i2 < d2
    requires (f * d1 + c) * d2 + i == (f2 * d1 + c2) * d2 + i2
    ensures f == f2 && c == c2 && i == i2
  {
    MixedUnique(f * d1 + c, i, f2 * d1 + c2, i2, d2);
    MixedUnique(f, c, f2, c2, d1);
  }

  /** Offset `(n, i, j)` of a rank-3 buffer is cell `Offset2(i, j)` of plane `n`. */
  lemma PlaneOffset(bd: Dims, n: nat, i: nat, j: nat)
    requires InBounds3(bd, n, i, j)
    ensures InBounds2(bd[1..], i, j) && Offset2(bd[1..], i, j) < FlattenSize(bd[1..])
    ensures Offset3(bd, n, i, j) == n * FlattenSize(bd[1..]) + Offset2(bd[1..], i, j)
  {
    FlattenSize2(bd[1..]);
    Offset2Bound(bd[1..], i, j);
    assert bd[1] * bd[2] * n == n * (bd[1] * bd[2]);
  }

  /** Every element of a rank-4 buffer is addressed by some in-bounds tuple. */
  lemma Offset4Onto(dims: Dims, t: nat) returns (f: nat, c: nat, i: nat, j: nat)
    requires |dims| == 4 && t < FlattenSize(dims)
    ensures InBounds4(dims, f, c, i, j) && Offset4(dims, f, c, i, j) == t
  {
    var d0, d1, d2, d3 := dims[0], dims[1], dims[2], dims[3];
    FlattenSize4(dims);
    assert d0 * (d1 * (d2 * d3)) == d0 * d1 * d2 * d3;
    var q2;
    q2, j := MixedDecode(t, d0 * d1 * d2, d3);
    var q1;
    q1, i := MixedDecode(q2, d0 * d1, d2);
    f, c := MixedDecode(q1, d0, d1);
    Offset4Horner(dims, f, c, i, j);
  }

  lemma Offset3Onto(dims: Dims, t: nat) returns (i: nat, j: nat, k: nat)
    requires |dims| == 3 && t < FlattenSize(dims)
    ensures InBounds3(dims, i, j, k) && Offset3(dims, i, j, k) == t
  {
    var d0, d1, d2 := dims[0], dims[1], dims[2];
    FlattenSize3(dims);
    assert d0 * (d1 * d2) == d0 * d1 * d2;
    var q;
    q, k := MixedDecode(t, d0 * d1, d2);
    i, j := MixedDecode(q, d0, d1);
    Offset3Horner(dims, i, j, k);
  }

  lemma Offset2Onto(dims: Dims, t: nat) returns (i: nat, j: nat)
    requires |dims| == 2 && t < FlattenSize(dims)
    ensures InBounds2(dims, i, j) && Offset2(dims, i, j) == t
  {
    FlattenSize2(dims);
    i, j := MixedDecode(t, dims[0], dims[1]);
  }

  // ---------------------------------------------------------------------------
  // The span: a buffer paired with a shape.

  datatype Span<T> = Span(data: seq<T>, dims: Dims)

  /**
   * The read-only span's constructor does not check that the shape covers the
   * buffer (its assertion is commented out), so every use states it.
   */
  ghost predicate Valid<T>(s: Span<T>)
  {
    FlattenSize(s.dims) == |s.data|
  }

  /** `dim(k)`: the source asserts `k < rank`. */
  function Dim<T>(s: Span<T>, k: nat): nat
    requires k < |s.dims|
  {
    s.dims[k]
  }

  /** One-index access addresses the flat buffer and ignores the shape. */
  function At1<T>(s: Span<T>, i: nat): T
    requires i < |s.data|
  {
    s.data[i]
  }

  /** Two-index access: the source asserts rank 2. */
  function At2<T>(s: Span<T>, i: nat, j: nat): T
    requires Valid(s) && InBounds2(s.dims, i, j)
  {
    Offset2Bound(s.dims, i, j);
    s.data[Offset2(s.dims, i, j)]
  }

  function At3<T>(s: Span<T>, i: nat, j: nat, k: nat): T
    requires Valid(s) && InBounds3(s.dims, i, j, k)
  {
    Offset3Bound(s.dims, i, j, k);
    s.data[Offset3(s.dims, i, j, k)]
  }

  function At4<T>(s: Span<T>, f: nat, c: nat, i: nat, j: nat): T
    requires Valid(s) && InBounds4(s.dims, f, c, i, j)
  {
    Offset4Bound(s.dims, f, c, i, j);
    s.data[Offset4(s.dims, f, c, i, j)]
  }

  /** Reshaping a span never changes what one-index access reads. */
  lemma At1IgnoresDims<T>(s: Span<T>, dims: Dims, i: nat)
    requires i < |s.data|
    ensures At1(Span(s.data, dims), i) == At1(s, i) == s.data[i]
  {
  }

  /** Two valid rank-4 spans of one shape that agree on every index hold equal buffers. */
  lemma Ext4<T>(a: Span<T>, b: Span<T>)
    requires Valid(a) && Valid(b) && |a.dims| == 4 && a.dims == b.dims
    requires forall f, c, i, j :: InBounds4(a.dims, f, c, i, j) ==> At4(a, f, c, i, j) == At4(b, f, c, i, j)
    ensures a.data == b.data
  {
    forall t | 0 <= t < |a.data|
      ensures a.data[t] == b.data[t]
    {
      var f, c, i, j := Offset4Onto(a.dims, t);
      assert At4(a, f, c, i, j) == At4(b, f, c, i, j);
    }
  }

  // ---------------------------------------------------------------------------
  // Buffers written by row-major loop nests.

  /** `A` is a `d0 x d1` nest. */
  ghost predicate Shape2<T>(A: seq<seq<T>>, dims: Dims)
  {
    |dims| == 2 && |A| == dims[0] && Uniform(A, dims[1])
  }

  ghost predicate Shape3<T>(A: seq<seq<seq<T>>>, dims: Dims)
  {
    |dims| == 3 && |A| == dims[0] && forall r :: 0 <= r < |A| ==> Shape2(A[r], dims[1..])
  }

  ghost predicate Shape4<T>(A: seq<seq<seq<seq<T>>>>, dims: Dims)
  {
    |dims| == 4 && |A| == dims[0] && forall r :: 0 <= r < |A| ==> Shape3(A[r], dims[1..])
  }

  /** The planes of a three-deep nest, each written row-major. */
  function Blocks2<T>(A: seq<seq<seq<T>>>): (rows: seq<seq<T>>)
    ensures |rows| == |A|
    ensures forall r :: 0 <= r < |A| ==> rows[r] == Flatten(A[r])
  {
    seq(|A|, r requires 0 <= r < |A| => Flatten(A[r]))
  }

  function Build3<T>(A: seq<seq<seq<T>>>): seq<T>
  {
    Flatten(Blocks2(A))
  }

  /** The blocks of a four-deep nest, each written row-major. */
  function Blocks3<T>(A: seq<seq<seq<seq<T>>>>): (rows: seq<seq<T>>)
    ensures |rows| == |A|
    ensures forall r :: 0 <= r < |A| ==> rows[r] == Build3(A[r])
  {
    seq(|A|, r requires 0 <= r < |A| => Build3(A[r]))
  }

  function Build4<T>(A: seq<seq<seq<seq<T>>>>): seq<T>
  {
    Flatten(Blocks3(A))
  }

  /** The buffer written by a two-deep loop nest holds `A[i][j]` at `Offset2(i, j)`. */
  lemma Build2At<T>(A: seq<seq<T>>, dims: Dims, i: nat, j: nat)
    requires Shape2(A, dims) && InBounds2(dims, i, j)
    ensures |Flatten(A)| == FlattenSize(dims)
    ensures Offset2(dims, i, j) < |Flatten(A)|
    ensures Flatten(A)[Offset2(dims, i, j)] == A[i][j]
  {
    FlattenSize2(dims);
    Offset2Bound(dims, i, j);
    FlattenAt(A, dims[1], i, j);
  }

  lemma Build2Length<T>(A: seq<seq<T>>, dims: Dims)
    requires Shape2(A, dims)
    ensures |Flatten(A)| == FlattenSize(dims)
  {
    FlattenSize2(dims);
    FlattenLength(A, dims[1]);
  }

  lemma Build3Length<T>(A: seq<seq<seq<T>>>, dims: Dims)
    requires Shape3(A, dims)
    ensures |Build3(A)| == FlattenSize(dims)
  {
    var rows := Blocks2(A);
    forall r | 0 <= r < |A|
      ensures |rows[r]| == dims[1] * dims[2]
    {
      Build2Length(A[r], dims[1..]);
      FlattenSize2(dims[1..]);
    }
    FlattenLength(rows, dims[1] * dims[2]);
    FlattenSize3(dims);
  }

  lemma Build3At<T>(A: seq<seq<seq<T>>>, dims: Dims, i: nat, j: nat, k: nat)
    requires Shape3(A, dims) && InBounds3(dims, i, j, k)
    ensures |Build3(A)| == FlattenSize(dims)
    ensures Offset3(dims, i, j, k) < |Build3(A)|
    ensures Build3(A)[Offset3(dims, i, j, k)] == A[i][j][k]
  {
    Build3Length(A, dims);
    Offset3Bound(dims, i, j, k);
    var inner := dims[1..];
    var rows := Blocks2(A);
    var w := FlattenSize(inner);
    forall r | 0 <= r < |A|
      ensures |rows[r]| == w
    {
      Build2Length(A[r], inner);
    }
    Build2At(A[i], inner, j, k);
    FlattenAt(rows, w, i, Offset2(inner, j, k));
    FlattenSize2(inner);
    Offset3Split(dims, i, j, k);
  }

  /** Moving the outer index out of `Offset2` of the inner axes gives `Offset3`. */
  lemma Offset3Split(dims: Dims, i: nat, j: nat, k: nat)
    requires |dims| == 3
    ensures i * (dims[1] * dims[2]) + Offset2(dims[1..], j, k) == Offset3(dims, i, j, k)
  {
    var d1, d2 := dims[1], dims[2];
    assert Offset2(dims[1..], j, k) == j * d2 + k;
    assert i * (d1 * d2) == d1 * d2 * i;
  }

  lemma Build4Length<T>(A: seq<seq<seq<seq<T>>>>, dims: Dims)
    requires Shape4(A, dims)
    ensures |Build4(A)| == FlattenSize(dims)
  {
    var rows := Blocks3(A);
    var w := dims[1] * (dims[2] * dims[3]);
    forall r | 0 <= r < |A|
      ensures |rows[r]| == w
    {
      Build3Length(A[r], dims[1..]);
      FlattenSize3(dims[1..]);
    }
    FlattenLength(rows, w);
    FlattenSize4(dims);
  }

  /** Moving the outer index out of `Offset3` of the inner axes gives `Offset4`. */
  lemma Offset4Split(dims: Dims, f: nat, c: nat, i: nat, j: nat)
    requires |dims| == 4
    ensures f * (dims[1] * (dims[2] * dims[3])) + Offset3(dims[1..], c, i, j) == Offset4(dims, f, c, i, j)
  {
    var d1, d2, d3 := dims[1], dims[2], dims[3];
    assert Offset3(dims[1..], c, i, j) == d2 * d3 * c + d3 * i + j;
    assert f * (d1 * (d2 * d3)) == d1 * d2 * d3 * f;
  }

  /** The buffer written by a four-deep loop nest holds `A[f][c][i][j]` at `Offset4(f, c, i, j)`. */
  lemma Build4At<T>(A: seq<seq<seq<seq<T>>>>, dims: Dims, f: nat, c: nat, i: nat, j: nat)
    requires Shape4(A, dims) && InBounds4(dims, f, c, i, j)
    ensures |Build4(A)| == FlattenSize(dims)
    ensures Offset4(dims, f, c, i, j) < |Build4(A)|
    ensures Build4(A)[Offset4(dims, f, c, i, j)] == A[f][c][i][j]
  {
    Build4Length(A, dims);
    Offset4Bound(dims, f, c, i, j);
    var inner := dims[1..];
    var rows := Blocks3(A);
    var w := FlattenSize(inner);
    forall r | 0 <= r < |A|
      ensures |rows[r]| == w
    {
      Build3Length(A[r], inner);
    }
    Build3At(A[f], inner, c, i, j);
    var k := Offset3(inner, c, i, j);
    FlattenAt(rows, w, f, k);
    FlattenSize3(inner);
    Offset4Split(dims, f, c, i, j);
  }

  // ---------------------------------------------------------------------------
  // Buffers written cell by cell.

  /** The `d0 x d1` nest whose cell `(i, j)` is `F(i, j)`. */
  function TabNest2<T>(d: Dims, F: (nat, nat) --> T): (A: seq<seq<T>>)
    requires |d| == 2
    requires forall i: nat, j: nat :: InBounds2(d, i, j) ==> F.requires(i, j)
    ensures Shape2(A, d)
    ensures forall i: nat, j: nat :: InBounds2(d, i, j) ==> A[i][j] == F(i, j)
  {
    seq(d[0], i requires 0 <= i < d[0] => seq(d[1], j requires 0 <= j < d[1] => assert InBounds2(d, i, j); F(i, j)))
  }

  /**
   * The row-major buffer a two-deep loop nest leaves when it writes `F(i, j)`
   * into every cell of a `d0 x d1` span.
   */
  function Tab2<T>(d: Dims, F: (nat, nat) --> T): (r: seq<T>)
    requires |d| == 2
    requires forall i: nat, j: nat :: InBounds2(d, i, j) ==> F.requires(i, j)
    ensures |r| == FlattenSize(d)
    ensures forall i: nat, j: nat :: InBounds2(d, i, j) ==>
              Offset2(d, i, j) < |r| && r[Offset2(d, i, j)] == F(i, j)
  {
    var A := TabNest2(d, F);
    Build2Length(A, d);
    forall i: nat, j: nat | InBounds2(d, i, j)
      ensures Offset2(d, i, j) < |Flatten(A)| && Flatten(A)[Offset2(d, i, j)] == F(i, j)
    {
      Build2At(A, d, i, j);
    }
    Flatten(A)
  }

  function TabNest3<T>(d: Dims, F: (nat, nat, nat) --> T): (A: seq<seq<seq<T>>>)
    requires |d| == 3
    requires forall i: nat, j: nat, k: nat :: InBounds3(d, i, j, k) ==> F.requires(i, j, k)
    ensures Shape3(A, d)
    ensures forall i: nat, j: nat, k: nat :: InBounds3(d, i, j, k) ==> A[i][j][k] == F(i, j, k)
  {
    var A := seq(d[0], i requires 0 <= i < d[0] =>
      assert forall j: nat, k: nat :: InBounds2(d[1..], j, k) ==> InBounds3(d, i, j, k);
      TabNest2(d[1..], Fix3(F, i)));
    forall i: nat, j: nat, k: nat | InBounds3(d, i, j, k)
      ensures A[i][j][k] == F(i, j, k)
    {
      assert InBounds2(d[1..], j, k);
    }
    A
  }

  /** `F` with its first index fixed at `i`. */
  function Fix3<T>(F: (nat, nat, nat) --> T, i: nat): (G: (nat, nat) --> T)
    ensures forall j: nat, k: nat :: F.requires(i, j, k) ==> G.requires(j, k) && G(j, k) == F(i, j, k)
  {
    (j: nat, k: nat) requires F.requires(i, j, k) => F(i, j, k)
  }

  /** `F` with its first index fixed at `f`. */
  function Fix4<T>(F: (nat, nat, nat, nat) --> T, f: nat): (G: (nat, nat, nat) --> T)
    ensures forall c: nat, i: nat, j: nat :: F.requires(f, c, i, j) ==> G.requires(c, i, j) && G(c, i, j) == F(f, c, i, j)
  {
    (c: nat, i: nat, j: nat) requires F.requires(f, c, i, j) => F(f, c, i, j)
  }

  /** The row-major buffer a three-deep loop nest leaves when it writes `F(i, j, k)` into every cell. */
  function Tab3<T>(d: Dims, F: (nat, nat, nat) --> T): (r: seq<T>)
    requires |d| == 3
    requires forall i: nat, j: nat, k: nat :: InBounds3(d, i, j, k) ==> F.requires(i, j, k)
    ensures |r| == FlattenSize(d)
    ensures forall i: nat, j: nat, k: nat :: InBounds3(d, i, j, k) ==>
              Offset3(d, i, j, k) < |r| && r[Offset3(d, i, j, k)] == F(i, j, k)
  {
    var A := TabNest3(d, F);
    Build3Length(A, d);
    forall i: nat, j: nat, k: nat | InBounds3(d, i, j, k)
      ensures Offset3(d, i, j, k) < |Build3(A)| && Build3(A)[Offset3(d, i, j, k)] == F(i, j, k)
    {
      Build3At(A, d, i, j, k);
    }
    Build3(A)
  }

  function TabNest4<T>(d: Dims, F: (nat, nat, nat, nat) --> T): (A: seq<seq<seq<seq<T>>>>)
    requires |d| == 4
    requires forall f: nat, c: nat, i: nat, j: nat :: InBounds4(d, f, c, i, j) ==> F.requires(f, c, i, j)
    ensures Shape4(A, d)
    ensures forall f: nat, c: nat, i: nat, j: nat :: InBounds4(d, f, c, i, j) ==> A[f][c][i][j] == F(f, c, i, j)
  {
    var A := seq(d[0], f requires 0 <= f < d[0] =>
      assert forall c: nat, i: nat, j: nat :: InBounds3(d[1..], c, i, j) ==> InBounds4(d, f, c, i, j);
      TabNest3(d[1..], Fix4(F, f)));
    forall f: nat, c: nat, i: nat, j: nat | InBounds4(d, f, c, i, j)
      ensures A[f][c][i][j] == F(f, c, i, j)
    {
      assert InBounds3(d[1..], c, i, j);
    }
    A
  }

  /** The row-major buffer a four-deep loop nest leaves when it writes `F(f, c, i, j)` into every cell. */
  function Tab4<T>(d: Dims, F: (nat, nat, nat, nat) --> T): (r: seq<T>)
    requires |d| == 4
    requires forall f: nat, c: nat, i: nat, j: nat :: InBounds4(d, f, c, i, j) ==> F.requires(f, c, i, j)
    ensures |r| == FlattenSize(d)
    ensures forall f: nat, c: nat, i: nat, j: nat :: InBounds4(d, f, c, i, j) ==>
              Offset4(d, f, c, i, j) < |r| && r[Offset4(d, f, c, i, j)] == F(f, c, i, j)
  {
    var A := TabNest4(d, F);
    Build4Length(A, d);
    forall f: nat, c: nat, i: nat, j: nat | InBounds4(d, f, c, i, j)
      ensures Offset4(d, f, c, i, j) < |Build4(A)| && Build4(A)[Offset4(d, f, c, i, j)] == F(f, c, i, j)
    {
      Build4At(A, d, f, c, i, j);
    }
    Build4(A)
  }

  /** Two buffers of one rank-2 shape that agree at every offset are equal. */
  lemma SeqExt2<T>(a: seq<T>, b: seq<T>, d: Dims)
    requires |d| == 2 && |a| == FlattenSize(d) && |b| == FlattenSize(d)
    requires forall i: nat, j: nat :: InBounds2(d, i, j) ==>
               Offset2(d, i, j) < |a| && a[Offset2(d, i, j)] == b[Offset2(d, i, j)]
    ensures a == b
  {
    forall t | 0 <= t < |a|
      ensures a[t] == b[t]
    {
      var i, j := Offset2Onto(d, t);
    }
  }

  lemma SeqExt3<T>(a: seq<T>, b: seq<T>, d: Dims)
    requires |d| == 3 && |a| == FlattenSize(d) && |b| == FlattenSize(d)
    requires forall i: nat, j: nat, k: nat :: InBounds3(d, i, j, k) ==>
               Offset3(d, i, j, k) < |a| && a[Offset3(d, i, j, k)] == b[Offset3(d, i, j, k)]
    ensures a == b
  {
    forall t | 0 <= t < |a|
      ensures a[t] == b[t]
    {
      var i, j, k := Offset3Onto(d, t);
    }
  }

  lemma SeqExt4<T>(a: seq<T>, b: seq<T>, d: Dims)
    requires |d| == 4 && |a| == FlattenSize(d) && |b| == FlattenSize(d)
    requires forall f: nat, c: nat, i: nat, j: nat :: InBounds4(d, f, c, i, j) ==>
               Offset4(d, f, c, i, j) < |a| && a[Offset4(d, f, c, i, j)] == b[Offset4(d, f, c, i, j)]
    ensures a == b
  {
    forall t | 0 <= t < |a|
      ensures a[t] == b[t]
    {
      var f, c, i, j := Offset4Onto(d, t);
    }
  }

  /** A rank-4 shape with its last two axes merged: `[d0, d1, d2 * d3]`. */
  function Merge23(d: Dims): Dims
    requires |d| == 4
  {
    [d[0], d[1], d[2] * d[3]]
  }

  /** Reading a rank-4 buffer through the merged shape: cell `(f, c, i*d3 + j)` is cell `(f, c, i, j)`. */
  lemma Merge23Offset(d: Dims, f: nat, c: nat, i: nat, j: nat)
    requires InBounds4(d, f, c, i, j)
    ensures InBounds3(Merge23(d), f, c, i * d[3] + j)
    ensures FlattenSize(Merge23(d)) == FlattenSize(d)
    ensures Offset3(Merge23(d), f, c, i * d[3] + j) == Offset4(d, f, c, i, j)
  {
    MixedBound(i, j, d[2], d[3]);
    FlattenSize3(Merge23(d));
    FlattenSize4(d);
    var m := Merge23(d);
    assert Offset3(m, f, c, i * d[3] + j) == d[1] * (d[2] * d[3]) * f + (d[2] * d[3]) * c + (i * d[3] + j);
    assert d[1] * (d[2] * d[3]) * f == d[1] * d[2] * d[3] * f;
    assert (d[2] * d[3]) * c == d[2] * d[3] * c;
    assert i * d[3] == d[3] * i;
  }

  /** Viewing a rank-4 buffer as `[d0, d1, d2*d3]` keeps its size. */
  lemma Merge23Size(d: Dims)
    requires |d| == 4
    ensures FlattenSize(Merge23(d)) == FlattenSize(d)
  {
    FlattenSize3(Merge23(d));
    FlattenSize4(d);
    assert d[0] * d[1] * (d[2] * d[3]) == d[0] * d[1] * d[2] * d[3];
  }

  /** A rank-4 shape with its last three axes merged: `[d0, d1 * d2 * d3]`. */
  function Merge123(d: Dims): Dims
    requires |d| == 4
  {
    [d[0], FlattenSize(d[1..])]
  }

  /** Viewing a rank-4 buffer as `[d0, d1*d2*d3]` keeps its size. */
  lemma Merge123Size(d: Dims)
    requires |d| == 4
    ensures FlattenSize(Merge123(d)) == FlattenSize(d)
  {
    FlattenSize3(d[1..]);
    FlattenSize2(Merge123(d));
    FlattenSize4(d);
  }

  /** Reading a rank-4 buffer through `[d0, d1*d2*d3]`: cell `(f, Offset3(c, i, j))` is cell `(f, c, i, j)`. */
  lemma Merge123Offset(d: Dims, f: nat, c: nat, i: nat, j: nat)
    requires InBounds4(d, f, c, i, j)
    ensures InBounds3(d[1..], c, i, j)
    ensures InBounds2(Merge123(d), f, Offset3(d[1..], c, i, j))
    ensures FlattenSize(Merge123(d)) == FlattenSize(d)
    ensures Offset2(Merge123(d), f, Offset3(d[1..], c, i, j)) == Offset4(d, f, c, i, j)
  {
    Offset3Bound(d[1..], c, i, j);
    FlattenSize3(d[1..]);
    FlattenSize2(Merge123(d));
    FlattenSize4(d);
    Offset4Split(d, f, c, i, j);
  }

  // ---------------------------------------------------------------------------

  /** Same number of rows and the same length row by row. */
  ghost predicate SameRows(a: seq<seq<real>>, b: seq<seq<real>>)
  {
    |a| == |b| && forall i :: 0 <= i < |a| ==> |a[i]| == |b[i]|
  }

  /**
   * `gx_matrix_add`: asserts equal row counts, then adds `src` into `dest`
   * row by row (valarray `+=` needs equal row lengths).
   */
  function MatrixAdd(dest: seq<seq<real>>, src: seq<seq<real>>): (r: seq<seq<real>>)
    requires SameRows(dest, src)
    ensures SameRows(r, dest)
    ensures forall i, j :: 0 <= i < |r| && 0 <= j < |r[i]| ==> r[i][j] == dest[i][j] + src[i][j]
  {
    seq(|dest|, i requires 0 <= i < |dest| => seq(|dest[i]|, j requires 0 <= j < |dest[i]| => dest[i][j] + src[i][j]))
  }

  // ---------------------------------------------------------------------------

  /**
   * `std::vector::resize(n, pad)`: the first `min(n, |v|)` entries stay and
   * any new ones are `pad`.
   */
  function Resize<T>(v: seq<T>, n: nat, pad: T): (r: seq<T>)
    ensures |r| == n
    ensures forall k :: 0 <= k < n ==> r[k] == if k < |v| then v[k] else pad
  {
    if n <= |v| then v[..n] else v + seq(n - |v|, _ => pad)
  }

  /**
   * `std::valarray::resize(n, pad)`: unlike the vector's, it assigns `pad` to
   * every entry, so nothing the array held before survives.
   */
  function ValarrayResize<T>(v: seq<T>, n: nat, pad: T): (r: seq<T>)
    ensures |r| == n
    ensures forall k :: 0 <= k < n ==> r[k] == pad
  {
    seq(n, _ => pad)
  }
}
