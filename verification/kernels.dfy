/**
 * The numeric kernels of gxnet/common.cpp: the SIMD-blocked inner product,
 * the scalar-vector product, the Kronecker (outer) product, the two row-wise
 * matrix products and the zero-initialised matrix multiplication.  Values are
 * exact reals, so the SIMD lanes' reassociation of the sums is harmless; the
 * lane count is a parameter that the results do not depend on.
 */
module Kernels {
  import opened Sums
  import opened Tensor

  // ---------------------------------------------------------------------------
  // gx_inner_product

  /** Element-wise sum of two vectors of one width (a SIMD `+`). */
  function LaneAdd(u: seq<real>, v: seq<real>): (r: seq<real>)
    requires |u| == |v|
    ensures |r| == |u|
    ensures forall l :: 0 <= l < |u| ==> r[l] == u[l] + v[l]
  {
    seq(|u|, l requires 0 <= l < |u| => u[l] + v[l])
  }

  /**
   * The SIMD accumulator after adding the `groups` consecutive `lanes`-wide
   * slices of `p` lane by lane (`tA0 += tA1 + ... + tA7`).
   */
  function LaneSums(p: seq<real>, lanes: nat, groups: nat): (r: seq<real>)
    requires |p| == groups * lanes
    ensures |r| == lanes
    decreases groups
  {
    if groups == 0 then seq(lanes, l => 0.0)
    else
      var n := (groups - 1) * lanes;
      LaneAdd(LaneSums(p[..n], lanes, groups - 1), p[n..])
  }

  /** Reducing the lane accumulator gives the plain sum of the block. */
  lemma {:induction false} LaneSumsTotal(p: seq<real>, lanes: nat, groups: nat)
    requires |p| == groups * lanes
    ensures Sum(LaneSums(p, lanes, groups)) == Sum(p)
    decreases groups
  {
    if groups == 0 {
      SumZeros(lanes);
    } else {
      var n := (groups - 1) * lanes;
      LaneSumsTotal(p[..n], lanes, groups - 1);
      SumAdd(LaneSums(p[..n], lanes, groups - 1), p[n..], LaneSums(p, lanes, groups));
      assert p == p[..n] + p[n..];
      SumAppend(p[..n], p[n..]);
    }
  }

  /** What one iteration of a blocked loop adds: the reduced lane sums of `groups * lanes` products. */
  function SimdBlock(a: seq<real>, b: seq<real>, idx: nat, lanes: nat, groups: nat): real
    requires idx + groups * lanes <= |a| && idx + groups * lanes <= |b|
  {
    var e := idx + groups * lanes;
    Sum(LaneSums(Products(a[idx..e], b[idx..e]), lanes, groups))
  }

  /** A block extends the dot product of the prefix by the block's elements. */
  lemma BlockStep(a: seq<real>, b: seq<real>, idx: nat, lanes: nat, groups: nat)
    requires idx + groups * lanes <= |a| && idx + groups * lanes <= |b|
    ensures Dot(a[..idx], b[..idx]) + SimdBlock(a, b, idx, lanes, groups)
         == Dot(a[..idx + groups * lanes], b[..idx + groups * lanes])
  {
    var e := idx + groups * lanes;
    LaneSumsTotal(Products(a[idx..e], b[idx..e]), lanes, groups);
    DotSplit(a, b, idx, e);
  }

  /** A prefix dot product splits at any point. */
  lemma DotSplit(a: seq<real>, b: seq<real>, idx: nat, e: nat)
    requires idx <= e <= |a| && e <= |b|
    ensures Dot(a[..idx], b[..idx]) + Dot(a[idx..e], b[idx..e]) == Dot(a[..e], b[..e])
  {
    var a1, a2, b1, b2 := a[..idx], a[idx..e], b[..idx], b[idx..e];
    PrefixJoin(a, idx, e);
    PrefixJoin(b, idx, e);
    DotAppend(a1, a2, b1, b2);
  }

  /** A prefix followed by the next slice is the longer prefix. */
  lemma PrefixJoin<T>(s: seq<T>, idx: nat, e: nat)
    requires idx <= e <= |s|
    ensures s[..idx] + s[idx..e] == s[..e]
  {
  }

  /** One more element extends a prefix dot product by its product. */
  lemma DotSnoc(a: seq<real>, b: seq<real>, k: nat)
    requires k < |a| && k < |b|
    ensures Dot(a[..k + 1], b[..k + 1]) == Dot(a[..k], b[..k]) + a[k] * b[k]
  {
    DotAppend(a[..k], [a[k]], b[..k], [b[k]]);
    var p := Products([a[k]], [b[k]]);
    assert p[..0] == [];
    assert Sum(p) == Sum(p[..0]) + p[0];
    assert a[..k] + [a[k]] == a[..k + 1];
    assert b[..k] + [b[k]] == b[..k + 1];
  }

  /**
   * One blocked loop of `gx_inner_product`: while a whole block of
   * `groups * lanes` elements remains below `count`, add its reduced lane sums.
   */
  method BlockLoop(a: seq<real>, b: seq<real>, count: nat, lanes: nat, groups: nat, r0: real, idx0: nat)
    returns (r: real, idx: nat)
    requires 1 <= lanes && 1 <= groups
    requires count <= |a| && count <= |b| && idx0 <= count
    requires r0 == Dot(a[..idx0], b[..idx0])
    ensures idx0 <= idx <= count && count < idx + groups * lanes
    ensures r == Dot(a[..idx], b[..idx])
  {
    var step := groups * lanes;
    assert 1 <= step by {
      MulMono(1, groups, lanes);
    }
    r, idx := r0, idx0;
    while idx + step - 1 < count
      invariant idx0 <= idx <= count
      invariant r == Dot(a[..idx], b[..idx])
      decreases count - idx
    {
      BlockAdvance(a, b, idx, lanes, groups, step, r);
      r := r + SimdBlock(a, b, idx, lanes, groups);
      idx := idx + step;
    }
  }

  /** `BlockStep` for a running sum `r` and a block of `step` elements. */
  lemma BlockAdvance(a: seq<real>, b: seq<real>, idx: nat, lanes: nat, groups: nat, step: nat, r: real)
    requires step == groups * lanes && idx + step <= |a| && idx + step <= |b|
    requires r == Dot(a[..idx], b[..idx])
    ensures r + SimdBlock(a, b, idx, lanes, groups) == Dot(a[..idx + step], b[..idx + step])
  {
    BlockStep(a, b, idx, lanes, groups);
  }

  /**
   * `gx_inner_product`: blocks of `8 * lanes`, then `2 * lanes`, then
   * `lanes` elements, then single elements; together they cover `[0, count)`
   * once, so the result is the exact dot product of the first `count` elements.
   */
  method InnerProduct(a: seq<real>, b: seq<real>, count: nat, lanes: nat) returns (r: real)
    requires 1 <= lanes
    requires count <= |a| && count <= |b|
    ensures r == Dot(a[..count], b[..count])
  {
    var idx: nat;
    r, idx := BlockLoop(a, b, count, lanes, 8, 0.0, 0);
    r, idx := BlockLoop(a, b, count, lanes, 2, r, idx);
    r, idx := BlockLoop(a, b, count, lanes, 1, r, idx);
    while idx < count
      invariant idx <= count
      invariant r == Dot(a[..idx], b[..idx])
    {
      DotSnoc(a, b, idx);
      r := r + a[idx] * b[idx];
      idx := idx + 1;
    }
  }

  // ---------------------------------------------------------------------------
  // gx_vs_product and gx_kronecker_product

  /**
   * `gx_vs_product(a, k, c + at, count)`: writes `k * a[i]` into `c[at + i]`
   * for `i < count` and nothing else.
   */
  function VsProduct(a: seq<real>, k: real, c: seq<real>, at: nat, count: nat): (r: seq<real>)
    requires count <= |a| && at + count <= |c|
    ensures |r| == |c|
    ensures forall i :: 0 <= i < count ==> r[at + i] == k * a[i]
    ensures forall t :: 0 <= t < |c| && !(at <= t < at + count) ==> r[t] == c[t]
  {
    c[..at] + seq(count, i requires 0 <= i < count => k * a[i]) + c[at + count..]
  }

  /** Used in place (`c == a`), the product scales the first `count` elements and keeps the rest. */
  lemma VsProductInPlace(a: seq<real>, k: real, count: nat)
    requires count <= |a|
    ensures VsProduct(a, k, a, 0, count) == seq(count, i requires 0 <= i < count => k * a[i]) + a[count..]
  {
    var r := VsProduct(a, k, a, 0, count);
    var s := seq(count, i requires 0 <= i < count => k * a[i]) + a[count..];
    forall t | 0 <= t < |a|
      ensures r[t] == s[t]
    {
      if t < count {
        assert r[0 + t] == k * a[t];
      }
    }
  }

  /** The rows of the outer product: row `i` is `b` scaled by `a[i]`. */
  function OuterRows(a: seq<real>, aCount: nat, b: seq<real>, bCount: nat): (rows: seq<seq<real>>)
    requires aCount <= |a| && bCount <= |b|
    ensures |rows| == aCount && Uniform(rows, bCount)
    ensures forall i, j :: 0 <= i < aCount && 0 <= j < bCount ==> rows[i][j] == a[i] * b[j]
  {
    seq(aCount, i requires 0 <= i < aCount => seq(bCount, j requires 0 <= j < bCount => a[i] * b[j]))
  }

  /**
   * `gx_kronecker_product` without Eigen: for each `i < aCount` in turn,
   * `gx_vs_product(b, a[i], c + i * bCount, bCount)`.  The buffer ends up
   * holding the outer product row-major, followed by its untouched tail.
   */
  function Kronecker(a: seq<real>, aCount: nat, b: seq<real>, bCount: nat, c: seq<real>): (r: seq<real>)
    requires aCount <= |a| && bCount <= |b| && aCount * bCount <= |c|
    ensures |r| == |c|
    ensures r == Flatten(OuterRows(a, aCount, b, bCount)) + c[aCount * bCount..]
    decreases aCount
  {
    if aCount == 0 then c
    else
      var n := aCount - 1;
      NextBlock(n, bCount);
      var prev := Kronecker(a, n, b, bCount, c);
      KroneckerStep(a, n, b, bCount, c, prev);
      VsProduct(b, a[n], prev, n * bCount, bCount)
  }

  lemma NextBlock(n: nat, w: nat)
    ensures (n + 1) * w == n * w + w
  {
  }

  /** Scaling `b` into the block after `n` rows extends the outer product by row `n`. */
  lemma KroneckerStep(a: seq<real>, n: nat, b: seq<real>, bCount: nat, c: seq<real>, prev: seq<real>)
    requires n < |a| && bCount <= |b| && (n + 1) * bCount <= |c|
    requires prev == Flatten(OuterRows(a, n, b, bCount)) + c[n * bCount..]
    ensures n * bCount + bCount <= |prev|
    ensures VsProduct(b, a[n], prev, n * bCount, bCount)
         == Flatten(OuterRows(a, n + 1, b, bCount)) + c[(n + 1) * bCount..]
  {
    NextBlock(n, bCount);
    var m := n * bCount;
    var f := Flatten(OuterRows(a, n, b, bCount));
    FlattenLength(OuterRows(a, n, b, bCount), bCount);
    var rows := OuterRows(a, n + 1, b, bCount);
    assert rows[..n] == OuterRows(a, n, b, bCount);
    assert Flatten(rows) == f + rows[n];
    var scaled := seq(bCount, j requires 0 <= j < bCount => a[n] * b[j]);
    assert rows[n] == scaled;
    assert prev[..m] == f;
    assert prev[m + bCount..] == c[m + bCount..];
  }

  /** Cell `(i, j)` of the result is `a[i] * b[j]`. */
  lemma KroneckerCell(a: seq<real>, aCount: nat, b: seq<real>, bCount: nat, c: seq<real>, i: nat, j: nat)
    requires aCount <= |a| && bCount <= |b| && aCount * bCount <= |c|
    requires i < aCount && j < bCount
    ensures i * bCount + j < |c| && Kronecker(a, aCount, b, bCount, c)[i * bCount + j] == a[i] * b[j]
  {
    var rows := OuterRows(a, aCount, b, bCount);
    FlattenAt(rows, bCount, i, j);
  }

  /** Nothing at or after `aCount * bCount` changes. */
  lemma KroneckerTail(a: seq<real>, aCount: nat, b: seq<real>, bCount: nat, c: seq<real>, t: nat)
    requires aCount <= |a| && bCount <= |b| && aCount * bCount <= t < |c|
    ensures Kronecker(a, aCount, b, bCount, c)[t] == c[t]
  {
    FlattenLength(OuterRows(a, aCount, b, bCount), bCount);
  }

  // ---------------------------------------------------------------------------
  // Row views, gx_rows_product and gx_matmul

  /** A valid matrix: rank 2 and a buffer of exactly `rows * cols` elements. */
  ghost predicate Matrix(s: Span<real>)
  {
    Valid(s) && |s.dims| == 2
  }

  lemma RowBound(s: Span<real>, i: nat)
    requires Matrix(s) && i < s.dims[0]
    ensures i * s.dims[1] + s.dims[1] <= |s.data|
  {
    FlattenSize2(s.dims);
    MulMono(i + 1, s.dims[0], s.dims[1]);
  }

  /** Row `i` of a matrix: the contiguous elements `(i, 0) .. (i, cols - 1)`. */
  function Row(s: Span<real>, i: nat): (r: seq<real>)
    requires Matrix(s) && i < s.dims[0]
    ensures |r| == s.dims[1]
    ensures forall k :: 0 <= k < s.dims[1] ==> r[k] == At2(s, i, k)
  {
    RowBound(s, i);
    s.data[i * s.dims[1] .. i * s.dims[1] + s.dims[1]]
  }

  /** The first `n` entries of column `j` of a matrix. */
  function Col(s: Span<real>, j: nat, n: nat): (r: seq<real>)
    requires Matrix(s) && j < s.dims[1] && n <= s.dims[0]
    ensures |r| == n
    ensures forall k :: 0 <= k < n ==> r[k] == At2(s, k, j)
  {
    seq(n, k requires 0 <= k < n => At2(s, k, j))
  }

  /** The transposed matrix. */
  function Transpose(s: Span<real>): (r: Span<real>)
    requires Matrix(s)
    ensures Matrix(r) && r.dims == [s.dims[1], s.dims[0]]
    ensures forall i, j :: 0 <= i < s.dims[1] && 0 <= j < s.dims[0] ==> At2(r, i, j) == At2(s, j, i)
  {
    var d := [s.dims[1], s.dims[0]];
    var rows := seq(s.dims[1], i requires 0 <= i < s.dims[1] => Col(s, i, s.dims[0]));
    var r := Span(Flatten(rows), d);
    Build2Length(rows, d);
    forall i, j | 0 <= i < s.dims[1] && 0 <= j < s.dims[0]
      ensures At2(r, i, j) == At2(s, j, i)
    {
      Build2At(rows, d, i, j);
    }
    r
  }

  /** `gx_rows_product` accepts two matrices whose rows have the same length. */
  ghost predicate RowsCompatible(a: Span<real>, b: Span<real>)
  {
    Matrix(a) && Matrix(b) && a.dims[1] == b.dims[1]
  }

  /**
   * The guard the biased `gx_rows_product` actually asserts: it compares
   * `a.dim(1)` with itself, so only the ranks are checked.
   */
  ghost predicate BiasedGuardAsWritten(a: Span<real>, b: Span<real>)
  {
    Matrix(a) && Matrix(b) && a.dims[1] == a.dims[1]
  }

  /**
   * Under the written guard, a matrix `b` whose rows are shorter than `a`'s is
   * accepted, and the loop, which steps through `b` by `a`'s row length, reads
   * past the end of `b`'s buffer.
   */
  lemma BiasedGuardAdmitsOverrun()
    ensures var a := Span([1.0, 1.0], [1, 2]);
            var b := Span([1.0, 2.0], [2, 1]);
            BiasedGuardAsWritten(a, b) && !RowsCompatible(a, b)
            && b.dims[0] * a.dims[1] > |b.data|
  {
    FlattenSize2([1, 2]);
    FlattenSize2([2, 1]);
  }

  /** Unbiased `gx_rows_product`: `C(i, j) = dot(row i of A, row j of B)`, shape `aRows x bRows`. */
  function RowsProduct(a: Span<real>, b: Span<real>): (r: seq<real>)
    requires RowsCompatible(a, b)
    ensures Valid(Span(r, [a.dims[0], b.dims[0]]))
    ensures forall i, j :: 0 <= i < a.dims[0] && 0 <= j < b.dims[0] ==>
              At2(Span(r, [a.dims[0], b.dims[0]]), i, j) == Dot(Row(a, i), Row(b, j))
  {
    var d := [a.dims[0], b.dims[0]];
    var rows := seq(a.dims[0], i requires 0 <= i < a.dims[0] =>
                  seq(b.dims[0], j requires 0 <= j < b.dims[0] => Dot(Row(a, i), Row(b, j))));
    Build2Length(rows, d);
    forall i, j | 0 <= i < a.dims[0] && 0 <= j < b.dims[0]
      ensures At2(Span(Flatten(rows), d), i, j) == Dot(Row(a, i), Row(b, j))
    {
      Build2At(rows, d, i, j);
    }
    Flatten(rows)
  }

  /**
   * Biased `gx_rows_product` with the corrected guard: `C(i, j)` is the row
   * dot product plus `biases[i]` when the biases belong to A and `biases[j]`
   * otherwise.
   */
  function RowsProductBiased(a: Span<real>, b: Span<real>, biases: seq<real>, isABiases: bool): (r: seq<real>)
    requires RowsCompatible(a, b)
    requires if isABiases then a.dims[0] <= |biases| else b.dims[0] <= |biases|
    ensures Valid(Span(r, [a.dims[0], b.dims[0]]))
    ensures forall i, j :: 0 <= i < a.dims[0] && 0 <= j < b.dims[0] ==>
              At2(Span(r, [a.dims[0], b.dims[0]]), i, j)
                == Dot(Row(a, i), Row(b, j)) + (if isABiases then biases[i] else biases[j])
  {
    var d := [a.dims[0], b.dims[0]];
    var rows := seq(a.dims[0], i requires 0 <= i < a.dims[0] =>
                  seq(b.dims[0], j requires 0 <= j < b.dims[0] =>
                    Dot(Row(a, i), Row(b, j)) + (if isABiases then biases[i] else biases[j])));
    Build2Length(rows, d);
    forall i, j | 0 <= i < a.dims[0] && 0 <= j < b.dims[0]
      ensures At2(Span(Flatten(rows), d), i, j)
                == Dot(Row(a, i), Row(b, j)) + (if isABiases then biases[i] else biases[j])
    {
      Build2At(rows, d, i, j);
    }
    Flatten(rows)
  }

  /** Two matrices of one shape that agree at every index are the same buffer. */
  lemma Ext2(x: Span<real>, y: Span<real>)
    requires Matrix(x) && Matrix(y) && x.dims == y.dims
    requires forall i, j :: 0 <= i < x.dims[0] && 0 <= j < x.dims[1] ==> At2(x, i, j) == At2(y, i, j)
    ensures x.data == y.data
  {
    forall t | 0 <= t < |x.data|
      ensures x.data[t] == y.data[t]
    {
      var i, j := Offset2Onto(x.dims, t);
      assert At2(x, i, j) == At2(y, i, j);
    }
  }

  /** With all-zero biases the biased product is the unbiased one. */
  lemma RowsProductZeroBiases(a: Span<real>, b: Span<real>, biases: seq<real>, isABiases: bool)
    requires RowsCompatible(a, b)
    requires if isABiases then a.dims[0] <= |biases| else b.dims[0] <= |biases|
    requires forall t :: 0 <= t < |biases| ==> biases[t] == 0.0
    ensures RowsProductBiased(a, b, biases, isABiases) == RowsProduct(a, b)
  {
    var d := [a.dims[0], b.dims[0]];
    Ext2(Span(RowsProductBiased(a, b, biases, isABiases), d), Span(RowsProduct(a, b), d));
  }

  /** Swapping the operands transposes the product. */
  lemma RowsProductSwap(a: Span<real>, b: Span<real>)
    requires RowsCompatible(a, b)
    ensures Span(RowsProduct(b, a), [b.dims[0], a.dims[0]])
         == Transpose(Span(RowsProduct(a, b), [a.dims[0], b.dims[0]]))
  {
    var x := Span(RowsProduct(b, a), [b.dims[0], a.dims[0]]);
    var y := Transpose(Span(RowsProduct(a, b), [a.dims[0], b.dims[0]]));
    forall i, j | 0 <= i < b.dims[0] && 0 <= j < a.dims[0]
      ensures At2(x, i, j) == At2(y, i, j)
    {
      DotCommutes(Row(b, i), Row(a, j));
    }
    Ext2(x, y);
  }

  /** The matrix product `A.B` of gx_matmul: `C(i, j) = sum over k < aCols of A(i, k) * B(k, j)`. */
  ghost predicate MatMulShapes(a: Span<real>, b: Span<real>)
  {
    Matrix(a) && Matrix(b) && a.dims[1] <= b.dims[0]
  }

  /**
   * `gx_matmul`: the result buffer is resized to `aRows x bCols`, which zero
   * fills it, then `C(i, j) += A(i, k) * B(k, j)` runs over `i`, `k`, `j` in
   * that order.  The source reads `B(k, j)` only for `k < aCols`, which is all
   * it needs of `B`'s row count.  The result dims are left to the caller.
   */
  method MatMul(a: Span<real>, b: Span<real>) returns (r: seq<real>)
    requires MatMulShapes(a, b)
    ensures Valid(Span(r, [a.dims[0], b.dims[1]]))
    ensures forall i, j :: 0 <= i < a.dims[0] && 0 <= j < b.dims[1] ==>
              At2(Span(r, [a.dims[0], b.dims[1]]), i, j) == Dot(Row(a, i), Col(b, j, a.dims[1]))
  {
    var aRows, aCols, bCols := a.dims[0], a.dims[1], b.dims[1];
    var c := seq(aRows, i => seq(bCols, j => 0.0));
    var i := 0;
    while i < aRows
      invariant i <= aRows && |c| == aRows
      invariant forall i' :: 0 <= i' < aRows ==> |c[i']| == bCols
      invariant forall i', j :: 0 <= i' < i && 0 <= j < bCols ==> c[i'][j] == Dot(Row(a, i'), Col(b, j, aCols))
      invariant forall i', j :: i <= i' < aRows && 0 <= j < bCols ==> c[i'][j] == 0.0
    {
      var row := MatMulRow(a, b, i, c[i]);
      c := c[i := row];
      i := i + 1;
    }
    var d := [aRows, bCols];
    Build2Length(c, d);
    forall i, j | 0 <= i < aRows && 0 <= j < bCols
      ensures At2(Span(Flatten(c), d), i, j) == Dot(Row(a, i), Col(b, j, aCols))
    {
      Build2At(c, d, i, j);
    }
    r := Flatten(c);
  }

  /** The `k` and `j` loops of `gx_matmul` for one row `i`, starting from the zero-filled row. */
  method MatMulRow(a: Span<real>, b: Span<real>, i: nat, row0: seq<real>) returns (row: seq<real>)
    requires MatMulShapes(a, b) && i < a.dims[0]
    requires |row0| == b.dims[1] && forall j :: 0 <= j < |row0| ==> row0[j] == 0.0
    ensures |row| == b.dims[1]
    ensures forall j :: 0 <= j < b.dims[1] ==> row[j] == Dot(Row(a, i), Col(b, j, a.dims[1]))
  {
    var aCols, bCols := a.dims[1], b.dims[1];
    var cols := seq(bCols, j requires 0 <= j < bCols => Col(b, j, aCols));
    row := RowTimesCols(Row(a, i), cols, row0);
  }

  /** The `k` loop of `gx_matmul` over the row `x` of `A` against the columns `cols` of `B`. */
  method RowTimesCols(x: seq<real>, cols: seq<seq<real>>, row0: seq<real>) returns (row: seq<real>)
    requires |row0| == |cols| && forall j :: 0 <= j < |cols| ==> |cols[j]| == |x|
    requires forall j :: 0 <= j < |row0| ==> row0[j] == 0.0
    ensures |row| == |cols|
    ensures forall j :: 0 <= j < |cols| ==> row[j] == Dot(x, cols[j])
  {
    row := row0;
    var k := 0;
    while k < |x|
      invariant k <= |x| && |row| == |cols|
      invariant forall j :: 0 <= j < |cols| ==> row[j] == Dot(x[..k], cols[j][..k])
    {
      row := MatMulStep(x, cols, k, row);
      k := k + 1;
    }
    forall j | 0 <= j < |cols|
      ensures row[j] == Dot(x, cols[j])
    {
      DotWhole(x, cols[j]);
    }
  }

  /** The dot product of the whole-length prefixes is the dot product. */
  lemma DotWhole(a: seq<real>, b: seq<real>)
    requires |a| == |b|
    ensures Dot(a[..|a|], b[..|b|]) == Dot(a, b)
  {
    assert a[..|a|] == a && b[..|b|] == b;
  }

  /** The `j` loop of `gx_matmul` for one `(i, k)`: `C(i, j) += A(i, k) * B(k, j)` for every column. */
  method MatMulStep(x: seq<real>, cols: seq<seq<real>>, k: nat, row0: seq<real>) returns (row: seq<real>)
    requires k < |x| && |row0| == |cols|
    requires forall j :: 0 <= j < |cols| ==> |cols[j]| == |x|
    requires forall j :: 0 <= j < |cols| ==> row0[j] == Dot(x[..k], cols[j][..k])
    ensures |row| == |cols|
    ensures forall j :: 0 <= j < |cols| ==> row[j] == Dot(x[..k + 1], cols[j][..k + 1])
  {
    row := row0;
    var j := 0;
    while j < |cols|
      invariant j <= |cols| && |row| == |cols|
      invariant forall j' :: 0 <= j' < j ==> row[j'] == Dot(x[..k + 1], cols[j'][..k + 1])
      invariant forall j' :: j <= j' < |cols| ==> row[j'] == row0[j']
    {
      DotSnoc(x, cols[j], k);
      row := row[j := row[j] + x[k] * cols[j][k]];
      j := j + 1;
    }
  }

  /** The columns of `B` are the rows of its transpose, so `A.B` is the row product of `A` and `B` transposed. */
  lemma MatMulIsRowsProduct(a: Span<real>, b: Span<real>, i: nat, j: nat)
    requires Matrix(a) && Matrix(b) && a.dims[1] == b.dims[0]
    requires i < a.dims[0] && j < b.dims[1]
    ensures RowsCompatible(a, Transpose(b))
    ensures Dot(Row(a, i), Col(b, j, a.dims[1]))
         == At2(Span(RowsProduct(a, Transpose(b)), [a.dims[0], b.dims[1]]), i, j)
  {
    assert Col(b, j, a.dims[1]) == Row(Transpose(b), j);
  }
}
