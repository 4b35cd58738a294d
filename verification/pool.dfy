/**
 * The pooling layers of gxnet/layer.cpp: `MaxPoolLayer` and `AvgPoolLayer`.
 *
 * Both lay a `p x p` window with stride `p` over the two spatial axes of a
 * rank-4 input `(N, C, H, W)` and produce `(N, C, H/p, W/p)`; rows and
 * columns past the last whole window take no part. Window `(x, y)` covers the
 * input cells `(x*p + a, y*p + b)` with `a, b < p`, visited `a`-major.
 */
module Pool {
  import opened Sums
  import opened Tensor

  /** The seed of the max-pool fold, `1.0 * INT_MIN` for a 32-bit `int`. */
  const IntMin: real := -2147483648.0

  /** A valid rank-4 input and a positive pool size. */
  ghost predicate PoolShapes(inp: Span<real>, p: nat)
  {
    Valid(inp) && |inp.dims| == 4 && p > 0
  }

  /** The output dims of both pooling layers: the spatial axes divided by `p`, rounding down. */
  function PooledDims(d: Dims, p: nat): (r: Dims)
    requires |d| == 4 && p > 0
    ensures |r| == 4 && r[0] == d[0] && r[1] == d[1]
  {
    [d[0], d[1], d[2] / p, d[3] / p]
  }

  // ---------------------------------------------------------------------------
  // Window arithmetic

  /** Offset `a` inside whole window `x` of an axis of length `h` stays on the axis. */
  lemma WindowFits(x: nat, a: nat, p: nat, h: nat)
    requires p > 0 && x < h / p && a < p
    ensures x * p + a < h
  {
    MulMono(x + 1, h / p, p);
  }

  /** Cell `x*p + a` of an axis belongs to window `x` at offset `a`. */
  lemma WindowOf(x: nat, a: nat, p: nat)
    requires a < p
    ensures (x * p + a) / p == x && (x * p + a) % p == a
  {
    var t := x * p + a;
    var q, r := t / p, t % p;
    assert q * p + r == x * p + a;
    MixedUnique(q, r, x, a, p);
  }

  /** A cell at or past `k` whole windows lies in no window below `k`. */
  lemma PastWindows(i: nat, k: nat, p: nat)
    requires p > 0 && k * p <= i
    ensures k <= i / p
  {
    if i / p < k {
      MulMono(i / p + 1, k, p);
    }
  }

  /** Window `(x, y)` exists in the output of channel `c` of sample `n`. */
  ghost predicate WindowAt(inp: Span<real>, p: nat, n: nat, c: nat, x: nat, y: nat)
  {
    PoolShapes(inp, p) && InBounds4(PooledDims(inp.dims, p), n, c, x, y)
  }

  /** Input cell `(a, b)` of window `(x, y)`. */
  function WindowCell(inp: Span<real>, p: nat, n: nat, c: nat, x: nat, y: nat, a: nat, b: nat): real
    requires WindowAt(inp, p, n, c, x, y) && a < p && b < p
  {
    WindowFits(x, a, p, inp.dims[2]);
    WindowFits(y, b, p, inp.dims[3]);
    At4(inp, n, c, x * p + a, y * p + b)
  }

  /** Cell `(a, b)` of window `(x, y)` is the span's cell `(i, j)`, which lies in window `(i / p, j / p)`. */
  lemma WindowCellAt(s: Span<real>, p: nat, n: nat, c: nat, x: nat, y: nat, a: nat, b: nat) returns (i: nat, j: nat)
    requires WindowAt(s, p, n, c, x, y) && a < p && b < p
    ensures i == x * p + a && j == y * p + b
    ensures InBounds4(s.dims, n, c, i, j) && i / p == x && j / p == y
    ensures WindowCell(s, p, n, c, x, y, a, b) == At4(s, n, c, i, j)
  {
    WindowFits(x, a, p, s.dims[2]);
    WindowFits(y, b, p, s.dims[3]);
    WindowOf(x, a, p);
    WindowOf(y, b, p);
    i, j := x * p + a, y * p + b;
  }

  /** The number of cells of a window, `p*p`, as the divisor of average pooling. */
  function Area(p: nat): (m: real)
    requires p > 0
    ensures m >= 1.0
  {
    (p as real) * (p as real)
  }

  /**
   * The window as `p` rows of `p` cells; `pool` and `unpool` visit it
   * row by row, that is in the order of `Flatten(Window(...))`.
   */
  function Window(inp: Span<real>, p: nat, n: nat, c: nat, x: nat, y: nat): (w: seq<seq<real>>)
    requires WindowAt(inp, p, n, c, x, y)
    ensures |w| == p && Uniform(w, p)
    ensures forall a, b :: 0 <= a < p && 0 <= b < p ==> w[a][b] == WindowCell(inp, p, n, c, x, y, a, b)
  {
    seq(p, a requires 0 <= a < p => seq(p, b requires 0 <= b < p => WindowCell(inp, p, n, c, x, y, a, b)))
  }

  // ---------------------------------------------------------------------------
  // Max pooling

  /** `std::max(a, b)`: `a` unless `a < b`. */
  function Max(a: real, b: real): (m: real)
    ensures m >= a && m >= b && (m == a || m == b)
  {
    if a < b then b else a
  }

  /** The running maximum of `pool`'s loop, seeded with `acc`. */
  function MaxFold(acc: real, s: seq<real>): real
  {
    if |s| == 0 then acc else Max(MaxFold(acc, s[..|s| - 1]), s[|s| - 1])
  }

  /** The fold is at least its seed and every term, and it is the seed or one of the terms. */
  lemma {:induction false} MaxFoldBounds(acc: real, s: seq<real>) returns (k: int)
    ensures MaxFold(acc, s) >= acc
    ensures forall i :: 0 <= i < |s| ==> MaxFold(acc, s) >= s[i]
    ensures -1 <= k < |s|
    ensures k == -1 ==> MaxFold(acc, s) == acc
    ensures k >= 0 ==> MaxFold(acc, s) == s[k]
  {
    if |s| == 0 {
      k := -1;
    } else {
      var n := |s| - 1;
      k := MaxFoldBounds(acc, s[..n]);
      assert forall i :: 0 <= i < n ==> s[..n][i] == s[i];
      if MaxFold(acc, s) == s[n] {
        k := n;
      }
    }
  }

  /** Folding a concatenation continues the fold of the first part over the second. */
  lemma {:induction false} MaxFoldAppend(acc: real, s: seq<real>, t: seq<real>)
    ensures MaxFold(acc, s + t) == MaxFold(MaxFold(acc, s), t)
  {
    if |t| == 0 {
      assert s + t == s;
    } else {
      var n := |t| - 1;
      assert (s + t)[..|s + t| - 1] == s + t[..n];
      MaxFoldAppend(acc, s, t[..n]);
    }
  }

  /**
   * The fold over rows read one after another is at least its seed and every
   * cell, and it is the seed (`a == -1`) or cell `(a, b)`.
   */
  lemma MaxFoldRows(acc: real, rows: seq<seq<real>>) returns (a: int, b: nat)
    ensures MaxFold(acc, Flatten(rows)) >= acc
    ensures forall i, j :: 0 <= i < |rows| && 0 <= j < |rows[i]| ==> MaxFold(acc, Flatten(rows)) >= rows[i][j]
    ensures -1 <= a < |rows|
    ensures a == -1 ==> MaxFold(acc, Flatten(rows)) == acc
    ensures a >= 0 ==> b < |rows[a]| && MaxFold(acc, Flatten(rows)) == rows[a][b]
  {
    MaxFoldRowsAbove(acc, rows);
    a, b := MaxFoldRowsAttained(acc, rows);
  }

  /** The fold over rows is at least its seed and every cell. */
  lemma {:induction false} MaxFoldRowsAbove(acc: real, rows: seq<seq<real>>)
    ensures MaxFold(acc, Flatten(rows)) >= acc
    ensures forall i, j :: 0 <= i < |rows| && 0 <= j < |rows[i]| ==> MaxFold(acc, Flatten(rows)) >= rows[i][j]
  {
    if |rows| > 0 {
      var n := |rows| - 1;
      var pre := Flatten(rows[..n]);
      MaxFoldRowsAbove(acc, rows[..n]);
      MaxFoldAppend(acc, pre, rows[n]);
      var _ := MaxFoldBounds(MaxFold(acc, pre), rows[n]);
      forall i, j | 0 <= i < |rows| && 0 <= j < |rows[i]|
        ensures MaxFold(acc, Flatten(rows)) >= rows[i][j]
      {
        if i < n {
          assert rows[..n][i] == rows[i];
        }
      }
    }
  }

  /** The fold over rows is its seed (`a == -1`) or cell `(a, b)`. */
  lemma {:induction false} MaxFoldRowsAttained(acc: real, rows: seq<seq<real>>) returns (a: int, b: nat)
    ensures -1 <= a < |rows|
    ensures a == -1 ==> MaxFold(acc, Flatten(rows)) == acc
    ensures a >= 0 ==> b < |rows[a]| && MaxFold(acc, Flatten(rows)) == rows[a][b]
  {
    if |rows| == 0 {
      a, b := -1, 0;
    } else {
      var n := |rows| - 1;
      var pre := Flatten(rows[..n]);
      a, b := MaxFoldRowsAttained(acc, rows[..n]);
      MaxFoldAppend(acc, pre, rows[n]);
      var k := MaxFoldBounds(MaxFold(acc, pre), rows[n]);
      if k >= 0 {
        a, b := n, k;
      } else if a >= 0 {
        assert rows[..n][a] == rows[a];
      }
    }
  }

  /** `MaxPoolLayer::pool`: the window maximum folded from `IntMin`, row by row. */
  function PoolMax(inp: Span<real>, p: nat, n: nat, c: nat, x: nat, y: nat): real
    requires WindowAt(inp, p, n, c, x, y)
  {
    MaxFold(IntMin, Flatten(Window(inp, p, n, c, x, y)))
  }

  /**
   * The pooled value is at least every window cell; when some cell reaches
   * `IntMin` it is one of the cells, and otherwise it is the seed `IntMin`.
   */
  lemma PoolMaxIsWindowMax(inp: Span<real>, p: nat, n: nat, c: nat, x: nat, y: nat)
    requires WindowAt(inp, p, n, c, x, y)
    ensures forall a: nat, b: nat :: a < p && b < p ==>
              PoolMax(inp, p, n, c, x, y) >= WindowCell(inp, p, n, c, x, y, a, b)
    ensures (exists a: nat, b: nat :: a < p && b < p && WindowCell(inp, p, n, c, x, y, a, b) >= IntMin) ==>
              exists a: nat, b: nat :: a < p && b < p && PoolMax(inp, p, n, c, x, y) == WindowCell(inp, p, n, c, x, y, a, b)
    ensures (forall a: nat, b: nat :: a < p && b < p ==> WindowCell(inp, p, n, c, x, y, a, b) < IntMin) ==>
              PoolMax(inp, p, n, c, x, y) == IntMin
  {
    var w := Window(inp, p, n, c, x, y);
    var m := PoolMax(inp, p, n, c, x, y);
    var a, b := MaxFoldRows(IntMin, w);
    if a >= 0 {
      assert m == WindowCell(inp, p, n, c, x, y, a, b);
    } else if a': nat, b': nat :| a' < p && b' < p && WindowCell(inp, p, n, c, x, y, a', b') >= IntMin {
      assert m >= w[a'][b'];
      assert m == WindowCell(inp, p, n, c, x, y, a', b');
    }
  }

  /** `MaxPoolLayer::calcOutput`: every output cell is its window's pooled maximum. */
  function MaxPoolOutput(inp: Span<real>, p: nat): (out: Span<real>)
    requires PoolShapes(inp, p)
    ensures Valid(out) && out.dims == PooledDims(inp.dims, p)
    ensures forall n: nat, c: nat, x: nat, y: nat :: InBounds4(out.dims, n, c, x, y) ==>
              At4(out, n, c, x, y) == PoolMax(inp, p, n, c, x, y)
  {
    var d := PooledDims(inp.dims, p);
    Span(Tab4(d, (n: nat, c: nat, x: nat, y: nat) requires InBounds4(d, n, c, x, y) => PoolMax(inp, p, n, c, x, y)), d)
  }

  /**
   * The buffers `backpropagate` reads: the input, the stored output (after
   * any activation) and the delta, the latter two of the pooled shape.
   */
  ghost predicate UnpoolShapes(inp: Span<real>, out: Span<real>, delta: Span<real>, p: nat)
  {
    PoolShapes(inp, p) && Valid(out) && out.dims == PooledDims(inp.dims, p)
    && Valid(delta) && delta.dims == out.dims
  }

  /**
   * Input-delta cell `(n, c, i, j)`: the delta of its window when the cell lies
   * in a whole window and equals that window's stored output, zero otherwise.
   */
  function MaxUnpoolCell(inp: Span<real>, out: Span<real>, delta: Span<real>, p: nat, n: nat, c: nat, i: nat, j: nat): real
    requires UnpoolShapes(inp, out, delta, p) && InBounds4(inp.dims, n, c, i, j)
  {
    if i / p < out.dims[2] && j / p < out.dims[3] && At4(inp, n, c, i, j) == At4(out, n, c, i / p, j / p)
    then At4(delta, n, c, i / p, j / p)
    else 0.0
  }

  /**
   * `MaxPoolLayer::backpropagate`: the input delta is resized (zero-filled) to
   * the input's size and shape, then each window's `unpool` writes the delta
   * into every cell equal to the stored maximum. Windows do not overlap, so
   * each cell is written at most once.
   */
  function MaxBackpropagate(inp: Span<real>, out: Span<real>, delta: Span<real>, p: nat): (inDelta: Span<real>)
    requires UnpoolShapes(inp, out, delta, p)
    ensures Valid(inDelta) && inDelta.dims == inp.dims && |inDelta.data| == |inp.data|
    ensures forall n: nat, c: nat, i: nat, j: nat :: InBounds4(inp.dims, n, c, i, j) ==>
              At4(inDelta, n, c, i, j) == MaxUnpoolCell(inp, out, delta, p, n, c, i, j)
  {
    var d := inp.dims;
    Span(Tab4(d, (n: nat, c: nat, i: nat, j: nat) requires InBounds4(d, n, c, i, j) =>
      MaxUnpoolCell(inp, out, delta, p, n, c, i, j)), d)
  }

  /**
   * The per-window view of `unpool`: cell `(a, b)` of window `(x, y)` receives
   * the window's delta exactly when it equals the window's stored output, so
   * ties all receive it.
   */
  lemma MaxUnpoolScatter(inp: Span<real>, out: Span<real>, delta: Span<real>, p: nat,
                         n: nat, c: nat, x: nat, y: nat, a: nat, b: nat)
    requires UnpoolShapes(inp, out, delta, p) && InBounds4(out.dims, n, c, x, y) && a < p && b < p
    ensures WindowAt(MaxBackpropagate(inp, out, delta, p), p, n, c, x, y)
    ensures WindowCell(MaxBackpropagate(inp, out, delta, p), p, n, c, x, y, a, b)
            == if WindowCell(inp, p, n, c, x, y, a, b) == At4(out, n, c, x, y) then At4(delta, n, c, x, y) else 0.0
  {
    var g := MaxBackpropagate(inp, out, delta, p);
    var i, j := WindowCellAt(g, p, n, c, x, y, a, b);
    var i', j' := WindowCellAt(inp, p, n, c, x, y, a, b);
    assert i' == i && j' == j;
    MaxUnpoolAt(inp, out, delta, p, n, c, i, j, x, y);
  }

  /** Input-delta cell `(n, c, i, j)` of `MaxBackpropagate`, for a cell inside a whole window. */
  lemma MaxUnpoolAt(inp: Span<real>, out: Span<real>, delta: Span<real>, p: nat, n: nat, c: nat, i: nat, j: nat, x: nat, y: nat)
    requires UnpoolShapes(inp, out, delta, p) && InBounds4(inp.dims, n, c, i, j)
    requires i / p == x && j / p == y && x < out.dims[2] && y < out.dims[3]
    ensures At4(MaxBackpropagate(inp, out, delta, p), n, c, i, j)
            == if At4(inp, n, c, i, j) == At4(out, n, c, x, y) then At4(delta, n, c, x, y) else 0.0
  {
  }

  /** Cells past the last whole window on either spatial axis receive zero. */
  lemma MaxUnpoolOutside(inp: Span<real>, out: Span<real>, delta: Span<real>, p: nat, n: nat, c: nat, i: nat, j: nat)
    requires UnpoolShapes(inp, out, delta, p) && InBounds4(inp.dims, n, c, i, j)
    requires out.dims[2] * p <= i || out.dims[3] * p <= j
    ensures At4(MaxBackpropagate(inp, out, delta, p), n, c, i, j) == 0.0
  {
    if out.dims[2] * p <= i {
      PastWindows(i, out.dims[2], p);
    } else {
      PastWindows(j, out.dims[3], p);
    }
  }

  /**
   * Without an activation the stored output is the forward result; then each
   * window with a cell at or above `IntMin` passes its delta to at least one
   * of its maximal cells.
   */
  lemma MaxUnpoolReachesArgmax(inp: Span<real>, delta: Span<real>, p: nat, n: nat, c: nat, x: nat, y: nat)
    requires PoolShapes(inp, p) && Valid(delta) && delta.dims == PooledDims(inp.dims, p)
    requires InBounds4(delta.dims, n, c, x, y)
    requires exists a: nat, b: nat :: a < p && b < p && WindowCell(inp, p, n, c, x, y, a, b) >= IntMin
    ensures WindowAt(MaxBackpropagate(inp, MaxPoolOutput(inp, p), delta, p), p, n, c, x, y)
    ensures exists a: nat, b: nat :: a < p && b < p
              && WindowCell(inp, p, n, c, x, y, a, b) == PoolMax(inp, p, n, c, x, y)
              && WindowCell(MaxBackpropagate(inp, MaxPoolOutput(inp, p), delta, p), p, n, c, x, y, a, b)
                 == At4(delta, n, c, x, y)
  {
    var out := MaxPoolOutput(inp, p);
    PoolMaxIsWindowMax(inp, p, n, c, x, y);
    var a: nat, b: nat :| a < p && b < p && PoolMax(inp, p, n, c, x, y) == WindowCell(inp, p, n, c, x, y, a, b);
    MaxUnpoolScatter(inp, out, delta, p, n, c, x, y, a, b);
  }

  // ---------------------------------------------------------------------------
  // Average pooling

  /** `AvgPoolLayer::pool`: the window sum, in loop order, divided by `p*p`. */
  function PoolAvg(inp: Span<real>, p: nat, n: nat, c: nat, x: nat, y: nat): real
    requires WindowAt(inp, p, n, c, x, y)
  {
    Sum(Flatten(Window(inp, p, n, c, x, y))) / Area(p)
  }

  /** Cells between `lo` and `hi` in `r` rows of `w` give a sum between `r*w` copies of `lo` and of `hi`. */
  lemma SumRowsBounds(rows: seq<seq<real>>, w: nat, lo: real, hi: real)
    requires Uniform(rows, w)
    requires forall i, j :: 0 <= i < |rows| && 0 <= j < w ==> lo <= rows[i][j] <= hi
    ensures Scaled(|rows|, Scaled(w, lo)) <= Sum(Flatten(rows)) <= Scaled(|rows|, Scaled(w, hi))
  {
    var sums := RowSums(rows);
    forall i | 0 <= i < |rows|
      ensures Scaled(w, lo) <= sums[i] <= Scaled(w, hi)
    {
      SumBounds(rows[i], lo, hi);
    }
    SumBounds(sums, Scaled(w, lo), Scaled(w, hi));
    SumFlatten(rows);
  }

  /** `p` copies of `p` copies of `v` make `Area(p) * v`. */
  lemma ScaledArea(p: nat, v: real)
    requires p > 0
    ensures Scaled(p, Scaled(p, v)) == Area(p) * v
  {
    ScaledIsProduct(p, v);
    ScaledIsProduct(p, Scaled(p, v));
    var r := p as real;
    assert r * (r * v) == (r * r) * v;
  }

  /** The average lies between any bounds of the window's cells. */
  lemma PoolAvgBounded(inp: Span<real>, p: nat, n: nat, c: nat, x: nat, y: nat, lo: real, hi: real)
    requires WindowAt(inp, p, n, c, x, y)
    requires forall a: nat, b: nat :: a < p && b < p ==> lo <= WindowCell(inp, p, n, c, x, y, a, b) <= hi
    ensures lo <= PoolAvg(inp, p, n, c, x, y) <= hi
  {
    var w := Window(inp, p, n, c, x, y);
    RowsAverageBounds(w, p, lo, hi);
  }

  /** The average of `p` rows of `p` cells lies between any bounds of the cells. */
  lemma RowsAverageBounds(rows: seq<seq<real>>, p: nat, lo: real, hi: real)
    requires p > 0 && |rows| == p && Uniform(rows, p)
    requires forall i, j :: 0 <= i < p && 0 <= j < p ==> lo <= rows[i][j] <= hi
    ensures lo <= Sum(Flatten(rows)) / Area(p) <= hi
  {
    SumRowsBounds(rows, p, lo, hi);
    AverageBetween(p, Sum(Flatten(rows)), lo, hi);
  }

  /** A sum between `p*p` copies of `lo` and of `hi`, divided by `Area(p)`, lies between `lo` and `hi`. */
  lemma AverageBetween(p: nat, s: real, lo: real, hi: real)
    requires p > 0 && Scaled(p, Scaled(p, lo)) <= s <= Scaled(p, Scaled(p, hi))
    ensures lo <= s / Area(p) <= hi
  {
    AverageAbove(p, s, lo);
    AverageBelow(p, s, hi);
  }

  /** A sum of at least `p*p` copies of `lo`, divided by `Area(p)`, is at least `lo`. */
  lemma AverageAbove(p: nat, s: real, lo: real)
    requires p > 0 && Scaled(p, Scaled(p, lo)) <= s
    ensures lo <= s / Area(p)
  {
    ScaledArea(p, lo);
    DivBounds(s, Area(p), lo, s / Area(p));
  }

  /** A sum of at most `p*p` copies of `hi`, divided by `Area(p)`, is at most `hi`. */
  lemma AverageBelow(p: nat, s: real, hi: real)
    requires p > 0 && s <= Scaled(p, Scaled(p, hi))
    ensures s / Area(p) <= hi
  {
    ScaledArea(p, hi);
    DivBounds(s, Area(p), s / Area(p), hi);
  }

  /** `p` rows of `p` equal shares `d / (p*p)` add up to `d`. */
  lemma EqualShares(rows: seq<seq<real>>, p: nat, d: real)
    requires p > 0 && |rows| == p && Uniform(rows, p)
    requires forall i, j :: 0 <= i < p && 0 <= j < p ==> rows[i][j] == d / Area(p)
    ensures Sum(Flatten(rows)) == d
  {
    var share := d / Area(p);
    SumRowsBounds(rows, p, share, share);
    ScaledArea(p, share);
  }

  /** `m*lo <= s <= m*hi` with `m > 0` puts `s/m` between `lo` and `hi`. */
  lemma DivBounds(s: real, m: real, lo: real, hi: real)
    requires m > 0.0 && m * lo <= s <= m * hi
    ensures lo <= s / m <= hi
  {
  }

  /** `AvgPoolLayer::calcOutput`: every output cell is its window's average. */
  function AvgPoolOutput(inp: Span<real>, p: nat): (out: Span<real>)
    requires PoolShapes(inp, p)
    ensures Valid(out) && out.dims == PooledDims(inp.dims, p)
    ensures forall n: nat, c: nat, x: nat, y: nat :: InBounds4(out.dims, n, c, x, y) ==>
              At4(out, n, c, x, y) == PoolAvg(inp, p, n, c, x, y)
  {
    var d := PooledDims(inp.dims, p);
    Span(Tab4(d, (n: nat, c: nat, x: nat, y: nat) requires InBounds4(d, n, c, x, y) => PoolAvg(inp, p, n, c, x, y)), d)
  }

  /**
   * Input-delta cell `(n, c, i, j)`: its window's delta divided by `p*p` when
   * the cell lies in a whole window, zero otherwise.
   */
  function AvgUnpoolCell(inp: Span<real>, delta: Span<real>, p: nat, n: nat, c: nat, i: nat, j: nat): real
    requires PoolShapes(inp, p) && Valid(delta) && delta.dims == PooledDims(inp.dims, p)
    requires InBounds4(inp.dims, n, c, i, j)
  {
    if i / p < delta.dims[2] && j / p < delta.dims[3]
    then At4(delta, n, c, i / p, j / p) / Area(p)
    else 0.0
  }

  /**
   * `AvgPoolLayer::backpropagate`: the input delta is resized (zero-filled)
   * to the input's size and shape, then every cell of window `(x, y)` is set
   * to the window's delta divided by `p*p`. The stored output is not read.
   */
  function AvgBackpropagate(inp: Span<real>, delta: Span<real>, p: nat): (inDelta: Span<real>)
    requires PoolShapes(inp, p) && Valid(delta) && delta.dims == PooledDims(inp.dims, p)
    ensures Valid(inDelta) && inDelta.dims == inp.dims && |inDelta.data| == |inp.data|
    ensures forall n: nat, c: nat, i: nat, j: nat :: InBounds4(inp.dims, n, c, i, j) ==>
              At4(inDelta, n, c, i, j) == AvgUnpoolCell(inp, delta, p, n, c, i, j)
  {
    var d := inp.dims;
    Span(Tab4(d, (n: nat, c: nat, i: nat, j: nat) requires InBounds4(d, n, c, i, j) =>
      AvgUnpoolCell(inp, delta, p, n, c, i, j)), d)
  }

  /** Every cell of window `(x, y)` receives an equal share `delta / (p*p)`. */
  lemma AvgUnpoolScatter(inp: Span<real>, delta: Span<real>, p: nat, n: nat, c: nat, x: nat, y: nat, a: nat, b: nat)
    requires PoolShapes(inp, p) && Valid(delta) && delta.dims == PooledDims(inp.dims, p)
    requires InBounds4(delta.dims, n, c, x, y) && a < p && b < p
    ensures WindowAt(AvgBackpropagate(inp, delta, p), p, n, c, x, y)
    ensures WindowCell(AvgBackpropagate(inp, delta, p), p, n, c, x, y, a, b) == At4(delta, n, c, x, y) / Area(p)
  {
    var g := AvgBackpropagate(inp, delta, p);
    var i, j := WindowCellAt(g, p, n, c, x, y, a, b);
    AvgUnpoolAt(inp, delta, p, n, c, i, j, x, y);
  }

  /** Input-delta cell `(n, c, i, j)` of `AvgBackpropagate`, for a cell inside a whole window. */
  lemma AvgUnpoolAt(inp: Span<real>, delta: Span<real>, p: nat, n: nat, c: nat, i: nat, j: nat, x: nat, y: nat)
    requires PoolShapes(inp, p) && Valid(delta) && delta.dims == PooledDims(inp.dims, p)
    requires InBounds4(inp.dims, n, c, i, j) && i / p == x && j / p == y && x < delta.dims[2] && y < delta.dims[3]
    ensures At4(AvgBackpropagate(inp, delta, p), n, c, i, j) == At4(delta, n, c, x, y) / Area(p)
  {
  }

  /** Cells past the last whole window on either spatial axis receive zero. */
  lemma AvgUnpoolOutside(inp: Span<real>, delta: Span<real>, p: nat, n: nat, c: nat, i: nat, j: nat)
    requires PoolShapes(inp, p) && Valid(delta) && delta.dims == PooledDims(inp.dims, p)
    requires InBounds4(inp.dims, n, c, i, j)
    requires delta.dims[2] * p <= i || delta.dims[3] * p <= j
    ensures At4(AvgBackpropagate(inp, delta, p), n, c, i, j) == 0.0
  {
    if delta.dims[2] * p <= i {
      PastWindows(i, delta.dims[2], p);
    } else {
      PastWindows(j, delta.dims[3], p);
    }
  }

  /** The shares of one window add up to the window's delta: no gradient is lost or made. */
  lemma AvgUnpoolConserves(inp: Span<real>, delta: Span<real>, p: nat, n: nat, c: nat, x: nat, y: nat)
    requires PoolShapes(inp, p) && Valid(delta) && delta.dims == PooledDims(inp.dims, p)
    requires InBounds4(delta.dims, n, c, x, y)
    ensures WindowAt(AvgBackpropagate(inp, delta, p), p, n, c, x, y)
    ensures Sum(Flatten(Window(AvgBackpropagate(inp, delta, p), p, n, c, x, y))) == At4(delta, n, c, x, y)
  {
    var g := AvgBackpropagate(inp, delta, p);
    var d := At4(delta, n, c, x, y);
    var w := Window(g, p, n, c, x, y);
    forall a, b | 0 <= a < p && 0 <= b < p
      ensures w[a][b] == d / Area(p)
    {
      AvgUnpoolScatter(inp, delta, p, n, c, x, y, a, b);
    }
    EqualShares(w, p, d);
  }
}
