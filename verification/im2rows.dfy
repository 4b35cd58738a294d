/**
 * The reshaping routines of gxnet/im2rows.cpp, which the im2row convolution
 * uses to turn every convolution into row dot products: filters to rows,
 * per-sample deltas to rows, the 180-degree filter rotation, rotated filters
 * to channel rows, and receptive-field patches of the input to rows.
 *
 * Every routine writes into a caller-owned list of rows.  When that list is
 * empty it first allocates zero-filled rows of the needed shape; otherwise it
 * overwrites the existing rows in place, so the caller must keep the shape.
 */
module Im2Rows {
  import opened Sums
  import opened Tensor

  type Rows = seq<seq<real>>

  // ---------------------------------------------------------------------------
  // Allocate-if-empty, then overwrite.

  /** `n` zero-filled rows of length `len`, as `resize`/`DataVector(len)` allocate them. */
  function ZeroRows(n: nat, len: nat): (r: Rows)
    ensures |r| == n && Uniform(r, len)
    ensures forall i, k :: 0 <= i < n && 0 <= k < len ==> r[i][k] == 0.0
  {
    seq(n, i => seq(len, k => 0.0))
  }

  /** The destination either is empty or has at least `n` rows of at least `len` elements. */
  ghost predicate Fits(dest: Rows, n: nat, len: nat)
  {
    |dest| == 0 || (n <= |dest| && forall i :: 0 <= i < n ==> len <= |dest[i]|)
  }

  /** `row` starts with `p`. */
  ghost predicate HasPrefix(row: seq<real>, p: seq<real>)
  {
    |p| <= |row| && row[..|p|] == p
  }

  /** `rows` fit over the first rows of `dest`, each over a prefix. */
  ghost predicate Covers(dest: Rows, rows: Rows)
  {
    |rows| <= |dest| && forall i :: 0 <= i < |rows| ==> |rows[i]| <= |dest[i]|
  }

  /** Row `i < |rows|` of `dest` gets `rows[i]` over its prefix; everything else is kept. */
  function Overwrite(dest: Rows, rows: Rows): (r: Rows)
    requires Covers(dest, rows)
    ensures |r| == |dest|
    ensures forall i :: 0 <= i < |dest| ==> |r[i]| == |dest[i]|
    ensures forall i :: 0 <= i < |rows| ==> HasPrefix(r[i], rows[i])
    ensures forall i, k :: 0 <= i < |rows| && |rows[i]| <= k < |dest[i]| ==> r[i][k] == dest[i][k]
    ensures forall i :: |rows| <= i < |dest| ==> r[i] == dest[i]
  {
    seq(|dest|, i requires 0 <= i < |dest| =>
      if i < |rows| then rows[i] + dest[i][|rows[i]|..] else dest[i])
  }

  /**
   * The common frame of every routine: allocate `n` zero rows of length
   * `len` when `dest` is empty, then overwrite with the computed `rows`.
   */
  function Fill(dest: Rows, n: nat, len: nat, rows: Rows): (r: Rows)
    requires Fits(dest, n, len)
    requires |rows| == n && forall i :: 0 <= i < n ==> |rows[i]| <= len
    ensures |r| == (if |dest| == 0 then n else |dest|)
    ensures forall i :: 0 <= i < n ==> |r[i]| == (if |dest| == 0 then len else |dest[i]|)
    ensures forall i :: 0 <= i < n ==> HasPrefix(r[i], rows[i])
    ensures forall i :: n <= i < |dest| ==> r[i] == dest[i]
  {
    var base := if |dest| == 0 then ZeroRows(n, len) else dest;
    Overwrite(base, rows)
  }

  /** The rows a routine writes, read back: `r[i][k] == rows[i][k]`. */
  lemma FillAt(dest: Rows, n: nat, len: nat, rows: Rows, i: nat, k: nat)
    requires Fits(dest, n, len)
    requires |rows| == n && forall i :: 0 <= i < n ==> |rows[i]| <= len
    requires i < n && k < |rows[i]|
    ensures k < |Fill(dest, n, len, rows)[i]|
    ensures Fill(dest, n, len, rows)[i][k] == rows[i][k]
  {
    var r := Fill(dest, n, len, rows);
    assert HasPrefix(r[i], rows[i]);
    assert r[i][..|rows[i]|][k] == rows[i][k];
  }

  /**
   * When the computed rows have the full shape, the result does not depend on
   * whether the rows were freshly allocated or reused from an earlier call of
   * the same shape.
   */
  lemma FillReuse(dest: Rows, n: nat, len: nat, rows: Rows)
    requires |rows| == n && Uniform(rows, len)
    requires |dest| == 0 || (|dest| == n && Uniform(dest, len))
    ensures Fits(dest, n, len)
    ensures Fill(dest, n, len, rows) == rows
  {
    var r := Fill(dest, n, len, rows);
    forall i | 0 <= i < n
      ensures r[i] == rows[i]
    {
      assert HasPrefix(r[i], rows[i]);
      assert r[i][..|rows[i]|] == r[i];
    }
  }

  // ---------------------------------------------------------------------------
  // Nested views of a rank-4 span.

  /** Row `i` of plane `(f, c)`: `s(f, c, i, j)` for every `j`. */
  function Line4(s: Span<real>, f: nat, c: nat, i: nat): (L: seq<real>)
    requires Valid(s) && |s.dims| == 4 && f < s.dims[0] && c < s.dims[1] && i < s.dims[2]
    ensures |L| == s.dims[3]
    ensures forall j :: 0 <= j < s.dims[3] ==> L[j] == At4(s, f, c, i, j)
  {
    seq(s.dims[3], j requires 0 <= j < s.dims[3] => At4(s, f, c, i, j))
  }

  /** Plane `(f, c)` as rows. */
  function Plane4(s: Span<real>, f: nat, c: nat): (P: seq<seq<real>>)
    requires Valid(s) && |s.dims| == 4 && f < s.dims[0] && c < s.dims[1]
    ensures Shape2(P, s.dims[2..])
    ensures forall i :: 0 <= i < s.dims[2] ==> P[i] == Line4(s, f, c, i)
  {
    seq(s.dims[2], i requires 0 <= i < s.dims[2] => Line4(s, f, c, i))
  }

  /** Filter `f` as planes. */
  function Slab4(s: Span<real>, f: nat): (S: seq<seq<seq<real>>>)
    requires Valid(s) && |s.dims| == 4 && f < s.dims[0]
    ensures Shape3(S, s.dims[1..])
    ensures forall c :: 0 <= c < s.dims[1] ==> S[c] == Plane4(s, f, c)
  {
    var S := seq(s.dims[1], c requires 0 <= c < s.dims[1] => Plane4(s, f, c));
    assert forall c :: 0 <= c < |S| ==> Shape2(S[c], s.dims[1..][1..]) by {
      assert s.dims[1..][1..] == s.dims[2..];
    }
    S
  }

  /** The elements of a valid rank-4 span as a four-deep nest, `A[f][c][i][j] == s(f, c, i, j)`. */
  function Nest4(s: Span<real>): (A: seq<seq<seq<seq<real>>>>)
    requires Valid(s) && |s.dims| == 4
    ensures Shape4(A, s.dims)
    ensures forall f :: 0 <= f < s.dims[0] ==> A[f] == Slab4(s, f)
  {
    seq(s.dims[0], f requires 0 <= f < s.dims[0] => Slab4(s, f))
  }

  lemma Nest4At(s: Span<real>, f: nat, c: nat, i: nat, j: nat)
    requires Valid(s) && InBounds4(s.dims, f, c, i, j)
    ensures Nest4(s)[f][c][i][j] == At4(s, f, c, i, j)
  {
  }

  /** Writing the nest back row-major reproduces the buffer. */
  lemma Build4Nest4(s: Span<real>)
    requires Valid(s) && |s.dims| == 4
    ensures Build4(Nest4(s)) == s.data
  {
    var A := Nest4(s);
    var t := Span(Build4(A), s.dims);
    Build4Length(A, s.dims);
    forall f, c, i, j | InBounds4(s.dims, f, c, i, j)
      ensures At4(t, f, c, i, j) == At4(s, f, c, i, j)
    {
      Build4At(A, s.dims, f, c, i, j);
      Nest4At(s, f, c, i, j);
    }
    Ext4(t, s);
  }

  // ---------------------------------------------------------------------------
  // filters2Rows

  /** The filter dims without the filter axis: `[C, kH, kW]`. */
  function FilterRowDims(dims: Dims): Dims
    requires |dims| == 4
  {
    [dims[1], dims[2], dims[3]]
  }

  /** Row `f` of filters2Rows: filter `f` written channel by channel, `x` then `y`. */
  function FilterRow(src: Span<real>, f: nat): (row: seq<real>)
    requires Valid(src) && |src.dims| == 4 && f < src.dims[0]
    ensures |row| == FlattenSize(FilterRowDims(src.dims))
    ensures forall c, x, y :: InBounds3(FilterRowDims(src.dims), c, x, y) ==>
              Offset3(FilterRowDims(src.dims), c, x, y) < |row|
              && row[Offset3(FilterRowDims(src.dims), c, x, y)] == At4(src, f, c, x, y)
  {
    var A := Nest4(src)[f];
    var rd := FilterRowDims(src.dims);
    assert rd == src.dims[1..];
    Build3Length(A, rd);
    forall c, x, y | InBounds3(rd, c, x, y)
      ensures Offset3(rd, c, x, y) < |Build3(A)| && Build3(A)[Offset3(rd, c, x, y)] == At4(src, f, c, x, y)
    {
      Build3At(A, rd, c, x, y);
    }
    Build3(A)
  }

  /**
   * `filters2Rows`: `dims[0]` rows of `C * kH * kW` elements, row `f` holding
   * filter `f` at `(c, x, y)`.
   */
  function Filters2Rows(src: Span<real>, dest: Rows): (r: Rows)
    requires Valid(src) && |src.dims| == 4
    requires Fits(dest, src.dims[0], FlattenSize(FilterRowDims(src.dims)))
    ensures |r| == (if |dest| == 0 then src.dims[0] else |dest|)
    ensures forall f :: 0 <= f < src.dims[0] ==> HasPrefix(r[f], FilterRow(src, f))
    ensures forall f :: src.dims[0] <= f < |dest| ==> r[f] == dest[f]
  {
    Fill(dest, src.dims[0], FlattenSize(FilterRowDims(src.dims)), FilterRows(src))
  }

  /** Every filter as a row. */
  function FilterRows(src: Span<real>): (rows: Rows)
    requires Valid(src) && |src.dims| == 4
    ensures |rows| == src.dims[0] && Uniform(rows, FlattenSize(FilterRowDims(src.dims)))
    ensures forall f :: 0 <= f < src.dims[0] ==> rows[f] == FilterRow(src, f)
  {
    seq(src.dims[0], f requires 0 <= f < src.dims[0] => FilterRow(src, f))
  }

  /** The rows of a freshly filled filter list, concatenated, are the filter buffer itself. */
  lemma Filters2RowsFlatten(src: Span<real>)
    requires Valid(src) && |src.dims| == 4
    ensures Fits([], src.dims[0], FlattenSize(FilterRowDims(src.dims)))
    ensures Flatten(Filters2Rows(src, [])) == src.data
  {
    var n, len := src.dims[0], FlattenSize(FilterRowDims(src.dims));
    var rows := FilterRows(src);
    FillReuse([], n, len, rows);
    var A := Nest4(src);
    var B := Blocks3(A);
    forall f | 0 <= f < n
      ensures rows[f] == B[f]
    {
      FilterRowIsBuild3(src, f);
    }
    assert rows == B;
    Build4Nest4(src);
  }

  lemma FilterRowIsBuild3(src: Span<real>, f: nat)
    requires Valid(src) && |src.dims| == 4 && f < src.dims[0]
    ensures FilterRow(src, f) == Build3(Nest4(src)[f])
  {
  }

  // ---------------------------------------------------------------------------
  // deltas2Rows

  /** Row `f` of deltas2Rows: the `H x W` map of channel `f` of sample `n`, row-major. */
  function DeltaRow(src: Span<real>, n: nat, f: nat): (row: seq<real>)
    requires Valid(src) && |src.dims| == 4 && n < src.dims[0] && f < src.dims[1]
    ensures |row| == FlattenSize([src.dims[2], src.dims[3]])
    ensures forall x, y :: InBounds2([src.dims[2], src.dims[3]], x, y) ==>
              Offset2([src.dims[2], src.dims[3]], x, y) < |row|
              && row[Offset2([src.dims[2], src.dims[3]], x, y)] == At4(src, n, f, x, y)
  {
    var rd := [src.dims[2], src.dims[3]];
    var A := seq(rd[0], x requires 0 <= x < rd[0] => seq(rd[1], y requires 0 <= y < rd[1] => At4(src, n, f, x, y)));
    Build2Length(A, rd);
    forall x, y | InBounds2(rd, x, y)
      ensures Offset2(rd, x, y) < |Flatten(A)| && Flatten(A)[Offset2(rd, x, y)] == At4(src, n, f, x, y)
    {
      Build2At(A, rd, x, y);
    }
    Flatten(A)
  }

  /** `deltas2Rows`: one row per channel `f < dims[1]` of the selected sample. */
  function Deltas2Rows(src: Span<real>, n: nat, dest: Rows): (r: Rows)
    requires Valid(src) && |src.dims| == 4 && n < src.dims[0]
    requires Fits(dest, src.dims[1], FlattenSize([src.dims[2], src.dims[3]]))
    ensures |r| == (if |dest| == 0 then src.dims[1] else |dest|)
    ensures forall f :: 0 <= f < src.dims[1] ==> HasPrefix(r[f], DeltaRow(src, n, f))
    ensures forall f :: src.dims[1] <= f < |dest| ==> r[f] == dest[f]
  {
    Fill(dest, src.dims[1], FlattenSize([src.dims[2], src.dims[3]]), DeltaRows(src, n))
  }

  /** Every channel of sample `n` as a row. */
  function DeltaRows(src: Span<real>, n: nat): (rows: Rows)
    requires Valid(src) && |src.dims| == 4 && n < src.dims[0]
    ensures |rows| == src.dims[1] && Uniform(rows, FlattenSize([src.dims[2], src.dims[3]]))
    ensures forall f :: 0 <= f < src.dims[1] ==> rows[f] == DeltaRow(src, n, f)
  {
    seq(src.dims[1], f requires 0 <= f < src.dims[1] => DeltaRow(src, n, f))
  }

  // ---------------------------------------------------------------------------
  // rot180Filters and rot180Filters2Rows

  /**
   * `rot180Filters`: `dest` is resized to the filters' size and every
   * `(i, j)` plane is turned by 180 degrees: `dest(f, c, kH-1-i, kW-1-j) = src(f, c, i, j)`.
   */
  function Rot180Filters(src: Span<real>): (r: Span<real>)
    requires Valid(src) && |src.dims| == 4
    ensures Valid(r) && r.dims == src.dims && |r.data| == |src.data|
    ensures forall f, c, i, j :: InBounds4(src.dims, f, c, i, j) ==>
              At4(r, f, c, src.dims[2] - 1 - i, src.dims[3] - 1 - j) == At4(src, f, c, i, j)
  {
    var d := src.dims;
    var A := RotNest(src);
    var r := Span(Build4(A), d);
    Build4Length(A, d);
    forall f: nat, c: nat, i: nat, j: nat | InBounds4(d, f, c, i, j)
      ensures At4(r, f, c, d[2] - 1 - i, d[3] - 1 - j) == At4(src, f, c, i, j)
    {
      RotNestAt(src, f, c, i, j);
    }
    r
  }

  /** The turned filters as a nest. */
  function RotNest(src: Span<real>): (A: seq<seq<seq<seq<real>>>>)
    requires Valid(src) && |src.dims| == 4
    ensures Shape4(A, src.dims)
    ensures forall f :: 0 <= f < src.dims[0] ==> A[f] == RotSlab(src, f)
  {
    seq(src.dims[0], f requires 0 <= f < src.dims[0] => RotSlab(src, f))
  }

  lemma RotNestAt(src: Span<real>, f: nat, c: nat, i: nat, j: nat)
    requires Valid(src) && InBounds4(src.dims, f, c, i, j)
    ensures |Build4(RotNest(src))| == FlattenSize(src.dims)
    ensures var d := src.dims;
            At4(Span(Build4(RotNest(src)), d), f, c, d[2] - 1 - i, d[3] - 1 - j) == At4(src, f, c, i, j)
  {
    var d := src.dims;
    var A := RotNest(src);
    Build4At(A, d, f, c, d[2] - 1 - i, d[3] - 1 - j);
    assert A[f][c][d[2] - 1 - i] == RevLine(src, f, c, d[2] - 1 - i);
  }

  /** Row `i` of the turned plane `(f, c)`: row `kH-1-i` of the original, reversed. */
  function RevLine(s: Span<real>, f: nat, c: nat, i: nat): (L: seq<real>)
    requires Valid(s) && |s.dims| == 4 && f < s.dims[0] && c < s.dims[1] && i < s.dims[2]
    ensures |L| == s.dims[3]
    ensures forall j :: 0 <= j < s.dims[3] ==> L[j] == At4(s, f, c, s.dims[2] - 1 - i, s.dims[3] - 1 - j)
  {
    seq(s.dims[3], j requires 0 <= j < s.dims[3] => At4(s, f, c, s.dims[2] - 1 - i, s.dims[3] - 1 - j))
  }

  function RotPlane(s: Span<real>, f: nat, c: nat): (P: seq<seq<real>>)
    requires Valid(s) && |s.dims| == 4 && f < s.dims[0] && c < s.dims[1]
    ensures Shape2(P, s.dims[2..])
    ensures forall i :: 0 <= i < s.dims[2] ==> P[i] == RevLine(s, f, c, i)
  {
    seq(s.dims[2], i requires 0 <= i < s.dims[2] => RevLine(s, f, c, i))
  }

  function RotSlab(s: Span<real>, f: nat): (S: seq<seq<seq<real>>>)
    requires Valid(s) && |s.dims| == 4 && f < s.dims[0]
    ensures Shape3(S, s.dims[1..])
    ensures forall c :: 0 <= c < s.dims[1] ==> S[c] == RotPlane(s, f, c)
  {
    var S := seq(s.dims[1], c requires 0 <= c < s.dims[1] => RotPlane(s, f, c));
    assert forall c :: 0 <= c < |S| ==> Shape2(S[c], s.dims[1..][1..]) by {
      assert s.dims[1..][1..] == s.dims[2..];
    }
    S
  }

  /** Turning the filters by 180 degrees twice gives them back. */
  lemma Rot180Involution(src: Span<real>)
    requires Valid(src) && |src.dims| == 4
    ensures Rot180Filters(Rot180Filters(src)) == src
  {
    var once := Rot180Filters(src);
    var twice := Rot180Filters(once);
    var d := src.dims;
    forall f, c, i, j | InBounds4(d, f, c, i, j)
      ensures At4(twice, f, c, i, j) == At4(src, f, c, i, j)
    {
      assert At4(twice, f, c, d[2] - 1 - (d[2] - 1 - i), d[3] - 1 - (d[3] - 1 - j))
          == At4(once, f, c, d[2] - 1 - i, d[3] - 1 - j);
    }
    Ext4(twice, src);
  }

  /** The rotated-filter row dims: `[F, kH, kW]`. */
  function Rot180RowDims(dims: Dims): Dims
    requires |dims| == 4
  {
    [dims[0], dims[2], dims[3]]
  }

  /** Row `c` of rot180Filters2Rows: channel `c` of every rotated filter, filter by filter. */
  function Rot180Row(src: Span<real>, c: nat): (row: seq<real>)
    requires Valid(src) && |src.dims| == 4 && c < src.dims[1]
    ensures |row| == FlattenSize(Rot180RowDims(src.dims))
    ensures forall f, x, y :: InBounds3(Rot180RowDims(src.dims), f, x, y) ==>
              Offset3(Rot180RowDims(src.dims), f, x, y) < |row|
              && row[Offset3(Rot180RowDims(src.dims), f, x, y)] == At4(Rot180Filters(src), f, c, x, y)
  {
    ChannelRow(Rot180Filters(src), c)
  }

  /** Channel `c` of every filter of `t`, filter by filter, each plane row-major. */
  function ChannelRow(t: Span<real>, c: nat): (row: seq<real>)
    requires Valid(t) && |t.dims| == 4 && c < t.dims[1]
    ensures |row| == FlattenSize(Rot180RowDims(t.dims))
    ensures forall f, x, y :: InBounds3(Rot180RowDims(t.dims), f, x, y) ==>
              Offset3(Rot180RowDims(t.dims), f, x, y) < |row|
              && row[Offset3(Rot180RowDims(t.dims), f, x, y)] == At4(t, f, c, x, y)
  {
    var rd := Rot180RowDims(t.dims);
    var A := seq(rd[0], f requires 0 <= f < rd[0] =>
               seq(rd[1], x requires 0 <= x < rd[1] =>
                 seq(rd[2], y requires 0 <= y < rd[2] => At4(t, f, c, x, y))));
    assert Shape3(A, rd);
    Build3Length(A, rd);
    forall f, x, y | InBounds3(rd, f, x, y)
      ensures Offset3(rd, f, x, y) < |Build3(A)| && Build3(A)[Offset3(rd, f, x, y)] == At4(t, f, c, x, y)
    {
      Build3At(A, rd, f, x, y);
    }
    Build3(A)
  }

  /**
   * `rot180Filters2Rows`: `dims[1]` rows of `F * kH * kW` elements; the
   * filter and channel axes trade places.
   */
  function Rot180Filters2Rows(src: Span<real>, dest: Rows): (r: Rows)
    requires Valid(src) && |src.dims| == 4
    requires Fits(dest, src.dims[1], FlattenSize(Rot180RowDims(src.dims)))
    ensures |r| == (if |dest| == 0 then src.dims[1] else |dest|)
    ensures forall c :: 0 <= c < src.dims[1] ==> HasPrefix(r[c], Rot180Row(src, c))
    ensures forall c :: src.dims[1] <= c < |dest| ==> r[c] == dest[c]
  {
    Fill(dest, src.dims[1], FlattenSize(Rot180RowDims(src.dims)), Rot180Rows(src))
  }

  /** Every channel of the turned filters as a row. */
  function Rot180Rows(src: Span<real>): (rows: Rows)
    requires Valid(src) && |src.dims| == 4
    ensures |rows| == src.dims[1] && Uniform(rows, FlattenSize(Rot180RowDims(src.dims)))
    ensures forall c :: 0 <= c < src.dims[1] ==> rows[c] == Rot180Row(src, c)
  {
    seq(src.dims[1], c requires 0 <= c < src.dims[1] => Rot180Row(src, c))
  }

  /** Element `(f, x, y)` of channel row `c` is the original filter `f`, channel `c`, read turned around. */
  lemma Rot180RowAt(src: Span<real>, c: nat, f: nat, x: nat, y: nat)
    requires Valid(src) && |src.dims| == 4
    requires InBounds4(src.dims, f, c, x, y)
    ensures Offset3(Rot180RowDims(src.dims), f, x, y) < |Rot180Row(src, c)|
    ensures Rot180Row(src, c)[Offset3(Rot180RowDims(src.dims), f, x, y)]
         == At4(src, f, c, src.dims[2] - 1 - x, src.dims[3] - 1 - y)
  {
    var d := src.dims;
    assert InBounds3(Rot180RowDims(d), f, x, y);
    var t := Rot180Filters(src);
    assert At4(t, f, c, d[2] - 1 - (d[2] - 1 - x), d[3] - 1 - (d[3] - 1 - y))
        == At4(src, f, c, d[2] - 1 - x, d[3] - 1 - y);
  }

  // ---------------------------------------------------------------------------
  // input2Rows and input2Rows4Gradients

  /** Number of valid positions of a window of size `k` along an axis of size `n`: `n - k + 1`. */
  function Positions(n: nat, k: nat): nat
    requires k <= n + 1
  {
    n - k + 1
  }

  /** The window shapes input2Rows accepts: a rank-4 input, a rank-4 filter shape that fits. */
  ghost predicate PatchShapes(inp: Span<real>, n: nat, filterDims: Dims)
  {
    Valid(inp) && |inp.dims| == 4 && n < inp.dims[0]
    && |filterDims| == 4 && filterDims[2] <= inp.dims[2] + 1 && filterDims[3] <= inp.dims[3] + 1
  }

  /** The patch of channel `c` under the window at `(x, y)`: `in(n, c, x + i, y + j)` at `(i, j)`. */
  function PlanePatch(inp: Span<real>, n: nat, filterDims: Dims, c: nat, x: nat, y: nat): (row: seq<real>)
    requires PatchShapes(inp, n, filterDims) && c < inp.dims[1]
    requires x < Positions(inp.dims[2], filterDims[2]) && y < Positions(inp.dims[3], filterDims[3])
    ensures |row| == FlattenSize([filterDims[2], filterDims[3]])
    ensures forall i, j :: InBounds2([filterDims[2], filterDims[3]], i, j) ==>
              Offset2([filterDims[2], filterDims[3]], i, j) < |row|
              && row[Offset2([filterDims[2], filterDims[3]], i, j)] == At4(inp, n, c, x + i, y + j)
  {
    var kd := [filterDims[2], filterDims[3]];
    var A := seq(kd[0], i requires 0 <= i < kd[0] => seq(kd[1], j requires 0 <= j < kd[1] => At4(inp, n, c, x + i, y + j)));
    Build2Length(A, kd);
    forall i, j | InBounds2(kd, i, j)
      ensures Offset2(kd, i, j) < |Flatten(A)| && Flatten(A)[Offset2(kd, i, j)] == At4(inp, n, c, x + i, y + j)
    {
      Build2At(A, kd, i, j);
    }
    Flatten(A)
  }

  /**
   * The receptive field under the window at `(x, y)` over all input channels:
   * `in(n, c, x + i, y + j)` at offset `(c, i, j)` of the filter row shape.
   */
  function Patch(inp: Span<real>, n: nat, filterDims: Dims, x: nat, y: nat): (row: seq<real>)
    requires PatchShapes(inp, n, filterDims)
    requires x < Positions(inp.dims[2], filterDims[2]) && y < Positions(inp.dims[3], filterDims[3])
    ensures |row| == FlattenSize([inp.dims[1], filterDims[2], filterDims[3]])
    ensures forall c, i, j :: InBounds3([inp.dims[1], filterDims[2], filterDims[3]], c, i, j) ==>
              Offset3([inp.dims[1], filterDims[2], filterDims[3]], c, i, j) < |row|
              && row[Offset3([inp.dims[1], filterDims[2], filterDims[3]], c, i, j)] == At4(inp, n, c, x + i, y + j)
  {
    var pd := [inp.dims[1], filterDims[2], filterDims[3]];
    var A := seq(pd[0], c requires 0 <= c < pd[0] =>
               seq(pd[1], i requires 0 <= i < pd[1] =>
                 seq(pd[2], j requires 0 <= j < pd[2] => At4(inp, n, c, x + i, y + j))));
    assert Shape3(A, pd);
    Build3Length(A, pd);
    forall c, i, j | InBounds3(pd, c, i, j)
      ensures Offset3(pd, c, i, j) < |Build3(A)| && Build3(A)[Offset3(pd, c, i, j)] == At4(inp, n, c, x + i, y + j)
    {
      Build3At(A, pd, c, i, j);
    }
    Build3(A)
  }

  /** The window positions, `x`-major then `y`, as a grid `[outH, outW]`. */
  function GridDims(inp: Span<real>, filterDims: Dims): Dims
    requires |inp.dims| == 4 && |filterDims| == 4
    requires filterDims[2] <= inp.dims[2] + 1 && filterDims[3] <= inp.dims[3] + 1
  {
    [Positions(inp.dims[2], filterDims[2]), Positions(inp.dims[3], filterDims[3])]
  }

  /**
   * `input2Rows`: one row per window position, `x`-major then `y`; rows are
   * allocated with the filter-row length `C_filter * kH * kW`, and the patch
   * (whose channel count comes from the input) is written over the front.
   */
  function Input2Rows(inp: Span<real>, n: nat, filterDims: Dims, dest: Rows): (r: Rows)
    requires PatchShapes(inp, n, filterDims) && inp.dims[1] <= filterDims[1]
    requires Fits(dest, FlattenSize(GridDims(inp, filterDims)), FlattenSize(FilterRowDims(filterDims)))
    ensures |r| == (if |dest| == 0 then FlattenSize(GridDims(inp, filterDims)) else |dest|)
    ensures forall x, y :: InBounds2(GridDims(inp, filterDims), x, y) ==>
              Offset2(GridDims(inp, filterDims), x, y) < |r|
              && HasPrefix(r[Offset2(GridDims(inp, filterDims), x, y)], Patch(inp, n, filterDims, x, y))
    ensures forall t :: FlattenSize(GridDims(inp, filterDims)) <= t < |dest| ==> r[t] == dest[t]
  {
    var g := GridDims(inp, filterDims);
    var len := FlattenSize(FilterRowDims(filterDims));
    var A := PatchGrid(inp, n, filterDims);
    PatchFits(inp, filterDims);
    Build2Length(A, g);
    var rows := Flatten(A);
    forall t | 0 <= t < |rows|
      ensures |rows[t]| <= len
    {
      var x, y := Offset2Onto(g, t);
      Build2At(A, g, x, y);
    }
    var r := Fill(dest, FlattenSize(g), len, rows);
    forall x, y | InBounds2(g, x, y)
      ensures Offset2(g, x, y) < |r| && HasPrefix(r[Offset2(g, x, y)], Patch(inp, n, filterDims, x, y))
    {
      Build2At(A, g, x, y);
    }
    r
  }

  /** The patches of every window position, as a grid. */
  function PatchGrid(inp: Span<real>, n: nat, filterDims: Dims): (A: seq<seq<seq<real>>>)
    requires PatchShapes(inp, n, filterDims)
    ensures Shape2(A, GridDims(inp, filterDims))
    ensures forall x: nat, y: nat :: InBounds2(GridDims(inp, filterDims), x, y) ==> A[x][y] == Patch(inp, n, filterDims, x, y)
  {
    var g := GridDims(inp, filterDims);
    seq(g[0], x requires 0 <= x < g[0] => seq(g[1], y requires 0 <= y < g[1] => Patch(inp, n, filterDims, x, y)))
  }

  /** A patch over the input's channels fits the filter row when the input has no more channels. */
  lemma PatchFits(inp: Span<real>, filterDims: Dims)
    requires |inp.dims| == 4 && |filterDims| == 4 && inp.dims[1] <= filterDims[1]
    ensures FlattenSize([inp.dims[1], filterDims[2], filterDims[3]]) <= FlattenSize(FilterRowDims(filterDims))
  {
    FlattenSize3([inp.dims[1], filterDims[2], filterDims[3]]);
    FlattenSize3(FilterRowDims(filterDims));
    MulMono(inp.dims[1], filterDims[1], filterDims[2] * filterDims[3]);
  }

  /** The gradient rows' grid: `[C, outH, outW]`, channel-major. */
  function GradGridDims(inp: Span<real>, filterDims: Dims): Dims
    requires |inp.dims| == 4 && |filterDims| == 4
    requires filterDims[2] <= inp.dims[2] + 1 && filterDims[3] <= inp.dims[3] + 1
  {
    [inp.dims[1], Positions(inp.dims[2], filterDims[2]), Positions(inp.dims[3], filterDims[3])]
  }

  /**
   * `input2Rows4Gradients`: one row of `kH * kW` elements per channel and
   * window position, ordered channel-major, then `x`, then `y`.
   */
  function Input2Rows4Gradients(inp: Span<real>, n: nat, filterDims: Dims, dest: Rows): (r: Rows)
    requires PatchShapes(inp, n, filterDims)
    requires Fits(dest, FlattenSize(GradGridDims(inp, filterDims)), FlattenSize([filterDims[2], filterDims[3]]))
    ensures |r| == (if |dest| == 0 then FlattenSize(GradGridDims(inp, filterDims)) else |dest|)
    ensures forall c, x, y :: InBounds3(GradGridDims(inp, filterDims), c, x, y) ==>
              Offset3(GradGridDims(inp, filterDims), c, x, y) < |r|
              && HasPrefix(r[Offset3(GradGridDims(inp, filterDims), c, x, y)], PlanePatch(inp, n, filterDims, c, x, y))
    ensures forall t :: FlattenSize(GradGridDims(inp, filterDims)) <= t < |dest| ==> r[t] == dest[t]
  {
    var g := GradGridDims(inp, filterDims);
    var len := FlattenSize([filterDims[2], filterDims[3]]);
    var A := PlanePatchGrid(inp, n, filterDims);
    Build3Length(A, g);
    var rows := Build3(A);
    forall t | 0 <= t < |rows|
      ensures |rows[t]| <= len
    {
      var c, x, y := Offset3Onto(g, t);
      Build3At(A, g, c, x, y);
    }
    var r := Fill(dest, FlattenSize(g), len, rows);
    forall c, x, y | InBounds3(g, c, x, y)
      ensures Offset3(g, c, x, y) < |r| && HasPrefix(r[Offset3(g, c, x, y)], PlanePatch(inp, n, filterDims, c, x, y))
    {
      Build3At(A, g, c, x, y);
    }
    r
  }

  /** The single-channel patches of every channel and window position. */
  function PlanePatchGrid(inp: Span<real>, n: nat, filterDims: Dims): (A: seq<seq<seq<seq<real>>>>)
    requires PatchShapes(inp, n, filterDims)
    ensures Shape3(A, GradGridDims(inp, filterDims))
    ensures forall c: nat, x: nat, y: nat :: InBounds3(GradGridDims(inp, filterDims), c, x, y) ==>
              A[c][x][y] == PlanePatch(inp, n, filterDims, c, x, y)
  {
    var g := GradGridDims(inp, filterDims);
    seq(g[0], c requires 0 <= c < g[0] =>
      seq(g[1], x requires 0 <= x < g[1] =>
        seq(g[2], y requires 0 <= y < g[2] => PlanePatch(inp, n, filterDims, c, x, y))))
  }
}
