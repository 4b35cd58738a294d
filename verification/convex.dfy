/**
 * The im2row convolution layer of gxnet/layer.cpp (`ConvExLayer`).  It keeps
 * the filters of a `ConvLayer` together with two row caches, the filter rows
 * and the turned-filter channel rows, and computes every convolution as dot
 * products of those rows with patch rows of the input, of the padded delta,
 * or of the delta planes.
 *
 * The lemmas here show that each of the three passes computes exactly what the
 * naive `ConvLayer` computes, and that the row caches stay in step with the
 * filters.
 */
module ConvEx {
  import opened Sums
  import opened Tensor
  import opened Im2Rows
  import opened Conv
  import Optim

  // ---------------------------------------------------------------------------
  // One cell of each pass

  /** Term `o` of `t` is the product of the cells `o` of `p` and `w`. */
  ghost predicate ProductAt(t: seq<real>, p: seq<real>, w: seq<real>, o: nat)
  {
    o < |t| && o < |p| && o < |w| && t[o] == p[o] * w[o]
  }

  /** A dot product whose pointwise products, in a 3-d layout `d`, are the terms `t`. */
  lemma DotOfTerms3(w: seq<real>, p: seq<real>, t: seq<real>, d: Dims)
    requires |d| == 3 && |p| == FlattenSize(d) && |w| == FlattenSize(d) && |t| == FlattenSize(d)
    requires forall a: nat, b: nat, e: nat :: InBounds3(d, a, b, e) ==> ProductAt(t, p, w, Offset3(d, a, b, e))
    ensures Dot(w, p) == Sum(t)
  {
    var prod := Products(p, w);
    SeqExt3(prod, t, d);
    DotCommutes(w, p);
  }

  /** A dot product whose pointwise products, in a 2-d layout `d`, are the terms `t`. */
  lemma DotOfTerms2(w: seq<real>, p: seq<real>, t: seq<real>, d: Dims)
    requires |d| == 2 && |p| == FlattenSize(d) && |w| == FlattenSize(d) && |t| == FlattenSize(d)
    requires forall a: nat, b: nat :: InBounds2(d, a, b) ==>
               Offset2(d, a, b) < |t| && t[Offset2(d, a, b)] == p[Offset2(d, a, b)] * w[Offset2(d, a, b)]
    ensures Dot(w, p) == Sum(t)
  {
    var prod := Products(p, w);
    SeqExt2(prod, t, d);
    DotCommutes(w, p);
  }

  /** A filter row dotted with the input patch at `(x, y)` is `forwardConv` at `(x, y)`. */
  lemma PatchDotIsForwardConv(inp: Span<real>, filt: Span<real>, n: nat, f: nat, x: nat, y: nat)
    requires ConvShapes(inp, filt) && filt.dims[1] == inp.dims[1]
    requires InBounds4(OutDims(inp, filt), n, f, x, y)
    ensures PatchShapes(inp, n, filt.dims)
    ensures x < Positions(inp.dims[2], filt.dims[2]) && y < Positions(inp.dims[3], filt.dims[3])
    ensures |FilterRow(filt, f)| == |Patch(inp, n, filt.dims, x, y)|
    ensures Dot(FilterRow(filt, f), Patch(inp, n, filt.dims, x, y)) == ForwardConv(inp, n, f, x, y, filt)
  {
    var rd := FilterRowDims(filt.dims);
    assert [inp.dims[1], filt.dims[2], filt.dims[3]] == rd;
    ForwardDot(inp, filt, n, f, x, y, rd, FilterRow(filt, f), Patch(inp, n, filt.dims, x, y), ForwardTerms(inp, n, f, x, y, filt));
  }

  /** `PatchDotIsForwardConv` over any rows that hold the filter, the patch and the terms. */
  lemma ForwardDot(inp: Span<real>, filt: Span<real>, n: nat, f: nat, x: nat, y: nat, rd: Dims,
                   w: seq<real>, p: seq<real>, t: seq<real>)
    requires ConvShapes(inp, filt) && InBounds4(OutDims(inp, filt), n, f, x, y)
    requires rd == FilterRowDims(filt.dims)
    requires |p| == FlattenSize(rd) && |w| == FlattenSize(rd) && |t| == FlattenSize(rd)
    requires forall c: nat, i: nat, j: nat :: InBounds3(rd, c, i, j) ==>
               Offset3(rd, c, i, j) < |t|
               && p[Offset3(rd, c, i, j)] == At4(inp, n, c, x + i, y + j)
               && w[Offset3(rd, c, i, j)] == At4(filt, f, c, i, j)
               && t[Offset3(rd, c, i, j)] == ForwardTerm(inp, n, f, x, y, filt, c, i, j)
    ensures Dot(w, p) == Sum(t)
  {
    forall c: nat, i: nat, j: nat | InBounds3(rd, c, i, j)
      ensures ProductAt(t, p, w, Offset3(rd, c, i, j))
    {
      ForwardTermSplits(inp, filt, n, f, x, y, c, i, j, t, p, w, Offset3(rd, c, i, j));
    }
    DotOfTerms3(w, p, t, rd);
  }

  /** One window cell of `forwardConv`: its term is the input cell times the filter cell. */
  lemma ForwardTermSplits(inp: Span<real>, filt: Span<real>, n: nat, f: nat, x: nat, y: nat, c: nat, i: nat, j: nat,
                    t: seq<real>, p: seq<real>, w: seq<real>, o: nat)
    requires ConvShapes(inp, filt) && InBounds4(OutDims(inp, filt), n, f, x, y)
    requires InBounds3(FilterRowDims(filt.dims), c, i, j)
    requires o < |t| && o < |p| && o < |w|
    requires p[o] == At4(inp, n, c, x + i, y + j) && w[o] == At4(filt, f, c, i, j)
    requires t[o] == ForwardTerm(inp, n, f, x, y, filt, c, i, j)
    ensures ProductAt(t, p, w, o)
  {
  }

  /** One window cell of `backwardConv`: its term is the padded-delta cell times the turned-filter cell. */
  lemma BackwardTermSplits(pad: Span<real>, rot: Span<real>, n: nat, c: nat, x: nat, y: nat, f: nat, i: nat, j: nat,
                     t: seq<real>, p: seq<real>, w: seq<real>, o: nat)
    requires BackFits(pad, rot, n, c, x, y) && InBounds3(Rot180RowDims(rot.dims), f, i, j)
    requires o < |t| && o < |p| && o < |w|
    requires p[o] == At4(pad, n, f, x + i, y + j) && w[o] == At4(rot, f, c, i, j)
    requires t[o] == BackwardTerm(pad, rot, n, c, x, y, f, i, j)
    ensures ProductAt(t, p, w, o)
  {
  }

  /** The turned-filter row of channel `c` dotted with the padded-delta patch at `(x, y)` is `backwardConv` there. */
  lemma PatchDotIsBackwardConv(pad: Span<real>, filt: Span<real>, n: nat, c: nat, x: nat, y: nat)
    requires Valid(filt) && |filt.dims| == 4 && c < filt.dims[1]
    requires Valid(pad) && |pad.dims| == 4 && n < pad.dims[0] && pad.dims[1] == filt.dims[0]
    requires filt.dims[2] <= pad.dims[2] + 1 && filt.dims[3] <= pad.dims[3] + 1
    requires x < Positions(pad.dims[2], filt.dims[2]) && y < Positions(pad.dims[3], filt.dims[3])
    ensures PatchShapes(pad, n, FakeDims(filt.dims)) && BackFits(pad, Rot180Filters(filt), n, c, x, y)
    ensures |Rot180Row(filt, c)| == |Patch(pad, n, FakeDims(filt.dims), x, y)|
    ensures Dot(Rot180Row(filt, c), Patch(pad, n, FakeDims(filt.dims), x, y))
         == BackwardConv(pad, Rot180Filters(filt), n, c, x, y)
  {
    var rot := Rot180Filters(filt);
    var rd := Rot180RowDims(filt.dims);
    var fd := FakeDims(filt.dims);
    assert [pad.dims[1], fd[2], fd[3]] == rd == Rot180RowDims(rot.dims);
    BackwardDot(pad, rot, n, c, x, y, rd, Rot180Row(filt, c), Patch(pad, n, fd, x, y), BackwardTerms(pad, rot, n, c, x, y));
  }

  /** `PatchDotIsBackwardConv` over any rows that hold the turned filters, the patch and the terms. */
  lemma BackwardDot(pad: Span<real>, rot: Span<real>, n: nat, c: nat, x: nat, y: nat, rd: Dims,
                    w: seq<real>, p: seq<real>, t: seq<real>)
    requires BackFits(pad, rot, n, c, x, y) && rd == Rot180RowDims(rot.dims)
    requires |p| == FlattenSize(rd) && |w| == FlattenSize(rd) && |t| == FlattenSize(rd)
    requires forall f: nat, i: nat, j: nat :: InBounds3(rd, f, i, j) ==>
               Offset3(rd, f, i, j) < |t|
               && p[Offset3(rd, f, i, j)] == At4(pad, n, f, x + i, y + j)
               && w[Offset3(rd, f, i, j)] == At4(rot, f, c, i, j)
               && t[Offset3(rd, f, i, j)] == BackwardTerm(pad, rot, n, c, x, y, f, i, j)
    ensures Dot(w, p) == Sum(t)
  {
    forall f: nat, i: nat, j: nat | InBounds3(rd, f, i, j)
      ensures ProductAt(t, p, w, Offset3(rd, f, i, j))
    {
      BackwardTermSplits(pad, rot, n, c, x, y, f, i, j, t, p, w, Offset3(rd, f, i, j));
    }
    DotOfTerms3(w, p, t, rd);
  }

  /** The delta row of filter `f` dotted with the input plane patch at `(c, x, y)` is `gradientConv` there. */
  lemma PlaneDotIsGradientConv(inp: Span<real>, delta: Span<real>, n: nat, f: nat, c: nat, x: nat, y: nat)
    requires Valid(inp) && |inp.dims| == 4 && Valid(delta) && |delta.dims| == 4
    requires n < inp.dims[0] && n < delta.dims[0] && f < delta.dims[1] && c < inp.dims[1]
    requires delta.dims[2] <= inp.dims[2] + 1 && delta.dims[3] <= inp.dims[3] + 1
    requires x < Positions(inp.dims[2], delta.dims[2]) && y < Positions(inp.dims[3], delta.dims[3])
    ensures PatchShapes(inp, n, delta.dims) && GradFits(inp, delta, n, f, c, x, y)
    ensures |DeltaRow(delta, n, f)| == |PlanePatch(inp, n, delta.dims, c, x, y)|
    ensures Dot(DeltaRow(delta, n, f), PlanePatch(inp, n, delta.dims, c, x, y)) == GradientConv(inp, delta, n, f, c, x, y)
  {
    var pd := DeltaPlane(delta);
    assert [delta.dims[2], delta.dims[3]] == pd;
    GradientDot(inp, delta, n, f, c, x, y, pd, DeltaRow(delta, n, f), PlanePatch(inp, n, delta.dims, c, x, y),
                GradientTerms(inp, delta, n, f, c, x, y));
  }

  /** `PlaneDotIsGradientConv` over any rows that hold the delta plane, the input plane patch and the terms. */
  lemma GradientDot(inp: Span<real>, delta: Span<real>, n: nat, f: nat, c: nat, x: nat, y: nat, pd: Dims,
                    w: seq<real>, p: seq<real>, t: seq<real>)
    requires GradFits(inp, delta, n, f, c, x, y) && pd == DeltaPlane(delta)
    requires |p| == FlattenSize(pd) && |w| == FlattenSize(pd) && |t| == FlattenSize(pd)
    requires forall i: nat, j: nat :: InBounds2(pd, i, j) ==>
               Offset2(pd, i, j) < |t|
               && p[Offset2(pd, i, j)] == At4(inp, n, c, x + i, y + j)
               && w[Offset2(pd, i, j)] == At4(delta, n, f, i, j)
               && t[Offset2(pd, i, j)] == GradientTerm(inp, delta, n, f, c, x, y, i, j)
    ensures Dot(w, p) == Sum(t)
  {
    forall i: nat, j: nat | i < pd[0] && j < pd[1]
      ensures t[Offset2(pd, i, j)] == p[Offset2(pd, i, j)] * w[Offset2(pd, i, j)]
    {
      assert InBounds2(pd, i, j);
      GradientCell(inp, delta, n, f, c, x, y, i, j, pd, w, p, t);
    }
    DotOfTerms2(w, p, t, pd);
  }

  /** One cell of `GradientDot`: the term is the product of the patch value and the delta value. */
  lemma GradientCell(inp: Span<real>, delta: Span<real>, n: nat, f: nat, c: nat, x: nat, y: nat, i: nat, j: nat,
                     pd: Dims, w: seq<real>, p: seq<real>, t: seq<real>)
    requires GradFits(inp, delta, n, f, c, x, y) && pd == DeltaPlane(delta) && InBounds2(pd, i, j)
    requires Offset2(pd, i, j) < |t| && Offset2(pd, i, j) < |p| && Offset2(pd, i, j) < |w|
    requires p[Offset2(pd, i, j)] == At4(inp, n, c, x + i, y + j) && w[Offset2(pd, i, j)] == At4(delta, n, f, i, j)
    requires t[Offset2(pd, i, j)] == GradientTerm(inp, delta, n, f, c, x, y, i, j)
    ensures t[Offset2(pd, i, j)] == p[Offset2(pd, i, j)] * w[Offset2(pd, i, j)]
  {
  }

  /** The shape `backpropagate` passes to `input2Rows` for the turned filters: `(C, F, kH, kW)`. */
  function FakeDims(dims: Dims): (fd: Dims)
    requires |dims| == 4
    ensures |fd| == 4 && FilterRowDims(fd) == Rot180RowDims(dims)
  {
    [dims[1], dims[0], dims[2], dims[3]]
  }

  // ---------------------------------------------------------------------------
  // The layer and its row caches

  /**
   * A convolution layer with its filters also kept as rows: `rowsOfFilters`
   * holds one row per filter (`filters2Rows`), `rowsOfRot180Filters` one row
   * per channel of the turned filters (`rot180Filters2Rows`).
   */
  datatype ConvExLayer = ConvExLayer(conv: ConvLayer, rowsOfFilters: Rows, rowsOfRot180Filters: Rows)

  /** A row buffer between calls: never allocated, or `n` rows of `len` entries from an earlier call. */
  ghost predicate CacheShape(rows: Rows, n: nat, len: nat)
  {
    |rows| == 0 || (|rows| == n && Uniform(rows, len))
  }

  /** The row caches hold exactly the current filters. */
  ghost predicate RowsFresh(l: ConvExLayer)
  {
    Valid(l.conv.filters) && |l.conv.filters.dims| == 4
    && l.rowsOfFilters == FilterRows(l.conv.filters)
    && l.rowsOfRot180Filters == Rot180Rows(l.conv.filters)
  }

  /**
   * `updateFiltersRows`: both caches are refilled from the filters.  Whether
   * the caches are empty or still have the shape of the previous fill, they
   * end up holding exactly the filter rows and the turned-filter rows.
   */
  function UpdateFiltersRows(filters: Span<real>, rowsOfFilters: Rows, rowsOfRot180Filters: Rows): (r: (Rows, Rows))
    requires Valid(filters) && |filters.dims| == 4
    requires CacheShape(rowsOfFilters, filters.dims[0], FlattenSize(FilterRowDims(filters.dims)))
    requires CacheShape(rowsOfRot180Filters, filters.dims[1], FlattenSize(Rot180RowDims(filters.dims)))
    ensures r.0 == FilterRows(filters) && r.1 == Rot180Rows(filters)
  {
    FillReuse(rowsOfFilters, filters.dims[0], FlattenSize(FilterRowDims(filters.dims)), FilterRows(filters));
    FillReuse(rowsOfRot180Filters, filters.dims[1], FlattenSize(Rot180RowDims(filters.dims)), Rot180Rows(filters));
    (Filters2Rows(filters, rowsOfFilters), Rot180Filters2Rows(filters, rowsOfRot180Filters))
  }

  /** The constructors: the base layer's filters and biases, and both caches filled from empty. */
  function NewConvExLayer(conv: ConvLayer): (l: ConvExLayer)
    requires Valid(conv.filters) && |conv.filters.dims| == 4
    ensures l.conv == conv && RowsFresh(l)
  {
    var rows := UpdateFiltersRows(conv.filters, [], []);
    ConvExLayer(conv, rows.0, rows.1)
  }

  /**
   * `ConvExLayer::applyGradients`: the base layer's update, then the caches
   * are refilled, so they keep holding the filters.
   */
  function ExApplyGradients(l: ConvExLayer, grads: seq<seq<real>>, delta: Span<real>, opt: Optim.Sgd,
                            trainingCount: nat, miniBatchCount: nat, debug: bool): (r: ConvExLayer)
    requires RowsFresh(l)
    requires 1 <= |grads| && |l.conv.filters.data| <= |grads[0]|
    requires Valid(delta) && |delta.dims| == 4 && delta.dims[1] == |l.conv.biases|
    requires trainingCount > 0 && miniBatchCount > 0
    ensures r.conv == ApplyGradients(l.conv, grads, delta, opt, trainingCount, miniBatchCount, debug)
    ensures RowsFresh(r)
  {
    var conv := ApplyGradients(l.conv, grads, delta, opt, trainingCount, miniBatchCount, debug);
    assert Valid(conv.filters);
    var rows := UpdateFiltersRows(conv.filters, l.rowsOfFilters, l.rowsOfRot180Filters);
    ConvExLayer(conv, rows.0, rows.1)
  }

  // ---------------------------------------------------------------------------
  // Input rows, sample by sample

  /**
   * When the patch fills the filter row (input and filters have the same
   * channel count) and the destination is empty or of the exact shape,
   * `input2Rows` leaves exactly the patches, `x`-major then `y`.
   */
  lemma Input2RowsFresh(inp: Span<real>, n: nat, fd: Dims, dest: Rows)
    requires PatchShapes(inp, n, fd) && inp.dims[1] == fd[1]
    requires CacheShape(dest, FlattenSize(GridDims(inp, fd)), FlattenSize(FilterRowDims(fd)))
    ensures Fits(dest, FlattenSize(GridDims(inp, fd)), FlattenSize(FilterRowDims(fd)))
    ensures Input2Rows(inp, n, fd, dest) == Flatten(PatchGrid(inp, n, fd))
    ensures Uniform(Flatten(PatchGrid(inp, n, fd)), FlattenSize(FilterRowDims(fd)))
  {
    var g := GridDims(inp, fd);
    var len := FlattenSize(FilterRowDims(fd));
    var A := PatchGrid(inp, n, fd);
    var rows := Flatten(A);
    assert [inp.dims[1], fd[2], fd[3]] == FilterRowDims(fd);
    Build2Length(A, g);
    forall t | 0 <= t < |rows|
      ensures |rows[t]| == len
    {
      var x, y := Offset2Onto(g, t);
      Build2At(A, g, x, y);
    }
    FillReuse(dest, FlattenSize(g), len, rows);
  }

  /** The shapes a sample's input rows are built for: a rank-4 input and a kernel of its channel count that fits. */
  ghost predicate RowsShapes(inp: Span<real>, fd: Dims)
  {
    Valid(inp) && |inp.dims| == 4 && |fd| == 4 && inp.dims[1] == fd[1]
    && fd[2] <= inp.dims[2] + 1 && fd[3] <= inp.dims[3] + 1
  }

  /**
   * The scratch rows after sample `n` of a pass: `input2Rows` for sample `n`
   * writes into the rows left by sample `n - 1`, and sample 0 into the
   * context's buffer `cache`.  Each sample sees exactly its own patches.
   */
  function SampleRows(inp: Span<real>, fd: Dims, cache: Rows, n: nat): (rows: Rows)
    requires RowsShapes(inp, fd) && n < inp.dims[0]
    requires CacheShape(cache, FlattenSize(GridDims(inp, fd)), FlattenSize(FilterRowDims(fd)))
    ensures rows == Flatten(PatchGrid(inp, n, fd))
    ensures CacheShape(rows, FlattenSize(GridDims(inp, fd)), FlattenSize(FilterRowDims(fd)))
    decreases n
  {
    var dest := if n == 0 then cache else SampleRows(inp, fd, cache, n - 1);
    Input2RowsFresh(inp, n, fd, dest);
    Build2Length(PatchGrid(inp, n, fd), GridDims(inp, fd));
    Input2Rows(inp, n, fd, dest)
  }

  /** Row `Offset2(x, y)` of a sample's rows is the patch at `(x, y)`. */
  lemma SampleRowAt(inp: Span<real>, fd: Dims, cache: Rows, n: nat, x: nat, y: nat)
    requires RowsShapes(inp, fd) && n < inp.dims[0]
    requires CacheShape(cache, FlattenSize(GridDims(inp, fd)), FlattenSize(FilterRowDims(fd)))
    requires InBounds2(GridDims(inp, fd), x, y)
    ensures Offset2(GridDims(inp, fd), x, y) < |SampleRows(inp, fd, cache, n)|
    ensures SampleRows(inp, fd, cache, n)[Offset2(GridDims(inp, fd), x, y)] == Patch(inp, n, fd, x, y)
  {
    Build2At(PatchGrid(inp, n, fd), GridDims(inp, fd), x, y);
  }

  /** `gx_inner_product(a, b, |a|)`: `a` against the front of `b`. */
  function Inner(a: seq<real>, b: seq<real>): real
    requires |a| <= |b|
  {
    Dot(a, b[..|a|])
  }

  // ---------------------------------------------------------------------------
  // Forward

  /** What `calcOutput` needs: a fresh filter-row cache, an input of the filters' channel count, a bias per filter. */
  ghost predicate ExShapes(l: ConvExLayer, inp: Span<real>)
  {
    ConvShapes(inp, l.conv.filters) && l.rowsOfFilters == FilterRows(l.conv.filters)
    && l.conv.filters.dims[1] == inp.dims[1] && |l.conv.biases| == l.conv.filters.dims[0]
  }

  /** The input-row cache of the forward pass: empty, or one row per output position. */
  ghost predicate ForwardCache(l: ConvExLayer, inp: Span<real>, cache: Rows)
    requires ExShapes(l, inp)
  {
    CacheShape(cache, FlattenSize(GridDims(inp, l.conv.filters.dims)), FlattenSize(FilterRowDims(l.conv.filters.dims)))
  }

  /** `outMS4Rows(n, i, j)`: filter row `i` against input row `j` of sample `n`, plus bias `i`. */
  function ExForwardCell(l: ConvExLayer, inp: Span<real>, cache: Rows, n: nat, i: nat, j: nat): real
    requires ExShapes(l, inp) && ForwardCache(l, inp, cache)
    requires n < inp.dims[0] && i < l.conv.filters.dims[0] && j < FlattenSize(GridDims(inp, l.conv.filters.dims))
  {
    var fd := l.conv.filters.dims;
    var rows := SampleRows(inp, fd, cache, n);
    Inner(l.rowsOfFilters[i], rows[j]) + l.conv.biases[i]
  }

  /**
   * `ConvExLayer::calcOutput`: the output, viewed as `[N, F, OH*OW]`, holds
   * at `(n, i, j)` filter row `i` against input row `j` of sample `n`.
   */
  function ExCalcOutput(l: ConvExLayer, inp: Span<real>, cache: Rows): (out: Span<real>)
    requires ExShapes(l, inp) && ForwardCache(l, inp, cache)
    ensures Valid(out) && out.dims == OutDims(inp, l.conv.filters)
  {
    var o := OutDims(inp, l.conv.filters);
    var d := Merge23(o);
    FlattenSize2(GridDims(inp, l.conv.filters.dims));
    Merge23Size(o);
    Span(Tab3(d, (n: nat, i: nat, j: nat) requires InBounds3(d, n, i, j) => ExForwardCell(l, inp, cache, n, i, j)), o)
  }

  /** Filter row `f` against the input row of position `(x, y)` is `forwardConv` plus the bias. */
  lemma ExForwardCellIs(l: ConvExLayer, inp: Span<real>, cache: Rows, n: nat, f: nat, x: nat, y: nat)
    requires ExShapes(l, inp) && ForwardCache(l, inp, cache)
    requires InBounds4(OutDims(inp, l.conv.filters), n, f, x, y)
    ensures InBounds2(GridDims(inp, l.conv.filters.dims), x, y)
    ensures Offset2(GridDims(inp, l.conv.filters.dims), x, y) < FlattenSize(GridDims(inp, l.conv.filters.dims))
    ensures ExForwardCell(l, inp, cache, n, f, Offset2(GridDims(inp, l.conv.filters.dims), x, y))
         == ForwardConv(inp, n, f, x, y, l.conv.filters) + l.conv.biases[f]
  {
    var filt := l.conv.filters;
    var g := GridDims(inp, filt.dims);
    Offset2Bound(g, x, y);
    SampleRowAt(inp, filt.dims, cache, n, x, y);
    PatchDotIsForwardConv(inp, filt, n, f, x, y);
    var p := Patch(inp, n, filt.dims, x, y);
    assert p[..|p|] == p;
  }

  /** Output cell `(n, f, x, y)` of the im2row pass is row cell `(n, f, Offset2(x, y))`. */
  lemma ExCalcOutputAt(l: ConvExLayer, inp: Span<real>, cache: Rows, n: nat, f: nat, x: nat, y: nat)
    requires ExShapes(l, inp) && ForwardCache(l, inp, cache)
    requires InBounds4(OutDims(inp, l.conv.filters), n, f, x, y)
    ensures InBounds2(GridDims(inp, l.conv.filters.dims), x, y)
    ensures Offset2(GridDims(inp, l.conv.filters.dims), x, y) < FlattenSize(GridDims(inp, l.conv.filters.dims))
    ensures Offset4(OutDims(inp, l.conv.filters), n, f, x, y) < |ExCalcOutput(l, inp, cache).data|
    ensures ExCalcOutput(l, inp, cache).data[Offset4(OutDims(inp, l.conv.filters), n, f, x, y)]
         == ExForwardCell(l, inp, cache, n, f, Offset2(GridDims(inp, l.conv.filters.dims), x, y))
  {
    var o := OutDims(inp, l.conv.filters);
    var g := GridDims(inp, l.conv.filters.dims);
    GridIndex(o, g, n, f, x, y);
    ExCalcOutputMerged(l, inp, cache, n, f, Offset2(g, x, y));
  }

  /** Cell `(n, f, x, y)` of a rank-4 shape whose planes are the grid `g` is cell `(n, f, Offset2(x, y))` of the merged shape. */
  lemma GridIndex(o: Dims, g: Dims, n: nat, f: nat, x: nat, y: nat)
    requires |o| == 4 && g == [o[2], o[3]] && InBounds4(o, n, f, x, y)
    ensures InBounds2(g, x, y) && Offset2(g, x, y) < FlattenSize(g)
    ensures InBounds3(Merge23(o), n, f, Offset2(g, x, y))
    ensures Offset3(Merge23(o), n, f, Offset2(g, x, y)) == Offset4(o, n, f, x, y)
  {
    Merge23Offset(o, n, f, x, y);
    Offset2Bound(g, x, y);
    FlattenSize2(g);
    assert Offset2(g, x, y) == x * o[3] + y;
  }

  /** Cell `(n, f, j)` of the output viewed as `[N, F, OH*OW]` is `ExForwardCell` at `(n, f, j)`. */
  lemma ExCalcOutputMerged(l: ConvExLayer, inp: Span<real>, cache: Rows, n: nat, f: nat, j: nat)
    requires ExShapes(l, inp) && ForwardCache(l, inp, cache)
    requires InBounds3(Merge23(OutDims(inp, l.conv.filters)), n, f, j)
    ensures j < FlattenSize(GridDims(inp, l.conv.filters.dims))
    ensures Offset3(Merge23(OutDims(inp, l.conv.filters)), n, f, j) < |ExCalcOutput(l, inp, cache).data|
    ensures ExCalcOutput(l, inp, cache).data[Offset3(Merge23(OutDims(inp, l.conv.filters)), n, f, j)]
         == ExForwardCell(l, inp, cache, n, f, j)
  {
    FlattenSize2(GridDims(inp, l.conv.filters.dims));
  }

  /** Output cell `(n, f, x, y)` of the im2row pass is `forwardConv` plus the bias. */
  lemma ExOutputCell(l: ConvExLayer, inp: Span<real>, cache: Rows, n: nat, f: nat, x: nat, y: nat)
    requires ExShapes(l, inp) && ForwardCache(l, inp, cache)
    requires InBounds4(OutDims(inp, l.conv.filters), n, f, x, y)
    ensures At4(ExCalcOutput(l, inp, cache), n, f, x, y) == ForwardConv(inp, n, f, x, y, l.conv.filters) + l.conv.biases[f]
  {
    ExCalcOutputAt(l, inp, cache, n, f, x, y);
    ExForwardCellIs(l, inp, cache, n, f, x, y);
  }

  /** The im2row forward pass computes exactly the naive convolution of `ConvLayer::calcOutput`. */
  lemma ExCalcOutputIsCalcOutput(l: ConvExLayer, inp: Span<real>, cache: Rows)
    requires ExShapes(l, inp) && ForwardCache(l, inp, cache)
    ensures ExCalcOutput(l, inp, cache) == CalcOutput(l.conv, inp)
  {
    var a, b := ExCalcOutput(l, inp, cache), CalcOutput(l.conv, inp);
    forall n: nat, f: nat, x: nat, y: nat | InBounds4(a.dims, n, f, x, y)
      ensures At4(a, n, f, x, y) == At4(b, n, f, x, y)
    {
      ExOutputCell(l, inp, cache, n, f, x, y);
    }
    Ext4(a, b);
  }

  // ---------------------------------------------------------------------------
  // Backward

  /** What `backpropagate` needs: a fresh turned-filter cache and the shapes `ConvLayer::backpropagate` needs. */
  ghost predicate ExBackShapes(l: ConvExLayer, inDims: Dims, delta: Span<real>, cached: Dims)
  {
    BackShapes(l.conv.filters, inDims, delta, cached) && l.rowsOfRot180Filters == Rot180Rows(l.conv.filters)
  }

  /** The padded delta's window positions under the turned kernel are exactly the input positions. */
  lemma BackGrid(filt: Span<real>, inDims: Dims, delta: Span<real>, cached: Dims)
    requires BackShapes(filt, inDims, delta, cached)
    ensures RowsShapes(Padded(filt, inDims, delta, cached), FakeDims(filt.dims))
    ensures GridDims(Padded(filt, inDims, delta, cached), FakeDims(filt.dims)) == [inDims[2], inDims[3]]
  {
    var pad := Padded(filt, inDims, delta, cached);
    var fd := FakeDims(filt.dims);
    PadDimsGrow(filt.dims, inDims, delta.dims, pad.dims);
    GridOfGrown(pad, fd, inDims[2], inDims[3]);
  }

  /** A plane grown by the kernel less one on each side has one window position per original cell. */
  lemma GridOfGrown(pad: Span<real>, fd: Dims, h: nat, w: nat)
    requires |pad.dims| == 4 && |fd| == 4 && 1 <= fd[2] && 1 <= fd[3]
    requires pad.dims[2] == h + fd[2] - 1 && pad.dims[3] == w + fd[3] - 1
    ensures GridDims(pad, fd) == [h, w]
  {
  }

  /** The fresh padding dims: the delta's planes grown by the kernel less one on each side. */
  lemma PadDimsGrow(fdims: Dims, inDims: Dims, ddims: Dims, pd: Dims)
    requires |fdims| == 4 && |inDims| == 4 && 1 <= fdims[2] <= inDims[2] + 1 && 1 <= fdims[3] <= inDims[3] + 1
    requires ddims == [inDims[0], fdims[0], Positions(inDims[2], fdims[2]), Positions(inDims[3], fdims[3])]
    requires pd == PadDims(ddims, fdims, [])
    ensures pd == [inDims[0], fdims[0], inDims[2] + fdims[2] - 1, inDims[3] + fdims[3] - 1]
  {
  }

  /** The rows cache of the backward pass: empty, or one row per input position. */
  ghost predicate BackCache(l: ConvExLayer, inDims: Dims, cache: Rows)
    requires |inDims| == 4 && |l.conv.filters.dims| == 4
  {
    CacheShape(cache, FlattenSize([inDims[2], inDims[3]]), FlattenSize(FilterRowDims(FakeDims(l.conv.filters.dims))))
  }

  /** The shapes the row loop of `backpropagate` needs of the padded delta `pad` and the turned-filter rows `rot`. */
  ghost predicate PadRowsShapes(rot: Rows, pad: Span<real>, fd: Dims, inDims: Dims, cache: Rows)
  {
    RowsShapes(pad, fd) && |inDims| == 4 && pad.dims[0] == inDims[0]
    && GridDims(pad, fd) == [inDims[2], inDims[3]]
    && |rot| == inDims[1] && Uniform(rot, FlattenSize(FilterRowDims(fd)))
    && CacheShape(cache, FlattenSize(GridDims(pad, fd)), FlattenSize(FilterRowDims(fd)))
  }

  /** `inDeltaMS(n, i, j)`: turned-filter row `i` against row `j` of sample `n` of the padded delta. */
  function PadRowCell(rot: Rows, pad: Span<real>, fd: Dims, inDims: Dims, cache: Rows, n: nat, i: nat, j: nat): real
    requires PadRowsShapes(rot, pad, fd, inDims, cache)
    requires n < inDims[0] && i < inDims[1] && j < FlattenSize([inDims[2], inDims[3]])
  {
    var rows := SampleRows(pad, fd, cache, n);
    Build2Length(PatchGrid(pad, n, fd), GridDims(pad, fd));
    Inner(rot[i], rows[j])
  }

  /** The row loop of `backpropagate`: the input delta, viewed as `[N, C, H*W]`, holds `PadRowCell` at `(n, i, j)`. */
  function PadRowsPass(rot: Rows, pad: Span<real>, fd: Dims, inDims: Dims, cache: Rows): (inDelta: Span<real>)
    requires PadRowsShapes(rot, pad, fd, inDims, cache)
    ensures Valid(inDelta) && inDelta.dims == inDims
  {
    var d := Merge23(inDims);
    Merge23Size(inDims);
    FlattenSize2([inDims[2], inDims[3]]);
    Span(Tab3(d, (n: nat, i: nat, j: nat) requires InBounds3(d, n, i, j) =>
      PadRowCell(rot, pad, fd, inDims, cache, n, i, j)), inDims)
  }

  /** Input delta cell `(n, c, x, y)` of the row loop is row cell `(n, c, Offset2(x, y))`. */
  lemma PadRowsPassAt(rot: Rows, pad: Span<real>, fd: Dims, inDims: Dims, cache: Rows, n: nat, c: nat, x: nat, y: nat)
    requires PadRowsShapes(rot, pad, fd, inDims, cache) && InBounds4(inDims, n, c, x, y)
    ensures InBounds2(GridDims(pad, fd), x, y) && Offset2(GridDims(pad, fd), x, y) < FlattenSize([inDims[2], inDims[3]])
    ensures Offset4(inDims, n, c, x, y) < |PadRowsPass(rot, pad, fd, inDims, cache).data|
    ensures PadRowsPass(rot, pad, fd, inDims, cache).data[Offset4(inDims, n, c, x, y)]
         == PadRowCell(rot, pad, fd, inDims, cache, n, c, Offset2(GridDims(pad, fd), x, y))
  {
    GridIndex(inDims, [inDims[2], inDims[3]], n, c, x, y);
    PadRowsPassMerged(rot, pad, fd, inDims, cache, n, c, Offset2([inDims[2], inDims[3]], x, y));
  }

  /** Cell `(n, c, j)` of the input delta viewed as `[N, C, H*W]` is `PadRowCell` at `(n, c, j)`. */
  lemma PadRowsPassMerged(rot: Rows, pad: Span<real>, fd: Dims, inDims: Dims, cache: Rows, n: nat, c: nat, j: nat)
    requires PadRowsShapes(rot, pad, fd, inDims, cache) && InBounds3(Merge23(inDims), n, c, j)
    ensures j < FlattenSize([inDims[2], inDims[3]])
    ensures Offset3(Merge23(inDims), n, c, j) < |PadRowsPass(rot, pad, fd, inDims, cache).data|
    ensures PadRowsPass(rot, pad, fd, inDims, cache).data[Offset3(Merge23(inDims), n, c, j)]
         == PadRowCell(rot, pad, fd, inDims, cache, n, c, j)
  {
    FlattenSize2([inDims[2], inDims[3]]);
  }

  /** Turned-filter row `c` against the padded-delta row of `(x, y)` is `backwardConv` with the turned filters. */
  lemma PadRowCellIs(filt: Span<real>, pad: Span<real>, inDims: Dims, cache: Rows, n: nat, c: nat, x: nat, y: nat)
    requires Valid(filt) && |filt.dims| == 4
    requires PadRowsShapes(Rot180Rows(filt), pad, FakeDims(filt.dims), inDims, cache)
    requires InBounds4(inDims, n, c, x, y)
    ensures InBounds2(GridDims(pad, FakeDims(filt.dims)), x, y)
    ensures Offset2(GridDims(pad, FakeDims(filt.dims)), x, y) < FlattenSize([inDims[2], inDims[3]])
    ensures BackFits(pad, Rot180Filters(filt), n, c, x, y)
    ensures PadRowCell(Rot180Rows(filt), pad, FakeDims(filt.dims), inDims, cache, n, c, Offset2(GridDims(pad, FakeDims(filt.dims)), x, y))
         == BackwardConv(pad, Rot180Filters(filt), n, c, x, y)
  {
    var fd := FakeDims(filt.dims);
    var g := GridDims(pad, fd);
    Offset2Bound(g, x, y);
    FlattenSize2(g);
    SampleRowAt(pad, fd, cache, n, x, y);
    PatchDotIsBackwardConv(pad, filt, n, c, x, y);
    var p := Patch(pad, n, fd, x, y);
    assert p[..|p|] == p;
  }

  /** `ConvExLayer::backpropagate` meets the row loop's shapes on the padded delta. */
  lemma ExBackPadShapes(l: ConvExLayer, inDims: Dims, delta: Span<real>, cached: Dims, cache: Rows)
    requires ExBackShapes(l, inDims, delta, cached) && BackCache(l, inDims, cache)
    ensures PadRowsShapes(l.rowsOfRot180Filters, Padded(l.conv.filters, inDims, delta, cached),
                          FakeDims(l.conv.filters.dims), inDims, cache)
  {
    BackGrid(l.conv.filters, inDims, delta, cached);
  }

  /**
   * `ConvExLayer::backpropagate`: the delta is padded as in `ConvLayer`, then
   * every input delta cell is a turned-filter row against a patch row of the
   * padded delta, taken with the turned filters' shape `(C, F, kH, kW)`.
   */
  function ExBackpropagate(l: ConvExLayer, inDims: Dims, delta: Span<real>, cached: Dims, cache: Rows): (inDelta: Span<real>)
    requires ExBackShapes(l, inDims, delta, cached) && BackCache(l, inDims, cache)
    ensures Valid(inDelta) && inDelta.dims == inDims
  {
    ExBackPadShapes(l, inDims, delta, cached, cache);
    PadRowsPass(l.rowsOfRot180Filters, Padded(l.conv.filters, inDims, delta, cached), FakeDims(l.conv.filters.dims), inDims, cache)
  }

  /** Input delta cell `(n, c, x, y)` of the im2row pass is `backwardConv` there. */
  lemma ExInDeltaCell(l: ConvExLayer, inDims: Dims, delta: Span<real>, cached: Dims, cache: Rows,
                      n: nat, c: nat, x: nat, y: nat)
    requires ExBackShapes(l, inDims, delta, cached) && BackCache(l, inDims, cache)
    requires InBounds4(inDims, n, c, x, y)
    ensures At4(ExBackpropagate(l, inDims, delta, cached, cache), n, c, x, y)
         == BackwardCell(l.conv.filters, inDims, delta, cached, n, c, x, y)
  {
    var pad := Padded(l.conv.filters, inDims, delta, cached);
    var fd := FakeDims(l.conv.filters.dims);
    ExBackPadShapes(l, inDims, delta, cached, cache);
    PadRowsPassAt(l.rowsOfRot180Filters, pad, fd, inDims, cache, n, c, x, y);
    PadRowCellIs(l.conv.filters, pad, inDims, cache, n, c, x, y);
    Offset4Bound(inDims, n, c, x, y);
  }

  /** The im2row backward pass computes exactly the input delta of `ConvLayer::backpropagate`. */
  lemma ExBackpropagateIsBackpropagate(l: ConvExLayer, inDims: Dims, delta: Span<real>, cached: Dims, cache: Rows)
    requires ExBackShapes(l, inDims, delta, cached) && BackCache(l, inDims, cache)
    ensures ExBackpropagate(l, inDims, delta, cached, cache) == Backpropagate(l.conv, inDims, delta, cached)
  {
    var a, b := ExBackpropagate(l, inDims, delta, cached, cache), Backpropagate(l.conv, inDims, delta, cached);
    forall n: nat, c: nat, x: nat, y: nat | InBounds4(a.dims, n, c, x, y)
      ensures At4(a, n, c, x, y) == At4(b, n, c, x, y)
    {
      ExInDeltaCell(l, inDims, delta, cached, cache, n, c, x, y);
    }
    Ext4(a, b);
  }

  // ---------------------------------------------------------------------------
  // Gradients

  /** What `collectGradients` needs: filters reading every input channel and a delta of the output's shape. */
  ghost predicate ExGradShapes(filt: Span<real>, inp: Span<real>, delta: Span<real>)
  {
    ConvShapes(inp, filt) && filt.dims[1] == inp.dims[1] && Valid(delta) && delta.dims == OutDims(inp, filt)
  }

  /** The scratch delta rows after sample `n`: `deltas2Rows` reuses the rows of sample `n - 1`. */
  function SampleDeltaRows(delta: Span<real>, cache: Rows, n: nat): (rows: Rows)
    requires Valid(delta) && |delta.dims| == 4 && n < delta.dims[0]
    requires CacheShape(cache, delta.dims[1], FlattenSize([delta.dims[2], delta.dims[3]]))
    ensures rows == DeltaRows(delta, n)
    ensures CacheShape(rows, delta.dims[1], FlattenSize([delta.dims[2], delta.dims[3]]))
    decreases n
  {
    var dest := if n == 0 then cache else SampleDeltaRows(delta, cache, n - 1);
    FillReuse(dest, delta.dims[1], FlattenSize([delta.dims[2], delta.dims[3]]), DeltaRows(delta, n));
    Deltas2Rows(delta, n, dest)
  }

  /**
   * When the destination is empty or of the exact shape, `input2Rows4Gradients`
   * leaves exactly the single-channel patches, channel-major, then `x`, then `y`.
   */
  lemma GradRowsFresh(inp: Span<real>, n: nat, dd: Dims, dest: Rows)
    requires PatchShapes(inp, n, dd)
    requires CacheShape(dest, FlattenSize(GradGridDims(inp, dd)), FlattenSize([dd[2], dd[3]]))
    ensures Fits(dest, FlattenSize(GradGridDims(inp, dd)), FlattenSize([dd[2], dd[3]]))
    ensures Input2Rows4Gradients(inp, n, dd, dest) == Build3(PlanePatchGrid(inp, n, dd))
    ensures Uniform(Build3(PlanePatchGrid(inp, n, dd)), FlattenSize([dd[2], dd[3]]))
  {
    var g := GradGridDims(inp, dd);
    var len := FlattenSize([dd[2], dd[3]]);
    var A := PlanePatchGrid(inp, n, dd);
    var rows := Build3(A);
    Build3Length(A, g);
    forall t | 0 <= t < |rows|
      ensures |rows[t]| == len
    {
      var c, x, y := Offset3Onto(g, t);
      Build3At(A, g, c, x, y);
    }
    FillReuse(dest, FlattenSize(g), len, rows);
  }

  /** The scratch input rows for the gradients after sample `n`, reusing the rows of sample `n - 1`. */
  function SampleGradRows(inp: Span<real>, dd: Dims, cache: Rows, n: nat): (rows: Rows)
    requires PatchShapes(inp, n, dd)
    requires CacheShape(cache, FlattenSize(GradGridDims(inp, dd)), FlattenSize([dd[2], dd[3]]))
    ensures rows == Build3(PlanePatchGrid(inp, n, dd))
    ensures CacheShape(rows, FlattenSize(GradGridDims(inp, dd)), FlattenSize([dd[2], dd[3]]))
    decreases n
  {
    var dest := if n == 0 then cache else SampleGradRows(inp, dd, cache, n - 1);
    GradRowsFresh(inp, n, dd, dest);
    Build3Length(PlanePatchGrid(inp, n, dd), GradGridDims(inp, dd));
    Input2Rows4Gradients(inp, n, dd, dest)
  }

  /** The kernel plane is the input plane's window grid under the delta: `Positions(H, H - kH + 1) == kH`. */
  lemma GradGrid(filt: Span<real>, inp: Span<real>, delta: Span<real>)
    requires ExGradShapes(filt, inp, delta)
    ensures delta.dims[2] <= inp.dims[2] + 1 && delta.dims[3] <= inp.dims[3] + 1
    ensures GradGridDims(inp, delta.dims) == filt.dims[1..]
  {
  }

  /** The two gradient caches: empty, or of the exact shape. */
  ghost predicate GradCaches(filt: Span<real>, inp: Span<real>, delta: Span<real>, deltaCache: Rows, inputCache: Rows)
    requires ExGradShapes(filt, inp, delta)
  {
    CacheShape(deltaCache, filt.dims[0], FlattenSize([delta.dims[2], delta.dims[3]]))
    && CacheShape(inputCache, FlattenSize(filt.dims[1..]), FlattenSize([delta.dims[2], delta.dims[3]]))
  }

  /** `gradientMS(i, j)`'s term of sample `n`: delta row `i` against input row `j`. */
  function GradRowCell(filt: Span<real>, inp: Span<real>, delta: Span<real>, deltaCache: Rows, inputCache: Rows,
                       n: nat, i: nat, j: nat): real
    requires ExGradShapes(filt, inp, delta) && GradCaches(filt, inp, delta, deltaCache, inputCache)
    requires n < inp.dims[0] && i < filt.dims[0] && j < FlattenSize(filt.dims[1..])
  {
    GradGrid(filt, inp, delta);
    var rows := SampleGradRows(inp, delta.dims, inputCache, n);
    Build3Length(PlanePatchGrid(inp, n, delta.dims), GradGridDims(inp, delta.dims));
    Inner(SampleDeltaRows(delta, deltaCache, n)[i], rows[j])
  }

  /** `gradientMS(i, j)` after the loop: zero, then each sample's term added in turn. */
  function ExGradientCell(filt: Span<real>, inp: Span<real>, delta: Span<real>, deltaCache: Rows, inputCache: Rows,
                          i: nat, j: nat): real
    requires ExGradShapes(filt, inp, delta) && GradCaches(filt, inp, delta, deltaCache, inputCache)
    requires i < filt.dims[0] && j < FlattenSize(filt.dims[1..])
  {
    Sum(GradRowTerms(filt, inp, delta, deltaCache, inputCache, i, j))
  }

  /** Each sample's term of `gradientMS(i, j)`, in sample order. */
  function GradRowTerms(filt: Span<real>, inp: Span<real>, delta: Span<real>, deltaCache: Rows, inputCache: Rows,
                        i: nat, j: nat): (t: seq<real>)
    requires ExGradShapes(filt, inp, delta) && GradCaches(filt, inp, delta, deltaCache, inputCache)
    requires i < filt.dims[0] && j < FlattenSize(filt.dims[1..])
    ensures |t| == inp.dims[0]
    ensures forall n :: 0 <= n < inp.dims[0] ==> t[n] == GradRowCell(filt, inp, delta, deltaCache, inputCache, n, i, j)
  {
    seq(inp.dims[0], n requires 0 <= n < inp.dims[0] => GradRowCell(filt, inp, delta, deltaCache, inputCache, n, i, j))
  }

  /**
   * `ConvExLayer::collectGradients`: the gradient buffer is allocated on
   * first use and zeroed afterwards, then viewed as `[F, C*kH*kW]` it
   * accumulates delta rows against input rows over the samples.
   */
  function ExCollectGradients(filt: Span<real>, inp: Span<real>, delta: Span<real>, grads: seq<seq<real>>,
                              deltaCache: Rows, inputCache: Rows): (r: seq<seq<real>>)
    requires ExGradShapes(filt, inp, delta) && GradCaches(filt, inp, delta, deltaCache, inputCache)
    requires |grads| == 0 || |grads[0]| == FlattenSize(filt.dims)
    ensures |r| == (if |grads| == 0 then 1 else |grads|)
    ensures forall k :: 1 <= k < |grads| ==> r[k] == grads[k]
    ensures |r[0]| == FlattenSize(filt.dims)
  {
    var gd := Merge123(filt.dims);
    Merge123Size(filt.dims);
    FlattenSize2(gd);
    var g := Tab2(gd, (i: nat, j: nat) requires InBounds2(gd, i, j) =>
      ExGradientCell(filt, inp, delta, deltaCache, inputCache, i, j));
    if |grads| == 0 then [g] else grads[0 := g]
  }

  /** Delta row `f` against the input row of `(c, x, y)` is `gradientConv` of sample `n` there. */
  lemma GradRowCellIs(filt: Span<real>, inp: Span<real>, delta: Span<real>, deltaCache: Rows, inputCache: Rows,
                      n: nat, f: nat, c: nat, x: nat, y: nat)
    requires ExGradShapes(filt, inp, delta) && GradCaches(filt, inp, delta, deltaCache, inputCache)
    requires n < inp.dims[0] && InBounds4(filt.dims, f, c, x, y)
    ensures Offset3(filt.dims[1..], c, x, y) < FlattenSize(filt.dims[1..])
    ensures GradFits(inp, delta, n, f, c, x, y)
    ensures GradRowCell(filt, inp, delta, deltaCache, inputCache, n, f, Offset3(filt.dims[1..], c, x, y))
         == GradientConv(inp, delta, n, f, c, x, y)
  {
    var gg := filt.dims[1..];
    GradGrid(filt, inp, delta);
    Offset3Bound(gg, c, x, y);
    Build3At(PlanePatchGrid(inp, n, delta.dims), gg, c, x, y);
    PlaneDotIsGradientConv(inp, delta, n, f, c, x, y);
    var p := PlanePatch(inp, n, delta.dims, c, x, y);
    assert p[..|p|] == p;
  }

  /** Gradient cell `(f, Offset3(c, x, y))` of the row loop is the filter gradient of `(f, c, x, y)`. */
  lemma ExGradientCellIs(filt: Span<real>, inp: Span<real>, delta: Span<real>, deltaCache: Rows, inputCache: Rows,
                         f: nat, c: nat, x: nat, y: nat)
    requires ExGradShapes(filt, inp, delta) && GradCaches(filt, inp, delta, deltaCache, inputCache)
    requires InBounds4(filt.dims, f, c, x, y)
    ensures Offset3(filt.dims[1..], c, x, y) < FlattenSize(filt.dims[1..])
    ensures ExGradientCell(filt, inp, delta, deltaCache, inputCache, f, Offset3(filt.dims[1..], c, x, y))
         == FilterGradient(inp, filt, delta, f, c, x, y)
  {
    var j := Offset3(filt.dims[1..], c, x, y);
    Offset3Bound(filt.dims[1..], c, x, y);
    var a := GradRowTerms(filt, inp, delta, deltaCache, inputCache, f, j);
    var b := SampleGradients(inp, filt, delta, f, c, x, y);
    forall n | 0 <= n < inp.dims[0]
      ensures a[n] == b[n]
    {
      GradRowCellIs(filt, inp, delta, deltaCache, inputCache, n, f, c, x, y);
    }
    assert a == b;
  }

  /** Filter gradient cell `(f, c, x, y)` of the buffer is gradient cell `(f, Offset3(c, x, y))` of the row loop. */
  lemma ExGradientAt(filt: Span<real>, inp: Span<real>, delta: Span<real>, grads: seq<seq<real>>,
                     deltaCache: Rows, inputCache: Rows, f: nat, c: nat, x: nat, y: nat)
    requires ExGradShapes(filt, inp, delta) && GradCaches(filt, inp, delta, deltaCache, inputCache)
    requires |grads| == 0 || |grads[0]| == FlattenSize(filt.dims)
    requires InBounds4(filt.dims, f, c, x, y)
    ensures Offset3(filt.dims[1..], c, x, y) < FlattenSize(filt.dims[1..])
    ensures Offset4(filt.dims, f, c, x, y) < |ExCollectGradients(filt, inp, delta, grads, deltaCache, inputCache)[0]|
    ensures ExCollectGradients(filt, inp, delta, grads, deltaCache, inputCache)[0][Offset4(filt.dims, f, c, x, y)]
         == ExGradientCell(filt, inp, delta, deltaCache, inputCache, f, Offset3(filt.dims[1..], c, x, y))
  {
    Merge123Offset(filt.dims, f, c, x, y);
    Offset3Bound(filt.dims[1..], c, x, y);
  }

  /** Filter gradient cell `(f, c, x, y)` of the im2row pass is the sum over the samples of `gradientConv`. */
  lemma ExFilterGradientCell(filt: Span<real>, inp: Span<real>, delta: Span<real>, grads: seq<seq<real>>,
                             deltaCache: Rows, inputCache: Rows, f: nat, c: nat, x: nat, y: nat)
    requires ExGradShapes(filt, inp, delta) && GradCaches(filt, inp, delta, deltaCache, inputCache)
    requires |grads| == 0 || |grads[0]| == FlattenSize(filt.dims)
    requires InBounds4(filt.dims, f, c, x, y)
    ensures At4(Span(ExCollectGradients(filt, inp, delta, grads, deltaCache, inputCache)[0], filt.dims), f, c, x, y)
         == FilterGradient(inp, filt, delta, f, c, x, y)
  {
    ExGradientAt(filt, inp, delta, grads, deltaCache, inputCache, f, c, x, y);
    ExGradientCellIs(filt, inp, delta, deltaCache, inputCache, f, c, x, y);
  }

  /** The im2row gradient pass leaves exactly the gradient list of `ConvLayer::collectGradients`. */
  lemma ExCollectGradientsIsCollectGradients(filt: Span<real>, inp: Span<real>, delta: Span<real>, grads: seq<seq<real>>,
                                             deltaCache: Rows, inputCache: Rows)
    requires ExGradShapes(filt, inp, delta) && GradCaches(filt, inp, delta, deltaCache, inputCache)
    requires |grads| == 0 || |grads[0]| == FlattenSize(filt.dims)
    ensures ExCollectGradients(filt, inp, delta, grads, deltaCache, inputCache) == CollectGradients(inp, filt, delta, grads)
  {
    var r, s := ExCollectGradients(filt, inp, delta, grads, deltaCache, inputCache), CollectGradients(inp, filt, delta, grads);
    var a, b := Span(r[0], filt.dims), Span(s[0], filt.dims);
    forall f: nat, c: nat, x: nat, y: nat | InBounds4(filt.dims, f, c, x, y)
      ensures At4(a, f, c, x, y) == At4(b, f, c, x, y)
    {
      ExFilterGradientCell(filt, inp, delta, grads, deltaCache, inputCache, f, c, x, y);
    }
    Ext4(a, b);
    assert r[0] == s[0];
    assert |r| == |s|;
    forall k | 0 <= k < |r|
      ensures r[k] == s[k]
    {
    }
  }
}
