/**
 * The naive convolution layer of gxnet/layer.cpp (`ConvLayer`): valid
 * cross-correlation forward, backpropagation through a zero-padded delta and
 * the 180-degree turned filters, filter gradients, and the parameter update.
 *
 * Tensors are rank-4 spans: the input `(N, C, H, W)`, the filters
 * `(F, C, kH, kW)` and the output and delta `(N, F, H-kH+1, W-kW+1)`.
 */
module Conv {
  import opened Sums
  import opened Tensor
  import opened Im2Rows
  import Optim

  /** A convolution layer: its filters and one bias per filter. */
  datatype ConvLayer = ConvLayer(filters: Span<real>, biases: seq<real>)

  /**
   * The shapes the loops of a convolution stay inside: valid rank-4 input and
   * filters, no more filter channels than input channels, and a kernel that
   * fits the input (a kernel one larger than the input gives no positions).
   */
  ghost predicate ConvShapes(inp: Span<real>, filt: Span<real>)
  {
    Valid(inp) && |inp.dims| == 4 && Valid(filt) && |filt.dims| == 4
    && filt.dims[1] <= inp.dims[1]
    && filt.dims[2] <= inp.dims[2] + 1 && filt.dims[3] <= inp.dims[3] + 1
  }

  /** `calcOutput`'s output dims: `(N, F, H-kH+1, W-kW+1)`. */
  function OutDims(inp: Span<real>, filt: Span<real>): (d: Dims)
    requires |inp.dims| == 4 && |filt.dims| == 4
    requires filt.dims[2] <= inp.dims[2] + 1 && filt.dims[3] <= inp.dims[3] + 1
    ensures |d| == 4
  {
    [inp.dims[0], filt.dims[0], Positions(inp.dims[2], filt.dims[2]), Positions(inp.dims[3], filt.dims[3])]
  }

  // ---------------------------------------------------------------------------
  // Forward

  /** Cell `(c, i, j)` of the window: input under the filter times the filter weight. */
  function ForwardTerm(inp: Span<real>, n: nat, f: nat, x: nat, y: nat, filt: Span<real>, c: nat, i: nat, j: nat): real
    requires ConvShapes(inp, filt) && InBounds4(OutDims(inp, filt), n, f, x, y)
    requires InBounds3(FilterRowDims(filt.dims), c, i, j)
  {
    At4(inp, n, c, x + i, y + j) * At4(filt, f, c, i, j)
  }

  /** The products `forwardConv` accumulates, in its loop order `(c, x, y)`. */
  function ForwardTerms(inp: Span<real>, n: nat, f: nat, x: nat, y: nat, filt: Span<real>): (t: seq<real>)
    requires ConvShapes(inp, filt) && InBounds4(OutDims(inp, filt), n, f, x, y)
    ensures |t| == FlattenSize(FilterRowDims(filt.dims))
    ensures forall c: nat, i: nat, j: nat :: InBounds3(FilterRowDims(filt.dims), c, i, j) ==>
              Offset3(FilterRowDims(filt.dims), c, i, j) < |t|
              && t[Offset3(FilterRowDims(filt.dims), c, i, j)] == ForwardTerm(inp, n, f, x, y, filt, c, i, j)
  {
    var rd := FilterRowDims(filt.dims);
    Tab3(rd, (c: nat, i: nat, j: nat) requires InBounds3(rd, c, i, j) => ForwardTerm(inp, n, f, x, y, filt, c, i, j))
  }

  /** `forwardConv`: the filter `f` laid over the input at `(x, y)`, summed in loop order. */
  function ForwardConv(inp: Span<real>, n: nat, f: nat, x: nat, y: nat, filt: Span<real>): real
    requires ConvShapes(inp, filt) && InBounds4(OutDims(inp, filt), n, f, x, y)
  {
    Sum(ForwardTerms(inp, n, f, x, y, filt))
  }

  /**
   * `ConvLayer::calcOutput`: a valid correlation without padding,
   * `out(n, f, x, y) = forwardConv(n, f, x, y) + bias[f]`.
   */
  function CalcOutput(layer: ConvLayer, inp: Span<real>): (out: Span<real>)
    requires ConvShapes(inp, layer.filters) && layer.filters.dims[0] <= |layer.biases|
    ensures Valid(out) && out.dims == OutDims(inp, layer.filters)
    ensures forall n: nat, f: nat, x: nat, y: nat :: InBounds4(out.dims, n, f, x, y) ==>
              At4(out, n, f, x, y) == ForwardConv(inp, n, f, x, y, layer.filters) + layer.biases[f]
  {
    var d := OutDims(inp, layer.filters);
    Span(Tab4(d, (n: nat, f: nat, x: nat, y: nat) requires InBounds4(d, n, f, x, y) =>
      ForwardConv(inp, n, f, x, y, layer.filters) + layer.biases[f]), d)
  }

  // ---------------------------------------------------------------------------
  // The padded delta

  /**
   * The padding buffer's dims: computed from the output on first use,
   * `(N, F, OH + 2(kH-1), OW + 2(kW-1))`; afterwards the cached dims are kept
   * and only the sample count is refreshed.
   */
  function PadDims(outDims: Dims, filtDims: Dims, cached: Dims): (d: Dims)
    requires |outDims| == 4 && |filtDims| == 4 && 1 <= filtDims[2] && 1 <= filtDims[3]
    requires |cached| == 0 || |cached| == 4
    ensures |d| == 4 && d[0] == outDims[0]
    ensures |cached| == 0 ==> d[2] == outDims[2] + 2 * (filtDims[2] - 1) && d[3] == outDims[3] + 2 * (filtDims[3] - 1)
    ensures |cached| == 0 ==> d[1] == outDims[1]
    ensures |cached| == 4 ==> d[1..] == cached[1..]
  {
    var first := if |cached| == 0 then
      [outDims[0], outDims[1], outDims[2] + 2 * (filtDims[2] - 1), outDims[3] + 2 * (filtDims[3] - 1)]
    else cached;
    [outDims[0]] + first[1..]
  }

  /** The delta fits the padding buffer when shifted by `(dx, dy)`. */
  ghost predicate PadFits(delta: Span<real>, dx: nat, dy: nat, pd: Dims)
  {
    Valid(delta) && |delta.dims| == 4 && |pd| == 4
    && delta.dims[0] <= pd[0] && delta.dims[1] <= pd[1]
    && delta.dims[2] + dx <= pd[2] && delta.dims[3] + dy <= pd[3]
  }

  /** Cell `(n, f, x, y)` of a zero buffer into which `delta` was copied at offset `(dx, dy)`. */
  function Shifted(delta: Span<real>, dx: nat, dy: nat, pd: Dims, n: nat, f: nat, x: nat, y: nat): real
    requires PadFits(delta, dx, dy, pd)
  {
    if n < delta.dims[0] && f < delta.dims[1]
       && dx <= x < dx + delta.dims[2] && dy <= y < dy + delta.dims[3]
    then At4(delta, n, f, x - dx, y - dy)
    else 0.0
  }

  /** A zero buffer of dims `pd` into which `delta` is copied at offset `(dx, dy)`. */
  function CopyShifted(delta: Span<real>, dx: nat, dy: nat, pd: Dims): (r: Span<real>)
    requires PadFits(delta, dx, dy, pd)
    ensures Valid(r) && r.dims == pd
    ensures forall n: nat, f: nat, x: nat, y: nat :: InBounds4(pd, n, f, x, y) ==>
              At4(r, n, f, x, y) == Shifted(delta, dx, dy, pd, n, f, x, y)
  {
    Span(Tab4(pd, (n: nat, f: nat, x: nat, y: nat) requires InBounds4(pd, n, f, x, y) =>
      Shifted(delta, dx, dy, pd, n, f, x, y)), pd)
  }

  /** Delta cell `(n, f, x, y)` lands at `(n, f, x + dx, y + dy)` of the shifted copy. */
  lemma {:induction false} CopyShiftedPlaces(delta: Span<real>, dx: nat, dy: nat, pd: Dims)
    requires PadFits(delta, dx, dy, pd)
    ensures forall n: nat, f: nat, x: nat, y: nat :: InBounds4(delta.dims, n, f, x, y) ==>
              InBounds4(pd, n, f, x + dx, y + dy)
              && At4(CopyShifted(delta, dx, dy, pd), n, f, x + dx, y + dy) == At4(delta, n, f, x, y)
  {
    var r := CopyShifted(delta, dx, dy, pd);
    forall n: nat, f: nat, x: nat, y: nat | InBounds4(delta.dims, n, f, x, y)
      ensures InBounds4(pd, n, f, x + dx, y + dy) && At4(r, n, f, x + dx, y + dy) == At4(delta, n, f, x, y)
    {
      ShiftedInside(delta, dx, dy, pd, n, f, x, y);
    }
  }

  /** One cell of the window the delta is copied to. */
  lemma ShiftedInside(delta: Span<real>, dx: nat, dy: nat, pd: Dims, n: nat, f: nat, x: nat, y: nat)
    requires PadFits(delta, dx, dy, pd) && InBounds4(delta.dims, n, f, x, y)
    ensures InBounds4(pd, n, f, x + dx, y + dy)
    ensures Shifted(delta, dx, dy, pd, n, f, x + dx, y + dy) == At4(delta, n, f, x, y)
  {
  }

  /** Every cell of the shifted copy outside the window the delta was copied to is zero. */
  lemma {:induction false} CopyShiftedZeroElsewhere(delta: Span<real>, dx: nat, dy: nat, pd: Dims)
    requires PadFits(delta, dx, dy, pd)
    ensures forall n: nat, f: nat, x: nat, y: nat :: InBounds4(pd, n, f, x, y)
              && !(n < delta.dims[0] && f < delta.dims[1] && dx <= x < dx + delta.dims[2] && dy <= y < dy + delta.dims[3])
              ==> At4(CopyShifted(delta, dx, dy, pd), n, f, x, y) == 0.0
  {
  }

  /**
   * `copyOutDelta` as written: the buffer is zero-filled by its resize and the
   * delta is copied at offset `(filterSize-1, filterSize-1)`, where the caller
   * passes the kernel height as `filterSize`, for both axes.
   */
  function CopyOutDeltaAsWritten(delta: Span<real>, filterSize: nat, pd: Dims): (r: Span<real>)
    requires 1 <= filterSize && PadFits(delta, filterSize - 1, filterSize - 1, pd)
    ensures Valid(r) && r.dims == pd
    ensures forall n: nat, f: nat, x: nat, y: nat :: InBounds4(pd, n, f, x, y) ==>
              At4(r, n, f, x, y) == Shifted(delta, filterSize - 1, filterSize - 1, pd, n, f, x, y)
  {
    CopyShifted(delta, filterSize - 1, filterSize - 1, pd)
  }

  /**
   * `copyOutDelta` as intended: the delta sits at offset `(kH-1, kW-1)`, so
   * that a border of `kH-1` rows and `kW-1` columns of zeros surrounds it.
   */
  function PaddedDelta(delta: Span<real>, kH: nat, kW: nat, pd: Dims): (r: Span<real>)
    requires 1 <= kH && 1 <= kW && PadFits(delta, kH - 1, kW - 1, pd)
    ensures Valid(r) && r.dims == pd
    ensures forall n: nat, f: nat, x: nat, y: nat :: InBounds4(pd, n, f, x, y) ==>
              At4(r, n, f, x, y) == Shifted(delta, kH - 1, kW - 1, pd, n, f, x, y)
  {
    CopyShifted(delta, kH - 1, kW - 1, pd)
  }

  /**
   * With the freshly computed padding dims the corrected copy centres the
   * delta: the zero border is `kH-1` deep at the top and at the bottom, and
   * `kW-1` deep at the left and at the right.
   */
  lemma PaddedDeltaCentred(delta: Span<real>, kH: nat, kW: nat)
    requires Valid(delta) && |delta.dims| == 4 && 1 <= kH && 1 <= kW
    ensures PadFits(delta, kH - 1, kW - 1, PadDims(delta.dims, [0, 0, kH, kW], []))
    ensures var pd := PadDims(delta.dims, [0, 0, kH, kW], []);
            pd[2] - (kH - 1 + delta.dims[2]) == kH - 1 && pd[3] - (kW - 1 + delta.dims[3]) == kW - 1
  {
  }

  /**
   * The copy as written misplaces the delta of a non-square kernel: for a
   * `1 x 2` kernel and a single-cell delta `[1]`, the padded row `[0, 1, 0]`
   * is intended, but `[1, 0, 0]` is written.
   */
  lemma CopyOutDeltaMisplaces(delta: Span<real>)
    requires delta == Span([1.0], [1, 1, 1, 1])
    ensures PadDims(delta.dims, [1, 1, 1, 2], []) == [1, 1, 1, 3]
    ensures var pd := PadDims(delta.dims, [1, 1, 1, 2], []);
            PadFits(delta, 0, 0, pd) && PadFits(delta, 0, 1, pd)
            && CopyOutDeltaAsWritten(delta, 1, pd).data == [1.0, 0.0, 0.0]
            && PaddedDelta(delta, 1, 2, pd).data == [0.0, 1.0, 0.0]
  {
    var pd := PadDims(delta.dims, [1, 1, 1, 2], []);
    assert pd == [1, 1, 1, 3];
    AsWrittenRow(delta, pd);
    IntendedRow(delta, pd);
  }

  /** The copy as written puts the one-cell delta at the left of the `1 x 3` buffer. */
  lemma AsWrittenRow(delta: Span<real>, pd: Dims)
    requires delta == Span([1.0], [1, 1, 1, 1]) && pd == [1, 1, 1, 3]
    ensures PadFits(delta, 0, 0, pd) && CopyOutDeltaAsWritten(delta, 1, pd).data == [1.0, 0.0, 0.0]
  {
    FlattenSize4(delta.dims);
    assert PadFits(delta, 0, 0, pd);
    var w := CopyOutDeltaAsWritten(delta, 1, pd);
    MisplacedRow(delta, pd, w, 0);
    assert w.data == [1.0, 0.0, 0.0];
  }

  /** The intended copy puts the one-cell delta in the middle of the `1 x 3` buffer. */
  lemma IntendedRow(delta: Span<real>, pd: Dims)
    requires delta == Span([1.0], [1, 1, 1, 1]) && pd == [1, 1, 1, 3]
    ensures PadFits(delta, 0, 1, pd) && PaddedDelta(delta, 1, 2, pd).data == [0.0, 1.0, 0.0]
  {
    FlattenSize4(delta.dims);
    assert PadFits(delta, 0, 1, pd);
    var p := PaddedDelta(delta, 1, 2, pd);
    MisplacedRow(delta, pd, p, 1);
    assert p.data == [0.0, 1.0, 0.0];
  }

  /** The three cells of a `1 x 1 x 1 x 3` copy of the one-cell delta `[1]` placed at column `dy`. */
  lemma MisplacedRow(delta: Span<real>, pd: Dims, r: Span<real>, dy: nat)
    requires delta == Span([1.0], [1, 1, 1, 1]) && pd == [1, 1, 1, 3] && dy <= 2
    requires PadFits(delta, 0, dy, pd)
    requires Valid(r) && r.dims == pd
    requires forall n: nat, f: nat, x: nat, y: nat :: InBounds4(pd, n, f, x, y) ==>
               At4(r, n, f, x, y) == Shifted(delta, 0, dy, pd, n, f, x, y)
    ensures |r.data| == 3
    ensures forall y :: 0 <= y < 3 ==> r.data[y] == if y == dy then 1.0 else 0.0
  {
    FlattenSize4(pd);
    forall y | 0 <= y < 3
      ensures r.data[y] == if y == dy then 1.0 else 0.0
    {
      assert InBounds4(pd, 0, 0, 0, y);
      assert Offset4(pd, 0, 0, 0, y) == y;
      assert At4(r, 0, 0, 0, y) == Shifted(delta, 0, dy, pd, 0, 0, 0, y);
    }
  }

  /** For a square kernel the copy as written is the intended one. */
  lemma CopyOutDeltaSquare(delta: Span<real>, k: nat, pd: Dims)
    requires 1 <= k && PadFits(delta, k - 1, k - 1, pd)
    ensures CopyOutDeltaAsWritten(delta, k, pd) == PaddedDelta(delta, k, k, pd)
  {
  }

  // ---------------------------------------------------------------------------
  // Backward

  /** The shapes `backwardConv` reads: padded delta cell `(n, f, x + i, y + j)` and turned filter cell `(f, c, i, j)`. */
  ghost predicate BackFits(pad: Span<real>, rot: Span<real>, n: nat, c: nat, x: nat, y: nat)
  {
    Valid(pad) && |pad.dims| == 4 && Valid(rot) && |rot.dims| == 4
    && n < pad.dims[0] && rot.dims[0] <= pad.dims[1] && c < rot.dims[1]
    && x + rot.dims[2] <= pad.dims[2] + 1 && y + rot.dims[3] <= pad.dims[3] + 1
    && (rot.dims[2] > 0 ==> x + rot.dims[2] <= pad.dims[2])
    && (rot.dims[3] > 0 ==> y + rot.dims[3] <= pad.dims[3])
  }

  /** Cell `(f, i, j)` of `backwardConv`'s loop: padded delta times turned weight. */
  function BackwardTerm(pad: Span<real>, rot: Span<real>, n: nat, c: nat, x: nat, y: nat, f: nat, i: nat, j: nat): real
    requires BackFits(pad, rot, n, c, x, y) && InBounds3(Rot180RowDims(rot.dims), f, i, j)
  {
    At4(pad, n, f, x + i, y + j) * At4(rot, f, c, i, j)
  }

  /** The products `backwardConv` accumulates, in its loop order `(f, x, y)`. */
  function BackwardTerms(pad: Span<real>, rot: Span<real>, n: nat, c: nat, x: nat, y: nat): (t: seq<real>)
    requires BackFits(pad, rot, n, c, x, y)
    ensures |t| == FlattenSize(Rot180RowDims(rot.dims))
    ensures forall f: nat, i: nat, j: nat :: InBounds3(Rot180RowDims(rot.dims), f, i, j) ==>
              Offset3(Rot180RowDims(rot.dims), f, i, j) < |t|
              && t[Offset3(Rot180RowDims(rot.dims), f, i, j)] == BackwardTerm(pad, rot, n, c, x, y, f, i, j)
  {
    var rd := Rot180RowDims(rot.dims);
    Tab3(rd, (f: nat, i: nat, j: nat) requires InBounds3(rd, f, i, j) => BackwardTerm(pad, rot, n, c, x, y, f, i, j))
  }

  /** `backwardConv`: the turned filters laid over the padded delta at `(x, y)`, summed in loop order. */
  function BackwardConv(pad: Span<real>, rot: Span<real>, n: nat, c: nat, x: nat, y: nat): real
    requires BackFits(pad, rot, n, c, x, y)
  {
    Sum(BackwardTerms(pad, rot, n, c, x, y))
  }

  /**
   * What `backpropagate` needs: rank-4 input dims whose channel count is the
   * filters' (the turned filters are read at every input channel), kernels of
   * at least one cell that fit the input, a delta of the output's shape, and
   * a padding-dims cache that is empty or was computed for this layer.
   */
  ghost predicate BackShapes(filt: Span<real>, inDims: Dims, delta: Span<real>, cached: Dims)
  {
    Valid(filt) && |filt.dims| == 4 && |inDims| == 4
    && filt.dims[1] == inDims[1]
    && 1 <= filt.dims[2] <= inDims[2] + 1 && 1 <= filt.dims[3] <= inDims[3] + 1
    && Valid(delta)
    && delta.dims == [inDims[0], filt.dims[0], Positions(inDims[2], filt.dims[2]), Positions(inDims[3], filt.dims[3])]
    && (|cached| == 0 || (|cached| == 4 && cached[1..] == PadDims(delta.dims, filt.dims, [])[1..]))
  }

  /** The padding buffer `backpropagate` fills, with the corrected copy. */
  function Padded(filt: Span<real>, inDims: Dims, delta: Span<real>, cached: Dims): (pad: Span<real>)
    requires BackShapes(filt, inDims, delta, cached)
    ensures Valid(pad) && pad.dims == PadDims(delta.dims, filt.dims, [])
    ensures pad == PaddedDelta(delta, filt.dims[2], filt.dims[3], PadDims(delta.dims, filt.dims, cached))
  {
    var pd := PadDims(delta.dims, filt.dims, cached);
    assert pd == PadDims(delta.dims, filt.dims, []);
    PaddedDelta(delta, filt.dims[2], filt.dims[3], pd)
  }

  /** Input delta cell `(n, c, x, y)`: `backwardConv` of the padded delta and the turned filters. */
  function BackwardCell(filt: Span<real>, inDims: Dims, delta: Span<real>, cached: Dims, n: nat, c: nat, x: nat, y: nat): real
    requires BackShapes(filt, inDims, delta, cached) && InBounds4(inDims, n, c, x, y)
  {
    BackFitsAt(filt, inDims, delta, cached, n, c, x, y);
    BackwardConv(Padded(filt, inDims, delta, cached), Rot180Filters(filt), n, c, x, y)
  }

  /**
   * `ConvLayer::backpropagate` with the corrected padding copy: input delta
   * cell `(n, c, x, y)` is `backwardConv` of the padded delta and the filters
   * turned by 180 degrees.
   */
  function Backpropagate(layer: ConvLayer, inDims: Dims, delta: Span<real>, cached: Dims): (inDelta: Span<real>)
    requires BackShapes(layer.filters, inDims, delta, cached)
    ensures Valid(inDelta) && inDelta.dims == inDims
    ensures forall n: nat, c: nat, x: nat, y: nat :: InBounds4(inDims, n, c, x, y) ==>
              At4(inDelta, n, c, x, y) == BackwardCell(layer.filters, inDims, delta, cached, n, c, x, y)
  {
    Span(Tab4(inDims, (n: nat, c: nat, x: nat, y: nat) requires InBounds4(inDims, n, c, x, y) =>
      BackwardCell(layer.filters, inDims, delta, cached, n, c, x, y)), inDims)
  }

  /** Every input cell's window lies inside the padded delta. */
  lemma BackFitsAt(filt: Span<real>, inDims: Dims, delta: Span<real>, cached: Dims, n: nat, c: nat, x: nat, y: nat)
    requires BackShapes(filt, inDims, delta, cached) && InBounds4(inDims, n, c, x, y)
    ensures BackFits(Padded(filt, inDims, delta, cached), Rot180Filters(filt), n, c, x, y)
  {
  }

  /**
   * Each term of `backwardConv` is a chain-rule term of the forward pass:
   * the term at turned position `(kH-1-i, kW-1-j)` of filter `f` is the
   * delta of the output cell `(x-i, y-j)`, whose window reads input cell
   * `(x, y)` through weight `(f, c, i, j)`, times that weight; it is zero
   * when no output cell reads `(x, y)` through that weight.
   */
  lemma BackwardTermIsChainRule(filt: Span<real>, inDims: Dims, delta: Span<real>, cached: Dims,
                                n: nat, c: nat, x: nat, y: nat, f: nat, i: nat, j: nat)
    requires BackShapes(filt, inDims, delta, cached) && InBounds4(inDims, n, c, x, y)
    requires InBounds4(filt.dims, f, c, i, j)
    ensures BackFits(Padded(filt, inDims, delta, cached), Rot180Filters(filt), n, c, x, y)
    ensures InBounds3(Rot180RowDims(filt.dims), f, filt.dims[2] - 1 - i, filt.dims[3] - 1 - j)
    ensures BackwardTerm(Padded(filt, inDims, delta, cached), Rot180Filters(filt), n, c, x, y,
                         f, filt.dims[2] - 1 - i, filt.dims[3] - 1 - j)
         == if i <= x < i + delta.dims[2] && j <= y < j + delta.dims[3]
            then At4(delta, n, f, x - i, y - j) * At4(filt, f, c, i, j)
            else 0.0
  {
    BackFitsAt(filt, inDims, delta, cached, n, c, x, y);
    TurnedWeight(filt, f, c, i, j);
    BackWindowFits(filt, inDims, delta, cached, n, c, x, y, f, i, j);
    PaddedWindow(delta, filt.dims[2], filt.dims[3], PadDims(delta.dims, filt.dims, cached), n, f, x, y, i, j);
    ChainTerm(Padded(filt, inDims, delta, cached), Rot180Filters(filt), filt, delta, n, c, x, y, f, i, j);
  }

  /** `BackwardTermIsChainRule` for any padded delta and turned filters that read as its premises say. */
  lemma ChainTerm(pad: Span<real>, rot: Span<real>, filt: Span<real>, delta: Span<real>,
                  n: nat, c: nat, x: nat, y: nat, f: nat, i: nat, j: nat)
    requires BackFits(pad, rot, n, c, x, y) && Valid(filt) && Valid(delta) && |delta.dims| == 4
    requires rot.dims == filt.dims && InBounds4(filt.dims, f, c, i, j)
    requires n < delta.dims[0] && f < delta.dims[1]
    requires At4(rot, f, c, filt.dims[2] - 1 - i, filt.dims[3] - 1 - j) == At4(filt, f, c, i, j)
    requires At4(pad, n, f, x + (filt.dims[2] - 1 - i), y + (filt.dims[3] - 1 - j))
          == if i <= x < i + delta.dims[2] && j <= y < j + delta.dims[3] then At4(delta, n, f, x - i, y - j) else 0.0
    ensures InBounds3(Rot180RowDims(rot.dims), f, filt.dims[2] - 1 - i, filt.dims[3] - 1 - j)
    ensures BackwardTerm(pad, rot, n, c, x, y, f, filt.dims[2] - 1 - i, filt.dims[3] - 1 - j)
         == if i <= x < i + delta.dims[2] && j <= y < j + delta.dims[3]
            then At4(delta, n, f, x - i, y - j) * At4(filt, f, c, i, j)
            else 0.0
  {
    if i <= x < i + delta.dims[2] && j <= y < j + delta.dims[3] {
      BackwardTermAt(pad, rot, n, c, x, y, f, filt.dims[2] - 1 - i, filt.dims[3] - 1 - j,
                     At4(delta, n, f, x - i, y - j), At4(filt, f, c, i, j));
    } else {
      BackwardTermAt(pad, rot, n, c, x, y, f, filt.dims[2] - 1 - i, filt.dims[3] - 1 - j, 0.0, At4(filt, f, c, i, j));
    }
  }

  /** A backward term whose padded-delta cell is `dv` and whose turned weight is `wv` is their product. */
  lemma BackwardTermAt(pad: Span<real>, rot: Span<real>, n: nat, c: nat, x: nat, y: nat, f: nat, i: nat, j: nat,
                       dv: real, wv: real)
    requires BackFits(pad, rot, n, c, x, y) && InBounds3(Rot180RowDims(rot.dims), f, i, j)
    requires At4(pad, n, f, x + i, y + j) == dv && At4(rot, f, c, i, j) == wv
    ensures BackwardTerm(pad, rot, n, c, x, y, f, i, j) == dv * wv
  {
    MulCongruent(BackwardTerm(pad, rot, n, c, x, y, f, i, j), At4(pad, n, f, x + i, y + j), At4(rot, f, c, i, j), dv, wv);
  }

  /** The turned filters hold weight `(f, c, i, j)` at `(f, c, kH-1-i, kW-1-j)`. */
  lemma TurnedWeight(filt: Span<real>, f: nat, c: nat, i: nat, j: nat)
    requires Valid(filt) && InBounds4(filt.dims, f, c, i, j)
    ensures InBounds4(filt.dims, f, c, filt.dims[2] - 1 - i, filt.dims[3] - 1 - j)
    ensures At4(Rot180Filters(filt), f, c, filt.dims[2] - 1 - i, filt.dims[3] - 1 - j) == At4(filt, f, c, i, j)
  {
  }

  /**
   * The padded delta read by an input cell `(x, y)` at turned position
   * `(kH-1-i, kW-1-j)` is delta cell `(x-i, y-j)`, or zero when that cell
   * lies outside the delta.
   */
  lemma PaddedWindow(delta: Span<real>, kH: nat, kW: nat, pd: Dims, n: nat, f: nat, x: nat, y: nat, i: nat, j: nat)
    requires 1 <= kH && 1 <= kW && PadFits(delta, kH - 1, kW - 1, pd) && i < kH && j < kW
    requires n < delta.dims[0] && f < delta.dims[1] && InBounds4(pd, n, f, x + (kH - 1 - i), y + (kW - 1 - j))
    ensures At4(PaddedDelta(delta, kH, kW, pd), n, f, x + (kH - 1 - i), y + (kW - 1 - j))
         == if i <= x < i + delta.dims[2] && j <= y < j + delta.dims[3] then At4(delta, n, f, x - i, y - j) else 0.0
  {
    var x', y' := x + (kH - 1 - i), y + (kW - 1 - j);
    assert At4(PaddedDelta(delta, kH, kW, pd), n, f, x', y') == Shifted(delta, kH - 1, kW - 1, pd, n, f, x', y');
    ShiftedBack(delta, kH - 1, kW - 1, pd, n, f, x, y, i, j, x', y');
  }

  /** The window `PaddedWindow` reads lies inside `backpropagate`'s padding buffer. */
  lemma BackWindowFits(filt: Span<real>, inDims: Dims, delta: Span<real>, cached: Dims,
                       n: nat, c: nat, x: nat, y: nat, f: nat, i: nat, j: nat)
    requires BackShapes(filt, inDims, delta, cached) && InBounds4(inDims, n, c, x, y)
    requires InBounds4(filt.dims, f, c, i, j)
    ensures PadFits(delta, filt.dims[2] - 1, filt.dims[3] - 1, PadDims(delta.dims, filt.dims, cached))
    ensures n < delta.dims[0] && f < delta.dims[1]
    ensures InBounds4(PadDims(delta.dims, filt.dims, cached), n, f, x + (filt.dims[2] - 1 - i), y + (filt.dims[3] - 1 - j))
  {
    BackPadDims(filt, inDims, delta, cached);
  }

  /** The padding buffer of `backpropagate`: the input's planes grown by the kernel less one, one plane per filter. */
  lemma BackPadDims(filt: Span<real>, inDims: Dims, delta: Span<real>, cached: Dims)
    requires BackShapes(filt, inDims, delta, cached)
    ensures PadDims(delta.dims, filt.dims, cached)
         == [inDims[0], filt.dims[0], inDims[2] + filt.dims[2] - 1, inDims[3] + filt.dims[3] - 1]
  {
    var pd := PadDims(delta.dims, filt.dims, cached);
    var grown := PadDims(delta.dims, filt.dims, []);
    assert grown == [inDims[0], filt.dims[0], inDims[2] + filt.dims[2] - 1, inDims[3] + filt.dims[3] - 1];
    assert pd[1..] == grown[1..];
    assert pd == [pd[0]] + pd[1..];
  }

  /** Reading the delta shifted by `(dx, dy)` at `(x + dx - i, y + dy - j)` reads delta cell `(x - i, y - j)`. */
  lemma ShiftedBack(delta: Span<real>, dx: nat, dy: nat, pd: Dims, n: nat, f: nat, x: nat, y: nat, i: nat, j: nat, x': nat, y': nat)
    requires PadFits(delta, dx, dy, pd) && i <= dx && j <= dy && x' == x + (dx - i) && y' == y + (dy - j)
    ensures Shifted(delta, dx, dy, pd, n, f, x', y')
         == if n < delta.dims[0] && f < delta.dims[1] && i <= x < i + delta.dims[2] && j <= y < j + delta.dims[3]
            then At4(delta, n, f, x - i, y - j) else 0.0
  {
  }

  // ---------------------------------------------------------------------------
  // Gradients

  /** The shapes `gradientConv` reads: input cell `(n, c, x + i, y + j)` and delta cell `(n, f, i, j)`. */
  ghost predicate GradFits(inp: Span<real>, delta: Span<real>, n: nat, f: nat, c: nat, x: nat, y: nat)
  {
    Valid(inp) && |inp.dims| == 4 && Valid(delta) && |delta.dims| == 4
    && n < inp.dims[0] && n < delta.dims[0] && f < delta.dims[1] && c < inp.dims[1]
    && x + delta.dims[2] <= inp.dims[2] + 1 && y + delta.dims[3] <= inp.dims[3] + 1
    && (delta.dims[2] > 0 ==> x + delta.dims[2] <= inp.dims[2])
    && (delta.dims[3] > 0 ==> y + delta.dims[3] <= inp.dims[3])
  }

  /** The delta's spatial dims `(OH, OW)`, over which `gradientConv` runs. */
  function DeltaPlane(delta: Span<real>): Dims
    requires |delta.dims| == 4
  {
    [delta.dims[2], delta.dims[3]]
  }

  /** Cell `(i, j)` of `gradientConv`'s loop: input under the delta times the delta. */
  function GradientTerm(inp: Span<real>, delta: Span<real>, n: nat, f: nat, c: nat, x: nat, y: nat, i: nat, j: nat): real
    requires GradFits(inp, delta, n, f, c, x, y) && InBounds2(DeltaPlane(delta), i, j)
  {
    At4(inp, n, c, x + i, y + j) * At4(delta, n, f, i, j)
  }

  /** The products `gradientConv` accumulates, in its loop order `(x, y)`. */
  function GradientTerms(inp: Span<real>, delta: Span<real>, n: nat, f: nat, c: nat, x: nat, y: nat): (t: seq<real>)
    requires GradFits(inp, delta, n, f, c, x, y)
    ensures |t| == FlattenSize(DeltaPlane(delta))
    ensures forall i: nat, j: nat :: InBounds2(DeltaPlane(delta), i, j) ==>
              Offset2(DeltaPlane(delta), i, j) < |t|
              && t[Offset2(DeltaPlane(delta), i, j)] == GradientTerm(inp, delta, n, f, c, x, y, i, j)
  {
    var pd := DeltaPlane(delta);
    Tab2(pd, (i: nat, j: nat) requires InBounds2(pd, i, j) => GradientTerm(inp, delta, n, f, c, x, y, i, j))
  }

  /** `gradientConv`: the delta plane of sample `n`, filter `f` laid over input channel `c` at `(x, y)`. */
  function GradientConv(inp: Span<real>, delta: Span<real>, n: nat, f: nat, c: nat, x: nat, y: nat): real
    requires GradFits(inp, delta, n, f, c, x, y)
  {
    Sum(GradientTerms(inp, delta, n, f, c, x, y))
  }

  /**
   * Each term of `gradientConv` is a chain-rule term of the forward pass:
   * output cell `(n, f, i, j)` reads weight `(f, c, x, y)` through the
   * forward term, so delta times that term is the gradient term times the weight.
   */
  lemma GradientTermIsChainRule(inp: Span<real>, filt: Span<real>, delta: Span<real>,
                                n: nat, f: nat, c: nat, x: nat, y: nat, i: nat, j: nat)
    requires ConvShapes(inp, filt) && Valid(delta) && delta.dims == OutDims(inp, filt)
    requires InBounds4(filt.dims, f, c, x, y) && InBounds2(DeltaPlane(delta), i, j) && n < inp.dims[0]
    ensures GradFits(inp, delta, n, f, c, x, y)
    ensures InBounds4(OutDims(inp, filt), n, f, i, j) && InBounds3(FilterRowDims(filt.dims), c, x, y)
    ensures GradientTerm(inp, delta, n, f, c, x, y, i, j) * At4(filt, f, c, x, y)
         == ForwardTerm(inp, n, f, i, j, filt, c, x, y) * At4(delta, n, f, i, j)
  {
    var a, d, w := At4(inp, n, c, x + i, y + j), At4(delta, n, f, i, j), At4(filt, f, c, x, y);
    assert GradientTerm(inp, delta, n, f, c, x, y, i, j) == a * d;
    assert ForwardTerm(inp, n, f, i, j, filt, c, x, y) == a * w;
    ProductSwap(a, d, w);
  }

  lemma ProductSwap(a: real, d: real, w: real)
    ensures (a * d) * w == (a * w) * d
  {
  }

  /** `gradientConv` of cell `(f, c, x, y)` for every sample, in sample order. */
  function SampleGradients(inp: Span<real>, filt: Span<real>, delta: Span<real>, f: nat, c: nat, x: nat, y: nat): (t: seq<real>)
    requires ConvShapes(inp, filt) && Valid(delta) && delta.dims == OutDims(inp, filt)
    requires InBounds4(filt.dims, f, c, x, y)
    ensures |t| == inp.dims[0]
    ensures forall n :: 0 <= n < inp.dims[0] ==> GradFits(inp, delta, n, f, c, x, y) && t[n] == GradientConv(inp, delta, n, f, c, x, y)
  {
    seq(inp.dims[0], n requires 0 <= n < inp.dims[0] => GradientConv(inp, delta, n, f, c, x, y))
  }

  /** The filter gradient of cell `(f, c, x, y)`: `gradientConv` summed over the samples in order. */
  function FilterGradient(inp: Span<real>, filt: Span<real>, delta: Span<real>, f: nat, c: nat, x: nat, y: nat): real
    requires ConvShapes(inp, filt) && Valid(delta) && delta.dims == OutDims(inp, filt)
    requires InBounds4(filt.dims, f, c, x, y)
  {
    Sum(SampleGradients(inp, filt, delta, f, c, x, y))
  }

  /**
   * `ConvLayer::collectGradients`: the gradient buffer is allocated on first
   * use and zeroed afterwards, then cell `(f, c, x, y)` accumulates
   * `gradientConv` over the samples.  Only buffer 0 of the list is touched.
   */
  function CollectGradients(inp: Span<real>, filt: Span<real>, delta: Span<real>, grads: seq<seq<real>>): (r: seq<seq<real>>)
    requires ConvShapes(inp, filt) && Valid(delta) && delta.dims == OutDims(inp, filt)
    requires |grads| == 0 || |grads[0]| == FlattenSize(filt.dims)
    ensures |r| == if |grads| == 0 then 1 else |grads|
    ensures forall k :: 1 <= k < |grads| ==> r[k] == grads[k]
    ensures Valid(Span(r[0], filt.dims))
    ensures forall f: nat, c: nat, x: nat, y: nat :: InBounds4(filt.dims, f, c, x, y) ==>
              At4(Span(r[0], filt.dims), f, c, x, y) == FilterGradient(inp, filt, delta, f, c, x, y)
  {
    var d := filt.dims;
    var g := Tab4(d, (f: nat, c: nat, x: nat, y: nat) requires InBounds4(d, f, c, x, y) =>
      FilterGradient(inp, filt, delta, f, c, x, y));
    if |grads| == 0 then [g] else grads[0 := g]
  }

  /** The bias delta of filter `f`: its delta cells summed in loop order `(n, i, j)`. */
  function BiasTerms(delta: Span<real>, f: nat): (t: seq<real>)
    requires Valid(delta) && |delta.dims| == 4 && f < delta.dims[1]
    ensures |t| == FlattenSize([delta.dims[0], delta.dims[2], delta.dims[3]])
  {
    var bd := [delta.dims[0], delta.dims[2], delta.dims[3]];
    Tab3(bd, (n: nat, i: nat, j: nat) requires InBounds3(bd, n, i, j) => At4(delta, n, f, i, j))
  }

  /** Term `(n, i, j)` of filter `f`'s bias delta is its delta cell `(n, f, i, j)`. */
  lemma BiasTermsAt(delta: Span<real>, f: nat, n: nat, i: nat, j: nat)
    requires Valid(delta) && |delta.dims| == 4 && f < delta.dims[1]
    requires InBounds3([delta.dims[0], delta.dims[2], delta.dims[3]], n, i, j)
    ensures Offset3([delta.dims[0], delta.dims[2], delta.dims[3]], n, i, j) < |BiasTerms(delta, f)|
    ensures BiasTerms(delta, f)[Offset3([delta.dims[0], delta.dims[2], delta.dims[3]], n, i, j)] == At4(delta, n, f, i, j)
  {
  }

  /** `biasDelta` of `applyGradients`: entry `f` sums filter `f`'s delta cells over every sample and position. */
  function BiasDelta(delta: Span<real>): (r: seq<real>)
    requires Valid(delta) && |delta.dims| == 4
    ensures |r| == delta.dims[1]
    ensures forall f :: 0 <= f < delta.dims[1] ==> r[f] == Sum(BiasTerms(delta, f))
  {
    seq(delta.dims[1], f requires 0 <= f < delta.dims[1] => Sum(BiasTerms(delta, f)))
  }

  /** The delta plane of filter `f` in every sample: row `f` of each sample's `deltas2Rows` matrix. */
  function SamplePlanes(delta: Span<real>, f: nat): (rows: seq<seq<real>>)
    requires Valid(delta) && |delta.dims| == 4 && f < delta.dims[1]
    ensures |rows| == delta.dims[0] && Uniform(rows, FlattenSize([delta.dims[2], delta.dims[3]]))
    ensures forall n :: 0 <= n < delta.dims[0] ==> rows[n] == DeltaRows(delta, n)[f]
  {
    seq(delta.dims[0], n requires 0 <= n < delta.dims[0] => DeltaRows(delta, n)[f])
  }

  /**
   * The bias delta sample by sample: entry `f` is the sum, over the samples,
   * of the sum of filter `f`'s delta plane, the row the im2row backward pass
   * works with.
   */
  lemma BiasDeltaBySample(delta: Span<real>, f: nat)
    requires Valid(delta) && |delta.dims| == 4 && f < delta.dims[1]
    ensures BiasDelta(delta)[f] == Sum(RowSums(SamplePlanes(delta, f)))
  {
    var rows := SamplePlanes(delta, f);
    BiasTermsFlatten(delta, f, rows);
    SumFlatten(rows);
  }

  /** The loop order `(n, i, j)` of the bias delta reads the sample planes one after another. */
  lemma BiasTermsFlatten(delta: Span<real>, f: nat, rows: seq<seq<real>>)
    requires Valid(delta) && |delta.dims| == 4 && f < delta.dims[1]
    requires rows == SamplePlanes(delta, f)
    ensures BiasTerms(delta, f) == Flatten(rows)
  {
    var t := BiasTerms(delta, f);
    var w := FlattenSize([delta.dims[2], delta.dims[3]]);
    FlattenLength(rows, w);
    FlattenSize3([delta.dims[0], delta.dims[2], delta.dims[3]]);
    FlattenSize2([delta.dims[2], delta.dims[3]]);
    assert |t| == |Flatten(rows)|;
    forall p | 0 <= p < |t|
      ensures t[p] == Flatten(rows)[p]
    {
      BiasTermAt(delta, f, rows, p);
    }
  }

  /** Term `p` of the bias delta is the matching cell of the flattened sample planes. */
  lemma BiasTermAt(delta: Span<real>, f: nat, rows: seq<seq<real>>, p: nat)
    requires Valid(delta) && |delta.dims| == 4 && f < delta.dims[1]
    requires rows == SamplePlanes(delta, f) && p < |BiasTerms(delta, f)|
    ensures p < |Flatten(rows)| && BiasTerms(delta, f)[p] == Flatten(rows)[p]
  {
    var bd := [delta.dims[0], delta.dims[2], delta.dims[3]];
    var n, i, j := Offset3Onto(bd, p);
    PlaneOffset(bd, n, i, j);
    BiasTermsAt(delta, f, n, i, j);
    var w, q := FlattenSize(bd[1..]), Offset2(bd[1..], i, j);
    FlattenAt(rows, w, n, q);
    assert rows[n][q] == At4(delta, n, f, i, j);
  }

  /**
   * `ConvLayer::applyGradients`: the filters take an optimiser step with
   * gradient buffer 0, and the biases one with the bias delta.  The biases are
   * updated whether or not the debug switch is set.
   */
  function ApplyGradients(layer: ConvLayer, grads: seq<seq<real>>, delta: Span<real>, opt: Optim.Sgd,
                          trainingCount: nat, miniBatchCount: nat, debug: bool): (r: ConvLayer)
    requires 1 <= |grads| && |layer.filters.data| <= |grads[0]|
    requires Valid(delta) && |delta.dims| == 4 && delta.dims[1] == |layer.biases|
    requires trainingCount > 0 && miniBatchCount > 0
    ensures r.filters.dims == layer.filters.dims && |r.filters.data| == |layer.filters.data|
    ensures |r.biases| == |layer.biases|
  {
    var filters := Optim.Update(opt, layer.filters.data, grads[0], trainingCount, miniBatchCount, debug);
    var bd := BiasDelta(delta);
    var biases := Optim.UpdateBiases(opt, layer.biases, bd, miniBatchCount);
    ConvLayer(Span(filters, layer.filters.dims), biases)
  }

  /** Every filter weight takes the optimiser step with its entry of gradient buffer 0: decayed and averaged, or plain in debug mode. */
  lemma ApplyGradientsFilters(layer: ConvLayer, grads: seq<seq<real>>, delta: Span<real>, opt: Optim.Sgd,
                              trainingCount: nat, miniBatchCount: nat, debug: bool)
    requires 1 <= |grads| && |layer.filters.data| <= |grads[0]|
    requires Valid(delta) && |delta.dims| == 4 && delta.dims[1] == |layer.biases|
    requires trainingCount > 0 && miniBatchCount > 0
    ensures var r := ApplyGradients(layer, grads, delta, opt, trainingCount, miniBatchCount, debug);
            forall i :: 0 <= i < |layer.filters.data| ==>
              r.filters.data[i] == if debug then layer.filters.data[i] - opt.lr * grads[0][i]
                                   else Optim.Decay(opt, trainingCount) * layer.filters.data[i]
                                        - Optim.Rate(opt, miniBatchCount) * grads[0][i]
  {
    var r := ApplyGradients(layer, grads, delta, opt, trainingCount, miniBatchCount, debug);
    var w := Optim.Update(opt, layer.filters.data, grads[0], trainingCount, miniBatchCount, debug);
    assert r.filters.data == w;
  }

  /** Every bias takes the averaged step with its entry of the bias delta, in debug mode too. */
  lemma ApplyGradientsBiases(layer: ConvLayer, grads: seq<seq<real>>, delta: Span<real>, opt: Optim.Sgd,
                             trainingCount: nat, miniBatchCount: nat, debug: bool)
    requires 1 <= |grads| && |layer.filters.data| <= |grads[0]|
    requires Valid(delta) && |delta.dims| == 4 && delta.dims[1] == |layer.biases|
    requires trainingCount > 0 && miniBatchCount > 0
    ensures var r := ApplyGradients(layer, grads, delta, opt, trainingCount, miniBatchCount, debug);
            forall f :: 0 <= f < |layer.biases| ==>
              r.biases[f] == layer.biases[f] - Optim.Rate(opt, miniBatchCount) * BiasDelta(delta)[f]
  {
    var r := ApplyGradients(layer, grads, delta, opt, trainingCount, miniBatchCount, debug);
    var bd := BiasDelta(delta);
    assert r.biases == Optim.UpdateBiases(opt, layer.biases, bd, miniBatchCount);
  }
}
