/**
 * The fully-connected layer of gxnet/layer.cpp (`FullConnLayer`): forward,
 * backpropagation, gradient collection and the parameter update.
 *
 * The input is a flat buffer read as consecutive samples of `inSize`
 * values; the output and its delta are `(N, neurons)` matrices.  The
 * engine-wide debug switch is a parameter.
 */
module FullConn {
  import opened Sums
  import opened Tensor
  import opened Kernels
  import Optim

  /** One weight row of length `inSize` per neuron, and one bias per neuron. */
  datatype FullConnLayer = FullConnLayer(weights: seq<seq<real>>, biases: seq<real>)

  /**
   * The shape the constructor gives a layer: at least one neuron (the code
   * reads `mWeights[0]`), a non-empty input (it divides by the input size),
   * equal weight rows, and a bias per neuron.
   */
  ghost predicate WellFormed(layer: FullConnLayer)
  {
    |layer.weights| > 0 && |layer.weights[0]| > 0
    && Uniform(layer.weights, |layer.weights[0]|)
    && |layer.biases| == |layer.weights|
  }

  function InSize(layer: FullConnLayer): nat
    requires |layer.weights| > 0
  {
    |layer.weights[0]|
  }

  function Neurons(layer: FullConnLayer): nat
  {
    |layer.weights|
  }

  /** `total / width`: the whole samples of `width` values a buffer of `total` values holds. */
  function Samples(total: nat, width: nat): nat
    requires width > 0
  {
    total / width
  }

  /** The whole samples fit the buffer, and one more would not. */
  lemma SamplesBound(total: nat, width: nat)
    requires width > 0
    ensures Samples(total, width) * width <= total < Samples(total, width) * width + width
  {
  }

  /** Sample `n` of a buffer of consecutive samples of `width` values. */
  function Chunk(s: seq<real>, width: nat, n: nat): (c: seq<real>)
    requires n * width + width <= |s|
    ensures |c| == width
    ensures forall k :: 0 <= k < width ==> c[k] == s[n * width + k]
  {
    s[n * width .. n * width + width]
  }

  /** Every whole sample lies inside the buffer. */
  lemma ChunkFits(total: nat, width: nat, n: nat)
    requires width > 0 && n < Samples(total, width)
    ensures n * width + width <= total
  {
    SamplesBound(total, width);
    MulMono(n + 1, Samples(total, width), width);
  }

  // ---------------------------------------------------------------------------
  // Forward

  /** The dims `calcOutput` gives the output: `(inputSize / inSize, neurons)`. */
  function OutDims(layer: FullConnLayer, inp: Span<real>): (d: Dims)
    requires WellFormed(layer)
    ensures |d| == 2 && d[1] == Neurons(layer)
  {
    [Samples(FlattenSize(inp.dims), InSize(layer)), Neurons(layer)]
  }

  /** Neuron `i` applied to sample `n`, bias left out in debug mode. */
  function Neuron(layer: FullConnLayer, inp: Span<real>, debug: bool, n: nat, i: nat): real
    requires WellFormed(layer) && Valid(inp) && InBounds2(OutDims(layer, inp), n, i)
  {
    ChunkFits(|inp.data|, InSize(layer), n);
    Dot(layer.weights[i], Chunk(inp.data, InSize(layer), n)) + (if debug then 0.0 else layer.biases[i])
  }

  /**
   * `FullConnLayer::calcOutput`: output `(n, i)` is the inner product of
   * weight row `i` with sample `n`, plus bias `i` outside debug mode.
   */
  function CalcOutput(layer: FullConnLayer, inp: Span<real>, debug: bool): (out: Span<real>)
    requires WellFormed(layer) && Valid(inp)
    ensures Valid(out) && out.dims == OutDims(layer, inp)
    ensures |out.data| == Samples(|inp.data|, InSize(layer)) * Neurons(layer)
    ensures forall n: nat, i: nat :: InBounds2(out.dims, n, i) ==>
              At2(out, n, i) == Neuron(layer, inp, debug, n, i)
  {
    var d := OutDims(layer, inp);
    FlattenSize2(d);
    Span(Tab2(d, (n: nat, i: nat) requires InBounds2(d, n, i) => Neuron(layer, inp, debug, n, i)), d)
  }

  /** The weights as an `neurons x inSize` matrix. */
  function WeightMatrix(layer: FullConnLayer): (w: Span<real>)
    requires WellFormed(layer)
    ensures Matrix(w) && w.dims == [Neurons(layer), InSize(layer)]
    ensures forall i :: 0 <= i < Neurons(layer) ==> Row(w, i) == layer.weights[i]
  {
    var d := [Neurons(layer), InSize(layer)];
    var w := Span(Flatten(layer.weights), d);
    Build2Length(layer.weights, d);
    forall i | 0 <= i < Neurons(layer)
      ensures Row(w, i) == layer.weights[i]
    {
      forall k | 0 <= k < InSize(layer)
        ensures Row(w, i)[k] == layer.weights[i][k]
      {
        Build2At(layer.weights, d, i, k);
      }
    }
    w
  }

  /** The whole samples of a flat buffer as an `N x width` matrix; a partial trailing sample is dropped. */
  function SampleMatrix(s: seq<real>, width: nat): (m: Span<real>)
    requires width > 0
    ensures Matrix(m) && m.dims == [Samples(|s|, width), width]
    ensures forall n :: 0 <= n < Samples(|s|, width) ==>
              n * width + width <= |s| && Row(m, n) == Chunk(s, width, n)
  {
    var N := Samples(|s|, width);
    SamplesBound(|s|, width);
    var m := Span(s[..N * width], [N, width]);
    FlattenSize2(m.dims);
    forall n | 0 <= n < N
      ensures n * width + width <= |s| && Row(m, n) == Chunk(s, width, n)
    {
      SampleRow(s, width, m, n);
    }
    m
  }

  /** Row `n` of the whole-sample prefix, read as an `N x width` matrix, is sample `n`. */
  lemma SampleRow(s: seq<real>, width: nat, m: Span<real>, n: nat)
    requires width > 0 && n < Samples(|s|, width)
    requires m == Span(s[..Samples(|s|, width) * width], [Samples(|s|, width), width]) && Matrix(m)
    ensures n * width + width <= |s| && Row(m, n) == Chunk(s, width, n)
  {
    ChunkFits(|s|, width, n);
    MulMono(n + 1, Samples(|s|, width), width);
    SamplesBound(|s|, width);
    assert Row(m, n) == s[..Samples(|s|, width) * width][n * width .. n * width + width];
  }

  /**
   * Outside debug mode the forward pass is the biased row product of the
   * samples and the weight rows, with the biases indexed by column; in debug
   * mode it is the unbiased row product.
   */
  lemma CalcOutputIsRowsProduct(layer: FullConnLayer, inp: Span<real>, debug: bool)
    requires WellFormed(layer) && Valid(inp)
    ensures RowsCompatible(SampleMatrix(inp.data, InSize(layer)), WeightMatrix(layer))
    ensures !debug ==> (CalcOutput(layer, inp, debug).data
              == RowsProductBiased(SampleMatrix(inp.data, InSize(layer)), WeightMatrix(layer), layer.biases, false))
    ensures debug ==> (CalcOutput(layer, inp, debug).data
              == RowsProduct(SampleMatrix(inp.data, InSize(layer)), WeightMatrix(layer)))
  {
    var x, w := SampleMatrix(inp.data, InSize(layer)), WeightMatrix(layer);
    var out := CalcOutput(layer, inp, debug);
    var other := if debug then RowsProduct(x, w) else RowsProductBiased(x, w, layer.biases, false);
    forall n, i | 0 <= n < x.dims[0] && 0 <= i < w.dims[0]
      ensures At2(out, n, i) == At2(Span(other, out.dims), n, i)
    {
      DotCommutes(Row(x, n), Row(w, i));
    }
    Ext2(out, Span(other, out.dims));
  }

  // ---------------------------------------------------------------------------
  // Backpropagation

  /** Column `i` of the weights: the `temp` vector the backward loop gathers. */
  function WeightColumn(layer: FullConnLayer, i: nat): (col: seq<real>)
    requires WellFormed(layer) && i < InSize(layer)
    ensures |col| == Neurons(layer)
    ensures forall j :: 0 <= j < Neurons(layer) ==> col[j] == layer.weights[j][i]
  {
    seq(Neurons(layer), j requires 0 <= j < Neurons(layer) => layer.weights[j][i])
  }

  /** The dims of the delta handed to the previous layer: `(N, inSize)`, `N` taken from the output. */
  function InDeltaDims(layer: FullConnLayer, outDims: Dims): (d: Dims)
    requires WellFormed(layer)
    ensures |d| == 2 && d[1] == InSize(layer)
  {
    [Samples(FlattenSize(outDims), Neurons(layer)), InSize(layer)]
  }

  function InDeltaCell(layer: FullConnLayer, outDims: Dims, delta: seq<real>, n: nat, i: nat): real
    requires WellFormed(layer) && |delta| == FlattenSize(outDims)
    requires InBounds2(InDeltaDims(layer, outDims), n, i)
  {
    ChunkFits(|delta|, Neurons(layer), n);
    Dot(Chunk(delta, Neurons(layer), n), WeightColumn(layer, i))
  }

  /**
   * `FullConnLayer::backpropagate`: the delta of the previous layer at
   * `(n, i)` is the inner product of sample `n`'s delta with weight column `i`.
   * The delta has the output's size, as `forward` leaves it.
   */
  function Backpropagate(layer: FullConnLayer, outDims: Dims, delta: seq<real>): (inDelta: Span<real>)
    requires WellFormed(layer) && |delta| == FlattenSize(outDims)
    ensures Valid(inDelta) && inDelta.dims == InDeltaDims(layer, outDims)
    ensures forall n: nat, i: nat :: InBounds2(inDelta.dims, n, i) ==>
              At2(inDelta, n, i) == InDeltaCell(layer, outDims, delta, n, i)
  {
    var d := InDeltaDims(layer, outDims);
    Span(Tab2(d, (n: nat, i: nat) requires InBounds2(d, n, i) => InDeltaCell(layer, outDims, delta, n, i)), d)
  }

  /**
   * The backward delta is the matrix product `delta . W` of the delta
   * samples and the weights, as `gx_matmul` computes it, which is the row
   * product of the delta and the transposed weights.
   */
  lemma BackpropagateIsMatMul(layer: FullConnLayer, outDims: Dims, delta: seq<real>)
    requires WellFormed(layer) && |delta| == FlattenSize(outDims)
    ensures forall n, i :: 0 <= n < SampleMatrix(delta, Neurons(layer)).dims[0] && 0 <= i < InSize(layer) ==>
              At2(Backpropagate(layer, outDims, delta), n, i)
              == Dot(Row(SampleMatrix(delta, Neurons(layer)), n), Col(WeightMatrix(layer), i, Neurons(layer)))
    ensures Backpropagate(layer, outDims, delta).data
            == RowsProduct(SampleMatrix(delta, Neurons(layer)), Transpose(WeightMatrix(layer)))
  {
    var dm, w := SampleMatrix(delta, Neurons(layer)), WeightMatrix(layer);
    var b := Backpropagate(layer, outDims, delta);
    forall n, i | 0 <= n < dm.dims[0] && 0 <= i < InSize(layer)
      ensures At2(b, n, i) == Dot(Row(dm, n), Col(w, i, Neurons(layer)))
      ensures At2(b, n, i) == At2(Span(RowsProduct(dm, Transpose(w)), b.dims), n, i)
    {
      forall j | 0 <= j < Neurons(layer)
        ensures Col(w, i, Neurons(layer))[j] == WeightColumn(layer, i)[j]
      {
        assert Row(w, j)[i] == layer.weights[j][i];
      }
      assert Col(w, i, Neurons(layer)) == WeightColumn(layer, i);
      MatMulIsRowsProduct(dm, w, n, i);
    }
    Ext2(b, Span(RowsProduct(dm, Transpose(w)), b.dims));
  }

  // ---------------------------------------------------------------------------
  // Gradients

  /** The products `delta(n, i) * x_n[k]` the gradient loop adds, in sample order. */
  function GradientTerms(layer: FullConnLayer, inp: Span<real>, delta: seq<real>, i: nat, k: nat): (t: seq<real>)
    requires WellFormed(layer) && Valid(inp)
    requires Samples(|inp.data|, InSize(layer)) * Neurons(layer) <= |delta|
    requires i < Neurons(layer) && k < InSize(layer)
    ensures |t| == Samples(|inp.data|, InSize(layer))
  {
    var N := Samples(|inp.data|, InSize(layer));
    SamplesBound(|inp.data|, InSize(layer));
    Products(SampleColumn(delta, Neurons(layer), N, i), SampleColumn(inp.data, InSize(layer), N, k))
  }

  /** Entry `c` of each of the first `N` samples of `width` values. */
  function SampleColumn(s: seq<real>, width: nat, N: nat, c: nat): (col: seq<real>)
    requires c < width && N * width <= |s|
    ensures |col| == N
  {
    seq(N, n requires 0 <= n < N => MulMono(n + 1, N, width); s[n * width + c])
  }

  /** Entry `n` of a sample column is entry `c` of sample `n`. */
  lemma SampleColumnEntry(s: seq<real>, width: nat, N: nat, c: nat, n: nat)
    requires c < width && N * width <= |s| && n < N
    ensures n * width + c < |s|
    ensures SampleColumn(s, width, N, c)[n] == s[n * width + c]
  {
    MulMono(n + 1, N, width);
  }

  /** The gradient shape: one row of `inSize` per neuron. */
  ghost predicate GradShape(layer: FullConnLayer, grads: seq<seq<real>>)
    requires WellFormed(layer)
  {
    Shape2(grads, [Neurons(layer), InSize(layer)])
  }

  /**
   * `FullConnLayer::collectGradients`.  The gradient rows are allocated
   * (zero) on first use.  Then row `i` is overwritten with sample 0's
   * `delta(0, i) * x_0` and the later samples' products are added to it, so
   * a call with at least one sample recomputes the rows from scratch; with no
   * whole sample the rows are left as they were.
   */
  function CollectGradients(layer: FullConnLayer, inp: Span<real>, delta: seq<real>, grads: seq<seq<real>>): (r: seq<seq<real>>)
    requires WellFormed(layer) && Valid(inp)
    requires Samples(|inp.data|, InSize(layer)) * Neurons(layer) <= |delta|
    requires |grads| == 0 || GradShape(layer, grads)
    ensures GradShape(layer, r)
    ensures Samples(|inp.data|, InSize(layer)) > 0 ==>
              forall i, k :: 0 <= i < Neurons(layer) && 0 <= k < InSize(layer) ==>
                r[i][k] == Sum(GradientTerms(layer, inp, delta, i, k))
    ensures Samples(|inp.data|, InSize(layer)) == 0 && |grads| > 0 ==> r == grads
    ensures Samples(|inp.data|, InSize(layer)) == 0 && |grads| == 0 ==>
              forall i, k :: 0 <= i < Neurons(layer) && 0 <= k < InSize(layer) ==> r[i][k] == 0.0
  {
    var start := if |grads| == 0 then seq(Neurons(layer), _ => seq(InSize(layer), _ => 0.0)) else grads;
    if Samples(|inp.data|, InSize(layer)) == 0 then start
    else
      seq(Neurons(layer), i requires 0 <= i < Neurons(layer) =>
        seq(InSize(layer), k requires 0 <= k < InSize(layer) => Sum(GradientTerms(layer, inp, delta, i, k))))
  }

  /** A call with at least one sample does not depend on the gradients it is handed: nothing accumulates across calls. */
  lemma CollectGradientsFromScratch(layer: FullConnLayer, inp: Span<real>, delta: seq<real>, g1: seq<seq<real>>, g2: seq<seq<real>>)
    requires WellFormed(layer) && Valid(inp)
    requires Samples(|inp.data|, InSize(layer)) * Neurons(layer) <= |delta|
    requires |g1| == 0 || GradShape(layer, g1)
    requires |g2| == 0 || GradShape(layer, g2)
    requires Samples(|inp.data|, InSize(layer)) > 0
    ensures CollectGradients(layer, inp, delta, g1) == CollectGradients(layer, inp, delta, g2)
  {
    var r1, r2 := CollectGradients(layer, inp, delta, g1), CollectGradients(layer, inp, delta, g2);
    assert forall i :: 0 <= i < |r1| ==> r1[i] == r2[i];
  }

  /** A delta buffer of `N` samples of `neurons` values holds `N` whole samples. */
  lemma DeltaSamples(layer: FullConnLayer, inp: Span<real>, delta: seq<real>)
    requires WellFormed(layer) && Valid(inp)
    requires |delta| == Samples(|inp.data|, InSize(layer)) * Neurons(layer)
    ensures Samples(|delta|, Neurons(layer)) == Samples(|inp.data|, InSize(layer))
  {
    var N, M, w := Samples(|inp.data|, InSize(layer)), Samples(|delta|, Neurons(layer)), Neurons(layer);
    SamplesBound(|delta|, w);
    if M < N { MulMono(M + 1, N, w); }
    if N < M { MulMono(N + 1, M, w); }
  }

  /**
   * The gradient is the matrix product `delta^T . X` of the transposed delta
   * samples and the input samples: cell `(i, k)` is the dot product of delta
   * column `i` with input column `k`.
   */
  lemma GradientIsDeltaTransposeTimesInput(layer: FullConnLayer, inp: Span<real>, delta: seq<real>, grads: seq<seq<real>>, i: nat, k: nat)
    requires WellFormed(layer) && Valid(inp)
    requires |delta| == Samples(|inp.data|, InSize(layer)) * Neurons(layer)
    requires |grads| == 0 || GradShape(layer, grads)
    requires Samples(|inp.data|, InSize(layer)) > 0
    requires i < Neurons(layer) && k < InSize(layer)
    ensures Samples(|delta|, Neurons(layer)) == Samples(|inp.data|, InSize(layer))
    ensures CollectGradients(layer, inp, delta, grads)[i][k]
            == Dot(Col(SampleMatrix(delta, Neurons(layer)), i, Samples(|delta|, Neurons(layer))),
                   Col(SampleMatrix(inp.data, InSize(layer)), k, Samples(|inp.data|, InSize(layer))))
  {
    DeltaSamples(layer, inp, delta);
    GradientTermsAreColumnProducts(layer, inp, delta, i, k);
  }

  lemma GradientTermsAreColumnProducts(layer: FullConnLayer, inp: Span<real>, delta: seq<real>, i: nat, k: nat)
    requires WellFormed(layer) && Valid(inp)
    requires |delta| == Samples(|inp.data|, InSize(layer)) * Neurons(layer)
    requires Samples(|delta|, Neurons(layer)) == Samples(|inp.data|, InSize(layer))
    requires i < Neurons(layer) && k < InSize(layer)
    ensures GradientTerms(layer, inp, delta, i, k)
            == Products(Col(SampleMatrix(delta, Neurons(layer)), i, Samples(|inp.data|, InSize(layer))),
                        Col(SampleMatrix(inp.data, InSize(layer)), k, Samples(|inp.data|, InSize(layer))))
  {
    var N := Samples(|inp.data|, InSize(layer));
    SampleColumnIsCol(delta, Neurons(layer), N, i);
    SampleColumnIsCol(inp.data, InSize(layer), N, k);
  }

  /** Column `c` of the sample matrix is entry `c` of each whole sample. */
  lemma SampleColumnIsCol(s: seq<real>, width: nat, N: nat, c: nat)
    requires width > 0 && N == Samples(|s|, width) && c < width
    ensures N * width <= |s|
    ensures Col(SampleMatrix(s, width), c, N) == SampleColumn(s, width, N, c)
  {
    SamplesBound(|s|, width);
    var col, ref := Col(SampleMatrix(s, width), c, N), SampleColumn(s, width, N, c);
    forall n | 0 <= n < N
      ensures col[n] == ref[n]
    {
      SampleColumnAt(s, width, N, c, n);
      SampleColumnEntry(s, width, N, c, n);
    }
  }

  /** Column `c` of the sample matrix holds entry `c` of each sample. */
  lemma SampleColumnAt(s: seq<real>, width: nat, N: nat, c: nat, n: nat)
    requires width > 0 && N == Samples(|s|, width) && c < width && n < N
    ensures n * width + width <= |s|
    ensures Col(SampleMatrix(s, width), c, N)[n] == Chunk(s, width, n)[c]
  {
    ChunkFits(|s|, width, n);
    assert Row(SampleMatrix(s, width), n)[c] == Chunk(s, width, n)[c];
  }

  /** For a single sample the gradient is the outer product `delta x`, as `gx_kronecker_product` builds it. */
  lemma SingleSampleGradientIsOuterProduct(layer: FullConnLayer, inp: Span<real>, delta: seq<real>, grads: seq<seq<real>>)
    requires WellFormed(layer) && Valid(inp)
    requires |inp.data| == InSize(layer) && |delta| == Neurons(layer)
    requires |grads| == 0 || GradShape(layer, grads)
    ensures CollectGradients(layer, inp, delta, grads) == OuterRows(delta, Neurons(layer), inp.data, InSize(layer))
  {
    SamplesOfOne(|inp.data|, InSize(layer));
    SingleSampleCells(layer, inp, delta, grads);
    RowsExt(CollectGradients(layer, inp, delta, grads), OuterRows(delta, Neurons(layer), inp.data, InSize(layer)),
            Neurons(layer), InSize(layer));
  }

  /** Cell `(i, k)` of the single-sample gradient is cell `(i, k)` of the outer product. */
  lemma SingleSampleCells(layer: FullConnLayer, inp: Span<real>, delta: seq<real>, grads: seq<seq<real>>)
    requires WellFormed(layer) && Valid(inp)
    requires |inp.data| == InSize(layer) && |delta| == Neurons(layer)
    requires |grads| == 0 || GradShape(layer, grads)
    requires Samples(|inp.data|, InSize(layer)) == 1
    ensures forall i, k :: 0 <= i < Neurons(layer) && 0 <= k < InSize(layer) ==>
              CollectGradients(layer, inp, delta, grads)[i][k]
              == OuterRows(delta, Neurons(layer), inp.data, InSize(layer))[i][k]
  {
    var g, o := CollectGradients(layer, inp, delta, grads), OuterRows(delta, Neurons(layer), inp.data, InSize(layer));
    forall i, k | 0 <= i < Neurons(layer) && 0 <= k < InSize(layer)
      ensures g[i][k] == o[i][k]
    {
      SingleSampleTerm(layer, inp, delta, i, k);
    }
  }

  /** Two `rows x cols` matrices of rows that agree cell by cell are equal. */
  lemma RowsExt(a: seq<seq<real>>, b: seq<seq<real>>, rows: nat, cols: nat)
    requires |a| == rows && |b| == rows && Uniform(a, cols) && Uniform(b, cols)
    requires forall i, k :: 0 <= i < rows && 0 <= k < cols ==> a[i][k] == b[i][k]
    ensures a == b
  {
    assert forall i :: 0 <= i < rows ==> a[i] == b[i];
  }

  lemma SamplesOfOne(total: nat, width: nat)
    requires 0 < width == total
    ensures Samples(total, width) == 1
  {
  }

  lemma SingleSampleTerm(layer: FullConnLayer, inp: Span<real>, delta: seq<real>, i: nat, k: nat)
    requires WellFormed(layer) && Valid(inp)
    requires |inp.data| == InSize(layer) && |delta| == Neurons(layer)
    requires i < Neurons(layer) && k < InSize(layer)
    ensures Sum(GradientTerms(layer, inp, delta, i, k)) == delta[i] * inp.data[k]
  {
    SamplesOfOne(|inp.data|, InSize(layer));
    var t := GradientTerms(layer, inp, delta, i, k);
    var d, x := SampleColumn(delta, Neurons(layer), 1, i), SampleColumn(inp.data, InSize(layer), 1, k);
    SampleColumnEntry(delta, Neurons(layer), 1, i, 0);
    SampleColumnEntry(inp.data, InSize(layer), 1, k, 0);
    SumOfOne(t);
  }

  lemma SumOfOne(t: seq<real>)
    requires |t| == 1
    ensures Sum(t) == t[0]
  {
    assert t[..0] == [];
  }

  // ---------------------------------------------------------------------------
  // Parameter update

  /** One optimiser step per weight row, each with its own gradient row. */
  function UpdateRows(opt: Optim.Sgd, w: seq<seq<real>>, g: seq<seq<real>>, trainingCount: nat, miniBatchCount: nat, debug: bool)
    : (r: seq<seq<real>>)
    requires |w| <= |g| && forall n :: 0 <= n < |w| ==> |w[n]| <= |g[n]|
    requires !debug ==> trainingCount > 0 && miniBatchCount > 0
    ensures |r| == |w|
    ensures forall n :: 0 <= n < |w| ==> |r[n]| == |w[n]|
    ensures !debug ==> forall n, k :: 0 <= n < |w| && 0 <= k < |w[n]| ==>
              r[n][k] == Optim.Decay(opt, trainingCount) * w[n][k] - Optim.Rate(opt, miniBatchCount) * g[n][k]
    ensures debug ==> forall n, k :: 0 <= n < |w| && 0 <= k < |w[n]| ==>
              r[n][k] == w[n][k] - opt.lr * g[n][k]
  {
    seq(|w|, n requires 0 <= n < |w| => Optim.Update(opt, w[n], g[n], trainingCount, miniBatchCount, debug))
  }

  /** The stepped rows keep the width of the rows they came from. */
  lemma UpdateRowsUniform(opt: Optim.Sgd, w: seq<seq<real>>, g: seq<seq<real>>, trainingCount: nat, miniBatchCount: nat, debug: bool)
    requires |w| > 0 && Uniform(w, |w[0]|) && |w| <= |g| && forall n :: 0 <= n < |w| ==> |w[n]| <= |g[n]|
    requires !debug ==> trainingCount > 0 && miniBatchCount > 0
    ensures Uniform(UpdateRows(opt, w, g, trainingCount, miniBatchCount, debug), |w[0]|)
  {
  }

  /**
   * `FullConnLayer::applyGradients`: every weight row takes an optimiser step
   * with its gradient row; outside debug mode the biases take a step with the
   * accumulated delta, in debug mode they are left alone.
   */
  function ApplyGradients(layer: FullConnLayer, grads: seq<seq<real>>, delta: seq<real>, opt: Optim.Sgd,
                          trainingCount: nat, miniBatchCount: nat, debug: bool): (r: FullConnLayer)
    requires WellFormed(layer) && GradShape(layer, grads)
    requires !debug ==> trainingCount > 0 && miniBatchCount > 0 && |delta| == Neurons(layer)
    ensures WellFormed(r) && Neurons(r) == Neurons(layer) && InSize(r) == InSize(layer)
  {
    var weights := UpdateRows(opt, layer.weights, grads, trainingCount, miniBatchCount, debug);
    UpdateRowsUniform(opt, layer.weights, grads, trainingCount, miniBatchCount, debug);
    if debug then FullConnLayer(weights, layer.biases)
    else FullConnLayer(weights, Optim.UpdateBiases(opt, layer.biases, delta, miniBatchCount))
  }

  /** Every weight takes the optimiser step with its gradient: decayed and averaged, or the plain step in debug mode. */
  lemma ApplyGradientsWeights(layer: FullConnLayer, grads: seq<seq<real>>, delta: seq<real>, opt: Optim.Sgd,
                              trainingCount: nat, miniBatchCount: nat, debug: bool)
    requires WellFormed(layer) && GradShape(layer, grads)
    requires !debug ==> trainingCount > 0 && miniBatchCount > 0 && |delta| == Neurons(layer)
    ensures var r := ApplyGradients(layer, grads, delta, opt, trainingCount, miniBatchCount, debug);
            forall n, k :: 0 <= n < Neurons(layer) && 0 <= k < InSize(layer) ==>
              r.weights[n][k] == if debug then layer.weights[n][k] - opt.lr * grads[n][k]
                                 else Optim.Decay(opt, trainingCount) * layer.weights[n][k]
                                      - Optim.Rate(opt, miniBatchCount) * grads[n][k]
  {
    var r := ApplyGradients(layer, grads, delta, opt, trainingCount, miniBatchCount, debug);
    var w := UpdateRows(opt, layer.weights, grads, trainingCount, miniBatchCount, debug);
    assert r.weights == w;
    forall n, k | 0 <= n < Neurons(layer) && 0 <= k < InSize(layer)
      ensures w[n][k] == if debug then layer.weights[n][k] - opt.lr * grads[n][k]
                         else Optim.Decay(opt, trainingCount) * layer.weights[n][k]
                              - Optim.Rate(opt, miniBatchCount) * grads[n][k]
    {
      assert k < |layer.weights[n]|;
    }
  }

  /** Outside debug mode every bias takes the averaged step with its delta; in debug mode the biases are left alone. */
  lemma ApplyGradientsBiases(layer: FullConnLayer, grads: seq<seq<real>>, delta: seq<real>, opt: Optim.Sgd,
                             trainingCount: nat, miniBatchCount: nat, debug: bool)
    requires WellFormed(layer) && GradShape(layer, grads)
    requires !debug ==> trainingCount > 0 && miniBatchCount > 0 && |delta| == Neurons(layer)
    ensures var r := ApplyGradients(layer, grads, delta, opt, trainingCount, miniBatchCount, debug);
            (debug ==> r.biases == layer.biases)
            && (!debug ==> forall n :: 0 <= n < Neurons(layer) ==>
                  r.biases[n] == layer.biases[n] - Optim.Rate(opt, miniBatchCount) * delta[n])
  {
    var r := ApplyGradients(layer, grads, delta, opt, trainingCount, miniBatchCount, debug);
    if !debug {
      assert r.biases == Optim.UpdateBiases(opt, layer.biases, delta, miniBatchCount);
    }
  }
}
