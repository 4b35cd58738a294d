# gxnet core in Dafny

gxnet is a small C++ engine for training convolutional neural networks
(fully connected, convolution, pooling and dropout layers, trained by
mini-batch stochastic gradient descent). This project models the numeric
core of the engine as pure Dafny functions over exact reals and proves what
each step computes:

- the tensor layout (`MDSpan`: row-major offsets, flattened sizes, rank
  merges) and the vector kernels of `common.cpp` (the blocked SIMD inner
  product, scaling, the Kronecker/outer product, the row product with and
  without biases, the matrix product);
- the activation functions and their derivatives, and the SGD optimiser
  with weight decay;
- the layers: the shared forward/backward frame, the fully connected layer,
  the naive convolution layer, the im2row convolution layer (proved to
  compute exactly what the naive one computes, in all three passes), max and
  average pooling, dropout;
- the im2row rearrangements (`filters2Rows`, `deltas2Rows`,
  `rot180Filters2Rows`, `input2Rows`, `input2Rows4Gradients`,
  `rot180Filters`);
- the network loop: forward through the layers, the loss seed and the
  backward sweep, batch accumulation, the loss, and the epoch/mini-batch
  schedule of `trainInternal`;
- the utilities the training programs use: sum of squared errors, arg-max,
  the MNIST border expansion and centring, and the evaluation of a
  confusion matrix.

Numbers (`DataType`) are `real`, so there is no rounding: every sum is
modelled as a left fold in the loop order of the source, and statements about
a sum hold for the exact values. Random draws (the shuffle, the dropout
draws), the exponential-based activations and the cross-entropy logarithm are
inputs to the model. The per-layer steps the network loop dispatches to are
parameters of the network model, and each layer's own steps are modelled in
its own module.

The modules follow the source files: `Tensor` and `Sums` (common.h),
`Kernels` (common.cpp), `Activation`, `Optim`, `Layer`, `FullConn`, `Conv`,
`ConvEx`, `Im2Rows`, `Pool`, `Dropout` (layer.cpp, im2rows.cpp), `Network`
(network.cpp), `Utils` (utils.cpp, utils.h) and `Eval` (eval.cpp).

## Model

| member | source | states |
|---|---|---|
| Tensor.FoldMulIsProduct | gxnet/common.h:47-53 | the multiplicative fold seeded with `acc` is `acc` times the product of the dims |
| Tensor.FlattenSizeIsProduct | gxnet/common.h:47-53 | `gx_dims_flatten_size` is 0 for no axes and the product of all axes otherwise |
| Tensor.Offset2Injective | gxnet/common.h:114-117 | two in-bounds 2-d indices with the same row-major offset are the same index |
| Tensor.Offset3Injective | gxnet/common.h:119-122 | two in-bounds 3-d indices with the same row-major offset are the same index |
| Tensor.Offset4Injective | gxnet/common.h:124-128 | two in-bounds 4-d indices with the same row-major offset are the same index |
| Tensor.Offset2Onto | gxnet/common.h:161-164 | every position below the flattened size is the offset of some in-bounds 2-d index |
| Tensor.Offset3Onto | gxnet/common.h:166-169 | every position below the flattened size is the offset of some in-bounds 3-d index |
| Tensor.Offset4Onto | gxnet/common.h:171-175 | every position below the flattened size is the offset of some in-bounds 4-d index |
| Tensor.Merge23Offset | gxnet/layer.cpp:578-616 | viewing `[N, F, OH, OW]` as `[N, F, OH*OW]` keeps the size and maps `(n, f, i, j)` to the same buffer position as `(n, f, i*OW + j)` |
| Tensor.Merge123Offset | gxnet/layer.cpp:671-709 | viewing `[F, C, kH, kW]` as `[F, C*kH*kW]` keeps the size and maps each 4-d index to the same buffer position as its 2-d image |
| Tensor.MatrixAdd | gxnet/common.h:41-45 | `gx_matrix_add` keeps the row shape and adds the source to the destination cell by cell |
| Tensor.Resize | gxnet/layer.cpp:975-1008 | `resize(n, pad)` keeps the first `min(n, len)` entries and pads the rest with `pad` |
| Sums.SumAppend | gxnet/common.cpp:15-90 | the sum of a concatenation is the sum of the sums, the fact that lets a loop be split into blocks |
| Sums.DotCommutes | gxnet/common.cpp:15-90 | the inner product does not depend on the order of its operands |
| Sums.SumFlatten | gxnet/layer.cpp:354-383 | summing a row-major loop nest equals summing the row sums |
| Sums.DotFlatten | gxnet/layer.cpp:578-616 | the inner product of two row-major buffers is the sum of their row inner products |
| Kernels.LaneSumsTotal | gxnet/common.cpp:15-90 | reducing the SIMD lane accumulators gives the plain sum of the block they covered |
| Kernels.BlockLoop | gxnet/common.cpp:15-90 | one blocked loop of `gx_inner_product` keeps its running value equal to the exact dot product of the prefix it has consumed, and stops less than one block short of `count` |
| Kernels.InnerProduct | gxnet/common.cpp:15-90 | `gx_inner_product` (blocks of `8*lanes`, `2*lanes`, `lanes`, then single elements) is exactly the dot product of the first `count` elements |
| Kernels.VsProduct | gxnet/common.cpp:92-149 | `gx_vs_product` writes `k*a[i]` to the `count` destination cells from `at` and leaves every other cell alone |
| Kernels.VsProductInPlace | gxnet/common.cpp:92-149 | used in place it scales the first `count` elements and keeps the rest |
| Kernels.Kronecker | gxnet/common.cpp:151-168 | `gx_kronecker_product` leaves the outer product row-major in front of the untouched tail of the buffer |
| Kernels.KroneckerCell | gxnet/common.cpp:151-168 | cell `(i, j)` of the result is `a[i]*b[j]` |
| Kernels.KroneckerTail | gxnet/common.cpp:151-168 | nothing at or after `aCount*bCount` changes |
| Kernels.RowsProduct | gxnet/common.cpp:210-240 | `C(i, j)` is row `i` of A dotted with row `j` of B, shape `aRows x bRows` |
| Kernels.RowsProductBiased | gxnet/common.cpp:170-208 | with the corrected guard, `C(i, j)` is the row dot product plus the bias of row `i` (biases of A) or of column `j` (biases of B) |
| Kernels.RowsProductZeroBiases | gxnet/common.cpp:170-208 | with all-zero biases the biased product is the unbiased one |
| Kernels.RowsProductSwap | gxnet/common.cpp:210-240 | swapping the operands transposes the product |
| Kernels.BiasedGuardAdmitsOverrun | gxnet/common.cpp:177 | the written guard accepts a B whose rows are shorter than A's, and the loop then reads past the end of B |
| Kernels.MatMul | gxnet/common.cpp:242-266 | `gx_matmul` zero-fills the result and leaves `C(i, j) = sum over k of A(i, k)*B(k, j)` |
| Kernels.MatMulRow | gxnet/common.cpp:242-266 | the `k` and `j` loops for one row `i` leave every cell of the row at its dot product of row `i` of A and column `j` of B |
| Kernels.MatMulIsRowsProduct | gxnet/common.cpp:210-266 | the matrix product equals the row product of A and the transpose of B |
| Activation.LeakyActivate | gxnet/activation.cpp:46-54 | the in-place leaky ReLU rewrites each entry to `Leaky` of it: `0.01x` below 0, `1 + 0.01(x-1)` above 1, unchanged in `[0, 1]` |
| Activation.LeakyIncreasing | gxnet/activation.cpp:46-54 | the leaky ReLU is strictly increasing |
| Activation.LeakyKeepsPieces | gxnet/activation.cpp:46-54 | the output is negative exactly when the input is, and above 1 exactly when the input is |
| Activation.LeakyFactorFromOutput | gxnet/activation.cpp:72-76 | the derivative's test on the stored output gives the true slope at the input |
| Activation.Derivate | gxnet/activation.cpp:66-94 | the delta after each kind's derivative: sigmoid `y(1-y)d`, leaky `d` times 0.01 or 1, tanh `d(1-y^2)`, softmax the Jacobian column weighted by the delta; any other code leaves the delta |
| Activation.SoftmaxLoop | gxnet/activation.cpp:82-93 | after `n` iterations of the `j` loop, entries below `n` hold the Jacobian column dotted with the snapshot delta and later entries are untouched |
| Activation.SoftmaxDerivate | gxnet/activation.cpp:82-93 | every entry `j` is the delta dotted with Jacobian column `j`, built from the snapshot of the delta |
| Activation.JacobianColumnClosedForm | gxnet/activation.cpp:84-91 | Jacobian column `j` weighted by the delta is `y_j (d_j - y.d)` |
| Activation.SoftmaxClosedForm | gxnet/activation.cpp:82-93 | the softmax derivative's entry `j` is `y_j (d_j - y.d)` |
| Activation.SigmoidFactorBounds | gxnet/activation.cpp:68-70 | on the sigmoid range the factor `y(1-y)` lies in `(0, 1/4]` |
| Activation.TanhFactorBounds | gxnet/activation.cpp:78-80 | on the tanh range the factor `1-y^2` lies in `(0, 1]` |
| Optim.ScaleAll | gxnet/optim.cpp:56-61 | scaling a buffer in place multiplies every entry by `k` |
| Optim.Subtract | gxnet/optim.cpp:66-67 | the weights minus the first `len(w)` entries of the scaled gradients |
| Optim.Update | gxnet/optim.cpp:50-68 | debug mode takes `w - lr*g`; otherwise `w` decayed by `1 - lr*lambda/trainingCount` minus `lr/miniBatchCount` times `g` |
| Optim.UpdateWithoutDecay | gxnet/optim.cpp:57-61 | with `lambda = 0` the update is the averaged step `w - (lr/miniBatchCount)*g` |
| Optim.DebugIsSingleSampleStep | gxnet/optim.cpp:55-61 | with no weight decay, the debug update equals the non-debug update for a mini-batch of one |
| Optim.UpdateBiases | gxnet/optim.cpp:70-74 | each bias moves by `-(lr/miniBatchCount)` times its delta |
| Optim.BiasesAreUndecayedWeights | gxnet/optim.cpp:50-74 | biases are updated exactly like weights with no weight decay |
| Layer.Activate | gxnet/activation.cpp:40-64 | the leaky ReLU is computed, the three exponential kinds come from the supplied function, and an unknown code leaves the output |
| Layer.Forward | gxnet/layer.cpp:33-47 | the output is the layer's result, activated when the layer has an activation, and the delta takes its shape and is zero |
| Layer.BackwardPass | gxnet/layer.cpp:49-56 | the delta goes through the activation's derivative, and the previous layer's delta is produced exactly when one is asked for, from the updated delta |
| Layer.LeakyChainRule | gxnet/layer.cpp:33-56 | for a leaky ReLU layer the backward delta is the incoming delta times the slope at the layer's own result |
| FullConn.CalcOutput | gxnet/layer.cpp:180-205 | output `(n, i)` is weight row `i` dotted with sample `n`, plus bias `i` outside debug mode |
| FullConn.CalcOutputIsRowsProduct | gxnet/layer.cpp:180-205 | the forward pass is the biased row product of the sample matrix and the weight matrix (unbiased in debug mode) |
| FullConn.Backpropagate | gxnet/layer.cpp:207-232 | input delta `(n, i)` is delta sample `n` dotted with weight column `i` |
| FullConn.BackpropagateIsMatMul | gxnet/layer.cpp:207-232 | the backward delta is the matrix product `delta . W`, and also the row product of the delta and `W` transposed |
| FullConn.CollectGradients | gxnet/layer.cpp:239-275 | gradient `(i, k)` is the sum over samples of `delta(n, i)*x_n[k]` |
| FullConn.CollectGradientsFromScratch | gxnet/layer.cpp:239-275 | with at least one sample the result does not depend on the gradient buffers handed in |
| FullConn.GradientIsDeltaTransposeTimesInput | gxnet/layer.cpp:239-275 | the gradient is the matrix product `delta^T . X` |
| FullConn.SingleSampleGradientIsOuterProduct | gxnet/layer.cpp:239-275 | for one sample the gradient is the outer product of the delta and the input, as `gx_kronecker_product` builds it |
| FullConn.ApplyGradientsWeights | gxnet/layer.cpp:277-285 | every weight takes the optimiser step with its gradient: decayed and averaged, or the plain step in debug mode |
| FullConn.ApplyGradientsBiases | gxnet/layer.cpp:277-285 | outside debug mode every bias takes the averaged step with its delta; in debug mode the biases are left alone |
| Conv.OutDims | gxnet/layer.cpp:354-383 | the output shape is `(N, F, H-kH+1, W-kW+1)` |
| Conv.ForwardTerms | gxnet/layer.cpp:385-399 | the products `forwardConv` adds, at their filter-row offsets: input under the window times the filter weight |
| Conv.CalcOutput | gxnet/layer.cpp:354-383 | output cell `(n, f, x, y)` is the window correlation plus `bias[f]` |
| Conv.PadDims | gxnet/layer.cpp:401-450 | the padding buffer is `(N, F, OH+2(kH-1), OW+2(kW-1))` on first use; afterwards the cached shape is kept and only `N` refreshed |
| Conv.CopyShiftedPlaces | gxnet/layer.cpp:468-479 | delta cell `(n, f, x, y)` lands at `(n, f, x+dx, y+dy)` of the zero-filled buffer |
| Conv.CopyShiftedZeroElsewhere | gxnet/layer.cpp:468-479 | every other cell of the buffer is zero |
| Conv.CopyOutDeltaAsWritten | gxnet/layer.cpp:468-479 | the copy as written places the delta at `(kH-1, kH-1)` |
| Conv.PaddedDelta | gxnet/layer.cpp:401-450 | the corrected copy places the delta at `(kH-1, kW-1)` |
| Conv.PaddedDeltaCentred | gxnet/layer.cpp:401-450 | with fresh padding dims the corrected copy has a zero border `kH-1` deep above and below and `kW-1` deep left and right |
| Conv.CopyOutDeltaMisplaces | gxnet/layer.cpp:468-479 | for a `1 x 2` kernel and the one-cell delta `[1]` the copy as written gives `[1, 0, 0]` where `[0, 1, 0]` is intended |
| Conv.CopyOutDeltaSquare | gxnet/layer.cpp:468-479 | for a square kernel the copy as written is the intended one |
| Conv.BackwardTerms | gxnet/layer.cpp:452-466 | the products `backwardConv` adds: padded delta times turned weight |
| Conv.Backpropagate | gxnet/layer.cpp:401-450 | input delta `(n, c, x, y)` is `backwardConv` of the padded delta and the filters turned by 180 degrees; the padding copy is the corrected `(kH-1, kW-1)` one, see "## Left out" |
| Conv.BackwardTermIsChainRule | gxnet/layer.cpp:401-466 | each backward term is the delta of the output cell whose window reads input `(x, y)` through weight `(f, c, i, j)`, times that weight, and zero when no such output cell exists |
| Conv.GradientTerms | gxnet/layer.cpp:509-521 | the products `gradientConv` adds: input under the delta plane times the delta |
| Conv.GradientTermIsChainRule | gxnet/layer.cpp:481-521 | each gradient term is the delta of an output cell times the derivative of that cell's forward term with respect to weight `(f, c, x, y)` |
| Conv.CollectGradients | gxnet/layer.cpp:481-507 | buffer 0 of the list (allocated when the list is empty) holds at `(f, c, x, y)` the sum over the samples of `gradientConv`; the other buffers are kept |
| Conv.BiasDeltaBySample | gxnet/layer.cpp:523-547 | the bias delta of filter `f`, summed in `(n, i, j)` loop order, equals the sum over samples of the sums of filter `f`'s delta plane, i.e. of row `f` of each sample's `deltas2Rows` matrix |
| Conv.ApplyGradientsFilters | gxnet/layer.cpp:523-547 | every filter weight takes the optimiser step with its entry of gradient buffer 0: decayed and averaged, or the plain step in debug mode |
| Conv.ApplyGradientsBiases | gxnet/layer.cpp:523-547 | every bias takes the averaged step with its entry of the bias delta, whether or not debug mode is on |
| Im2Rows.FillAt | gxnet/im2rows.cpp:6-145 | the common frame of every routine: the rows it computes read back exactly, whether the destination was empty or already shaped |
| Im2Rows.Filters2Rows | gxnet/im2rows.cpp:6-28 | row `f` starts with filter `f` laid out `(c, x, y)`; rows past the filter count are kept |
| Im2Rows.Filters2RowsFlatten | gxnet/im2rows.cpp:6-28 | the filter rows, concatenated, are the filter buffer itself |
| Im2Rows.Deltas2Rows | gxnet/im2rows.cpp:30-51 | row `f` starts with channel `f` of the selected sample, its `H x W` map row-major; later rows are kept |
| Im2Rows.Rot180Filters | gxnet/im2rows.cpp:147-163 | the destination takes the filters' size and `dest(f, c, kH-1-i, kW-1-j) = src(f, c, i, j)` |
| Im2Rows.Rot180Involution | gxnet/im2rows.cpp:147-163 | turning the filters twice gives them back |
| Im2Rows.Rot180Filters2Rows | gxnet/im2rows.cpp:53-82 | row `c` starts with channel `c` of every turned filter, filter by filter; later rows are kept |
| Im2Rows.Rot180RowAt | gxnet/im2rows.cpp:53-82 | element `(f, x, y)` of channel row `c` is filter `f`, channel `c`, read turned around |
| Im2Rows.Input2Rows | gxnet/im2rows.cpp:84-112 | the row of window position `(x, y)`, `x`-major, starts with the receptive field `in(n, c, x+i, y+j)` at `(c, i, j)`; later rows are kept |
| Im2Rows.Input2Rows4Gradients | gxnet/im2rows.cpp:114-145 | the row of channel `c` and window position `(x, y)`, channel-major, starts with the single-channel patch under the window; later rows are kept |
| ConvEx.UpdateFiltersRows | gxnet/layer.cpp:720-728 | both caches are refilled from the filters: the filter rows and the turned-filter rows |
| ConvEx.NewConvExLayer | gxnet/layer.cpp:551-565 | the constructors keep the base layer and fill both caches from the filters |
| ConvEx.ExApplyGradients | gxnet/layer.cpp:711-717 | after the base layer's update the caches hold the updated filters again |
| ConvEx.PatchDotIsForwardConv | gxnet/layer.cpp:578-616 | a filter row dotted with the input patch at `(x, y)` is `forwardConv` there |
| ConvEx.ExCalcOutputIsCalcOutput | gxnet/layer.cpp:578-616 | the im2row forward pass equals `ConvLayer::calcOutput` |
| ConvEx.PatchDotIsBackwardConv | gxnet/layer.cpp:618-669 | a turned-filter row dotted with the padded-delta patch at `(x, y)` is `backwardConv` there |
| ConvEx.ExBackpropagateIsBackpropagate | gxnet/layer.cpp:618-669 | the im2row backward pass equals `ConvLayer::backpropagate` |
| ConvEx.PlaneDotIsGradientConv | gxnet/layer.cpp:671-709 | a delta row dotted with the input plane patch at `(c, x, y)` is `gradientConv` there |
| ConvEx.ExCollectGradientsIsCollectGradients | gxnet/layer.cpp:671-709 | the im2row gradient pass equals `ConvLayer::collectGradients` |
| Pool.MaxFoldBounds | gxnet/layer.cpp:785-797 | the running maximum is at least its seed and every term, and it is the seed or one of the terms |
| Pool.PoolMaxIsWindowMax | gxnet/layer.cpp:785-797 | the pooled value is at least every window cell; it is one of the cells when some cell reaches the `INT_MIN` seed, and the seed itself when every cell is below it |
| Pool.MaxPoolOutput | gxnet/layer.cpp:762-783 | every output cell is its window's pooled maximum |
| Pool.MaxBackpropagate | gxnet/layer.cpp:799-835 | the input delta has the input's shape, and cell `(n, c, i, j)` is its window's delta where the cell equals the stored output, zero elsewhere and outside whole windows |
| Pool.MaxUnpoolScatter | gxnet/layer.cpp:825-835 | each cell of window `(x, y)` receives the window's delta when it equals the stored maximum, and zero otherwise |
| Pool.MaxUnpoolOutside | gxnet/layer.cpp:799-823 | cells past the last whole window on either spatial axis receive zero |
| Pool.MaxUnpoolReachesArgmax | gxnet/layer.cpp:762-835 | after a forward pass, some cell attaining the window maximum receives the window's delta |
| Pool.AvgPoolOutput | gxnet/layer.cpp:869-904 | every output cell is its window's sum divided by `p*p` |
| Pool.RowsAverageBounds | gxnet/layer.cpp:892-904 | the average lies between any bounds of the window's cells |
| Pool.AvgBackpropagate | gxnet/layer.cpp:906-940 | input delta `(n, c, i, j)` is its window's delta divided by `p*p`, zero outside whole windows |
| Pool.AvgUnpoolOutside | gxnet/layer.cpp:906-930 | cells past the last whole window on either spatial axis receive zero |
| Pool.AvgUnpoolConserves | gxnet/layer.cpp:932-940 | the shares of one window add up to the window's delta |
| Dropout.CalcOutput | gxnet/layer.cpp:975-1008 | in training each input is dropped when its draw is below the rate (output 0) and otherwise scaled by `1/(1-rate)`, the mask recording the drop; in inference the output is the input and the mask is the old mask resized |
| Dropout.MaskMatchesOutput | gxnet/layer.cpp:975-1008 | in training a masked cell outputs zero and a kept cell outputs its input scaled up |
| Dropout.Backpropagate | gxnet/layer.cpp:1010-1026 | as written: zero where masked, the delta elsewhere, later entries of the buffer kept |
| Dropout.BackpropagateMissesScale | gxnet/layer.cpp:1010-1026 | with rate 0.5 and one kept input the output moves by 2 but the propagated delta accounts for 1 |
| Dropout.BackpropagateScaled | gxnet/layer.cpp:1010-1026 | the exact chain rule through the training forward (not what the source computes): zero where masked, the delta divided by `1-rate` elsewhere |
| Dropout.ScaledBackpropagateIsAdjoint | gxnet/layer.cpp:975-1026 | the corrected backward pass is the adjoint of the training forward for the same draws |
| Network.ClearBatch | gxnet/network.cpp:83-89 | every batch gradient and delta becomes zero and keeps its shape |
| Network.AddToBatch | gxnet/network.cpp:91-100 | each layer's sample delta and gradients are added into the batch cell by cell |
| Network.BatchHoldsSum | gxnet/network.cpp:83-100 | after clearing and adding each sample, every batch entry is that entry summed over the samples, whatever the batch held |
| Network.Forward | gxnet/network.cpp:197-215 | fails exactly when the input size is not layer 0's input size; otherwise layer `i` runs on the output of layer `i-1` |
| Network.Seed | gxnet/network.cpp:246-254 | the last delta is `2(out - target)` for squared error, `out - target` for cross-entropy, and left as it is otherwise |
| Network.Backward | gxnet/network.cpp:256-262 | layers from last to first apply their derivative and backpropagate into the previous layer's delta |
| Network.FirstLayerNotBackpropagated | gxnet/network.cpp:256-262 | layer 0 is never asked for a previous delta |
| Network.CalcLoss | gxnet/network.cpp:282-299 | squared error: the SSE, never negative and zero exactly at the target; cross-entropy: the supplied sum; otherwise 0 |
| Network.MseSeedIsGradient | gxnet/network.cpp:246-250 | moving output `k` by `h` changes the squared-error loss by exactly `h*seed[k] + h*h` |
| Network.ChunkTraining | gxnet/network.cpp:301-326 | a chunk trains positions `begin..end-1` of the order, one after another |
| Network.EpochCoversOrder | gxnet/network.cpp:365-389 | the chunks of `[begin, min(n, begin+mb))` train the rest of the order exactly in order, and the lengths passed to `apply` add up to the positions left |
| Network.EachSampleOncePerEpoch | gxnet/network.cpp:357-389 | with a permutation as the order, each sample is trained exactly once per epoch and `apply` counts `n` samples in all |
| Network.TrainChunk | gxnet/network.cpp:301-326 | the sample loop of a chunk trains its positions and adds their losses to the running total |
| Network.Epoch | gxnet/network.cpp:357-391 | one epoch's chunk loop produces the epoch schedule and the total of its sample losses |
| Network.TrainInternal | gxnet/network.cpp:328-406 | fails exactly when input and target counts differ; otherwise runs the epochs' schedules with chunks of `max(requested, 1)` and records each epoch's mean loss |
| Utils.CalcSse | gxnet/utils.cpp:27-38 | the sum of squared errors is never negative and is zero exactly when output equals target |
| Utils.SseSymmetric | gxnet/utils.cpp:27-38 | the error does not depend on which side is the target |
| Utils.SseAppend | gxnet/utils.cpp:27-38 | the error of concatenated vectors is the sum of their errors |
| Utils.MaxIndex | gxnet/utils.h:27-31 | the position of the first largest element, 0 for an empty range |
| Utils.MaxIndexIff | gxnet/utils.h:27-31 | on a non-empty range the result is `r` exactly when `r` is the first largest position |
| Utils.ExpandMnistImage | gxnet/utils.cpp:136-149 | always succeeds with a 32 x 32 image: pixel `(x, y)` of the 28 x 28 image lands at `(x+2, y+2)` and the two-pixel border is zero, because the valarray resize zero-fills the whole destination |
| Utils.ExpandIgnoresDestination | gxnet/utils.cpp:136-149 | what the destination held before has no effect on the expanded image |
| Utils.CropOfExpand | gxnet/utils.cpp:136-149 | cropping the expanded image gives back the original pixels |
| Utils.BoundingBox | gxnet/utils.cpp:79-134 | the scan finds the bounding box of the ink, or keeps its sentinels when there is none |
| Utils.ScanBoxInv | gxnet/utils.cpp:91-103 | the scan loops keep the box of the ink seen so far |
| Utils.CenterMnistImage | gxnet/utils.cpp:79-134 | reports `false` and leaves the destination alone exactly when the box already sits at its margins; otherwise the destination takes the original's size, its first 784 entries hold the image with its box moved to the margins, and every later entry is zero (valarray resize) |
| Utils.CenterMovesInk | gxnet/utils.cpp:79-134 | after centring every ink pixel is an original ink pixel moved by the box's shift |
| Utils.CenterKeepsInk | gxnet/utils.cpp:79-134 | centring loses no ink |
| Utils.CenterIdempotent | gxnet/utils.cpp:79-134 | centring a centred image reports `false` |
| Eval.CountsAreCounts | gxnet/eval.cpp:7-57 | each confusion cell, class total and the hit count is the number of samples it stands for |
| Eval.NormaliseRows | gxnet/eval.cpp:7-57 | after normalising, the row of a class with samples adds up to one and the row of a class without samples is zero |
| Eval.Evaluate | gxnet/eval.cpp:7-57 | nothing when the forward pass fails; otherwise the number of correct samples (at most all) and the row-normalised confusion matrix of sample counts |

## Left out

- The forward of the sigmoid, tanh and softmax activations (exponentials) and the cross-entropy loss (logarithms): they are inputs to the model. Their derivatives are modelled.
- The Eigen code paths of `common.cpp`: the model follows the plain loops.
- Randomness: the shuffle permutation and the dropout draws are inputs.
- Floating point: `DataType` is a real number, so no rounding or overflow is modelled, and sums are exact left folds in loop order.
- I/O, logging, printing, timing, save/load of networks and the MNIST loaders.
- `context.cpp` (the layer and network context holders) is not part of this model beyond the buffers the operations read and write.
- The per-layer dispatch of `Network::forward`, `Network::backward`, `Network::apply` and `Network::collect`: the network model takes the layer steps as functions and records `apply` as an event of the schedule; each layer's own steps are modelled in its module.
- Network.TrainInternal: requires a requested mini-batch size other than 0, because the source divides by it before taking `max(..., 1)`; it also requires a non-empty input when the counts agree, because the source reads `input[0]` in an assertion.
- Network.TrainInternal: the training of one sample (forward, backward, collect, add to batch) is an event of the schedule, and the per-sample losses are inputs.
- Optim.UpdateWithoutDecay: states the step with `Rate` (`lr/miniBatchCount`) times the gradient, the same real value the source computes in the order `g*(lr/m)`.
- Utils.CenterMnistImage: requires at least one ink pixel; without one the source's width computation overflows `int`.
- Layer.Activate: the three exponential kinds are given by a supplied function.
- Conv.Backpropagate: pads the delta with the copy at offset `(kH-1, kW-1)` (Conv.PaddedDelta), whereas `gxnet/layer.cpp:424` copies it at `(kH-1, kH-1)`; for a non-square kernel the modelled input delta is therefore not the one the source computes, and the two agree only for square kernels (Conv.CopyOutDeltaSquare). The as-written copy is modelled on its own (Conv.CopyOutDeltaAsWritten) but not carried through the backward pass, because when `kH-1 > 2(kW-1)` its writes run past the padded row and wrap into other rows or past the buffer.
- ConvEx.ExBackpropagate: the same corrected padding copy as Conv.Backpropagate, where `gxnet/layer.cpp:641` passes the kernel height for both axes; it is proved equal to Conv.Backpropagate, so it too matches the source only for square kernels.
- The softmax derivative acts on the whole output vector, as the code does, and not row by row.

## Findings

| source | as written | input that shows it | evidently intended | confidence | as-written member | corrected member |
|---|---|---|---|---|---|---|
| gxnet/layer.cpp:468-479 | `copyOutDelta` places the delta at `(kH-1, kH-1)`, using the kernel height for both axes | a `1 x 2` kernel and a one-cell delta `[1]`: the padded row is `[1, 0, 0]` | offset `(kH-1, kW-1)`, giving `[0, 1, 0]` | high, not executed | Conv.CopyOutDeltaMisplaces | Conv.PaddedDeltaCentred |
| gxnet/common.cpp:177 | the biased `gx_rows_product` asserts `a.dim(1) == a.dim(1)`, which always holds | A of shape `1 x 2`, B of shape `1 x 1`: accepted, and the loop reads B past its end | `a.dim(1) == b.dim(1)` | high, not executed | Kernels.BiasedGuardAdmitsOverrun | Kernels.RowsProductBiased |
| gxnet/layer.cpp:1010-1026 | dropout's backward pass passes a kept delta unscaled, though the forward scales kept inputs by `1/(1-rate)` | rate 0.5, one kept input moving from 0 to 1, delta 1: output moves by 2, propagated delta accounts for 1 | the gradient of the training forward, i.e. the delta divided by `1-rate` where kept; the unscaled pass-through is documented as a deliberate choice, so this records a mismatch with the gradient rather than a slip | low, not executed | Dropout.BackpropagateMissesScale | Dropout.ScaledBackpropagateIsAdjoint |
