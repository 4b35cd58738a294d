/**
 * The shared part of every layer in gxnet/layer.cpp (`BaseLayer::forward`
 * and `BaseLayer::backward`): the layer's own computation, then its optional
 * activation function, and in the backward direction the activation's
 * derivative, then the layer's own backpropagation when the previous layer
 * asks for a delta.
 *
 * The layer-specific steps are parameters. So is the forward of the sigmoid,
 * tanh and softmax activations, which compute exponentials; the leaky ReLU
 * forward is modelled exactly.
 */
module Layer {
  import opened Tensor
  import opened Options
  import opened Activation

  /** The buffers `forward` leaves in a layer's context: the output and its delta. */
  datatype LayerCtx = LayerCtx(out: Span<real>, delta: Span<real>)

  /** What `backward` produces: the delta after the activation's derivative, and the previous layer's delta if asked for. */
  datatype Backward = Backward(delta: seq<real>, inDelta: Option<seq<real>>)

  /**
   * `ActFunc::activate` applied in place to the layer's output. The leaky
   * ReLU is computed; the three exponential kinds are given by
   * `exponential`; a code that is none of the four leaves the output as it is.
   */
  function Activate(kind: int, v: seq<real>, exponential: seq<real> -> seq<real>): (r: seq<real>)
    requires kind in {SIGMOID, TANH, SOFTMAX} ==> |exponential(v)| == |v|
    ensures |r| == |v|
    ensures kind == LEAKY_RELU ==> forall i :: 0 <= i < |v| ==> r[i] == Leaky(v[i])
    ensures kind in {SIGMOID, TANH, SOFTMAX} ==> r == exponential(v)
    ensures kind !in {SIGMOID, LEAKY_RELU, TANH, SOFTMAX} ==> r == v
  {
    if kind == LEAKY_RELU then LeakyActivate(v)
    else if kind in {SIGMOID, TANH, SOFTMAX} then exponential(v)
    else v
  }

  /**
   * `BaseLayer::forward`: the layer's `calcOutput` result, activated when the
   * layer has an activation function; then the delta takes the output's
   * dims and is resized to the output's length, which zero-fills it.
   */
  function Forward(act: Option<int>, own: Span<real>, exponential: seq<real> -> seq<real>): (ctx: LayerCtx)
    requires act.Some? && act.value in {SIGMOID, TANH, SOFTMAX} ==> |exponential(own.data)| == |own.data|
    ensures ctx.out.dims == own.dims && |ctx.out.data| == |own.data|
    ensures act.None? ==> ctx.out == own
    ensures act.Some? ==> ctx.out.data == Activate(act.value, own.data, exponential)
    ensures ctx.delta.dims == ctx.out.dims && |ctx.delta.data| == |ctx.out.data|
    ensures forall i :: 0 <= i < |ctx.delta.data| ==> ctx.delta.data[i] == 0.0
  {
    var out := if act.None? then own else Span(Activate(act.value, own.data, exponential), own.dims);
    LayerCtx(out, Span(seq(|out.data|, _ => 0.0), out.dims))
  }

  /**
   * `BaseLayer::backward`: the activation's derivative, expressed in the
   * stored output, is applied to the delta in place; then, when the previous
   * layer passes a buffer, the layer's `backpropagate` fills it from the
   * updated delta.
   */
  function BackwardPass(act: Option<int>, ctx: LayerCtx, wantInDelta: bool,
                        backpropagate: seq<real> -> seq<real>): (r: Backward)
    requires |ctx.delta.data| == |ctx.out.data|
    ensures |r.delta| == |ctx.delta.data|
    ensures act.None? ==> r.delta == ctx.delta.data
    ensures act.Some? ==> r.delta == Derivate(act.value, ctx.out.data, ctx.delta.data)
    ensures wantInDelta <==> r.inDelta.Some?
    ensures wantInDelta ==> r.inDelta.value == backpropagate(r.delta)
  {
    var d := if act.None? then ctx.delta.data else Derivate(act.value, ctx.out.data, ctx.delta.data);
    Backward(d, if wantInDelta then Some(backpropagate(d)) else None)
  }

  /**
   * For a leaky ReLU layer, the derivative read from the stored output is
   * the chain rule at the layer's own result: delta cell `i` is multiplied
   * by the leaky ReLU's slope at `own[i]`.
   */
  lemma LeakyChainRule(own: Span<real>, exponential: seq<real> -> seq<real>, delta: seq<real>,
                       wantInDelta: bool, backpropagate: seq<real> -> seq<real>)
    requires |delta| == |own.data|
    ensures var ctx := Forward(Some(LEAKY_RELU), own, exponential);
            var r := BackwardPass(Some(LEAKY_RELU), LayerCtx(ctx.out, Span(delta, ctx.out.dims)), wantInDelta, backpropagate);
            |r.delta| == |own.data|
            && forall i :: 0 <= i < |own.data| ==> r.delta[i] == delta[i] * LeakySlope(own.data[i])
  {
    var ctx := Forward(Some(LEAKY_RELU), own, exponential);
    var r := BackwardPass(Some(LEAKY_RELU), LayerCtx(ctx.out, Span(delta, ctx.out.dims)), wantInDelta, backpropagate);
    forall i | 0 <= i < |own.data|
      ensures r.delta[i] == delta[i] * LeakySlope(own.data[i])
    {
      LeakyFactorFromOutput(own.data[i]);
    }
  }
}
