/**
 * The SGD optimiser of gxnet/optim.cpp.  The engine-wide debug switch is a
 * parameter; the gradient argument is an immutable value, so the model can
 * not modify it, just as the source works on a private copy of it.
 */
module Optim {
  import opened Kernels

  /** Stochastic gradient descent with learning rate `lr` and L2 weight decay `lambda`. */
  datatype Sgd = Sgd(lr: real, lambda: real)

  /** A whole buffer scaled in place, `gx_vs_product(v, k, v, v.size())`. */
  function ScaleAll(v: seq<real>, k: real): (r: seq<real>)
    ensures |r| == |v|
    ensures forall i :: 0 <= i < |v| ==> r[i] == k * v[i]
  {
    VsProduct(v, k, v, 0, |v|)
  }

  /** `std::transform(w, w + |w|, t, w, minus)`: only the first `|w|` entries of `t` are read. */
  function Subtract(w: seq<real>, t: seq<real>): (r: seq<real>)
    requires |w| <= |t|
    ensures |r| == |w|
    ensures forall i :: 0 <= i < |w| ==> r[i] + t[i] == w[i]
  {
    seq(|w|, i requires 0 <= i < |w| => w[i] - t[i])
  }

  /** The weight-decay factor `1 - lr*lambda/trainingCount`. */
  function Decay(opt: Sgd, trainingCount: nat): real
    requires trainingCount > 0
  {
    1.0 - opt.lr * opt.lambda / trainingCount as real
  }

  /** The step size `lr/miniBatchCount` applied to a gradient summed over a mini-batch. */
  function Rate(opt: Sgd, miniBatchCount: nat): real
    requires miniBatchCount > 0
  {
    opt.lr / miniBatchCount as real
  }

  /**
   * `SGD::update`.  Outside debug mode the weights decay by the factor
   * `Decay` and the summed gradient is averaged over the mini-batch; in debug
   * mode the plain step `w - lr*g` is taken.
   */
  function Update(opt: Sgd, w: seq<real>, g: seq<real>, trainingCount: nat, miniBatchCount: nat, debug: bool): (r: seq<real>)
    requires |w| <= |g|
    requires !debug ==> trainingCount > 0 && miniBatchCount > 0
    ensures |r| == |w|
    ensures debug ==> forall i :: 0 <= i < |w| ==> r[i] == w[i] - opt.lr * g[i]
    ensures !debug ==> forall i :: 0 <= i < |w| ==>
      r[i] == Decay(opt, trainingCount) * w[i] - Rate(opt, miniBatchCount) * g[i]
  {
    var tmpGrad := g;
    if debug then
      Subtract(w, ScaleAll(tmpGrad, opt.lr))
    else
      Subtract(ScaleAll(w, Decay(opt, trainingCount)), ScaleAll(tmpGrad, Rate(opt, miniBatchCount)))
  }

  /** Without weight decay a non-debug update is the averaged step `w - (lr/miniBatchCount)*g`. */
  lemma UpdateWithoutDecay(opt: Sgd, w: seq<real>, g: seq<real>, trainingCount: nat, miniBatchCount: nat)
    requires |w| <= |g|
    requires trainingCount > 0 && miniBatchCount > 0
    requires opt.lambda == 0.0
    ensures forall i :: 0 <= i < |w| ==>
      Update(opt, w, g, trainingCount, miniBatchCount, false)[i] == w[i] - Rate(opt, miniBatchCount) * g[i]
  {
    NoDecay(opt, trainingCount);
    forall i | 0 <= i < |w|
      ensures Update(opt, w, g, trainingCount, miniBatchCount, false)[i] == w[i] - Rate(opt, miniBatchCount) * g[i]
    {
      OneTimes(Decay(opt, trainingCount), w[i]);
    }
  }

  lemma NoDecay(opt: Sgd, trainingCount: nat)
    requires trainingCount > 0 && opt.lambda == 0.0
    ensures Decay(opt, trainingCount) == 1.0
  {
  }

  lemma OneTimes(d: real, x: real)
    requires d == 1.0
    ensures d * x == x
  {
  }

  lemma RateTimes(lr: real, m: real, x: real)
    requires m != 0.0
    ensures lr / m * x == x * lr / m
  {
  }

  /** With no decay and a mini-batch of one, the two modes take the same step. */
  lemma DebugIsSingleSampleStep(opt: Sgd, w: seq<real>, g: seq<real>, trainingCount: nat)
    requires |w| <= |g|
    requires trainingCount > 0
    requires opt.lambda == 0.0
    ensures Update(opt, w, g, trainingCount, 1, false) == Update(opt, w, g, trainingCount, 0, true)
  {
    var a := Update(opt, w, g, trainingCount, 1, false);
    var b := Update(opt, w, g, trainingCount, 0, true);
    assert Decay(opt, trainingCount) == 1.0 && Rate(opt, 1) == opt.lr;
    assert forall i :: 0 <= i < |w| ==> a[i] == b[i];
  }

  /** `SGD::updateBiases`: `b - delta*lr/miniBatchCount`, with no weight decay. */
  function UpdateBiases(opt: Sgd, b: seq<real>, delta: seq<real>, miniBatchCount: nat): (r: seq<real>)
    requires |delta| == |b|
    requires miniBatchCount > 0
    ensures |r| == |b|
    ensures forall i :: 0 <= i < |b| ==> r[i] == b[i] - Rate(opt, miniBatchCount) * delta[i]
  {
    var r := seq(|b|, i requires 0 <= i < |b| => b[i] - delta[i] * opt.lr / miniBatchCount as real);
    forall i | 0 <= i < |b|
      ensures r[i] == b[i] - Rate(opt, miniBatchCount) * delta[i]
    {
      RateTimes(opt.lr, miniBatchCount as real, delta[i]);
    }
    r
  }

  /** Biases are updated exactly like weights whose decay rate is zero. */
  lemma BiasesAreUndecayedWeights(opt: Sgd, b: seq<real>, delta: seq<real>, trainingCount: nat, miniBatchCount: nat)
    requires |delta| == |b|
    requires trainingCount > 0 && miniBatchCount > 0
    ensures UpdateBiases(opt, b, delta, miniBatchCount)
         == Update(Sgd(opt.lr, 0.0), b, delta, trainingCount, miniBatchCount, false)
  {
    var u := UpdateBiases(opt, b, delta, miniBatchCount);
    var v := Update(Sgd(opt.lr, 0.0), b, delta, trainingCount, miniBatchCount, false);
    UpdateWithoutDecay(Sgd(opt.lr, 0.0), b, delta, trainingCount, miniBatchCount);
    assert Rate(Sgd(opt.lr, 0.0), miniBatchCount) == Rate(opt, miniBatchCount);
    assert forall i | 0 <= i < |b| :: u[i] == v[i];
  }
}
