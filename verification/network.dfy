/**
 * The bookkeeping of gxnet/network.cpp: the batch buffers that sum the
 * per-sample deltas and gradients, the input-size check of the forward
 * pass, the seeding of the last delta from the loss and the reverse sweep
 * over the layers, the squared-error loss, and the mini-batch schedule of
 * `trainInternal`.
 *
 * What a layer computes is a parameter here: the forward step, the
 * activation derivative and the backpropagation of layer `i` are functions
 * of `i`. The per-sample training work of `trainMiniBatch` appears as an
 * event in a trace, and the shuffle permutations are inputs.
 */
module Network {
  import opened Sums
  import opened Options
  import Utils

  /** The loss codes of `Network`. */
  const MEAN_SQUARED_ERROR: int := 1
  const CROSS_ENTROPY: int := 2

  // ---------------------------------------------------------------------------
  // Batch buffers

  /** A layer's backward buffers (`BackwardCtx`): its delta and its gradient rows. */
  datatype Grads = Grads(delta: seq<real>, gradients: seq<seq<real>>)

  /** Two layers' buffers of one shape. */
  ghost predicate SameGrads(a: Grads, b: Grads)
  {
    |a.delta| == |b.delta| && |a.gradients| == |b.gradients|
    && forall j :: 0 <= j < |a.gradients| ==> |a.gradients[j]| == |b.gradients[j]|
  }

  /** Two networks' buffers of one shape, layer by layer. */
  ghost predicate SameShapes(a: seq<Grads>, b: seq<Grads>)
  {
    |a| == |b| && forall i :: 0 <= i < |a| ==> SameGrads(a[i], b[i])
  }

  /** A vector of `n` zeros, as `v = 0.0` leaves a valarray of length `n`. */
  function Zeros(n: nat): (z: seq<real>)
    ensures |z| == n && forall k :: 0 <= k < n ==> z[k] == 0.0
  {
    seq(n, _ => 0.0)
  }

  /** `NetworkCtx::clearBatch`: every gradient row and every delta of the batch becomes zero, keeping its length. */
  function ClearBatch(batch: seq<Grads>): (r: seq<Grads>)
    ensures SameShapes(r, batch)
    ensures forall i, k :: 0 <= i < |r| && 0 <= k < |r[i].delta| ==> r[i].delta[k] == 0.0
    ensures forall i, j, k :: 0 <= i < |r| && 0 <= j < |r[i].gradients| && 0 <= k < |r[i].gradients[j]| ==>
              r[i].gradients[j][k] == 0.0
  {
    seq(|batch|, i requires 0 <= i < |batch| =>
      Grads(Zeros(|batch[i].delta|),
            seq(|batch[i].gradients|, j requires 0 <= j < |batch[i].gradients| => Zeros(|batch[i].gradients[j]|))))
  }

  /** `a + b` elementwise, as valarray `+=` computes it for equal lengths. */
  function Add(a: seq<real>, b: seq<real>): (r: seq<real>)
    requires |a| == |b|
    ensures |r| == |a| && forall k :: 0 <= k < |a| ==> r[k] == a[k] + b[k]
  {
    seq(|a|, k requires 0 <= k < |a| => a[k] + b[k])
  }

  /**
   * `NetworkCtx::addToBatch`: each layer's delta and gradient rows of the
   * current sample are added into that layer's batch buffers. The batch
   * buffers start as copies of the layer buffers, so the shapes agree.
   */
  function AddToBatch(batch: seq<Grads>, sample: seq<Grads>): (r: seq<Grads>)
    requires SameShapes(sample, batch)
    ensures SameShapes(r, batch)
    ensures forall i, k :: 0 <= i < |r| && 0 <= k < |r[i].delta| ==>
              r[i].delta[k] == batch[i].delta[k] + sample[i].delta[k]
    ensures forall i, j, k :: 0 <= i < |r| && 0 <= j < |r[i].gradients| && 0 <= k < |r[i].gradients[j]| ==>
              r[i].gradients[j][k] == batch[i].gradients[j][k] + sample[i].gradients[j][k]
  {
    seq(|batch|, i requires 0 <= i < |batch| =>
      Grads(Add(batch[i].delta, sample[i].delta),
            seq(|batch[i].gradients|, j requires 0 <= j < |batch[i].gradients| =>
              Add(batch[i].gradients[j], sample[i].gradients[j]))))
  }

  /** Every sample's buffers have the batch's shape. */
  ghost predicate SamplesFit(batch: seq<Grads>, samples: seq<seq<Grads>>)
  {
    forall m :: 0 <= m < |samples| ==> SameShapes(samples[m], batch)
  }

  /** `addToBatch` for each sample in turn. */
  function Accumulate(batch: seq<Grads>, samples: seq<seq<Grads>>): (r: seq<Grads>)
    requires SamplesFit(batch, samples)
    ensures SameShapes(r, batch)
  {
    if |samples| == 0 then batch
    else
      var n := |samples| - 1;
      var prev := Accumulate(batch, samples[..n]);
      assert SameShapes(samples[n], prev) by {
        assert SameShapes(samples[n], batch);
      }
      AddToBatch(prev, samples[n])
  }

  /** Delta entry `k` of layer `i` across the samples. */
  function DeltaColumn(samples: seq<seq<Grads>>, batch: seq<Grads>, i: nat, k: nat): (c: seq<real>)
    requires SamplesFit(batch, samples) && i < |batch| && k < |batch[i].delta|
    ensures |c| == |samples| && forall m :: 0 <= m < |samples| ==> c[m] == samples[m][i].delta[k]
  {
    seq(|samples|, m requires 0 <= m < |samples| => assert SameShapes(samples[m], batch); samples[m][i].delta[k])
  }

  /** Gradient entry `(j, k)` of layer `i` across the samples. */
  function GradientColumn(samples: seq<seq<Grads>>, batch: seq<Grads>, i: nat, j: nat, k: nat): (c: seq<real>)
    requires SamplesFit(batch, samples) && i < |batch| && j < |batch[i].gradients| && k < |batch[i].gradients[j]|
    ensures |c| == |samples| && forall m :: 0 <= m < |samples| ==> c[m] == samples[m][i].gradients[j][k]
  {
    seq(|samples|, m requires 0 <= m < |samples| => assert SameShapes(samples[m], batch); samples[m][i].gradients[j][k])
  }

  /**
   * After `clearBatch` and one `addToBatch` per sample, every batch entry is
   * the sum of that entry over the samples, whatever the batch held before.
   */
  lemma BatchHoldsSum(batch: seq<Grads>, samples: seq<seq<Grads>>)
    requires SamplesFit(batch, samples)
    ensures SamplesFit(ClearBatch(batch), samples)
    ensures forall i, k :: 0 <= i < |batch| && 0 <= k < |batch[i].delta| ==>
              Accumulate(ClearBatch(batch), samples)[i].delta[k] == Sum(DeltaColumn(samples, batch, i, k))
    ensures forall i, j, k :: 0 <= i < |batch| && 0 <= j < |batch[i].gradients| && 0 <= k < |batch[i].gradients[j]| ==>
              Accumulate(ClearBatch(batch), samples)[i].gradients[j][k] == Sum(GradientColumn(samples, batch, i, j, k))
  {
    ClearedFits(batch, samples);
    forall i, k | 0 <= i < |batch| && 0 <= k < |batch[i].delta|
      ensures Accumulate(ClearBatch(batch), samples)[i].delta[k] == Sum(DeltaColumn(samples, batch, i, k))
    {
      DeltaHoldsSum(batch, samples, i, k);
    }
    forall i, j, k | 0 <= i < |batch| && 0 <= j < |batch[i].gradients| && 0 <= k < |batch[i].gradients[j]|
      ensures Accumulate(ClearBatch(batch), samples)[i].gradients[j][k] == Sum(GradientColumn(samples, batch, i, j, k))
    {
      GradientHoldsSum(batch, samples, i, j, k);
    }
  }

  /** A cleared batch keeps its shapes, so the same samples fit it. */
  lemma ClearedFits(batch: seq<Grads>, samples: seq<seq<Grads>>)
    requires SamplesFit(batch, samples)
    ensures SamplesFit(ClearBatch(batch), samples)
  {
    var z := ClearBatch(batch);
    forall m | 0 <= m < |samples|
      ensures SameShapes(samples[m], z)
    {
      assert SameShapes(samples[m], batch);
    }
  }

  /** `BatchHoldsSum` for one delta entry. */
  lemma {:induction false} DeltaHoldsSum(batch: seq<Grads>, samples: seq<seq<Grads>>, i: nat, k: nat)
    requires SamplesFit(batch, samples) && i < |batch| && k < |batch[i].delta|
    ensures SamplesFit(ClearBatch(batch), samples)
    ensures Accumulate(ClearBatch(batch), samples)[i].delta[k] == Sum(DeltaColumn(samples, batch, i, k))
  {
    ClearedFits(batch, samples);
    if |samples| > 0 {
      var n := |samples| - 1;
      var pre := samples[..n];
      DeltaHoldsSum(batch, pre, i, k);
      assert DeltaColumn(samples, batch, i, k)[..n] == DeltaColumn(pre, batch, i, k);
    }
  }

  /** `BatchHoldsSum` for one gradient entry. */
  lemma {:induction false} GradientHoldsSum(batch: seq<Grads>, samples: seq<seq<Grads>>, i: nat, j: nat, k: nat)
    requires SamplesFit(batch, samples) && i < |batch| && j < |batch[i].gradients| && k < |batch[i].gradients[j]|
    ensures SamplesFit(ClearBatch(batch), samples)
    ensures Accumulate(ClearBatch(batch), samples)[i].gradients[j][k] == Sum(GradientColumn(samples, batch, i, j, k))
  {
    ClearedFits(batch, samples);
    if |samples| > 0 {
      var n := |samples| - 1;
      var pre := samples[..n];
      GradientHoldsSum(batch, pre, i, j, k);
      assert GradientColumn(samples, batch, i, j, k)[..n] == GradientColumn(pre, batch, i, j, k);
    }
  }

  // ---------------------------------------------------------------------------
  // Forward

  /**
   * `Network::forward(ctx)`: fails before running any layer when the input
   * size differs from layer 0's input size; otherwise runs every layer in
   * order, layer `i` on the output of layer `i - 1` and layer 0 on the input.
   */
  method Forward(inSize: nat, input: seq<real>, layerCount: nat, step: (nat, seq<real>) -> seq<real>)
    returns (outs: Option<seq<seq<real>>>)
    requires layerCount > 0
    ensures outs.None? <==> |input| != inSize
    ensures outs.Some? ==> |outs.value| == layerCount && outs.value[0] == step(0, input)
    ensures outs.Some? ==> forall i :: 1 <= i < layerCount ==> outs.value[i] == step(i, outs.value[i - 1])
  {
    if |input| != inSize {
      return None;
    }
    var r := [step(0, input)];
    var i := 1;
    while i < layerCount
      invariant 1 <= i <= layerCount && |r| == i && r[0] == step(0, input)
      invariant forall k :: 1 <= k < i ==> r[k] == step(k, r[k - 1])
    {
      r := r + [step(i, r[i - 1])];
      i := i + 1;
    }
    return Some(r);
  }

  // ---------------------------------------------------------------------------
  // Backward

  /**
   * The last layer's delta before the sweep: `2(out - target)` for squared
   * error, `out - target` for cross-entropy, and the delta left by the
   * forward pass for any other loss code.
   */
  function Seed(lossType: int, out: seq<real>, target: seq<real>, delta: seq<real>): (r: seq<real>)
    requires |out| == |target|
    ensures lossType == MEAN_SQUARED_ERROR ==> |r| == |out| && forall k :: 0 <= k < |out| ==> r[k] == 2.0 * (out[k] - target[k])
    ensures lossType == CROSS_ENTROPY ==> |r| == |out| && forall k :: 0 <= k < |out| ==> r[k] == out[k] - target[k]
    ensures lossType != MEAN_SQUARED_ERROR && lossType != CROSS_ENTROPY ==> r == delta
  {
    if lossType == MEAN_SQUARED_ERROR then seq(|out|, k requires 0 <= k < |out| => 2.0 * (out[k] - target[k]))
    else if lossType == CROSS_ENTROPY then seq(|out|, k requires 0 <= k < |out| => out[k] - target[k])
    else delta
  }

  /**
   * The delta buffer of layer `i` when the sweep reaches it: the seed for the
   * last layer, otherwise what layer `i + 1` backpropagated into the buffer.
   */
  function Incoming(deltas: seq<seq<real>>, seed: seq<real>, derive: (nat, seq<real>) -> seq<real>,
                    backprop: (nat, seq<real>, seq<real>) -> seq<real>, i: nat): seq<real>
    requires i < |deltas|
    decreases |deltas| - i, 0
  {
    if i == |deltas| - 1 then seed else backprop(i + 1, Final(deltas, seed, derive, backprop, i + 1), deltas[i])
  }

  /** The delta of layer `i` after the sweep: its incoming delta through the activation derivative. */
  function Final(deltas: seq<seq<real>>, seed: seq<real>, derive: (nat, seq<real>) -> seq<real>,
                 backprop: (nat, seq<real>, seq<real>) -> seq<real>, i: nat): seq<real>
    requires i < |deltas|
    decreases |deltas| - i, 1
  {
    derive(i, Incoming(deltas, seed, derive, backprop, i))
  }

  /**
   * `Network::backward` after the seeding: layers from last to first run
   * `backward`, which applies the activation derivative to the layer's own
   * delta (`derive`) and then backpropagates it into the previous layer's
   * delta buffer (`backprop`, given the layer, its delta and the buffer's
   * old contents). Layer 0 is given no buffer.
   */
  method Backward(deltas: seq<seq<real>>, seed: seq<real>, derive: (nat, seq<real>) -> seq<real>,
                  backprop: (nat, seq<real>, seq<real>) -> seq<real>) returns (r: seq<seq<real>>)
    requires |deltas| > 0
    ensures |r| == |deltas|
    ensures forall i :: 0 <= i < |deltas| ==> r[i] == Final(deltas, seed, derive, backprop, i)
  {
    var last := |deltas| - 1;
    r := deltas[last := seed];
    var i: int := last;
    while i >= 0
      invariant -1 <= i <= last && |r| == |deltas|
      invariant i >= 0 ==> r[i] == Incoming(deltas, seed, derive, backprop, i)
      invariant forall k :: 0 <= k < i ==> r[k] == deltas[k]
      invariant forall k :: i < k < |deltas| ==> r[k] == Final(deltas, seed, derive, backprop, k)
    {
      r := r[i := derive(i, r[i])];
      if i > 0 {
        r := r[i - 1 := backprop(i, r[i], r[i - 1])];
      }
      i := i - 1;
    }
  }

  /**
   * Layer 0 never backpropagates: the sweep's result does not depend on what
   * `backprop` would do for layer 0.
   */
  lemma {:induction false} FirstLayerNotBackpropagated(deltas: seq<seq<real>>, seed: seq<real>, derive: (nat, seq<real>) -> seq<real>,
                                                       bp1: (nat, seq<real>, seq<real>) -> seq<real>,
                                                       bp2: (nat, seq<real>, seq<real>) -> seq<real>, i: nat)
    requires i < |deltas|
    requires forall l: nat, d, b :: l >= 1 ==> bp1(l, d, b) == bp2(l, d, b)
    ensures Final(deltas, seed, derive, bp1, i) == Final(deltas, seed, derive, bp2, i)
    decreases |deltas| - i
  {
    if i < |deltas| - 1 {
      FirstLayerNotBackpropagated(deltas, seed, derive, bp1, bp2, i + 1);
    }
  }

  // ---------------------------------------------------------------------------
  // Loss

  /**
   * `Network::calcLoss`: the sum of squared errors for the squared-error
   * code; the cross-entropy sum (computed with logarithms) is given as
   * `crossEntropy`; any other code gives 0.
   */
  function CalcLoss(lossType: int, target: seq<real>, output: seq<real>, crossEntropy: real): (loss: real)
    requires |output| == |target|
    ensures lossType == MEAN_SQUARED_ERROR ==> loss == Utils.CalcSse(output, target) && loss >= 0.0
    ensures lossType == MEAN_SQUARED_ERROR ==> (loss == 0.0 <==> output == target)
    ensures lossType == CROSS_ENTROPY ==> loss == crossEntropy
    ensures lossType != MEAN_SQUARED_ERROR && lossType != CROSS_ENTROPY ==> loss == 0.0
  {
    if lossType == MEAN_SQUARED_ERROR then Utils.CalcSse(output, target)
    else if lossType == CROSS_ENTROPY then crossEntropy
    else 0.0
  }

  /**
   * The squared-error seed is the loss's gradient: moving output `k` by `h`
   * changes the loss by exactly `h * seed[k] + h*h`.
   */
  lemma MseSeedIsGradient(output: seq<real>, target: seq<real>, k: nat, h: real)
    requires |output| == |target| && k < |output|
    ensures CalcLoss(MEAN_SQUARED_ERROR, target, output[k := output[k] + h], 0.0)
            == CalcLoss(MEAN_SQUARED_ERROR, target, output, 0.0) + h * Seed(MEAN_SQUARED_ERROR, output, target, [])[k] + h * h
  {
    var o' := output[k := output[k] + h];
    var hs := h * Seed(MEAN_SQUARED_ERROR, output, target, [])[k];
    SseUpdate(output, target, k, h);
    SquareShift(target[k], output[k], h, Seed(MEAN_SQUARED_ERROR, output, target, [])[k]);
  }

  /** Moving output `k` by `h` replaces one squared error in the sum. */
  lemma SseUpdate(output: seq<real>, target: seq<real>, k: nat, h: real)
    requires |output| == |target| && k < |output|
    ensures Utils.CalcSse(output[k := output[k] + h], target)
            == Utils.CalcSse(output, target) - Utils.Square(target[k] - output[k]) + Utils.Square(target[k] - output[k] - h)
  {
    var o' := output[k := output[k] + h];
    var t, t' := Utils.SquaredErrors(output, target), Utils.SquaredErrors(o', target);
    assert target[k] - o'[k] == target[k] - output[k] - h;
    assert t' == t[k := Utils.Square(target[k] - output[k] - h)];
    SumUpdate(t, k, Utils.Square(target[k] - output[k] - h));
  }

  lemma SquareShift(t: real, o: real, h: real, seed: real)
    requires seed == 2.0 * (o - t)
    ensures Utils.Square(t - o - h) == Utils.Square(t - o) + h * seed + h * h
  {
    assert (t - o - h) * (t - o - h) == (t - o) * (t - o) + h * (2.0 * (o - t)) + h * h;
  }

  // ---------------------------------------------------------------------------
  // The mini-batch schedule of `trainInternal`

  /** What `trainInternal` does, in order: clear the batch, train one sample, apply the batch. */
  datatype Event = Clear | TrainSample(index: nat) | Apply(trainingCount: nat, count: nat)

  /** The indices `0, 1, ..., n-1`, as `std::iota` fills them. */
  function Identity(n: nat): (r: seq<nat>)
    ensures |r| == n && forall i :: 0 <= i < n ==> r[i] == i
  {
    seq(n, i requires 0 <= i < n => i)
  }

  /** A reordering of `0, 1, ..., n-1`: what `std::shuffle` leaves. */
  ghost predicate IsPermutation(p: seq<nat>, n: nat)
  {
    multiset(p) == multiset(Identity(n))
  }

  /** The end of the chunk that starts at `begin`: `std::min(n, begin + mb)`. */
  function ChunkEnd(n: nat, begin: nat, mb: nat): nat
  {
    if n < begin + mb then n else begin + mb
  }

  /** The samples at positions `begin .. end-1` of the order, trained one after another. */
  function ChunkTraining(order: seq<nat>, begin: nat, end: nat): (ev: seq<Event>)
    requires begin <= end <= |order|
    ensures |ev| == end - begin
    ensures forall e :: 0 <= e < |ev| ==> ev[e] == TrainSample(order[begin + e])
    decreases end - begin
  {
    if end == begin then [] else ChunkTraining(order, begin, end - 1) + [TrainSample(order[end - 1])]
  }

  /** One pass of the chunk loop: clear, train the chunk's samples, apply with the chunk's length. */
  function ChunkEvents(order: seq<nat>, begin: nat, mb: nat): seq<Event>
    requires begin < |order| && mb > 0
  {
    var end := ChunkEnd(|order|, begin, mb);
    [Clear] + ChunkTraining(order, begin, end) + [Apply(|order|, end - begin)]
  }

  /** The chunk loop of one epoch from `begin` on. */
  function EpochEvents(order: seq<nat>, begin: nat, mb: nat): (ev: seq<Event>)
    requires mb > 0
    ensures forall e :: 0 <= e < |ev| && ev[e].Apply? ==> ev[e].trainingCount == |order| && 1 <= ev[e].count <= mb
    decreases |order| - begin
  {
    if begin >= |order| then []
    else
      var rest := EpochEvents(order, begin + mb, mb);
      var chunk := ChunkEvents(order, begin, mb);
      var train := ChunkTraining(order, begin, ChunkEnd(|order|, begin, mb));
      assert forall e :: 1 <= e < |chunk| - 1 ==> chunk[e] == train[e - 1];
      chunk + rest
  }

  /** The epochs' chunk loops one after another. */
  function Schedule(orders: seq<seq<nat>>, mb: nat): seq<Event>
    requires mb > 0
  {
    if |orders| == 0 then [] else Schedule(orders[..|orders| - 1], mb) + EpochEvents(orders[|orders| - 1], 0, mb)
  }

  /** The visit order of each epoch: the supplied permutation when shuffling, the identity otherwise. */
  function Orders(shuffle: bool, perms: seq<seq<nat>>, n: nat, count: nat): (o: seq<seq<nat>>)
    requires shuffle ==> |perms| >= count
    ensures |o| == count
  {
    seq(count, e requires 0 <= e < count => if shuffle then perms[e] else Identity(n))
  }

  /** The sample indices trained, in order. */
  function Trained(ev: seq<Event>): seq<nat>
  {
    if |ev| == 0 then []
    else Trained(ev[..|ev| - 1]) + (if ev[|ev| - 1].TrainSample? then [ev[|ev| - 1].index] else [])
  }

  /** The chunk lengths passed to `apply`, added up. */
  function Applied(ev: seq<Event>): nat
  {
    if |ev| == 0 then 0
    else Applied(ev[..|ev| - 1]) + (if ev[|ev| - 1].Apply? then ev[|ev| - 1].count else 0)
  }

  lemma {:induction false} TrainedAppend(a: seq<Event>, b: seq<Event>)
    ensures Trained(a + b) == Trained(a) + Trained(b)
  {
    if |b| > 0 {
      var n := |b| - 1;
      assert (a + b)[..|a + b| - 1] == a + b[..n];
      TrainedAppend(a, b[..n]);
    } else {
      assert a + b == a;
    }
  }

  lemma {:induction false} AppliedAppend(a: seq<Event>, b: seq<Event>)
    ensures Applied(a + b) == Applied(a) + Applied(b)
  {
    if |b| > 0 {
      var n := |b| - 1;
      assert (a + b)[..|a + b| - 1] == a + b[..n];
      AppliedAppend(a, b[..n]);
    } else {
      assert a + b == a;
    }
  }

  /** The sample indices of events that all train. */
  function Indices(ev: seq<Event>): (r: seq<nat>)
    requires forall e :: 0 <= e < |ev| ==> ev[e].TrainSample?
    ensures |r| == |ev| && forall e :: 0 <= e < |ev| ==> r[e] == ev[e].index
  {
    seq(|ev|, e requires 0 <= e < |ev| => ev[e].index)
  }

  /** Events that all train contribute their indices and no applied count. */
  lemma {:induction false} OnlyTraining(ev: seq<Event>)
    requires forall e :: 0 <= e < |ev| ==> ev[e].TrainSample?
    ensures Trained(ev) == Indices(ev) && Applied(ev) == 0
  {
    if |ev| > 0 {
      var n := |ev| - 1;
      OnlyTraining(ev[..n]);
      assert Indices(ev) == Indices(ev[..n]) + [ev[n].index];
    }
  }

  lemma ChunkTrainingTrains(order: seq<nat>, begin: nat, end: nat)
    requires begin <= end <= |order|
    ensures Trained(ChunkTraining(order, begin, end)) == order[begin..end]
    ensures Applied(ChunkTraining(order, begin, end)) == 0
  {
    var ev := ChunkTraining(order, begin, end);
    OnlyTraining(ev);
    assert Indices(ev) == order[begin..end];
  }

  /** One chunk trains its positions in order. */
  lemma ChunkTrains(order: seq<nat>, begin: nat, mb: nat)
    requires mb > 0 && begin < |order|
    ensures Trained(ChunkEvents(order, begin, mb)) == order[begin..ChunkEnd(|order|, begin, mb)]
  {
    var end := ChunkEnd(|order|, begin, mb);
    var train := ChunkTraining(order, begin, end);
    var apply: seq<Event> := [Apply(|order|, end - begin)];
    ChunkTrainingTrains(order, begin, end);
    TrainedAppend([Clear], train);
    TrainedAppend([Clear] + train, apply);
    assert [Clear][..0] == [] && apply[..0] == [];
  }

  /** One chunk applies with its length. */
  lemma ChunkApplies(order: seq<nat>, begin: nat, mb: nat)
    requires mb > 0 && begin < |order|
    ensures Applied(ChunkEvents(order, begin, mb)) == ChunkEnd(|order|, begin, mb) - begin
  {
    var end := ChunkEnd(|order|, begin, mb);
    var train := ChunkTraining(order, begin, end);
    var apply: seq<Event> := [Apply(|order|, end - begin)];
    ChunkTrainingTrains(order, begin, end);
    AppliedAppend([Clear], train);
    AppliedAppend([Clear] + train, apply);
    assert [Clear][..0] == [] && apply[..0] == [];
  }

  /**
   * The chunks `[begin, min(n, begin + mb))` partition the positions from
   * `begin` on: the epoch trains the rest of the order exactly in order, and
   * the lengths passed to `apply` add up to the number of positions left.
   */
  lemma EpochCoversOrder(order: seq<nat>, begin: nat, mb: nat)
    requires mb > 0 && begin <= |order|
    ensures Trained(EpochEvents(order, begin, mb)) == order[begin..]
    ensures Applied(EpochEvents(order, begin, mb)) == |order| - begin
  {
    EpochTrains(order, begin, mb);
    EpochApplies(order, begin, mb);
  }

  lemma {:induction false} EpochTrains(order: seq<nat>, begin: nat, mb: nat)
    requires mb > 0 && begin <= |order|
    ensures Trained(EpochEvents(order, begin, mb)) == order[begin..]
    decreases |order| - begin, 1
  {
    if begin < |order| {
      var end := ChunkEnd(|order|, begin, mb);
      calc {
        Trained(EpochEvents(order, begin, mb));
        { EpochTrainedSplit(order, begin, mb); }
        Trained(ChunkEvents(order, begin, mb)) + Trained(EpochEvents(order, begin + mb, mb));
        { ChunkTrains(order, begin, mb); EpochRestTrains(order, begin, mb); }
        order[begin..end] + order[end..];
        order[begin..];
      }
    }
  }

  /** The chunks after the first one train the order from the first chunk's end on. */
  lemma {:induction false} EpochRestTrains(order: seq<nat>, begin: nat, mb: nat)
    requires mb > 0 && begin < |order|
    ensures Trained(EpochEvents(order, begin + mb, mb)) == order[ChunkEnd(|order|, begin, mb)..]
    decreases |order| - begin, 0
  {
    if begin + mb <= |order| {
      EpochTrains(order, begin + mb, mb);
    } else {
      assert EpochEvents(order, begin + mb, mb) == [];
    }
  }

  /** The trained indices of an epoch from `begin`: the first chunk's, then the rest's. */
  lemma EpochTrainedSplit(order: seq<nat>, begin: nat, mb: nat)
    requires mb > 0 && begin < |order|
    ensures Trained(EpochEvents(order, begin, mb))
            == Trained(ChunkEvents(order, begin, mb)) + Trained(EpochEvents(order, begin + mb, mb))
  {
    EpochUnfold(order, begin, mb);
    TrainedAppend(ChunkEvents(order, begin, mb), EpochEvents(order, begin + mb, mb));
  }

  lemma {:induction false} EpochApplies(order: seq<nat>, begin: nat, mb: nat)
    requires mb > 0 && begin <= |order|
    ensures Applied(EpochEvents(order, begin, mb)) == |order| - begin
    decreases |order| - begin
  {
    if begin < |order| {
      EpochUnfold(order, begin, mb);
      ChunkApplies(order, begin, mb);
      AppliedAppend(ChunkEvents(order, begin, mb), EpochEvents(order, begin + mb, mb));
      if begin + mb <= |order| {
        EpochApplies(order, begin + mb, mb);
      }
    }
  }

  /** The first chunk of the loop from `begin`, then the loop from the next chunk. */
  lemma EpochUnfold(order: seq<nat>, begin: nat, mb: nat)
    requires mb > 0 && begin < |order|
    ensures EpochEvents(order, begin, mb) == ChunkEvents(order, begin, mb) + EpochEvents(order, begin + mb, mb)
  {
  }

  /** With a permutation as the order, each sample is trained exactly once per epoch. */
  lemma EachSampleOncePerEpoch(order: seq<nat>, n: nat, mb: nat)
    requires mb > 0 && IsPermutation(order, n)
    ensures multiset(Trained(EpochEvents(order, 0, mb))) == multiset(Identity(n))
    ensures Applied(EpochEvents(order, 0, mb)) == n
  {
    EpochCoversOrder(order, 0, mb);
    assert order[0..] == order;
    assert |order| == |Identity(n)| by {
      assert |multiset(order)| == |multiset(Identity(n))|;
    }
  }

  /**
   * `Network::trainInternal` without its logging: fails at once when the
   * input and target counts differ. Otherwise, for each epoch, the chunks of
   * `max(requested, 1)` positions of the epoch's order are cleared, trained
   * and applied in turn, and the epoch's entry in `losses` is the total of
   * the per-sample losses divided by the sample count. `sampleLoss[e][k]` is
   * the loss of the sample trained at position `k` of epoch `e`.
   *
   * The source divides the input count by `requested` for its progress
   * display and reads the first input in an assertion before any training,
   * so both must be meaningful.
   */
  method TrainInternal(inputCount: nat, targetCount: nat, requested: int, epochCount: nat,
                       shuffle: bool, perms: seq<seq<nat>>, sampleLoss: seq<seq<real>>)
    returns (ok: bool, events: seq<Event>, losses: seq<real>)
    requires inputCount == targetCount ==> inputCount > 0 && requested != 0
    requires inputCount == targetCount && shuffle ==>
               |perms| >= epochCount && forall e :: 0 <= e < epochCount ==> IsPermutation(perms[e], inputCount)
    requires inputCount == targetCount ==>
               |sampleLoss| >= epochCount && forall e :: 0 <= e < epochCount ==> |sampleLoss[e]| == inputCount
    ensures ok <==> inputCount == targetCount
    ensures !ok ==> events == [] && losses == []
    ensures ok ==> events == Schedule(Orders(shuffle, perms, inputCount, epochCount), if requested > 1 then requested else 1)
    ensures ok ==> |losses| == epochCount
                   && forall e :: 0 <= e < epochCount ==> losses[e] == Sum(sampleLoss[e]) / (inputCount as real)
  {
    if inputCount != targetCount {
      return false, [], [];
    }
    var n := inputCount;
    var mb: nat := if requested > 1 then requested else 1;
    var orders := Orders(shuffle, perms, n, epochCount);
    events := [];
    losses := seq(epochCount, _ => 0.0);
    var e := 0;
    while e < epochCount
      invariant 0 <= e <= epochCount && |losses| == epochCount
      invariant events == Schedule(orders[..e], mb)
      invariant forall f :: 0 <= f < e ==> losses[f] == Sum(sampleLoss[f]) / (n as real)
    {
      var order := if shuffle then perms[e] else Identity(n);
      assert order == orders[e];
      assert |order| == n by {
        if shuffle {
          assert |multiset(order)| == |multiset(Identity(n))|;
        }
      }
      var epochEvents, total := Epoch(order, mb, sampleLoss[e]);
      assert orders[..e + 1][..e] == orders[..e];
      events := events + epochEvents;
      losses := losses[e := total / (n as real)];
      e := e + 1;
    }
    assert orders[..epochCount] == orders;
    ok := true;
  }

  /** One epoch of `trainInternal`: the chunk loop and its running loss total. */
  method Epoch(order: seq<nat>, mb: nat, sampleLoss: seq<real>) returns (ev: seq<Event>, total: real)
    requires mb > 0 && |sampleLoss| == |order|
    ensures ev == EpochEvents(order, 0, mb)
    ensures total == Sum(sampleLoss)
  {
    var n := |order|;
    ev := [];
    total := 0.0;
    var begin := 0;
    while begin < n
      invariant ev + EpochEvents(order, begin, mb) == EpochEvents(order, 0, mb)
      invariant total == Sum(sampleLoss[..ChunkEnd(n, 0, begin)])
    {
      ev, total := ChunkStep(order, mb, sampleLoss, begin, ev, total);
      begin := begin + mb;
    }
    assert sampleLoss[..n] == sampleLoss;
  }

  /** One pass of the chunk loop: clear, train the chunk's positions, apply. */
  method ChunkStep(order: seq<nat>, mb: nat, sampleLoss: seq<real>, begin: nat, ev0: seq<Event>, total0: real)
    returns (ev: seq<Event>, total: real)
    requires mb > 0 && |sampleLoss| == |order| && begin < |order|
    requires ev0 + EpochEvents(order, begin, mb) == EpochEvents(order, 0, mb)
    requires total0 == Sum(sampleLoss[..ChunkEnd(|order|, 0, begin)])
    ensures ev + EpochEvents(order, begin + mb, mb) == EpochEvents(order, 0, mb)
    ensures total == Sum(sampleLoss[..ChunkEnd(|order|, 0, begin + mb)])
  {
    var n := |order|;
    var end := ChunkEnd(n, begin, mb);
    assert ChunkEnd(n, 0, begin) == begin;
    var train;
    train, total := TrainChunk(order, begin, end, sampleLoss, total0);
    var chunk := [Clear] + train + [Apply(n, end - begin)];
    EpochAdvance(order, begin, mb, ev0, chunk);
    ev := ev0 + chunk;
    assert ChunkEnd(n, 0, begin + mb) == end;
  }

  /** The loop step of `Epoch`: appending the chunk's events keeps the schedule's prefix. */
  lemma EpochAdvance(order: seq<nat>, begin: nat, mb: nat, ev: seq<Event>, chunk: seq<Event>)
    requires mb > 0 && begin < |order|
    requires chunk == [Clear] + ChunkTraining(order, begin, ChunkEnd(|order|, begin, mb))
                      + [Apply(|order|, ChunkEnd(|order|, begin, mb) - begin)]
    requires ev + EpochEvents(order, begin, mb) == EpochEvents(order, 0, mb)
    ensures (ev + chunk) + EpochEvents(order, begin + mb, mb) == EpochEvents(order, 0, mb)
  {
    assert EpochEvents(order, begin, mb) == chunk + EpochEvents(order, begin + mb, mb);
  }

  /** The sample loop of one chunk: train positions `begin .. end-1`, adding their losses to the running total. */
  method TrainChunk(order: seq<nat>, begin: nat, end: nat, sampleLoss: seq<real>, total0: real)
    returns (ev: seq<Event>, total: real)
    requires begin <= end <= |order| && |sampleLoss| == |order|
    requires total0 == Sum(sampleLoss[..begin])
    ensures ev == ChunkTraining(order, begin, end)
    ensures total == Sum(sampleLoss[..end])
  {
    ev := [];
    total := total0;
    var i := begin;
    while i < end
      invariant begin <= i <= end
      invariant ev == ChunkTraining(order, begin, i)
      invariant total == Sum(sampleLoss[..i])
    {
      ev := ev + [TrainSample(order[i])];
      assert sampleLoss[..i + 1][..i] == sampleLoss[..i];
      total := total + sampleLoss[i];
      i := i + 1;
    }
  }
}
