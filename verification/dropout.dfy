/**
 * The dropout layer of gxnet/layer.cpp (`DropoutLayer`). In training each
 * input is dropped when its uniform draw falls below the drop rate; the
 * draws, taken from a random source in the engine, are an input here. The
 * layer remembers which inputs it dropped in a mask kept in its context.
 */
module Dropout {
  import opened Sums
  import opened Tensor

  /** A dropout layer: its drop rate and whether it is in training mode. */
  datatype DropoutLayer = DropoutLayer(rate: real, training: bool)

  /** What `calcOutput` leaves in the context: the output and the mask. */
  datatype Forward = Forward(out: Span<real>, mask: seq<bool>)

  /** An input is dropped when its draw is below the drop rate. */
  predicate Dropped(rate: real, draw: real)
  {
    draw < rate
  }

  /**
   * Training reads one draw per input, and divides every kept input by
   * `1 - rate`: that divisor must not vanish for a kept input.
   */
  ghost predicate DrawsFit(layer: DropoutLayer, size: nat, draws: seq<real>)
  {
    layer.training ==>
      |draws| >= size
      && forall i :: 0 <= i < size && !Dropped(layer.rate, draws[i]) ==> layer.rate != 1.0
  }

  /** Output cell `i` in training: zero when dropped, scaled up by `1/(1 - rate)` when kept. */
  function TrainCell(rate: real, draw: real, x: real): real
    requires !Dropped(rate, draw) ==> rate != 1.0
  {
    if Dropped(rate, draw) then 0.0 else x / (1.0 - rate)
  }

  /**
   * `DropoutLayer::calcOutput`: the output takes the input's shape and the
   * mask is resized to the input's length (`std::vector<bool>::resize` keeps
   * the old entries and pads with `false`). In training every mask entry is
   * the input's drop decision; in inference the output is a copy of the
   * input and the mask keeps whatever the last training pass left.
   */
  function CalcOutput(layer: DropoutLayer, inp: Span<real>, mask: seq<bool>, draws: seq<real>): (r: Forward)
    requires DrawsFit(layer, |inp.data|, draws)
    ensures r.out.dims == inp.dims && |r.out.data| == |inp.data| && |r.mask| == |inp.data|
    ensures !layer.training ==> r.out.data == inp.data
    ensures !layer.training ==> forall i :: 0 <= i < |inp.data| ==> r.mask[i] == (i < |mask| && mask[i])
    ensures layer.training ==> forall i :: 0 <= i < |inp.data| ==>
              r.mask[i] == Dropped(layer.rate, draws[i])
              && r.out.data[i] == if r.mask[i] then 0.0 else inp.data[i] / (1.0 - layer.rate)
  {
    if layer.training then
      Forward(Span(seq(|inp.data|, i requires 0 <= i < |inp.data| => TrainCell(layer.rate, draws[i], inp.data[i])), inp.dims),
              seq(|inp.data|, i requires 0 <= i < |inp.data| => Dropped(layer.rate, draws[i])))
    else
      Forward(Span(inp.data, inp.dims), Resize(mask, |inp.data|, false))
  }

  /**
   * `DropoutLayer::backpropagate` as written: `inDelta[i]` becomes zero where
   * the mask is set and `delta[i]` elsewhere, for every `i` below the delta's
   * length; `inDelta` is not resized and keeps its entries past that length.
   */
  function Backpropagate(mask: seq<bool>, delta: seq<real>, inDelta: seq<real>): (r: seq<real>)
    requires |mask| >= |delta| && |inDelta| >= |delta|
    ensures |r| == |inDelta|
    ensures forall i :: 0 <= i < |delta| ==> r[i] == if mask[i] then 0.0 else delta[i]
    ensures forall i :: |delta| <= i < |inDelta| ==> r[i] == inDelta[i]
  {
    seq(|inDelta|, i requires 0 <= i < |inDelta| => if i < |delta| then (if mask[i] then 0.0 else delta[i]) else inDelta[i])
  }

  /**
   * The chain rule through the training forward: a kept input's output moves
   * by `1/(1 - rate)` per unit of input, so its delta is scaled by the same
   * factor; a dropped input gets zero.
   */
  function BackpropagateScaled(rate: real, mask: seq<bool>, delta: seq<real>): (r: seq<real>)
    requires |mask| >= |delta|
    requires (exists i :: 0 <= i < |delta| && !mask[i]) ==> rate != 1.0
    ensures |r| == |delta|
    ensures forall i :: 0 <= i < |delta| ==> r[i] == if mask[i] then 0.0 else delta[i] / (1.0 - rate)
  {
    seq(|delta|, i requires 0 <= i < |delta| => if mask[i] then 0.0 else delta[i] / (1.0 - rate))
  }

  /** The componentwise difference `b - a`. */
  function Diff(a: seq<real>, b: seq<real>): (d: seq<real>)
    requires |a| == |b|
    ensures |d| == |a|
    ensures forall i :: 0 <= i < |a| ==> d[i] == b[i] - a[i]
  {
    seq(|a|, i requires 0 <= i < |a| => b[i] - a[i])
  }

  /** One term of the adjoint identity: `d * (x'/(1-r) - x/(1-r)) == (d/(1-r)) * (x' - x)`. */
  lemma ScaledTerm(d: real, x: real, x': real, r: real)
    requires r != 1.0
    ensures d * (x' / (1.0 - r) - x / (1.0 - r)) == (d / (1.0 - r)) * (x' - x)
  {
    var k := 1.0 - r;
    assert x' / k - x / k == (x' - x) / k;
    assert d * ((x' - x) / k) == (d / k) * (x' - x);
  }

  /**
   * Backpropagation is the adjoint of the training forward: for the same
   * draws, the output change of any two inputs weighted by the delta equals
   * the input change weighted by the scaled input delta.
   */
  lemma ScaledBackpropagateIsAdjoint(layer: DropoutLayer, inp: Span<real>, inp': Span<real>, mask: seq<bool>,
                                     draws: seq<real>, delta: seq<real>)
    requires layer.training && |inp'.data| == |inp.data| && |delta| == |inp.data|
    requires DrawsFit(layer, |inp.data|, draws)
    ensures |CalcOutput(layer, inp, mask, draws).mask| >= |delta|
    ensures (exists i :: 0 <= i < |delta| && !CalcOutput(layer, inp, mask, draws).mask[i]) ==> layer.rate != 1.0
    ensures Dot(delta, Diff(CalcOutput(layer, inp, mask, draws).out.data, CalcOutput(layer, inp', mask, draws).out.data))
            == Dot(BackpropagateScaled(layer.rate, CalcOutput(layer, inp, mask, draws).mask, delta), Diff(inp.data, inp'.data))
  {
    var f, f' := CalcOutput(layer, inp, mask, draws), CalcOutput(layer, inp', mask, draws);
    var g := BackpropagateScaled(layer.rate, f.mask, delta);
    var lhs := Products(delta, Diff(f.out.data, f'.out.data));
    var rhs := Products(g, Diff(inp.data, inp'.data));
    forall i | 0 <= i < |delta|
      ensures lhs[i] == rhs[i]
    {
      if !f.mask[i] {
        ScaledTerm(delta[i], inp.data[i], inp'.data[i], layer.rate);
      }
    }
    assert lhs == rhs;
  }

  /**
   * The delta as written is not the adjoint of the training forward: with
   * rate 0.5, one kept input moving from 0 to 1 and a unit delta, the
   * output moves by 2 but the propagated delta accounts for 1.
   */
  lemma BackpropagateMissesScale(layer: DropoutLayer, inp: Span<real>, inp': Span<real>, draws: seq<real>, delta: seq<real>)
    requires layer == DropoutLayer(0.5, true)
    requires inp == Span([0.0], [1]) && inp' == Span([1.0], [1]) && draws == [0.75] && delta == [1.0]
    ensures Dot(delta, Diff(CalcOutput(layer, inp, [], draws).out.data, CalcOutput(layer, inp', [], draws).out.data)) == 2.0
    ensures Dot(Backpropagate(CalcOutput(layer, inp, [], draws).mask, delta, [0.0]), Diff(inp.data, inp'.data)) == 1.0
  {
    var f, f' := CalcOutput(layer, inp, [], draws), CalcOutput(layer, inp', [], draws);
    assert f.out.data == [0.0] && f'.out.data == [2.0] && f.mask == [false];
    var b := Backpropagate(f.mask, delta, [0.0]);
    assert b == [1.0];
    assert Products(delta, Diff(f.out.data, f'.out.data)) == [2.0];
    assert Products(b, Diff(inp.data, inp'.data)) == [1.0];
    SumSingle(2.0);
    SumSingle(1.0);
  }

  lemma SumSingle(v: real)
    ensures Sum([v]) == v
  {
    assert [v][..0] == [];
  }

  /** In training the mask and the output agree: a dropped input outputs zero, a kept one its scaled value. */
  lemma MaskMatchesOutput(layer: DropoutLayer, inp: Span<real>, mask: seq<bool>, draws: seq<real>, i: nat)
    requires layer.training && DrawsFit(layer, |inp.data|, draws) && i < |inp.data|
    ensures var f := CalcOutput(layer, inp, mask, draws);
            (f.mask[i] ==> f.out.data[i] == 0.0)
            && (!f.mask[i] ==> f.out.data[i] * (1.0 - layer.rate) == inp.data[i])
  {
    var f := CalcOutput(layer, inp, mask, draws);
    if !f.mask[i] {
      var k := 1.0 - layer.rate;
      assert (inp.data[i] / k) * k == inp.data[i];
    }
  }
}
