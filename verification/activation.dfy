/**
 * Activation functions of gxnet/activation.cpp.  The forward pass is
 * modelled for the piecewise-linear leaky ReLU only; the derivative pass is
 * modelled for all four kinds, because every derivative is written in terms
 * of the stored activation output `y` and is polynomial in it.
 */
module Activation {
  import opened Sums

  /** The activation kind codes of `ActFunc`. */
  const SIGMOID: int := 1
  const LEAKY_RELU: int := 2
  const TANH: int := 3
  const SOFTMAX: int := 4

  // ---------------------------------------------------------------------------
  // Leaky ReLU

  /** The leaky ReLU with a kink at 0 and at 1: slope 0.01 outside `[0, 1]`, identity inside. */
  function Leaky(x: real): real
  {
    if x < 0.0 then 0.01 * x
    else if x > 1.0 then 1.0 + 0.01 * (x - 1.0)
    else x
  }

  /**
   * `activate` for the leaky ReLU, applied in place to the layer output: only
   * entries outside `[0, 1]` are rewritten, the others keep their value.
   */
  function LeakyActivate(v: seq<real>): (r: seq<real>)
    ensures |r| == |v|
    ensures forall i :: 0 <= i < |v| ==> r[i] == Leaky(v[i])
  {
    seq(|v|, i requires 0 <= i < |v| => if v[i] < 0.0 then 0.01 * v[i] else if v[i] > 1.0 then 1.0 + 0.01 * (v[i] - 1.0) else v[i])
  }

  /** The leaky ReLU is strictly increasing, and continuous at both kinks. */
  lemma LeakyIncreasing(x: real, z: real)
    requires x < z
    ensures Leaky(x) < Leaky(z)
  {
  }

  /** The leaky ReLU keeps each of the three pieces of its domain: negative, `[0, 1]`, above 1. */
  lemma LeakyKeepsPieces(x: real)
    ensures Leaky(x) < 0.0 <==> x < 0.0
    ensures Leaky(x) > 1.0 <==> x > 1.0
  {
  }

  /** The slope of the leaky ReLU at `x`. */
  function LeakySlope(x: real): real
  {
    if x < 0.0 || x > 1.0 then 0.01 else 1.0
  }

  /**
   * The derivative code tests the stored output `y = Leaky(x)`, not the input;
   * because the leaky ReLU keeps its pieces, this gives the true slope at `x`.
   */
  lemma LeakyFactorFromOutput(x: real)
    ensures (if Leaky(x) < 0.0 || Leaky(x) > 1.0 then 0.01 else 1.0) == LeakySlope(x)
  {
    LeakyKeepsPieces(x);
  }

  // ---------------------------------------------------------------------------
  // Derivatives

  /** Column `j` of the softmax Jacobian: `y_j (1 - y_j)` on the diagonal, `-y_k y_j` elsewhere. */
  function SoftmaxJacobianRow(y: seq<real>, j: nat): (row: seq<real>)
    requires j < |y|
    ensures |row| == |y|
    ensures row[j] == y[j] * (1.0 - y[j])
    ensures forall k :: 0 <= k < |y| && k != j ==> row[k] == -y[k] * y[j]
  {
    seq(|y|, k requires 0 <= k < |y| => if k == j then y[j] * (1.0 - y[j]) else -y[k] * y[j])
  }

  /**
   * `derivate(output, outDelta)`: multiplies the incoming delta by the
   * activation's derivative, expressed in the stored output `y`.  A code that
   * is none of the four kinds leaves the delta as it is.
   */
  function Derivate(kind: int, y: seq<real>, delta: seq<real>): (r: seq<real>)
    requires |delta| == |y|
    ensures |r| == |delta|
    ensures kind == SIGMOID ==> forall i :: 0 <= i < |y| ==> r[i] == y[i] * (1.0 - y[i]) * delta[i]
    ensures kind == LEAKY_RELU ==> forall i :: 0 <= i < |y| ==> r[i] == delta[i] * (if y[i] < 0.0 || y[i] > 1.0 then 0.01 else 1.0)
    ensures kind == TANH ==> forall i :: 0 <= i < |y| ==> r[i] == delta[i] * (1.0 - y[i] * y[i])
    ensures kind == SOFTMAX ==> forall j :: 0 <= j < |y| ==> r[j] == Dot(delta, SoftmaxJacobianRow(y, j))
    ensures kind !in {SIGMOID, LEAKY_RELU, TANH, SOFTMAX} ==> r == delta
  {
    if kind == SIGMOID then seq(|y|, i requires 0 <= i < |y| => y[i] * (1.0 - y[i]) * delta[i])
    else if kind == LEAKY_RELU then seq(|y|, i requires 0 <= i < |y| => delta[i] * (if y[i] < 0.0 || y[i] > 1.0 then 0.01 else 1.0))
    else if kind == TANH then seq(|y|, i requires 0 <= i < |y| => delta[i] * (1.0 - y[i] * y[i]))
    else if kind == SOFTMAX then SoftmaxDerivate(y, delta)
    else delta
  }

  /**
   * The softmax branch as the source runs it: a snapshot `dOutput` of the
   * delta is taken first, then `outDelta[j]` is overwritten for each `j` in
   * turn with the dot product of the snapshot and Jacobian column `j`.
   */
  function SoftmaxDerivate(y: seq<real>, delta: seq<real>): (r: seq<real>)
    requires |delta| == |y|
    ensures |r| == |y|
    ensures forall j :: 0 <= j < |y| ==> r[j] == Dot(delta, SoftmaxJacobianRow(y, j))
  {
    SoftmaxLoop(y, delta, delta, |y|)
  }

  /** The first `n` iterations of the softmax `j` loop, writing into `cur` while reading the snapshot. */
  function SoftmaxLoop(y: seq<real>, snapshot: seq<real>, cur: seq<real>, n: nat): (r: seq<real>)
    requires |snapshot| == |y| && |cur| == |y| && n <= |y|
    ensures |r| == |y|
    ensures forall j :: 0 <= j < n ==> r[j] == Dot(snapshot, SoftmaxJacobianRow(y, j))
    ensures forall j :: n <= j < |y| ==> r[j] == cur[j]
    decreases n
  {
    if n == 0 then cur
    else
      var prev := SoftmaxLoop(y, snapshot, cur, n - 1);
      prev[n - 1 := Dot(snapshot, SoftmaxJacobianRow(y, n - 1))]
  }

  /** A sum whose terms vanish except at `j` is the term at `j`. */
  lemma {:induction false} SumSpike(s: seq<real>, j: nat)
    requires j < |s|
    requires forall k :: 0 <= k < |s| && k != j ==> s[k] == 0.0
    ensures Sum(s) == s[j]
  {
    var n := |s| - 1;
    if n == j {
      SumZeros(n);
      assert s[..n] == seq(n, i => 0.0);
    } else {
      SumSpike(s[..n], j);
    }
  }

  /**
   * The softmax derivative in closed form: `delta'_j = y_j * (delta_j - y . delta)`,
   * the familiar vector-Jacobian product of the softmax.
   */
  lemma SoftmaxClosedForm(y: seq<real>, delta: seq<real>, j: nat)
    requires |delta| == |y| && j < |y|
    ensures Derivate(SOFTMAX, y, delta)[j] == y[j] * (delta[j] - Dot(y, delta))
  {
    JacobianColumnClosedForm(y, delta, j);
  }

  /** Jacobian column `j` weighted by the delta, in closed form. */
  lemma JacobianColumnClosedForm(y: seq<real>, delta: seq<real>, j: nat)
    requires |delta| == |y| && j < |y|
    ensures Dot(delta, SoftmaxJacobianRow(y, j)) == y[j] * (delta[j] - Dot(y, delta))
  {
    JacobianRowFactors(y, delta, j);
    CenteredDot(y, delta, j);
    FactorChain(Dot(delta, SoftmaxJacobianRow(y, j)), y[j], Dot(delta, Centered(y, j)), delta[j], Dot(y, delta));
  }

  lemma FactorChain(w: real, k: real, c: real, dj: real, e: real)
    requires w == k * c && c == dj - e
    ensures w == k * (dj - e)
  {
  }

  /** Jacobian column `j` divided by `y_j`: one at `j`, less `y`. */
  function Centered(y: seq<real>, j: nat): (u: seq<real>)
    requires j < |y|
    ensures |u| == |y| && u[j] == 1.0 - y[j]
    ensures forall k :: 0 <= k < |y| && k != j ==> u[k] == -y[k]
  {
    seq(|y|, k requires 0 <= k < |y| => if k == j then 1.0 - y[j] else -y[k])
  }

  /** The sequence of length `n` that is `v` at `j` and zero elsewhere. */
  function Spike(n: nat, j: nat, v: real): (r: seq<real>)
    requires j < n
    ensures |r| == n && r[j] == v
    ensures forall k :: 0 <= k < n && k != j ==> r[k] == 0.0
  {
    seq(n, k requires 0 <= k < n => if k == j then v else 0.0)
  }

  /** The common factor `y_j` comes out of the weighted Jacobian column. */
  lemma JacobianRowFactors(y: seq<real>, delta: seq<real>, j: nat)
    requires |delta| == |y| && j < |y|
    ensures Dot(delta, SoftmaxJacobianRow(y, j)) == y[j] * Dot(delta, Centered(y, j))
  {
    JacobianRowIsScaled(y, j);
    DotScaled(delta, SoftmaxJacobianRow(y, j), Centered(y, j), y[j]);
  }

  /** Jacobian column `j` is `y_j` times the centred column. */
  lemma JacobianRowIsScaled(y: seq<real>, j: nat)
    requires j < |y|
    ensures forall k :: 0 <= k < |y| ==> SoftmaxJacobianRow(y, j)[k] == y[j] * Centered(y, j)[k]
  {
  }

  /** The centred column weighted by the delta is `delta_j - y . delta`. */
  lemma CenteredDot(y: seq<real>, delta: seq<real>, j: nat)
    requires |delta| == |y| && j < |y|
    ensures Dot(delta, Centered(y, j)) == delta[j] - Dot(y, delta)
  {
    CenteredDotFlipped(y, delta, j);
    DotCommutes(delta, y);
  }

  lemma CenteredDotFlipped(y: seq<real>, delta: seq<real>, j: nat)
    requires |delta| == |y| && j < |y|
    ensures Dot(delta, Centered(y, j)) == delta[j] - Dot(delta, y)
  {
    var c, p, s := Products(delta, Centered(y, j)), Products(delta, y), Spike(|y|, j, delta[j]);
    forall k | 0 <= k < |y|
      ensures s[k] == c[k] + p[k]
    {
      if k == j {
        CenteredTerm(delta[j], y[j], 1.0);
      } else {
        CenteredTerm(delta[k], y[k], 0.0);
      }
    }
    SumAdd(c, p, s);
    SumSpike(s, j);
  }

  lemma CenteredTerm(d: real, y: real, e: real)
    ensures d * e == d * (e - y) + d * y
  {
  }


  /** On the sigmoid's range `(0, 1)` the factor `y (1 - y)` lies in `(0, 1/4]`. */
  lemma SigmoidFactorBounds(y: real)
    requires 0.0 < y < 1.0
    ensures 0.0 < y * (1.0 - y) <= 0.25
  {
    assert 0.25 - y * (1.0 - y) == (y - 0.5) * (y - 0.5);
  }

  /** On the tanh range `(-1, 1)` the factor `1 - y^2` lies in `(0, 1]`. */
  lemma TanhFactorBounds(y: real)
    requires -1.0 < y < 1.0
    ensures 0.0 < 1.0 - y * y <= 1.0
  {
    assert 1.0 - y * y == (1.0 - y) * (1.0 + y);
  }
}
