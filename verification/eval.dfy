/**
 * The evaluation of gxnet/eval.cpp (`gx_eval`): classify every sample by the
 * first largest output and the first largest target, count the hits, and
 * build the confusion matrix, row `target class`, column `output class`,
 * normalised by the number of samples of each target class.
 *
 * The forward pass is a parameter: whether it succeeded, and the output rows
 * it produced.  Printing is not modelled; the report is what gets printed.
 */
module Eval {
  import opened Sums
  import opened Utils
  import opened Options

  /** What the sample loop of `gx_eval` accumulates: the hit count, the raw confusion counts and the class totals. */
  datatype Tally = Tally(correct: nat, confusion: seq<seq<real>>, totals: seq<real>)

  /** What `gx_eval` reports: the hit count and the normalised confusion matrix. */
  datatype Report = Report(correct: nat, confusion: seq<seq<real>>)

  /** A `k` x `k` matrix. */
  ghost predicate IsSquare(m: seq<seq<real>>, k: nat)
  {
    |m| == k && forall i :: 0 <= i < k ==> |m[i]| == k
  }

  /** The diagonal of a square matrix. */
  function Diagonal(m: seq<seq<real>>): (d: seq<real>)
    requires IsSquare(m, |m|)
    ensures |d| == |m| && forall i :: 0 <= i < |m| ==> d[i] == m[i][i]
  {
    seq(|m|, i requires 0 <= i < |m| => m[i][i])
  }

  function Zeros(n: nat): (z: seq<real>)
    ensures |z| == n && Sum(z) == 0.0 && forall i :: 0 <= i < n ==> z[i] == 0.0
  {
    SumZeros(n);
    seq(n, _ => 0.0)
  }

  /** The number of classes: the length of the first target row. */
  function Classes(target: seq<seq<real>>): nat
    requires |target| > 0
  {
    |target[0]|
  }

  /**
   * What the loop needs of its inputs: a first target row to size the
   * matrix from, a target row for every output row, and classes (first
   * maxima) that index the `classes` x `classes` matrix.
   */
  ghost predicate EvalShapes(output: seq<seq<real>>, target: seq<seq<real>>)
  {
    |target| > 0 && |output| <= |target|
    && forall i :: 0 <= i < |output| ==>
         MaxIndex(output[i]) < Classes(target) && MaxIndex(target[i]) < Classes(target)
  }

  /**
   * The bookkeeping after `n` samples: a square matrix of non-negative counts
   * whose rows add up to the class totals, totals that add up to `n`, and a
   * hit count equal to the trace.
   */
  ghost predicate TallyInv(t: Tally, k: nat, n: nat)
  {
    IsSquare(t.confusion, k) && |t.totals| == k
    && (forall g, o :: 0 <= g < k && 0 <= o < k ==> t.confusion[g][o] >= 0.0)
    && (forall g :: 0 <= g < k ==> Sum(t.confusion[g]) == t.totals[g])
    && Sum(t.totals) == n as real
    && t.correct as real == Sum(Diagonal(t.confusion))
  }

  /** The loop body for one sample of target class `g` and output class `o`. */
  function Bump(t: Tally, g: nat, o: nat): Tally
    requires g < |t.confusion| && o < |t.confusion[g]| && g < |t.totals|
  {
    Tally(t.correct + (if g == o then 1 else 0),
          t.confusion[g := t.confusion[g][o := t.confusion[g][o] + 1.0]],
          t.totals[g := t.totals[g] + 1.0])
  }

  /** One sample keeps the bookkeeping, with one more sample counted. */
  lemma BumpKeeps(t: Tally, k: nat, n: nat, g: nat, o: nat)
    requires TallyInv(t, k, n) && g < k && o < k
    ensures TallyInv(Bump(t, g, o), k, n + 1)
  {
    var u := Bump(t, g, o);
    SumUpdate(t.confusion[g], o, t.confusion[g][o] + 1.0);
    assert u.confusion[g] == t.confusion[g][o := t.confusion[g][o] + 1.0];
    SumUpdate(t.totals, g, t.totals[g] + 1.0);
    var d := Diagonal(t.confusion);
    if g == o {
      assert Diagonal(u.confusion) == d[g := d[g] + 1.0];
      SumUpdate(d, g, d[g] + 1.0);
    } else {
      assert Diagonal(u.confusion) == d;
    }
  }

  /**
   * The sample loop of `gx_eval` over the first `n` output rows: each sample
   * adds one to its cell of the confusion matrix and to its class total, and
   * one hit when the two classes agree.
   */
  function Counts(output: seq<seq<real>>, target: seq<seq<real>>, n: nat): (t: Tally)
    requires EvalShapes(output, target) && n <= |output|
    ensures IsSquare(t.confusion, Classes(target)) && |t.totals| == Classes(target)
  {
    var k := Classes(target);
    if n == 0 then
      Tally(0, seq(k, _ => Zeros(k)), Zeros(k))
    else
      Bump(Counts(output, target, n - 1), MaxIndex(target[n - 1]), MaxIndex(output[n - 1]))
  }

  /** The loop keeps its bookkeeping consistent sample by sample. */
  lemma {:induction false} CountsInv(output: seq<seq<real>>, target: seq<seq<real>>, n: nat)
    requires EvalShapes(output, target) && n <= |output|
    ensures TallyInv(Counts(output, target, n), Classes(target), n)
  {
    var k := Classes(target);
    if n == 0 {
      var z := Zeros(k);
      assert Counts(output, target, 0) == Tally(0, seq(k, _ => z), z);
      assert Diagonal(seq(k, _ => z)) == z;
    } else {
      CountsInv(output, target, n - 1);
      BumpKeeps(Counts(output, target, n - 1), k, n - 1, MaxIndex(target[n - 1]), MaxIndex(output[n - 1]));
    }
  }

  // ---------------------------------------------------------------------------
  // The counts, one cell at a time

  /** How many of the first `n` samples have target class `g` and output class `o`. */
  function PairCount(output: seq<seq<real>>, target: seq<seq<real>>, n: nat, g: nat, o: nat): nat
    requires n <= |output| <= |target|
  {
    if n == 0 then 0
    else PairCount(output, target, n - 1, g, o)
         + (if MaxIndex(target[n - 1]) == g && MaxIndex(output[n - 1]) == o then 1 else 0)
  }

  /** How many of the first `n` samples have target class `g`. */
  function ClassCount(output: seq<seq<real>>, target: seq<seq<real>>, n: nat, g: nat): nat
    requires n <= |output| <= |target|
  {
    if n == 0 then 0 else ClassCount(output, target, n - 1, g) + (if MaxIndex(target[n - 1]) == g then 1 else 0)
  }

  /** How many of the first `n` samples are classified right. */
  function HitCount(output: seq<seq<real>>, target: seq<seq<real>>, n: nat): nat
    requires n <= |output| <= |target|
  {
    if n == 0 then 0
    else HitCount(output, target, n - 1) + (if MaxIndex(target[n - 1]) == MaxIndex(output[n - 1]) then 1 else 0)
  }

  /** Each cell, total and the hit count of the loop is the number of samples it stands for. */
  lemma CountsAreCounts(output: seq<seq<real>>, target: seq<seq<real>>, n: nat)
    requires EvalShapes(output, target) && n <= |output|
    ensures var t, k := Counts(output, target, n), Classes(target);
            t.correct == HitCount(output, target, n)
            && (forall g :: 0 <= g < k ==> t.totals[g] == ClassCount(output, target, n, g) as real)
            && (forall g, o :: 0 <= g < k && 0 <= o < k ==>
                  t.confusion[g][o] == PairCount(output, target, n, g, o) as real)
  {
    HitsAreCounted(output, target, n);
    TotalsAreCounted(output, target, n);
    CellsAreCounted(output, target, n);
  }

  /** One more sample is one more `Bump`. */
  lemma CountsStep(output: seq<seq<real>>, target: seq<seq<real>>, n: nat)
    requires EvalShapes(output, target) && 0 < n <= |output|
    ensures Counts(output, target, n)
            == Bump(Counts(output, target, n - 1), MaxIndex(target[n - 1]), MaxIndex(output[n - 1]))
  {
  }

  lemma {:induction false} HitsAreCounted(output: seq<seq<real>>, target: seq<seq<real>>, n: nat)
    requires EvalShapes(output, target) && n <= |output|
    ensures Counts(output, target, n).correct == HitCount(output, target, n)
  {
    if n > 0 {
      CountsStep(output, target, n);
      HitsAreCounted(output, target, n - 1);
    }
  }

  lemma {:induction false} TotalsAreCounted(output: seq<seq<real>>, target: seq<seq<real>>, n: nat)
    requires EvalShapes(output, target) && n <= |output|
    ensures forall g :: 0 <= g < Classes(target) ==>
              Counts(output, target, n).totals[g] == ClassCount(output, target, n, g) as real
  {
    if n > 0 {
      CountsStep(output, target, n);
      TotalsAreCounted(output, target, n - 1);
    }
  }

  lemma {:induction false} CellsAreCounted(output: seq<seq<real>>, target: seq<seq<real>>, n: nat)
    requires EvalShapes(output, target) && n <= |output|
    ensures forall g, o :: 0 <= g < Classes(target) && 0 <= o < Classes(target) ==>
              Counts(output, target, n).confusion[g][o] == PairCount(output, target, n, g, o) as real
  {
    if n > 0 {
      CountsStep(output, target, n);
      CellsAreCounted(output, target, n - 1);
    }
  }

  /** The hit count never exceeds the number of samples. */
  lemma {:induction false} HitsAtMostSamples(output: seq<seq<real>>, target: seq<seq<real>>, n: nat)
    requires n <= |output| <= |target|
    ensures HitCount(output, target, n) <= n
  {
    if n > 0 {
      HitsAtMostSamples(output, target, n - 1);
    }
  }

  // ---------------------------------------------------------------------------
  // Normalisation and the report

  /** Each row divided by its class total, or by 1 for a class with no samples. */
  function Normalise(t: Tally): (m: seq<seq<real>>)
    requires IsSquare(t.confusion, |t.totals|)
    ensures IsSquare(m, |t.totals|)
    ensures forall g, o :: 0 <= g < |m| && 0 <= o < |m| ==>
              m[g][o] == t.confusion[g][o] / (if t.totals[g] != 0.0 then t.totals[g] else 1.0)
  {
    seq(|t.totals|, g requires 0 <= g < |t.totals| =>
      seq(|t.totals|, o requires 0 <= o < |t.totals| =>
        t.confusion[g][o] / (if t.totals[g] != 0.0 then t.totals[g] else 1.0)))
  }

  /**
   * After normalisation every row of a class with samples adds up to one,
   * and every row of a class without samples is zero.
   */
  lemma NormaliseRows(t: Tally, k: nat, n: nat)
    requires TallyInv(t, k, n)
    ensures forall g :: 0 <= g < k && t.totals[g] != 0.0 ==> Sum(Normalise(t)[g]) == 1.0
    ensures forall g, o :: 0 <= g < k && 0 <= o < k && t.totals[g] == 0.0 ==> Normalise(t)[g][o] == 0.0
  {
    var m := Normalise(t);
    forall g | 0 <= g < k && t.totals[g] != 0.0
      ensures Sum(m[g]) == 1.0
    {
      var T := t.totals[g];
      forall o | 0 <= o < k
        ensures m[g][o] == (1.0 / T) * t.confusion[g][o]
      {
        DivIsScale(t.confusion[g][o], T);
      }
      SumScale(t.confusion[g], 1.0 / T, m[g]);
      DivIsScale(T, T);
    }
    forall g | 0 <= g < k && t.totals[g] == 0.0
      ensures forall o :: 0 <= o < k ==> m[g][o] == 0.0
    {
      SumZeroIff(t.confusion[g]);
    }
  }

  lemma DivIsScale(a: real, T: real)
    requires T != 0.0
    ensures a / T == (1.0 / T) * a
  {
  }

  /**
   * `gx_eval`: nothing when the forward pass fails; otherwise the hit count,
   * which is the number of samples whose two classes agree and at most the
   * number of samples, and the confusion matrix, whose cells count the
   * samples of each (target, output) class pair and whose rows are divided
   * by their class totals.
   */
  function Evaluate(forwardOk: bool, output: seq<seq<real>>, target: seq<seq<real>>): (r: Option<Report>)
    requires |target| > 0
    requires forwardOk ==> EvalShapes(output, target)
    ensures r.None? <==> !forwardOk
    ensures r.Some? ==> r.value.correct == HitCount(output, target, |output|) <= |output|
    ensures r.Some? ==> var k := Classes(target);
            IsSquare(r.value.confusion, k)
            && forall g :: 0 <= g < k ==>
                 if ClassCount(output, target, |output|, g) == 0
                 then forall o :: 0 <= o < k ==> r.value.confusion[g][o] == 0.0
                 else Sum(r.value.confusion[g]) == 1.0
                      && forall o :: 0 <= o < k ==>
                           r.value.confusion[g][o]
                           == PairCount(output, target, |output|, g, o) as real
                              / ClassCount(output, target, |output|, g) as real
  {
    if !forwardOk then None
    else
      var t := Counts(output, target, |output|);
      CountsInv(output, target, |output|);
      CountsAreCounts(output, target, |output|);
      HitsAtMostSamples(output, target, |output|);
      NormaliseRows(t, Classes(target), |output|);
      Some(Report(t.correct, Normalise(t)))
  }
}
