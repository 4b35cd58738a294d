/**
 * Exact-arithmetic building blocks shared by the kernels and the layers:
 * left-to-right sums (the order in which every accumulation loop of the
 * engine adds), dot products, and the row-major flattening of nested
 * sequences that every "write C(i, j, ...)" loop nest produces.
 */
module Sums {

  /** Sequential sum `((0 + s[0]) + s[1]) + ...`, as an accumulation loop computes it. */
  function Sum(s: seq<real>): real
  {
    if |s| == 0 then 0.0 else Sum(s[..|s| - 1]) + s[|s| - 1]
  }

  /** The pointwise products `a[i] * b[i]`. */
  function Products(a: seq<real>, b: seq<real>): (r: seq<real>)
    requires |a| == |b|
    ensures |r| == |a|
    ensures forall i :: 0 <= i < |a| ==> r[i] == a[i] * b[i]
  {
    seq(|a|, i requires 0 <= i < |a| => a[i] * b[i])
  }

  /** Exact inner product: the sum of the pointwise products. */
  function Dot(a: seq<real>, b: seq<real>): real
    requires |a| == |b|
  {
    Sum(Products(a, b))
  }

  lemma {:induction false} SumAppend(a: seq<real>, b: seq<real>)
    ensures Sum(a + b) == Sum(a) + Sum(b)
  {
    if |b| == 0 {
      assert a + b == a;
    } else {
      assert (a + b)[..|a + b| - 1] == a + b[..|b| - 1];
      SumAppend(a, b[..|b| - 1]);
    }
  }

  lemma {:induction false} SumZeros(n: nat)
    ensures Sum(seq(n, i => 0.0)) == 0.0
  {
    if n > 0 {
      assert seq(n, i => 0.0)[..n - 1] == seq(n - 1, i => 0.0);
      SumZeros(n - 1);
    }
  }

  /** Sums of equal length add pointwise. */
  lemma {:induction false} SumAdd(a: seq<real>, b: seq<real>, c: seq<real>)
    requires |a| == |b| == |c|
    requires forall i :: 0 <= i < |c| ==> c[i] == a[i] + b[i]
    ensures Sum(c) == Sum(a) + Sum(b)
  {
    if |c| > 0 {
      var n := |c| - 1;
      SumAdd(a[..n], b[..n], c[..n]);
    }
  }

  /** A sum scales with a common factor. */
  lemma {:induction false} SumScale(a: seq<real>, k: real, c: seq<real>)
    requires |a| == |c|
    requires forall i :: 0 <= i < |c| ==> c[i] == k * a[i]
    ensures Sum(c) == k * Sum(a)
  {
    if |c| > 0 {
      var n := |c| - 1;
      SumScale(a[..n], k, c[..n]);
    }
  }

  /** When `b` is `k` times `c` termwise, the factor comes out of the dot product with `a`. */
  lemma DotScaled(a: seq<real>, b: seq<real>, c: seq<real>, k: real)
    requires |a| == |b| == |c|
    requires forall i :: 0 <= i < |b| ==> b[i] == k * c[i]
    ensures Dot(a, b) == k * Dot(a, c)
  {
    forall i | 0 <= i < |a|
      ensures Products(a, b)[i] == k * Products(a, c)[i]
    {
      MulLeftCommutes(a[i], k, c[i]);
    }
    SumScale(Products(a, c), k, Products(a, b));
  }

  /** A term that is the product `a * b` is the product of any values equal to `a` and `b`. */
  lemma MulCongruent(t: real, a: real, b: real, a2: real, b2: real)
    requires t == a * b && a == a2 && b == b2
    ensures t == a2 * b2
  {
  }

  lemma MulLeftCommutes(x: real, k: real, z: real)
    ensures x * (k * z) == k * (x * z)
  {
  }

  /** Replacing one term changes the sum by the difference. */
  lemma SumUpdate(s: seq<real>, k: nat, v: real)
    requires k < |s|
    ensures Sum(s[k := v]) == Sum(s) - s[k] + v
  {
    var a, b := s[..k], s[k + 1..];
    assert s == a + [s[k]] + b;
    assert s[k := v] == a + [v] + b;
    SumAppend(a + [s[k]], b);
    SumAppend(a, [s[k]]);
    SumAppend(a + [v], b);
    SumAppend(a, [v]);
    assert Sum([s[k]]) == s[k] && Sum([v]) == v by {
      assert [s[k]][..0] == [] && [v][..0] == [];
    }
  }

  /** A sum of non-negative terms is never negative. */
  lemma {:induction false} SumNonNegative(s: seq<real>)
    requires forall i :: 0 <= i < |s| ==> s[i] >= 0.0
    ensures Sum(s) >= 0.0
  {
    if |s| > 0 {
      SumNonNegative(s[..|s| - 1]);
    }
  }

  /** `n` copies of `v` added up: `n * v` without a product of two unknowns. */
  function Scaled(n: nat, v: real): real
  {
    if n == 0 then 0.0 else Scaled(n - 1, v) + v
  }

  lemma {:induction false} ScaledIsProduct(n: nat, v: real)
    ensures Scaled(n, v) == (n as real) * v
  {
    if n > 0 {
      ScaledIsProduct(n - 1, v);
    }
  }

  /** Terms between `lo` and `hi` give a sum between `|s|` copies of `lo` and `|s|` copies of `hi`. */
  lemma {:induction false} SumBounds(s: seq<real>, lo: real, hi: real)
    requires forall i :: 0 <= i < |s| ==> lo <= s[i] <= hi
    ensures Scaled(|s|, lo) <= Sum(s) <= Scaled(|s|, hi)
  {
    if |s| > 0 {
      SumBounds(s[..|s| - 1], lo, hi);
    }
  }

  /** A sum of non-negative terms is zero exactly when every term is. */
  lemma {:induction false} SumZeroIff(s: seq<real>)
    requires forall i :: 0 <= i < |s| ==> s[i] >= 0.0
    ensures Sum(s) == 0.0 <==> forall i :: 0 <= i < |s| ==> s[i] == 0.0
  {
    if |s| > 0 {
      var n := |s| - 1;
      SumNonNegative(s[..n]);
      SumZeroIff(s[..n]);
      if Sum(s) == 0.0 {
        assert s[n] == 0.0;
        assert forall i :: 0 <= i < n ==> s[..n][i] == s[i];
      }
    }
  }

  lemma DotAppend(a1: seq<real>, a2: seq<real>, b1: seq<real>, b2: seq<real>)
    requires |a1| == |b1| && |a2| == |b2|
    ensures Dot(a1 + a2, b1 + b2) == Dot(a1, b1) + Dot(a2, b2)
  {
    var p, q := Products(a1, b1), Products(a2, b2);
    forall i | 0 <= i < |a1| + |a2|
      ensures Products(a1 + a2, b1 + b2)[i] == (p + q)[i]
    {
      if i < |a1| {
        assert (a1 + a2)[i] == a1[i] && (b1 + b2)[i] == b1[i];
      } else {
        assert (a1 + a2)[i] == a2[i - |a1|] && (b1 + b2)[i] == b2[i - |a1|];
      }
    }
    assert Products(a1 + a2, b1 + b2) == p + q;
    SumAppend(Products(a1, b1), Products(a2, b2));
  }

  lemma DotCommutes(a: seq<real>, b: seq<real>)
    requires |a| == |b|
    ensures Dot(a, b) == Dot(b, a)
  {
    assert Products(a, b) == Products(b, a);
  }

  // ---------------------------------------------------------------------------
  // Row-major flattening of nested sequences.

  /** Concatenation of the rows in order: what a loop nest writing row after row leaves behind. */
  function Flatten<T>(rows: seq<seq<T>>): seq<T>
  {
    if |rows| == 0 then [] else Flatten(rows[..|rows| - 1]) + rows[|rows| - 1]
  }

  /** Every row has width `w`. */
  ghost predicate Uniform<T>(rows: seq<seq<T>>, w: nat)
  {
    forall r :: 0 <= r < |rows| ==> |rows[r]| == w
  }

  lemma MulMono(a: nat, b: nat, w: nat)
    requires a <= b
    ensures a * w <= b * w
  {
  }

  /** Row-major placement: index `r*w + k` of the flattening is `rows[r][k]`. */
  lemma {:induction false} FlattenAt<T>(rows: seq<seq<T>>, w: nat, r: nat, k: nat)
    requires Uniform(rows, w)
    requires r < |rows| && k < w
    ensures |Flatten(rows)| == |rows| * w
    ensures r * w + k < |Flatten(rows)|
    ensures Flatten(rows)[r * w + k] == rows[r][k]
  {
    var n := |rows| - 1;
    FlattenLength(rows[..n], w);
    if r < n {
      FlattenAt(rows[..n], w, r, k);
    } else {
      assert r * w == n * w;
    }
  }

  lemma {:induction false} FlattenLength<T>(rows: seq<seq<T>>, w: nat)
    requires Uniform(rows, w)
    ensures |Flatten(rows)| == |rows| * w
  {
    if |rows| > 0 {
      FlattenLength(rows[..|rows| - 1], w);
    }
  }

  /** The sums of the rows, one per row. */
  function RowSums(rows: seq<seq<real>>): (r: seq<real>)
    ensures |r| == |rows|
    ensures forall i :: 0 <= i < |rows| ==> r[i] == Sum(rows[i])
  {
    seq(|rows|, i requires 0 <= i < |rows| => Sum(rows[i]))
  }

  /** Summing the flattening equals summing the row sums. */
  lemma {:induction false} SumFlatten(rows: seq<seq<real>>)
    ensures Sum(Flatten(rows)) == Sum(RowSums(rows))
  {
    if |rows| > 0 {
      var n := |rows| - 1;
      SumFlatten(rows[..n]);
      SumAppend(Flatten(rows[..n]), rows[n]);
      assert RowSums(rows)[..n] == RowSums(rows[..n]);
    }
  }

  /** Two nested sequences with the same row lengths. */
  ghost predicate SameShape(a: seq<seq<real>>, b: seq<seq<real>>)
  {
    |a| == |b| && forall r :: 0 <= r < |a| ==> |a[r]| == |b[r]|
  }

  lemma {:induction false} FlattenSameLength(a: seq<seq<real>>, b: seq<seq<real>>)
    requires SameShape(a, b)
    ensures |Flatten(a)| == |Flatten(b)|
  {
    if |a| > 0 {
      FlattenSameLength(a[..|a| - 1], b[..|b| - 1]);
    }
  }

  /** The dot products of corresponding rows. */
  function RowDots(a: seq<seq<real>>, b: seq<seq<real>>): (r: seq<real>)
    requires SameShape(a, b)
    ensures |r| == |a|
    ensures forall i :: 0 <= i < |a| ==> r[i] == Dot(a[i], b[i])
  {
    seq(|a|, i requires 0 <= i < |a| => Dot(a[i], b[i]))
  }

  /** A dot product of two flattenings splits into the row dot products. */
  lemma {:induction false} DotFlatten(a: seq<seq<real>>, b: seq<seq<real>>)
    requires SameShape(a, b)
    ensures |Flatten(a)| == |Flatten(b)|
    ensures Dot(Flatten(a), Flatten(b)) == Sum(RowDots(a, b))
  {
    FlattenSameLength(a, b);
    if |a| > 0 {
      var n := |a| - 1;
      assert SameShape(a[..n], b[..n]);
      DotFlatten(a[..n], b[..n]);
      FlattenSameLength(a[..n], b[..n]);
      DotAppend(Flatten(a[..n]), a[n], Flatten(b[..n]), b[n]);
      assert RowDots(a, b)[..n] == RowDots(a[..n], b[..n]);
    }
  }
}
