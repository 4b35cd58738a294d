/**
 * The pure helpers of gxnet/utils.cpp and gxnet/utils.h that the training
 * loop and the evaluation use: the sum of squared errors, the first-maximum
 * index, and the two MNIST image transforms (padding to 32 x 32 and
 * re-centring the bounding box of the ink).
 */
module Utils {
  import opened Sums
  import opened Tensor

  // ---------------------------------------------------------------------------
  // calcSSE

  /**
   * A product of two reals.  Squares are written `Times(d, d)` so that the
   * solver sees one uninterpreted term instead of a power.
   */
  function Times(a: real, b: real): real
  {
    a * b
  }

  /** `d * d`, the square `calcSSE` adds per element. */
  function Square(d: real): real
  {
    Times(d, d)
  }

  lemma TimesPositive(a: real, b: real)
    requires a > 0.0 && b > 0.0
    ensures Times(a, b) > 0.0
  {
  }

  /** A square is never negative, and it is zero exactly at zero. */
  lemma SquareSign(d: real)
    ensures Square(d) >= 0.0
    ensures Square(d) == 0.0 <==> d == 0.0
  {
    if d > 0.0 {
      TimesPositive(d, d);
    } else if d < 0.0 {
      TimesPositive(-d, -d);
      assert Times(d, d) == Times(-d, -d);
    } else {
      assert Times(d, d) == Times(0.0, 0.0);
    }
  }

  /** The terms `calcSSE` adds: `(target[x] - output[x])^2` in index order. */
  function SquaredErrors(output: seq<real>, target: seq<real>): (t: seq<real>)
    requires |output| == |target|
    ensures |t| == |target|
    ensures forall x :: 0 <= x < |t| ==> t[x] == Square(target[x] - output[x])
  {
    seq(|target|, x requires 0 <= x < |target| => Square(target[x] - output[x]))
  }

  /** Each squared error is non-negative, and zero exactly where output and target agree. */
  lemma SquaredErrorsSigns(output: seq<real>, target: seq<real>)
    requires |output| == |target|
    ensures forall x :: 0 <= x < |target| ==> SquaredErrors(output, target)[x] >= 0.0
    ensures forall x :: 0 <= x < |target| ==> (SquaredErrors(output, target)[x] == 0.0 <==> output[x] == target[x])
  {
    forall x | 0 <= x < |target|
      ensures SquaredErrors(output, target)[x] >= 0.0
      ensures SquaredErrors(output, target)[x] == 0.0 <==> output[x] == target[x]
    {
      SquareSign(target[x] - output[x]);
    }
  }

  /**
   * `calcSSE`: the sizes must agree (asserted), and the sum of squared errors
   * is never negative and is zero exactly when the output equals the target.
   */
  function CalcSse(output: seq<real>, target: seq<real>): (sse: real)
    requires |output| == |target|
    ensures sse >= 0.0
    ensures sse == 0.0 <==> output == target
  {
    var t := SquaredErrors(output, target);
    SquaredErrorsSigns(output, target);
    SumNonNegative(t);
    SumZeroIff(t);
    Sum(t)
  }

  /** The error does not depend on which side is the target. */
  lemma SseSymmetric(output: seq<real>, target: seq<real>)
    requires |output| == |target|
    ensures CalcSse(output, target) == CalcSse(target, output)
  {
    var a, b := SquaredErrors(output, target), SquaredErrors(target, output);
    forall x | 0 <= x < |a|
      ensures a[x] == b[x]
    {
      SquareOfNegation(target[x] - output[x]);
    }
    assert a == b;
  }

  lemma SquareOfNegation(d: real)
    ensures Square(d) == Square(-d)
  {
    assert Times(d, d) == Times(-d, -d);
  }

  /** The error of two concatenated vectors is the sum of their errors. */
  lemma SseAppend(o1: seq<real>, t1: seq<real>, o2: seq<real>, t2: seq<real>)
    requires |o1| == |t1| && |o2| == |t2|
    ensures CalcSse(o1 + o2, t1 + t2) == CalcSse(o1, t1) + CalcSse(o2, t2)
  {
    var a, b, c := SquaredErrors(o1, t1), SquaredErrors(o2, t2), SquaredErrors(o1 + o2, t1 + t2);
    forall x | 0 <= x < |c|
      ensures c[x] == (a + b)[x]
    {
      if x >= |a| {
        assert (o1 + o2)[x] == o2[x - |a|] && (t1 + t2)[x] == t2[x - |a|];
      }
    }
    assert c == a + b;
    SumAppend(a, b);
  }

  // ---------------------------------------------------------------------------
  // max_index

  /** `r` is the first position of a largest element of `s`. */
  ghost predicate IsFirstMax(s: seq<real>, r: nat)
  {
    r < |s| && (forall j :: 0 <= j < |s| ==> s[j] <= s[r]) && (forall j :: 0 <= j < r ==> s[j] < s[r])
  }

  /**
   * `Utils::max_index`, i.e. `std::max_element`: the position of the first
   * largest element, and 0 (the end of the empty range) for an empty range.
   */
  function MaxIndex(s: seq<real>): (r: nat)
    ensures |s| == 0 ==> r == 0
    ensures |s| > 0 ==> IsFirstMax(s, r)
  {
    if |s| == 0 then 0 else MaxScan(s, 0, 1)
  }

  /**
   * The `max_element` loop from position `k` on, holding the largest element
   * seen so far at `best`: a later element takes over only when strictly larger.
   */
  function MaxScan(s: seq<real>, best: nat, k: nat): (r: nat)
    requires best < k <= |s|
    requires forall j :: 0 <= j < k ==> s[j] <= s[best]
    requires forall j :: 0 <= j < best ==> s[j] < s[best]
    ensures IsFirstMax(s, r)
    decreases |s| - k
  {
    if k == |s| then best else MaxScan(s, if s[best] < s[k] then k else best, k + 1)
  }

  /** The first maximum is unique, so `MaxIndex` is the only position meeting its contract. */
  lemma FirstMaxUnique(s: seq<real>, r1: nat, r2: nat)
    requires IsFirstMax(s, r1) && IsFirstMax(s, r2)
    ensures r1 == r2
  {
    assert s[r1] == s[r2];
  }

  /** On a non-empty range, `MaxIndex` is `r` exactly when `r` is the first largest position. */
  lemma MaxIndexIff(s: seq<real>, r: nat)
    requires |s| > 0
    ensures MaxIndex(s) == r <==> IsFirstMax(s, r)
  {
    if IsFirstMax(s, r) {
      FirstMaxUnique(s, MaxIndex(s), r);
    }
  }

  // ---------------------------------------------------------------------------
  // expandMnistImage

  /** The MNIST image grid, 28 x 28, row-major. */
  const IMAGE: Dims := [28, 28]

  /** The expanded grid, 32 x 32, row-major. */
  const EXPANDED: Dims := [32, 32]

  /** The pixel at `(X, Y)` of the 32 x 32 grid lies in the two-pixel border around the 28 x 28 image. */
  predicate InBorder(X: nat, Y: nat)
  {
    !(2 <= X < 30 && 2 <= Y < 30)
  }

  /**
   * `expandMnistImage`: `newImage` is resized to 32 x 32 as a valarray, which
   * sets every entry to zero whatever it held, and then the 28 x 28 image is
   * written two pixels in from every edge, inside a two-pixel border of
   * zeros.  It always reports success.
   */
  function ExpandMnistImage(org: seq<real>, newImage: seq<real>): (r: (bool, seq<real>))
    requires |org| >= 784
    ensures r.0 && |r.1| == 1024
    ensures forall X: nat, Y: nat :: InBounds2(EXPANDED, X, Y) && InBorder(X, Y) ==>
              Offset2(EXPANDED, X, Y) < |r.1| && r.1[Offset2(EXPANDED, X, Y)] == 0.0
    ensures forall x: nat, y: nat :: InBounds2(IMAGE, x, y) ==>
              (x + 2) * 32 + (y + 2) < |r.1| && r.1[(x + 2) * 32 + (y + 2)] == org[Offset2(IMAGE, x, y)]
  {
    FlattenSize2(EXPANDED);
    var base := ValarrayResize(newImage, 1024, 0.0);
    var img := Tab2(EXPANDED, (X: nat, Y: nat) requires InBounds2(EXPANDED, X, Y) =>
      if !InBorder(X, Y) then org[(X - 2) * 28 + (Y - 2)] else base[X * 32 + Y]);
    forall x: nat, y: nat | InBounds2(IMAGE, x, y)
      ensures (x + 2) * 32 + (y + 2) < |img| && img[(x + 2) * 32 + (y + 2)] == org[Offset2(IMAGE, x, y)]
    {
      assert InBounds2(EXPANDED, x + 2, y + 2) && Offset2(EXPANDED, x + 2, y + 2) == (x + 2) * 32 + (y + 2);
    }
    (true, img)
  }

  /** The destination's old contents never reach the expanded image. */
  lemma ExpandIgnoresDestination(org: seq<real>, newImage: seq<real>, other: seq<real>)
    requires |org| >= 784
    ensures ExpandMnistImage(org, newImage) == ExpandMnistImage(org, other)
  {
    var r, q := ExpandMnistImage(org, newImage).1, ExpandMnistImage(org, other).1;
    forall t | 0 <= t < 1024
      ensures r[t] == q[t]
    {
      FlattenSize2(EXPANDED);
      var X, Y := Offset2Onto(EXPANDED, t);
      if !InBorder(X, Y) {
        assert InBounds2(IMAGE, X - 2, Y - 2);
        assert t == (X - 2 + 2) * 32 + (Y - 2 + 2);
      }
    }
  }

  /** Reading the 28 x 28 window at `(2, 2)` back out of a 32 x 32 image. */
  function CropMnistImage(img: seq<real>): (r: seq<real>)
    requires |img| == 1024
    ensures |r| == 784
    ensures forall x: nat, y: nat :: InBounds2(IMAGE, x, y) ==>
              Offset2(IMAGE, x, y) < |r| && r[Offset2(IMAGE, x, y)] == img[(x + 2) * 32 + (y + 2)]
  {
    FlattenSize2(IMAGE);
    Tab2(IMAGE, (x: nat, y: nat) requires InBounds2(IMAGE, x, y) => img[(x + 2) * 32 + (y + 2)])
  }

  /** Cropping an expanded image gives back the original 28 x 28 pixels, whatever the destination held. */
  lemma CropOfExpand(org: seq<real>, newImage: seq<real>)
    requires |org| >= 784
    ensures CropMnistImage(ExpandMnistImage(org, newImage).1) == org[..784]
  {
    var c := CropMnistImage(ExpandMnistImage(org, newImage).1);
    FlattenSize2(IMAGE);
    forall x: nat, y: nat | InBounds2(IMAGE, x, y)
      ensures Offset2(IMAGE, x, y) < |c| && c[Offset2(IMAGE, x, y)] == org[..784][Offset2(IMAGE, x, y)]
    {
      CropExpandCell(org, newImage, x, y);
    }
    SeqExt2(c, org[..784], IMAGE);
  }

  /** One pixel of `CropOfExpand`. */
  lemma CropExpandCell(org: seq<real>, newImage: seq<real>, x: nat, y: nat)
    requires |org| >= 784 && InBounds2(IMAGE, x, y)
    ensures Offset2(IMAGE, x, y) < 784
    ensures CropMnistImage(ExpandMnistImage(org, newImage).1)[Offset2(IMAGE, x, y)] == org[Offset2(IMAGE, x, y)]
  {
    var e := ExpandMnistImage(org, newImage).1;
    assert e[(x + 2) * 32 + (y + 2)] == org[x * 28 + y];
  }

  // ---------------------------------------------------------------------------
  // centerMnistImage

  const INT_MAX: int := 0x7fff_ffff
  const INT_MIN: int := -0x8000_0000

  /**
   * The bounding box `centerMnistImage` scans for: the first and last row
   * and column holding ink, inclusive (the source adds one to each end only
   * after the scan).
   */
  datatype Box = Box(beginX: int, beginY: int, endX: int, endY: int)

  /** The box before any ink is seen: the `INT_MAX` / `INT_MIN` sentinels. */
  const NO_BOX: Box := Box(INT_MAX, INT_MAX, INT_MIN, INT_MIN)

  /** Pixel `(x, y)` of a 28 x 28 image (row `x`, column `y`) is non-zero. */
  ghost predicate Ink(img: seq<real>, x: nat, y: nat)
  {
    x < 28 && y < 28 && x * 28 + y < |img| && img[x * 28 + y] != 0.0
  }

  /** The image has at least one non-zero pixel. */
  ghost predicate HasInk(img: seq<real>)
  {
    exists x: nat, y: nat :: Ink(img, x, y)
  }

  /**
   * `b` is the bounding box of the ink of `img`: every ink pixel lies within
   * it, and each of its four edges is touched by an ink pixel.
   */
  ghost predicate IsBox(img: seq<real>, b: Box)
  {
    (forall x: nat, y: nat :: Ink(img, x, y) ==> b.beginX <= x <= b.endX && b.beginY <= y <= b.endY)
    && (exists x: nat, y: nat :: Ink(img, x, y) && x == b.beginX)
    && (exists x: nat, y: nat :: Ink(img, x, y) && x == b.endX)
    && (exists x: nat, y: nat :: Ink(img, x, y) && y == b.beginY)
    && (exists x: nat, y: nat :: Ink(img, x, y) && y == b.endY)
  }

  /** An image has at most one bounding box. */
  lemma BoxUnique(img: seq<real>, b1: Box, b2: Box)
    requires IsBox(img, b1) && IsBox(img, b2)
    ensures b1 == b2
  {
    var x1: nat, y1: nat :| Ink(img, x1, y1) && x1 == b1.beginX;
    var x2: nat, y2: nat :| Ink(img, x2, y2) && x2 == b2.beginX;
    var x3: nat, y3: nat :| Ink(img, x3, y3) && x3 == b1.endX;
    var x4: nat, y4: nat :| Ink(img, x4, y4) && x4 == b2.endX;
    var x5: nat, y5: nat :| Ink(img, x5, y5) && y5 == b1.beginY;
    var x6: nat, y6: nat :| Ink(img, x6, y6) && y6 == b2.beginY;
    var x7: nat, y7: nat :| Ink(img, x7, y7) && y7 == b1.endY;
    var x8: nat, y8: nat :| Ink(img, x8, y8) && y8 == b2.endY;
  }

  /** Pixel `(a, c)` comes before pixel `(x, y)` in the row-major scan. */
  predicate Before(a: int, c: int, x: int, y: int)
  {
    a < x || (a == x && c < y)
  }

  /** Some ink pixel before `(x, y)` has row `v`. */
  ghost predicate RowTouched(img: seq<real>, v: int, x: int, y: int)
  {
    exists a: nat, c: nat :: Ink(img, a, c) && Before(a, c, x, y) && a == v
  }

  /** Some ink pixel before `(x, y)` has column `v`. */
  ghost predicate ColTouched(img: seq<real>, v: int, x: int, y: int)
  {
    exists a: nat, c: nat :: Ink(img, a, c) && Before(a, c, x, y) && c == v
  }

  /** No ink pixel comes before `(x, y)`. */
  ghost predicate Blank(img: seq<real>, x: int, y: int)
  {
    forall a: nat, c: nat :: Ink(img, a, c) ==> !Before(a, c, x, y)
  }

  /** What the scan loop keeps: the sentinels while nothing is seen, then the box of what was seen. */
  ghost predicate ScanInv(img: seq<real>, b: Box, x: int, y: int)
  {
    if Blank(img, x, y) then b == NO_BOX
    else
      (forall a: nat, c: nat :: Ink(img, a, c) && Before(a, c, x, y) ==>
         b.beginX <= a <= b.endX && b.beginY <= c <= b.endY)
      && RowTouched(img, b.beginX, x, y) && RowTouched(img, b.endX, x, y)
      && ColTouched(img, b.beginY, x, y) && ColTouched(img, b.endY, x, y)
  }

  function Min(a: int, b: int): int { if a < b then a else b }
  function Max(a: int, b: int): int { if a < b then b else a }

  /** The loop body at an ink pixel: `std::min` / `std::max` of each edge with the pixel. */
  function Widen(b: Box, x: int, y: int): Box
  {
    Box(Min(x, b.beginX), Min(y, b.beginY), Max(x, b.endX), Max(y, b.endY))
  }

  /** The two nested scan loops of `centerMnistImage`, from pixel `(x, y)` on. */
  function ScanBox(img: seq<real>, x: nat, y: nat, b: Box): Box
    requires |img| >= 784 && x <= 28 && y <= 28
    decreases 28 - x, 28 - y
  {
    if x == 28 then b
    else if y == 28 then ScanBox(img, x + 1, 0, b)
    else ScanBox(img, x, y + 1, if img[x * 28 + y] != 0.0 then Widen(b, x, y) else b)
  }

  /** A touched row or column stays touched as the scan moves on. */
  lemma TouchedLater(img: seq<real>, v: int, x: int, y: int, x2: int, y2: int)
    requires Before(x, y, x2, y2) || (x == x2 && y == y2)
    ensures RowTouched(img, v, x, y) ==> RowTouched(img, v, x2, y2)
    ensures ColTouched(img, v, x, y) ==> ColTouched(img, v, x2, y2)
  {
    if RowTouched(img, v, x, y) {
      var a: nat, c: nat :| Ink(img, a, c) && Before(a, c, x, y) && a == v;
      assert Before(a, c, x2, y2);
    }
    if ColTouched(img, v, x, y) {
      var a: nat, c: nat :| Ink(img, a, c) && Before(a, c, x, y) && c == v;
      assert Before(a, c, x2, y2);
    }
  }

  /** The pixel `(x, y)` just scanned touches the rows and columns it sits on. */
  lemma TouchedHere(img: seq<real>, x: nat, y: nat)
    requires Ink(img, x, y)
    ensures RowTouched(img, x, x, y + 1) && ColTouched(img, y, x, y + 1)
  {
    assert Before(x, y, x, y + 1);
  }

  /** One step of the inner loop keeps `ScanInv`. */
  lemma ScanStep(img: seq<real>, b: Box, x: nat, y: nat)
    requires |img| >= 784 && x < 28 && y < 28 && ScanInv(img, b, x, y)
    ensures ScanInv(img, if img[x * 28 + y] != 0.0 then Widen(b, x, y) else b, x, y + 1)
  {
    if img[x * 28 + y] == 0.0 {
      ScanStepBlankPixel(img, b, x, y);
    } else if Blank(img, x, y) {
      ScanStepFirstInk(img, x, y);
    } else {
      ScanStepMoreInk(img, b, x, y);
    }
  }

  /** A blank pixel changes nothing: the same ink comes before `(x, y + 1)` as before `(x, y)`. */
  lemma ScanStepBlankPixel(img: seq<real>, b: Box, x: nat, y: nat)
    requires |img| >= 784 && x < 28 && y < 28 && ScanInv(img, b, x, y) && img[x * 28 + y] == 0.0
    ensures ScanInv(img, b, x, y + 1)
  {
    assert forall a: nat, c: nat :: Ink(img, a, c) ==> (Before(a, c, x, y + 1) <==> Before(a, c, x, y));
    TouchedSameStep(img, b.beginX, x, y);
    TouchedSameStep(img, b.endX, x, y);
    TouchedSameStep(img, b.beginY, x, y);
    TouchedSameStep(img, b.endY, x, y);
  }

  lemma TouchedSameStep(img: seq<real>, v: int, x: nat, y: nat)
    requires |img| >= 784 && x < 28 && y < 28 && img[x * 28 + y] == 0.0
    ensures RowTouched(img, v, x, y + 1) <==> RowTouched(img, v, x, y)
    ensures ColTouched(img, v, x, y + 1) <==> ColTouched(img, v, x, y)
  {
    TouchedLater(img, v, x, y, x, y + 1);
    if RowTouched(img, v, x, y + 1) {
      var a: nat, c: nat :| Ink(img, a, c) && Before(a, c, x, y + 1) && a == v;
      assert Before(a, c, x, y);
    }
    if ColTouched(img, v, x, y + 1) {
      var a: nat, c: nat :| Ink(img, a, c) && Before(a, c, x, y + 1) && c == v;
      assert Before(a, c, x, y);
    }
  }

  /** The first ink pixel replaces the sentinels by the one-pixel box. */
  lemma ScanStepFirstInk(img: seq<real>, x: nat, y: nat)
    requires |img| >= 784 && x < 28 && y < 28 && Blank(img, x, y) && img[x * 28 + y] != 0.0
    ensures ScanInv(img, Widen(NO_BOX, x, y), x, y + 1)
  {
    assert Ink(img, x, y);
    assert Widen(NO_BOX, x, y) == Box(x, y, x, y);
    TouchedHere(img, x, y);
    assert !Blank(img, x, y + 1);
    forall a: nat, c: nat | Ink(img, a, c) && Before(a, c, x, y + 1)
      ensures a == x && c == y
    {
      assert !Before(a, c, x, y);
    }
  }

  /** A later ink pixel widens the box to take it in. */
  lemma ScanStepMoreInk(img: seq<real>, b: Box, x: nat, y: nat)
    requires |img| >= 784 && x < 28 && y < 28 && !Blank(img, x, y) && ScanInv(img, b, x, y)
    requires img[x * 28 + y] != 0.0
    ensures ScanInv(img, Widen(b, x, y), x, y + 1)
  {
    assert Ink(img, x, y);
    WidenTouched(img, b, x, y);
    WidenCovers(img, b, x, y);
    assert !Blank(img, x, y + 1) by {
      var a: nat, c: nat :| Ink(img, a, c) && Before(a, c, x, y);
      assert Before(a, c, x, y + 1);
    }
  }

  /** The widened box's edges are all rows and columns of ink seen up to `(x, y)` inclusive. */
  lemma WidenTouched(img: seq<real>, b: Box, x: nat, y: nat)
    requires Ink(img, x, y)
    requires RowTouched(img, b.beginX, x, y) && RowTouched(img, b.endX, x, y)
    requires ColTouched(img, b.beginY, x, y) && ColTouched(img, b.endY, x, y)
    ensures RowTouched(img, Widen(b, x, y).beginX, x, y + 1) && RowTouched(img, Widen(b, x, y).endX, x, y + 1)
    ensures ColTouched(img, Widen(b, x, y).beginY, x, y + 1) && ColTouched(img, Widen(b, x, y).endY, x, y + 1)
  {
    TouchedHere(img, x, y);
    TouchedLater(img, b.beginX, x, y, x, y + 1);
    TouchedLater(img, b.endX, x, y, x, y + 1);
    TouchedLater(img, b.beginY, x, y, x, y + 1);
    TouchedLater(img, b.endY, x, y, x, y + 1);
  }

  /** The widened box holds every ink pixel up to `(x, y)` inclusive. */
  lemma WidenCovers(img: seq<real>, b: Box, x: nat, y: nat)
    requires Ink(img, x, y)
    requires forall a: nat, c: nat :: Ink(img, a, c) && Before(a, c, x, y) ==>
               b.beginX <= a <= b.endX && b.beginY <= c <= b.endY
    ensures forall a: nat, c: nat :: Ink(img, a, c) && Before(a, c, x, y + 1) ==>
              Widen(b, x, y).beginX <= a <= Widen(b, x, y).endX && Widen(b, x, y).beginY <= c <= Widen(b, x, y).endY
  {
    var w := Widen(b, x, y);
    forall a: nat, c: nat | Ink(img, a, c) && Before(a, c, x, y + 1)
      ensures w.beginX <= a <= w.endX && w.beginY <= c <= w.endY
    {
      if Before(a, c, x, y) {
      } else {
        assert a == x && c == y;
      }
    }
  }

  /** Moving to the next row keeps `ScanInv`: the same pixels come before. */
  lemma ScanRow(img: seq<real>, b: Box, x: nat)
    requires ScanInv(img, b, x, 28)
    ensures ScanInv(img, b, x + 1, 0)
  {
    assert forall a: nat, c: nat :: Ink(img, a, c) ==> (Before(a, c, x, 28) <==> Before(a, c, x + 1, 0));
    RowTouchedSame(img, b.beginX, x);
    RowTouchedSame(img, b.endX, x);
    ColTouchedSame(img, b.beginY, x);
    ColTouchedSame(img, b.endY, x);
  }

  lemma RowTouchedSame(img: seq<real>, v: int, x: nat)
    ensures RowTouched(img, v, x, 28) <==> RowTouched(img, v, x + 1, 0)
  {
    TouchedLater(img, v, x, 28, x + 1, 0);
    if RowTouched(img, v, x + 1, 0) {
      var a: nat, c: nat :| Ink(img, a, c) && Before(a, c, x + 1, 0) && a == v;
      assert Before(a, c, x, 28);
    }
  }

  lemma ColTouchedSame(img: seq<real>, v: int, x: nat)
    ensures ColTouched(img, v, x, 28) <==> ColTouched(img, v, x + 1, 0)
  {
    TouchedLater(img, v, x, 28, x + 1, 0);
    if ColTouched(img, v, x + 1, 0) {
      var a: nat, c: nat :| Ink(img, a, c) && Before(a, c, x + 1, 0) && c == v;
      assert Before(a, c, x, 28);
    }
  }

  /** The rest of the scan keeps `ScanInv` to the end of the image. */
  lemma {:induction false} ScanBoxInv(img: seq<real>, x: nat, y: nat, b: Box)
    requires |img| >= 784 && x <= 28 && y <= 28 && ScanInv(img, b, x, y)
    ensures ScanInv(img, ScanBox(img, x, y, b), 28, 0)
    decreases 28 - x, 28 - y, 1
  {
    if x == 28 {
      ScanEnd(img, b, y);
    } else if y == 28 {
      ScanNextRow(img, x, b);
    } else {
      ScanNextPixel(img, x, y, b);
    }
  }

  /** `ScanBoxInv` at the end of row `x`. */
  lemma {:induction false} ScanNextRow(img: seq<real>, x: nat, b: Box)
    requires |img| >= 784 && x < 28 && ScanInv(img, b, x, 28)
    ensures ScanInv(img, ScanBox(img, x, 28, b), 28, 0)
    decreases 28 - x, 0, 0
  {
    ScanRow(img, b, x);
    ScanBoxInv(img, x + 1, 0, b);
    ScanInvSame(img, ScanBox(img, x + 1, 0, b), ScanBox(img, x, 28, b));
  }

  /** `ScanBoxInv` at pixel `(x, y)`. */
  lemma {:induction false} ScanNextPixel(img: seq<real>, x: nat, y: nat, b: Box)
    requires |img| >= 784 && x < 28 && y < 28 && ScanInv(img, b, x, y)
    ensures ScanInv(img, ScanBox(img, x, y, b), 28, 0)
    decreases 28 - x, 28 - y, 0
  {
    var b2 := if img[x * 28 + y] != 0.0 then Widen(b, x, y) else b;
    ScanStep(img, b, x, y);
    ScanBoxInv(img, x, y + 1, b2);
    ScanInvSame(img, ScanBox(img, x, y + 1, b2), ScanBox(img, x, y, b));
  }

  lemma ScanInvSame(img: seq<real>, b1: Box, b2: Box)
    requires b1 == b2 && ScanInv(img, b1, 28, 0)
    ensures ScanInv(img, b2, 28, 0)
  {
  }

  /** Past the last row the column no longer matters: every pixel comes before `(28, y)`. */
  lemma ScanEnd(img: seq<real>, b: Box, y: nat)
    requires ScanInv(img, b, 28, y)
    ensures ScanInv(img, b, 28, 0)
  {
    assert forall a: nat, c: nat :: Ink(img, a, c) ==> (Before(a, c, 28, y) <==> Before(a, c, 28, 0));
    RowTouchedEnd(img, b.beginX, y);
    RowTouchedEnd(img, b.endX, y);
    ColTouchedEnd(img, b.beginY, y);
    ColTouchedEnd(img, b.endY, y);
  }

  lemma RowTouchedEnd(img: seq<real>, v: int, y: nat)
    ensures RowTouched(img, v, 28, y) <==> RowTouched(img, v, 28, 0)
  {
    TouchedLater(img, v, 28, 0, 28, y);
    if RowTouched(img, v, 28, y) {
      var a: nat, c: nat :| Ink(img, a, c) && Before(a, c, 28, y) && a == v;
      assert Before(a, c, 28, 0);
    }
  }

  lemma ColTouchedEnd(img: seq<real>, v: int, y: nat)
    ensures ColTouched(img, v, 28, y) <==> ColTouched(img, v, 28, 0)
  {
    TouchedLater(img, v, 28, 0, 28, y);
    if ColTouched(img, v, 28, y) {
      var a: nat, c: nat :| Ink(img, a, c) && Before(a, c, 28, y) && c == v;
      assert Before(a, c, 28, 0);
    }
  }

  /**
   * The box the scan of `centerMnistImage` finds: the bounding box of the
   * ink when there is any, and the untouched sentinels otherwise.
   */
  function BoundingBox(img: seq<real>): (b: Box)
    requires |img| >= 784
    ensures HasInk(img) ==> IsBox(img, b)
    ensures !HasInk(img) ==> b == NO_BOX
  {
    ScanResult(img);
    ScanBox(img, 0, 0, NO_BOX)
  }

  /** The whole scan from the sentinels: `ScanInv` at the end of the image is `IsBox`. */
  lemma ScanResult(img: seq<real>)
    requires |img| >= 784
    ensures HasInk(img) ==> IsBox(img, ScanBox(img, 0, 0, NO_BOX))
    ensures !HasInk(img) ==> ScanBox(img, 0, 0, NO_BOX) == NO_BOX
  {
    assert Blank(img, 0, 0);
    ScanBoxInv(img, 0, 0, NO_BOX);
    var b := ScanBox(img, 0, 0, NO_BOX);
    assert forall a: nat, c: nat :: Ink(img, a, c) ==> Before(a, c, 28, 0);
    if HasInk(img) {
      var a: nat, c: nat :| Ink(img, a, c);
      assert Before(a, c, 28, 0);
      RowTouchedAll(img, b.beginX);
      RowTouchedAll(img, b.endX);
      ColTouchedAll(img, b.beginY);
      ColTouchedAll(img, b.endY);
    }
  }

  lemma RowTouchedAll(img: seq<real>, v: int)
    ensures RowTouched(img, v, 28, 0) <==> exists x: nat, y: nat :: Ink(img, x, y) && x == v
  {
    if exists x: nat, y: nat :: Ink(img, x, y) && x == v {
      var a: nat, c: nat :| Ink(img, a, c) && a == v;
      assert Before(a, c, 28, 0);
    }
  }

  lemma ColTouchedAll(img: seq<real>, v: int)
    ensures ColTouched(img, v, 28, 0) <==> exists x: nat, y: nat :: Ink(img, x, y) && y == v
  {
    if exists x: nat, y: nat :: Ink(img, x, y) && y == v {
      var a: nat, c: nat :| Ink(img, a, c) && c == v;
      assert Before(a, c, 28, 0);
    }
  }

  /** The box lies inside the 28 x 28 image, edges in order. */
  predicate Inside(b: Box)
  {
    0 <= b.beginX <= b.endX < 28 && 0 <= b.beginY <= b.endY < 28
  }

  /** Pixel `(x, y)` lies in the box. */
  predicate InBox(b: Box, x: int, y: int)
  {
    b.beginX <= x <= b.endX && b.beginY <= y <= b.endY
  }

  /** A bounding box lies inside the image, since ink pixels touch all four edges. */
  lemma BoxInside(img: seq<real>, b: Box)
    requires IsBox(img, b)
    ensures Inside(b)
  {
    var x1: nat, y1: nat :| Ink(img, x1, y1) && x1 == b.beginX;
    var x3: nat, y3: nat :| Ink(img, x3, y3) && x3 == b.endX;
    var x5: nat, y5: nat :| Ink(img, x5, y5) && y5 == b.beginY;
    var x7: nat, y7: nat :| Ink(img, x7, y7) && y7 == b.endY;
  }

  /**
   * Where `centerMnistImage` puts the near edge of a box spanning `begin` to
   * `end`: half the free space, `(28 - (end + 1 - begin)) / 2`.  The free
   * space of a box inside the image is never negative, so Dafny's division
   * agrees with C++'s.
   */
  function Margin(begin: int, end: int): int
  {
    (28 - (end + 1 - begin)) / 2
  }

  /** The box already sits at its margins in both directions, so the image is left alone. */
  predicate Centred(b: Box)
  {
    Margin(b.beginX, b.endX) == b.beginX && Margin(b.beginY, b.endY) == b.beginY
  }

  /** The box moved so that its near edges sit at the margins. */
  function Shift(b: Box): (s: Box)
    requires Inside(b)
    ensures Inside(s) && Centred(s)
    ensures s.endX - s.beginX == b.endX - b.beginX && s.endY - s.beginY == b.endY - b.beginY
  {
    var mx, my := Margin(b.beginX, b.endX), Margin(b.beginY, b.endY);
    Box(mx, my, mx + b.endX - b.beginX, my + b.endY - b.beginY)
  }

  /** Pixel `(X, Y)` of the centred image: the moved box content inside the moved box, zero outside. */
  function CentredPixel(org: seq<real>, b: Box, X: nat, Y: nat): real
    requires |org| >= 784 && Inside(b) && X < 28 && Y < 28
  {
    var s := Shift(b);
    if InBox(s, X, Y) then org[(X - s.beginX + b.beginX) * 28 + (Y - s.beginY + b.beginY)] else 0.0
  }

  /**
   * `centerMnistImage`.  It needs at least one non-zero pixel: without one
   * the sentinels stay and the width `INT_MIN + 1 - INT_MAX` overflows.  When
   * the box already sits at its margins it reports `false` and leaves
   * `newImage` alone.  Otherwise `newImage` is resized to the size of the
   * original as a valarray (every entry set to zero), its first 784 entries
   * are overwritten with the image whose box content has moved to the
   * margins and which is zero elsewhere, and it reports `true`.
   */
  function CenterMnistImage(org: seq<real>, newImage: seq<real>): (r: (bool, seq<real>))
    requires |org| >= 784 && HasInk(org)
    ensures var b := BoundingBox(org);
            Inside(b) && (r.0 <==> !Centred(b))
    ensures !r.0 ==> r.1 == newImage
    ensures r.0 ==> |r.1| == |org|
    ensures r.0 ==> forall k :: 784 <= k < |org| ==> r.1[k] == 0.0
    ensures r.0 ==> var b := BoundingBox(org);
            forall X: nat, Y: nat :: InBounds2(IMAGE, X, Y) ==>
              Offset2(IMAGE, X, Y) < |r.1| && r.1[Offset2(IMAGE, X, Y)] == CentredPixel(org, b, X, Y)
  {
    var b := BoundingBox(org);
    BoxInside(org, b);
    if Centred(b) then (false, newImage) else (true, CentredImage(org, b, newImage))
  }

  /**
   * The image the `true` branch of `centerMnistImage` leaves in `newImage`:
   * the zero-filled resize with its first 784 entries replaced by the
   * centred pixels; what `newImage` held before is gone.
   */
  function CentredImage(org: seq<real>, b: Box, newImage: seq<real>): (r: seq<real>)
    requires |org| >= 784 && Inside(b)
    ensures |r| == |org|
    ensures forall k :: 784 <= k < |org| ==> r[k] == 0.0
    ensures forall X: nat, Y: nat :: InBounds2(IMAGE, X, Y) ==>
              Offset2(IMAGE, X, Y) < |r| && r[Offset2(IMAGE, X, Y)] == CentredPixel(org, b, X, Y)
  {
    FlattenSize2(IMAGE);
    var img := Tab2(IMAGE, (X: nat, Y: nat) requires InBounds2(IMAGE, X, Y) => CentredPixel(org, b, X, Y));
    img + ValarrayResize(newImage, |org|, 0.0)[784..]
  }

  /**
   * After centring, the ink is exactly the original ink moved by the shift
   * of its bounding box: nothing appears that was not there before.
   */
  lemma CenterMovesInk(org: seq<real>, newImage: seq<real>)
    requires |org| >= 784 && HasInk(org) && CenterMnistImage(org, newImage).0
    ensures var b := BoundingBox(org);
            Inside(b)
            && (forall X: nat, Y: nat :: Ink(CenterMnistImage(org, newImage).1, X, Y) <==>
                  InBox(Shift(b), X, Y)
                  && Ink(org, X - Shift(b).beginX + b.beginX, Y - Shift(b).beginY + b.beginY))
  {
    CentredInk(org, BoundingBox(org), CenterMnistImage(org, newImage).1);
  }

  /** Centring loses no ink: every ink pixel of the original reappears moved by the shift. */
  lemma CenterKeepsInk(org: seq<real>, newImage: seq<real>)
    requires |org| >= 784 && HasInk(org) && CenterMnistImage(org, newImage).0
    ensures var b := BoundingBox(org);
            Inside(b)
            && (forall x: nat, y: nat :: Ink(org, x, y) ==>
                  Ink(CenterMnistImage(org, newImage).1, x + Shift(b).beginX - b.beginX, y + Shift(b).beginY - b.beginY))
  {
    var b := BoundingBox(org);
    var r := CenterMnistImage(org, newImage).1;
    CentredInk(org, b, r);
    forall x: nat, y: nat | Ink(org, x, y)
      ensures Ink(r, x + Shift(b).beginX - b.beginX, y + Shift(b).beginY - b.beginY)
    {
      MovedInk(org, r, b, x, y);
    }
  }

  /** The ink of any image holding the centred pixels of `org` in its first 784 entries. */
  lemma CentredInk(org: seq<real>, b: Box, r: seq<real>)
    requires |org| >= 784 && Inside(b)
    requires forall X: nat, Y: nat :: InBounds2(IMAGE, X, Y) ==>
               Offset2(IMAGE, X, Y) < |r| && r[Offset2(IMAGE, X, Y)] == CentredPixel(org, b, X, Y)
    ensures forall X: nat, Y: nat :: Ink(r, X, Y) <==>
              InBox(Shift(b), X, Y) && Ink(org, X - Shift(b).beginX + b.beginX, Y - Shift(b).beginY + b.beginY)
  {
    var s := Shift(b);
    forall X: nat, Y: nat
      ensures Ink(r, X, Y) <==> InBox(s, X, Y) && Ink(org, X - s.beginX + b.beginX, Y - s.beginY + b.beginY)
    {
      if X < 28 && Y < 28 {
        assert InBounds2(IMAGE, X, Y) && Offset2(IMAGE, X, Y) == X * 28 + Y;
      }
    }
  }

  /**
   * Centring a centred image is a no-op: its bounding box is the moved box,
   * which already sits at its margins, so a second `centerMnistImage`
   * reports `false`.
   */
  lemma CenterIdempotent(org: seq<real>, newImage: seq<real>, again: seq<real>)
    requires |org| >= 784 && HasInk(org) && CenterMnistImage(org, newImage).0
    ensures var r := CenterMnistImage(org, newImage).1;
            |r| >= 784 && HasInk(r) && BoundingBox(r) == Shift(BoundingBox(org))
            && !CenterMnistImage(r, again).0
  {
    var b := BoundingBox(org);
    var s := Shift(b);
    var r := CenterMnistImage(org, newImage).1;
    CentredInk(org, b, r);
    var x0: nat, y0: nat :| Ink(org, x0, y0);
    MovedInk(org, r, b, x0, y0);
    assert HasInk(r);
    MovedBox(org, r, b);
    BoxUnique(r, BoundingBox(r), s);
  }

  /** The moved box is the bounding box of the centred image. */
  lemma MovedBox(org: seq<real>, r: seq<real>, b: Box)
    requires |org| >= 784 && IsBox(org, b) && Inside(b)
    requires forall X: nat, Y: nat :: Ink(r, X, Y) <==>
               InBox(Shift(b), X, Y) && Ink(org, X - Shift(b).beginX + b.beginX, Y - Shift(b).beginY + b.beginY)
    ensures IsBox(r, Shift(b))
  {
    var s := Shift(b);
    var x1: nat, y1: nat :| Ink(org, x1, y1) && x1 == b.beginX;
    MovedInk(org, r, b, x1, y1);
    var x3: nat, y3: nat :| Ink(org, x3, y3) && x3 == b.endX;
    MovedInk(org, r, b, x3, y3);
    var x5: nat, y5: nat :| Ink(org, x5, y5) && y5 == b.beginY;
    MovedInk(org, r, b, x5, y5);
    var x7: nat, y7: nat :| Ink(org, x7, y7) && y7 == b.endY;
    MovedInk(org, r, b, x7, y7);
  }

  /** One ink pixel of the original, moved into the centred image. */
  lemma MovedInk(org: seq<real>, r: seq<real>, b: Box, x: nat, y: nat)
    requires |org| >= 784 && IsBox(org, b) && Inside(b) && Ink(org, x, y)
    requires forall X: nat, Y: nat :: Ink(r, X, Y) <==>
               InBox(Shift(b), X, Y) && Ink(org, X - Shift(b).beginX + b.beginX, Y - Shift(b).beginY + b.beginY)
    ensures var s := Shift(b);
            x + s.beginX - b.beginX >= 0 && y + s.beginY - b.beginY >= 0
            && Ink(r, x + s.beginX - b.beginX, y + s.beginY - b.beginY)
  {
    var s := Shift(b);
    var X, Y := x + s.beginX - b.beginX, y + s.beginY - b.beginY;
    assert InBox(s, X, Y);
    assert X - s.beginX + b.beginX == x && Y - s.beginY + b.beginY == y;
  }
}
