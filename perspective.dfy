/**
 * Corner ordering and the target rectangle of the perspective rectification
 * (code/perspective_transform.py). With integer corners the edge lengths are
 * exact: an edge of squared length d is ⌊√d⌋ pixels long once truncated, which
 * is the integer square root of d.
 */
module Perspective {
  import opened Vision

  // The slots of an ordered quadrilateral.
  const TL: nat := 0
  const TR: nat := 1
  const BR: nat := 2
  const BL: nat := 3

  /** The key `pts.sum(axis=1)` orders by: x + y. */
  function Sum(p: Point): int { p.x + p.y }

  /** The key `np.diff(pts, axis=1)` orders by: the second column minus the first, y - x. */
  function Diff(p: Point): int { p.y - p.x }

  function Sums(pts: seq<Point>): seq<int> { seq(|pts|, i requires 0 <= i < |pts| => Sum(pts[i])) }

  function Diffs(pts: seq<Point>): seq<int> { seq(|pts|, i requires 0 <= i < |pts| => Diff(pts[i])) }

  /** k is what `np.argmin` returns: a position of the minimum, the first one on ties. */
  predicate IsFirstArgMin(s: seq<int>, k: int) {
    && 0 <= k < |s|
    && (forall j :: 0 <= j < |s| ==> s[k] <= s[j])
    && (forall j :: 0 <= j < k ==> s[k] < s[j])
  }

  /** k is what `np.argmax` returns: a position of the maximum, the first one on ties. */
  predicate IsFirstArgMax(s: seq<int>, k: int) {
    && 0 <= k < |s|
    && (forall j :: 0 <= j < |s| ==> s[j] <= s[k])
    && (forall j :: 0 <= j < k ==> s[j] < s[k])
  }

  function FirstArgMin(s: seq<int>): (k: nat)
    requires |s| > 0
    ensures IsFirstArgMin(s, k)
  {
    if |s| == 1 then 0
    else
      var k := FirstArgMin(s[..|s| - 1]);
      if s[|s| - 1] < s[k] then |s| - 1 else k
  }

  function FirstArgMax(s: seq<int>): (k: nat)
    requires |s| > 0
    ensures IsFirstArgMax(s, k)
  {
    if |s| == 1 then 0
    else
      var k := FirstArgMax(s[..|s| - 1]);
      if s[k] < s[|s| - 1] then |s| - 1 else k
  }

  lemma FirstArgMinIsUnique(s: seq<int>, k: int)
    requires IsFirstArgMin(s, k)
    ensures k == FirstArgMin(s)
  {
  }

  lemma FirstArgMaxIsUnique(s: seq<int>, k: int)
    requires IsFirstArgMax(s, k)
    ensures k == FirstArgMax(s)
  {
  }

  /** The first-minimum position of a four-entry key sequence, checked entry by entry. */
  lemma FirstArgMinOfFour(s: seq<int>, k: nat)
    requires |s| == 4 && k < 4
    requires s[k] <= s[0] && s[k] <= s[1] && s[k] <= s[2] && s[k] <= s[3]
    requires (k > 0 ==> s[k] < s[0]) && (k > 1 ==> s[k] < s[1]) && (k > 2 ==> s[k] < s[2])
    ensures FirstArgMin(s) == k
  {
    forall j | 0 <= j < 4 ensures s[k] <= s[j] && (j < k ==> s[k] < s[j]) {
      if j == 0 {} else if j == 1 {} else if j == 2 {} else {}
    }
    FirstArgMinIsUnique(s, k);
  }

  lemma FirstArgMaxOfFour(s: seq<int>, k: nat)
    requires |s| == 4 && k < 4
    requires s[0] <= s[k] && s[1] <= s[k] && s[2] <= s[k] && s[3] <= s[k]
    requires (k > 0 ==> s[0] < s[k]) && (k > 1 ==> s[1] < s[k]) && (k > 2 ==> s[2] < s[k])
    ensures FirstArgMax(s) == k
  {
    forall j | 0 <= j < 4 ensures s[j] <= s[k] && (j < k ==> s[j] < s[k]) {
      if j == 0 {} else if j == 1 {} else if j == 2 {} else {}
    }
    FirstArgMaxIsUnique(s, k);
  }

  /** The scan behind `np.argmin`. */
  method ArgMin(s: seq<int>) returns (k: nat)
    requires |s| > 0
    ensures IsFirstArgMin(s, k)
  {
    k := 0;
    for i := 1 to |s|
      invariant k < i
      invariant forall j :: 0 <= j < i ==> s[k] <= s[j]
      invariant forall j :: 0 <= j < k ==> s[k] < s[j]
    {
      if s[i] < s[k] {
        k := i;
      }
    }
  }

  /** The scan behind `np.argmax`. */
  method ArgMax(s: seq<int>) returns (k: nat)
    requires |s| > 0
    ensures IsFirstArgMax(s, k)
  {
    k := 0;
    for i := 1 to |s|
      invariant k < i
      invariant forall j :: 0 <= j < i ==> s[j] <= s[k]
      invariant forall j :: 0 <= j < k ==> s[j] < s[k]
    {
      if s[k] < s[i] {
        k := i;
      }
    }
  }

  /**
   * What `order_points` returns: the first input point of least x + y, of
   * least y - x, of greatest x + y and of greatest y - x, in slots TL, TR,
   * BR and BL.
   */
  function Ordered(pts: seq<Point>): (rect: seq<Point>)
    requires |pts| > 0
    ensures |rect| == 4
  {
    [pts[FirstArgMin(Sums(pts))], pts[FirstArgMin(Diffs(pts))], pts[FirstArgMax(Sums(pts))], pts[FirstArgMax(Diffs(pts))]]
  }

  /** Every slot holds an input point, and the slots hold the extreme keys. */
  lemma OrderedSlotsAreExtreme(pts: seq<Point>)
    requires |pts| > 0
    ensures forall i :: 0 <= i < 4 ==> Ordered(pts)[i] in pts
    ensures forall p :: p in pts ==> Sum(Ordered(pts)[TL]) <= Sum(p) <= Sum(Ordered(pts)[BR])
    ensures forall p :: p in pts ==> Diff(Ordered(pts)[TR]) <= Diff(p) <= Diff(Ordered(pts)[BL])
  {
    forall p | p in pts
      ensures Sum(Ordered(pts)[TL]) <= Sum(p) <= Sum(Ordered(pts)[BR])
      ensures Diff(Ordered(pts)[TR]) <= Diff(p) <= Diff(Ordered(pts)[BL])
    {
      var j :| 0 <= j < |pts| && pts[j] == p;
      assert Sums(pts)[j] == Sum(p) && Diffs(pts)[j] == Diff(p);
    }
  }

  /** `order_points`: fills a fresh four-slot array from the argmin/argmax scans. */
  method OrderPoints(pts: seq<Point>) returns (rect: array<Point>)
    requires |pts| > 0
    ensures fresh(rect)
    ensures rect[..] == Ordered(pts)
  {
    rect := new Point[4];  // the default Point is Point(0, 0), as with np.zeros
    var s := Sums(pts);
    var tl := ArgMin(s);
    rect[TL] := pts[tl];
    var br := ArgMax(s);
    rect[BR] := pts[br];
    var diff := Diffs(pts);
    var tr := ArgMin(diff);
    rect[TR] := pts[tr];
    var bl := ArgMax(diff);
    rect[BL] := pts[bl];
    assert rect[..] == [pts[tl], pts[tr], pts[br], pts[bl]];
    FirstArgMinIsUnique(s, tl);
    FirstArgMaxIsUnique(s, br);
    FirstArgMinIsUnique(diff, tr);
    FirstArgMaxIsUnique(diff, bl);
  }

  /** Ties go to the input point that comes first, as argmin and argmax break them. */
  lemma OrderedBreaksTiesByPosition(pts: seq<Point>)
    requires |pts| > 0
    ensures forall k :: IsFirstArgMin(Sums(pts), k) ==> Ordered(pts)[TL] == pts[k]
    ensures forall k :: IsFirstArgMin(Diffs(pts), k) ==> Ordered(pts)[TR] == pts[k]
    ensures forall k :: IsFirstArgMax(Sums(pts), k) ==> Ordered(pts)[BR] == pts[k]
    ensures forall k :: IsFirstArgMax(Diffs(pts), k) ==> Ordered(pts)[BL] == pts[k]
  {
    forall k | IsFirstArgMin(Sums(pts), k) ensures Ordered(pts)[TL] == pts[k] {
      FirstArgMinIsUnique(Sums(pts), k);
    }
    forall k | IsFirstArgMin(Diffs(pts), k) ensures Ordered(pts)[TR] == pts[k] {
      FirstArgMinIsUnique(Diffs(pts), k);
    }
    forall k | IsFirstArgMax(Sums(pts), k) ensures Ordered(pts)[BR] == pts[k] {
      FirstArgMaxIsUnique(Sums(pts), k);
    }
    forall k | IsFirstArgMax(Diffs(pts), k) ensures Ordered(pts)[BL] == pts[k] {
      FirstArgMaxIsUnique(Diffs(pts), k);
    }
  }

  /**
   * Ordering may repeat one input point and drop another, so it is no
   * permutation. When the sums rise strictly along a, b, c, d while d has the
   * least difference and b the first greatest one, d fills two slots and c none;
   * (0, 0), (1, 5), (2, 6), (10, 1) is such a quadrilateral.
   */
  lemma OrderedIsNotAlwaysAPermutation(a: Point, b: Point, c: Point, d: Point)
    requires Sum(a) < Sum(b) < Sum(c) < Sum(d)
    requires Diff(d) < Diff(a) < Diff(b) && Diff(d) < Diff(c) <= Diff(b)
    ensures Ordered([a, b, c, d]) == [a, d, d, b]
    ensures c in [a, b, c, d] && c !in Ordered([a, b, c, d])
  {
    var pts := [a, b, c, d];
    var sums, diffs := Sums(pts), Diffs(pts);
    assert sums[0] == Sum(a) && sums[1] == Sum(b) && sums[2] == Sum(c) && sums[3] == Sum(d);
    assert diffs[0] == Diff(a) && diffs[1] == Diff(b) && diffs[2] == Diff(c) && diffs[3] == Diff(d);
    FirstArgMinOfFour(sums, 0);
    FirstArgMaxOfFour(sums, 3);
    FirstArgMinOfFour(diffs, 3);
    FirstArgMaxOfFour(diffs, 1);
  }

  /** The least (greatest) key is taken at one position only. */
  predicate UniqueMin(s: seq<int>)
    requires |s| > 0
  {
    forall j :: 0 <= j < |s| && j != FirstArgMin(s) ==> s[FirstArgMin(s)] < s[j]
  }

  predicate UniqueMax(s: seq<int>)
    requires |s| > 0
  {
    forall j :: 0 <= j < |s| && j != FirstArgMax(s) ==> s[j] < s[FirstArgMax(s)]
  }

  /** Each of the four extreme keys is reached by exactly one input position. */
  predicate StrictExtremes(pts: seq<Point>)
    requires |pts| > 0
  {
    UniqueMin(Sums(pts)) && UniqueMax(Sums(pts)) && UniqueMin(Diffs(pts)) && UniqueMax(Diffs(pts))
  }

  /**
   * If only the point x of the points pts minimises `key`, then in any
   * sequence q drawn from pts that contains x, the first minimiser is x.
   */
  lemma UniqueMinimiserSurvives(pts: seq<Point>, q: seq<Point>, x: Point, key: Point -> int, s: seq<int>, t: seq<int>)
    requires |pts| == |s| && |q| == |t| && |q| > 0
    requires forall i :: 0 <= i < |pts| ==> s[i] == key(pts[i])
    requires forall i :: 0 <= i < |q| ==> t[i] == key(q[i])
    requires forall p :: p in q ==> p in pts
    requires x in q && x in pts
    requires forall p :: p in pts && p != x ==> key(x) < key(p)
    ensures q[FirstArgMin(t)] == x
  {
    var k := FirstArgMin(t);
    var i :| 0 <= i < |q| && q[i] == x;
    assert t[k] <= t[i];
  }

  lemma UniqueMaximiserSurvives(pts: seq<Point>, q: seq<Point>, x: Point, key: Point -> int, s: seq<int>, t: seq<int>)
    requires |pts| == |s| && |q| == |t| && |q| > 0
    requires forall i :: 0 <= i < |pts| ==> s[i] == key(pts[i])
    requires forall i :: 0 <= i < |q| ==> t[i] == key(q[i])
    requires forall p :: p in q ==> p in pts
    requires x in q && x in pts
    requires forall p :: p in pts && p != x ==> key(p) < key(x)
    ensures q[FirstArgMax(t)] == x
  {
    var k := FirstArgMax(t);
    var i :| 0 <= i < |q| && q[i] == x;
    assert t[i] <= t[k];
  }

  /** The slots of an ordered quadrilateral are drawn from its input points. */
  lemma OrderedIsDrawnFromInput(pts: seq<Point>)
    requires |pts| > 0
    ensures forall p :: p in Ordered(pts) ==> p in pts
  {
    OrderedSlotsAreExtreme(pts);
    forall p | p in Ordered(pts) ensures p in pts {
      var i :| 0 <= i < 4 && Ordered(pts)[i] == p;
    }
  }

  lemma TopLeftSurvives(pts: seq<Point>)
    requires |pts| > 0 && UniqueMin(Sums(pts))
    ensures Ordered(Ordered(pts))[TL] == Ordered(pts)[TL]
  {
    var q, sp := Ordered(pts), Sums(pts);
    forall p | p in pts && p != q[TL] ensures Sum(q[TL]) < Sum(p) {
      var j :| 0 <= j < |pts| && pts[j] == p;
      assert sp[j] == Sum(p);
    }
    OrderedIsDrawnFromInput(pts);
    UniqueMinimiserSurvives(pts, q, q[TL], Sum, sp, Sums(q));
  }

  lemma BottomRightSurvives(pts: seq<Point>)
    requires |pts| > 0 && UniqueMax(Sums(pts))
    ensures Ordered(Ordered(pts))[BR] == Ordered(pts)[BR]
  {
    var q, sp := Ordered(pts), Sums(pts);
    forall p | p in pts && p != q[BR] ensures Sum(p) < Sum(q[BR]) {
      var j :| 0 <= j < |pts| && pts[j] == p;
      assert sp[j] == Sum(p);
    }
    OrderedIsDrawnFromInput(pts);
    UniqueMaximiserSurvives(pts, q, q[BR], Sum, sp, Sums(q));
  }

  lemma TopRightSurvives(pts: seq<Point>)
    requires |pts| > 0 && UniqueMin(Diffs(pts))
    ensures Ordered(Ordered(pts))[TR] == Ordered(pts)[TR]
  {
    var q, dp := Ordered(pts), Diffs(pts);
    forall p | p in pts && p != q[TR] ensures Diff(q[TR]) < Diff(p) {
      var j :| 0 <= j < |pts| && pts[j] == p;
      assert dp[j] == Diff(p);
    }
    OrderedIsDrawnFromInput(pts);
    UniqueMinimiserSurvives(pts, q, q[TR], Diff, dp, Diffs(q));
  }

  lemma BottomLeftSurvives(pts: seq<Point>)
    requires |pts| > 0 && UniqueMax(Diffs(pts))
    ensures Ordered(Ordered(pts))[BL] == Ordered(pts)[BL]
  {
    var q, dp := Ordered(pts), Diffs(pts);
    forall p | p in pts && p != q[BL] ensures Diff(p) < Diff(q[BL]) {
      var j :| 0 <= j < |pts| && pts[j] == p;
      assert dp[j] == Diff(p);
    }
    OrderedIsDrawnFromInput(pts);
    UniqueMaximiserSurvives(pts, q, q[BL], Diff, dp, Diffs(q));
  }

  /**
   * Re-ordering an ordered quadrilateral changes nothing when all four
   * extreme keys are strict; `four_point_transform` re-orders the corners
   * that `transform_document` already ordered.
   */
  lemma {:induction false} OrderedIsIdempotent(pts: seq<Point>)
    requires |pts| > 0 && StrictExtremes(pts)
    ensures Ordered(Ordered(pts)) == Ordered(pts)
  {
    TopLeftSurvives(pts);
    TopRightSurvives(pts);
    BottomRightSurvives(pts);
    BottomLeftSurvives(pts);
  }

  // ---- Size of the rectified image ----

  function Max(a: int, b: int): int { if a < b then b else a }

  function SqDist(p: Point, q: Point): nat {
    (p.x - q.x) * (p.x - q.x) + (p.y - q.y) * (p.y - q.y)
  }

  lemma SquareIsMonotonic(a: nat, b: nat)
    requires a <= b
    ensures a * a <= b * b
  {
  }

  /** The largest r at or above `from` with r * r <= n. */
  function ISqrtFrom(n: nat, from: nat): (r: nat)
    requires from * from <= n
    ensures r * r <= n < (r + 1) * (r + 1)
    decreases n - from * from
  {
    if (from + 1) * (from + 1) <= n then ISqrtFrom(n, from + 1) else from
  }

  /** ⌊√n⌋. */
  function ISqrt(n: nat): (r: nat)
    ensures r * r <= n < (r + 1) * (r + 1)
  {
    ISqrtFrom(n, 0)
  }

  /** Only one natural number r has r * r <= n < (r + 1) * (r + 1). */
  lemma ISqrtIsUnique(n: nat, r: nat)
    requires r * r <= n < (r + 1) * (r + 1)
    ensures r == ISqrt(n)
  {
    var s := ISqrt(n);
    if r < s {
      SquareIsMonotonic(r + 1, s);
    } else if s < r {
      SquareIsMonotonic(s + 1, r);
    }
  }

  lemma {:induction false} ISqrtIsMonotonic(m: nat, n: nat)
    requires m <= n
    ensures ISqrt(m) <= ISqrt(n)
  {
    var a, b := ISqrt(m), ISqrt(n);
    if b < a {
      SquareIsMonotonic(b + 1, a);
    }
  }

  lemma ISqrtOfSquare(w: nat)
    ensures ISqrt(w * w) == w
  {
    SquareIsMonotonic(w, w + 1);
    ISqrtIsUnique(w * w, w);
  }

  /** `int(np.linalg.norm(p - q))`: the truncated length of an edge. */
  function EdgeLength(p: Point, q: Point): (r: nat)
    ensures r * r <= SqDist(p, q) < (r + 1) * (r + 1)
  {
    ISqrt(SqDist(p, q))
  }

  /**
   * `maxWidth`: the truncated maximum of the bottom and top edge lengths,
   * which is the larger of the two truncated lengths.
   */
  function TargetWidth(rect: seq<Point>): (w: nat)
    requires |rect| == 4
    ensures w == Max(EdgeLength(rect[BR], rect[BL]), EdgeLength(rect[TR], rect[TL]))
    ensures w * w <= Max(SqDist(rect[BR], rect[BL]), SqDist(rect[TR], rect[TL])) < (w + 1) * (w + 1)
  {
    var a, b := SqDist(rect[BR], rect[BL]), SqDist(rect[TR], rect[TL]);
    ISqrtIsMonotonic(a, Max(a, b));
    ISqrtIsMonotonic(b, Max(a, b));
    ISqrt(Max(a, b))
  }

  /**
   * `maxHeight`: the truncated maximum of the right and left edge lengths,
   * which is the larger of the two truncated lengths.
   */
  function TargetHeight(rect: seq<Point>): (h: nat)
    requires |rect| == 4
    ensures h == Max(EdgeLength(rect[TR], rect[BR]), EdgeLength(rect[TL], rect[BL]))
    ensures h * h <= Max(SqDist(rect[TR], rect[BR]), SqDist(rect[TL], rect[BL])) < (h + 1) * (h + 1)
  {
    var a, b := SqDist(rect[TR], rect[BR]), SqDist(rect[TL], rect[BL]);
    ISqrtIsMonotonic(a, Max(a, b));
    ISqrtIsMonotonic(b, Max(a, b));
    ISqrt(Max(a, b))
  }

  /** `dst`: the upright target rectangle, corners in TL, TR, BR, BL order. */
  function Destination(w: nat, h: nat): (d: seq<Point>)
    ensures |d| == 4 && d[TL] == Point(0, 0)
    ensures d[TL].y == d[TR].y && d[BL].y == d[BR].y && d[TL].x == d[BL].x && d[TR].x == d[BR].x
    ensures SqDist(d[TL], d[TR]) == w * w && SqDist(d[TL], d[BL]) == h * h
  {
    [Point(0, 0), Point(w, 0), Point(w, h), Point(0, h)]
  }

  /**
   * The destination corners sit in the slots the orderer would give them,
   * so slot i of the source is mapped to the corner of the same role.
   */
  lemma DestinationIsOrdered(w: nat, h: nat)
    ensures Ordered(Destination(w, h)) == Destination(w, h)
  {
    var d := Destination(w, h);
    var sums, diffs := Sums(d), Diffs(d);
    assert sums[0] == Sum(d[0]) && sums[1] == Sum(d[1]) && sums[2] == Sum(d[2]) && sums[3] == Sum(d[3]);
    assert diffs[0] == Diff(d[0]) && diffs[1] == Diff(d[1]) && diffs[2] == Diff(d[2]) && diffs[3] == Diff(d[3]);
    FirstArgMinOfFour(sums, 0);
    FirstArgMinOfFour(diffs, if w == 0 then 0 else 1);
    if h == 0 {
      FirstArgMaxOfFour(sums, if w == 0 then 0 else 1);
      FirstArgMaxOfFour(diffs, 0);
    } else {
      FirstArgMaxOfFour(sums, 2);
      FirstArgMaxOfFour(diffs, if w == 0 then 2 else 3);
    }
  }

  /** Measuring the destination rectangle gives back its own size. */
  lemma DestinationHasTargetSize(w: nat, h: nat)
    ensures TargetWidth(Destination(w, h)) == w && TargetHeight(Destination(w, h)) == h
  {
    var d := Destination(w, h);
    assert SqDist(d[BR], d[BL]) == w * w && SqDist(d[TR], d[TL]) == w * w;
    assert SqDist(d[TR], d[BR]) == h * h && SqDist(d[TL], d[BL]) == h * h;
    ISqrtOfSquare(w);
    ISqrtOfSquare(h);
  }

  /**
   * The shape `cv2.warpPerspective` gives its output: the requested
   * (width, height), except that a target with a zero side falls back to
   * the shape of the source image.
   */
  function WarpedShape(image: Image, w: nat, h: nat): (shape: (nat, nat))
    ensures w > 0 && h > 0 ==> shape == (h, w)
    ensures w == 0 || h == 0 ==> shape == (image.rows, image.cols)
  {
    if w == 0 || h == 0 then (image.rows, image.cols) else (h, w)
  }

  /**
   * What `four_point_transform` returns for the given library: a page
   * `maxWidth` wide and `maxHeight` tall, the longer of each pair of
   * opposite edges of the ordered corners, truncated; when either comes out
   * zero the warp keeps the loaded image's shape instead.
   */
  function Rectified(cv: Cv, image: Image, pts: seq<Point>): (page: Image)
    requires |pts| > 0
    ensures var rect := Ordered(pts);
            var w := Max(EdgeLength(rect[BR], rect[BL]), EdgeLength(rect[TR], rect[TL]));
            var h := Max(EdgeLength(rect[TR], rect[BR]), EdgeLength(rect[TL], rect[BL]));
            (w > 0 && h > 0 ==> page.cols == w && page.rows == h) &&
            (w == 0 || h == 0 ==> page.cols == image.cols && page.rows == image.rows)
  {
    var rect := Ordered(pts);
    var w, h := TargetWidth(rect), TargetHeight(rect);
    var m := cv.getPerspectiveTransform(rect, Destination(w, h));
    var shape := WarpedShape(image, w, h);
    var warped := Image(shape.0, shape.1, cv.warpPerspective(image, m, w, h));
    Image(shape.0, shape.1, cv.detailEnhance(warped))
  }

  /** `four_point_transform`: order the corners, size the target, warp and enhance. */
  method FourPointTransform(cv: Cv, image: Image, pts: seq<Point>) returns (warped: Image)
    requires |pts| > 0
    ensures warped == Rectified(cv, image, pts)
  {
    var rect := OrderPoints(pts);
    var tl, tr, br, bl := rect[TL], rect[TR], rect[BR], rect[BL];
    var maxWidth := ISqrt(Max(SqDist(br, bl), SqDist(tr, tl)));
    var maxHeight := ISqrt(Max(SqDist(tr, br), SqDist(tl, bl)));
    var dst := Destination(maxWidth, maxHeight);
    var m := cv.getPerspectiveTransform(rect[..], dst);
    var shape := WarpedShape(image, maxWidth, maxHeight);
    warped := Image(shape.0, shape.1, cv.warpPerspective(image, m, maxWidth, maxHeight));
    warped := Image(shape.0, shape.1, cv.detailEnhance(warped));
  }

  /**
   * Rectifying corners that are already ordered is the same as rectifying
   * the raw corners, when the extreme keys are strict.
   */
  lemma ReorderedRectificationAgrees(cv: Cv, image: Image, pts: seq<Point>)
    requires |pts| > 0 && StrictExtremes(pts)
    ensures Rectified(cv, image, Ordered(pts)) == Rectified(cv, image, pts)
  {
    OrderedIsIdempotent(pts);
  }
}
