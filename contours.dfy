/**
 * Candidate filtering and quadrilateral choice (code/contour_detection.py).
 * `cv2.contourArea` of an integer contour is half the absolute shoelace sum,
 * so areas are exact here; perimeter and polygon approximation stay with the
 * library.
 */
module ContourDetection {
  import opened Wrappers
  import opened Vision

  /** How many of the largest contours are kept before the area test. */
  const MaxCandidates: nat := 10
  /** The default share of the image area a document must cover. */
  const DefaultMinAreaRatio: real := 0.05
  /** The approximation tolerance, as a share of the closed perimeter. */
  const ApproxTolerance: real := 0.03

  // ---- Area ----

  function Abs(a: int): nat { if a < 0 then -a else a }

  function Cross(p: Point, q: Point): int { p.x * q.y - p.y * q.x }

  /** The shoelace terms of the open chain c[0], c[1], ..., c[|c| - 1]. */
  function ChainCross(c: Contour): int
    decreases |c|
  {
    if |c| < 2 then 0 else Cross(c[0], c[1]) + ChainCross(c[1..])
  }

  /**
   * Twice `cv2.contourArea(c)`: the closed shoelace sum, without its sign.
   * A point or a segment encloses nothing.
   */
  function TwiceArea(c: Contour): (a: nat)
    ensures |c| < 3 ==> a == 0
  {
    if |c| == 0 then 0
    else
      assert |c| == 1 ==> ChainCross(c) == 0 && Cross(c[0], c[0]) == 0;
      assert |c| == 2 ==> ChainCross(c) == Cross(c[0], c[1]) && Cross(c[1], c[0]) == -Cross(c[0], c[1]);
      Abs(ChainCross(c) + Cross(c[|c| - 1], c[0]))
  }

  /** `cv2.contourArea(c)`: never negative, and zero for a point or a segment. */
  function Area(c: Contour): (a: real)
    ensures a >= 0.0
    ensures |c| < 3 ==> a == 0.0
  {
    TwiceArea(c) as real / 2.0
  }

  lemma {:induction false} ChainCrossAppend(c: Contour, p: Point)
    requires |c| > 0
    ensures ChainCross(c + [p]) == ChainCross(c) + Cross(c[|c| - 1], p)
    decreases |c|
  {
    if |c| == 1 {
      assert (c + [p])[1..] == [p];
    } else {
      assert (c + [p])[1..] == c[1..] + [p];
      ChainCrossAppend(c[1..], p);
    }
  }

  /** The area does not depend on the vertex the traversal starts from. */
  lemma AreaIgnoresStartingVertex(c: Contour)
    requires |c| > 0
    ensures TwiceArea(c[1..] + [c[0]]) == TwiceArea(c)
  {
    if |c| > 1 {
      ChainCrossAppend(c[1..], c[0]);
      assert (c[1..] + [c[0]])[0] == c[1];
    }
  }

  function Reverse(c: Contour): (r: Contour)
    ensures |r| == |c|
    ensures forall i :: 0 <= i < |c| ==> r[i] == c[|c| - 1 - i]
  {
    if c == [] then [] else Reverse(c[1..]) + [c[0]]
  }

  lemma CrossIsAntisymmetric(p: Point, q: Point)
    ensures Cross(q, p) == -Cross(p, q)
  {
  }

  lemma {:induction false} ChainCrossReverse(c: Contour)
    ensures ChainCross(Reverse(c)) == -ChainCross(c)
    decreases |c|
  {
    if |c| >= 2 {
      ChainCrossReverse(c[1..]);
      ChainCrossAppend(Reverse(c[1..]), c[0]);
      CrossIsAntisymmetric(c[0], c[1]);
      assert Reverse(c) == Reverse(c[1..]) + [c[0]];
    }
  }

  /** The area does not depend on the direction of traversal. */
  lemma AreaIgnoresOrientation(c: Contour)
    ensures TwiceArea(Reverse(c)) == TwiceArea(c)
  {
    if c != [] {
      ChainCrossReverse(c);
      CrossIsAntisymmetric(c[|c| - 1], c[0]);
    }
  }

  /** An axis-aligned w by h rectangle, in either orientation, has area w * h. */
  lemma RectangleArea(c: Contour, x: int, y: int, w: nat, h: nat)
    requires c == [Point(x, y), Point(x + w, y), Point(x + w, y + h), Point(x, y + h)]
    ensures TwiceArea(c) == 2 * w * h
  {
    assert ChainCross(c[3..]) == 0;
    assert c[2..][1..] == c[3..];
    assert ChainCross(c[2..]) == Cross(c[2], c[3]);
    assert c[1..][1..] == c[2..];
    assert ChainCross(c[1..]) == Cross(c[1], c[2]) + Cross(c[2], c[3]);
    assert ChainCross(c) == Cross(c[0], c[1]) + Cross(c[1], c[2]) + Cross(c[2], c[3]);
  }

  // ---- Ranking by area ----
  //
  // The ranking and the filter are stated for any key, as `sorted` takes one;
  // the scanner's key is `TwiceArea`, which orders contours as their area does.

  /** Contours in non-increasing key order. */
  predicate NonIncreasing(cs: seq<Contour>, key: Contour -> nat) {
    forall i, j :: 0 <= i < j < |cs| ==> key(cs[j]) <= key(cs[i])
  }

  /** The contours of key a, in the order they appear. */
  function OfKey(cs: seq<Contour>, key: Contour -> nat, a: nat): seq<Contour> {
    if cs == [] then []
    else (if key(cs[0]) == a then [cs[0]] else []) + OfKey(cs[1..], key, a)
  }

  /** Places c before the first contour whose key is not larger than its own. */
  function InsertByKey(c: Contour, s: seq<Contour>, key: Contour -> nat): (r: seq<Contour>)
    ensures |r| == |s| + 1
  {
    if s == [] then [c]
    else if key(s[0]) <= key(c) then [c] + s
    else [s[0]] + InsertByKey(c, s[1..], key)
  }

  /** `sorted(cs, key=key, reverse=True)`: a stable sort, largest key first. */
  function SortedByKey(cs: seq<Contour>, key: Contour -> nat): (r: seq<Contour>)
    ensures |r| == |cs|
  {
    if cs == [] then [] else InsertByKey(cs[0], SortedByKey(cs[1..], key), key)
  }

  lemma {:induction false} OfKeyAppend(s: seq<Contour>, t: seq<Contour>, key: Contour -> nat, a: nat)
    ensures OfKey(s + t, key, a) == OfKey(s, key, a) + OfKey(t, key, a)
    decreases |s|
  {
    if s == [] {
      assert s + t == t;
    } else {
      var head := if key(s[0]) == a then [s[0]] else [];
      assert (s + t)[0] == s[0] && (s + t)[1..] == s[1..] + t;
      assert OfKey(s + t, key, a) == head + OfKey(s[1..] + t, key, a);
      OfKeyAppend(s[1..], t, key, a);
      assert OfKey(s, key, a) == head + OfKey(s[1..], key, a);
    }
  }

  lemma NonIncreasingTail(s: seq<Contour>, key: Contour -> nat)
    requires s != [] && NonIncreasing(s, key)
    ensures NonIncreasing(s[1..], key)
  {
    forall i, j | 0 <= i < j < |s[1..]| ensures key(s[1..][j]) <= key(s[1..][i]) {
      assert s[1..][i] == s[i + 1] && s[1..][j] == s[j + 1];
    }
  }

  lemma NonIncreasingCons(c: Contour, s: seq<Contour>, key: Contour -> nat)
    requires NonIncreasing(s, key)
    requires forall d :: d in s ==> key(d) <= key(c)
    ensures NonIncreasing([c] + s, key)
  {
    var r := [c] + s;
    forall i, j | 0 <= i < j < |r| ensures key(r[j]) <= key(r[i]) {
      assert r[j] == s[j - 1];
      if i > 0 { assert r[i] == s[i - 1]; }
    }
  }

  lemma {:induction false} InsertByKeyIsPermutation(c: Contour, s: seq<Contour>, key: Contour -> nat)
    ensures multiset(InsertByKey(c, s, key)) == multiset(s) + multiset{c}
    decreases |s|
  {
    if s != [] && key(c) < key(s[0]) {
      InsertByKeyIsPermutation(c, s[1..], key);
      assert s == [s[0]] + s[1..];
    }
  }

  lemma {:induction false} InsertByKeyKeepsOrder(c: Contour, s: seq<Contour>, key: Contour -> nat)
    requires NonIncreasing(s, key)
    ensures NonIncreasing(InsertByKey(c, s, key), key)
    decreases |s|
  {
    if s == [] {
    } else if key(s[0]) <= key(c) {
      forall d | d in s ensures key(d) <= key(c) {
        var k :| 0 <= k < |s| && s[k] == d;
        assert k > 0 ==> key(s[k]) <= key(s[0]);
      }
      NonIncreasingCons(c, s, key);
    } else {
      var t := InsertByKey(c, s[1..], key);
      NonIncreasingTail(s, key);
      InsertByKeyKeepsOrder(c, s[1..], key);
      InsertByKeyIsPermutation(c, s[1..], key);
      forall d | d in t ensures key(d) <= key(s[0]) {
        assert d in multiset(t);
        if d != c {
          assert d in multiset(s[1..]);
          var k :| 0 <= k < |s[1..]| && s[1..][k] == d;
          assert s[1..][k] == s[k + 1];
        }
      }
      NonIncreasingCons(s[0], t, key);
    }
  }

  lemma {:induction false} InsertByKeyKeepsEqualKeyOrder(c: Contour, s: seq<Contour>, key: Contour -> nat, a: nat)
    ensures OfKey(InsertByKey(c, s, key), key, a) == OfKey([c], key, a) + OfKey(s, key, a)
    decreases |s|
  {
    if s == [] {
    } else if key(s[0]) <= key(c) {
      OfKeyAppend([c], s, key, a);
    } else {
      InsertByKeyKeepsEqualKeyOrder(c, s[1..], key, a);
      OfKeyAppend([s[0]], InsertByKey(c, s[1..], key), key, a);
      OfKeyAppend([s[0]], s[1..], key, a);
      assert s == [s[0]] + s[1..];
      assert key(c) == a ==> key(s[0]) != a;
    }
  }

  lemma {:induction false} SortedByKeyIsOrdered(cs: seq<Contour>, key: Contour -> nat)
    ensures NonIncreasing(SortedByKey(cs, key), key)
    decreases |cs|
  {
    if cs != [] {
      SortedByKeyIsOrdered(cs[1..], key);
      InsertByKeyKeepsOrder(cs[0], SortedByKey(cs[1..], key), key);
    }
  }

  lemma {:induction false} SortedByKeyIsPermutation(cs: seq<Contour>, key: Contour -> nat)
    ensures multiset(SortedByKey(cs, key)) == multiset(cs)
    decreases |cs|
  {
    if cs != [] {
      SortedByKeyIsPermutation(cs[1..], key);
      InsertByKeyIsPermutation(cs[0], SortedByKey(cs[1..], key), key);
      assert cs == [cs[0]] + cs[1..];
    }
  }

  lemma {:induction false} SortedByKeyIsStable(cs: seq<Contour>, key: Contour -> nat, a: nat)
    ensures OfKey(SortedByKey(cs, key), key, a) == OfKey(cs, key, a)
    decreases |cs|
  {
    if cs != [] {
      SortedByKeyIsStable(cs[1..], key, a);
      InsertByKeyKeepsEqualKeyOrder(cs[0], SortedByKey(cs[1..], key), key, a);
      OfKeyAppend([cs[0]], cs[1..], key, a);
      assert cs == [cs[0]] + cs[1..];
    }
  }

  /**
   * The sort puts larger keys first, is a permutation, and keeps contours of
   * equal key in their input order.
   */
  lemma SortedByKeyIsStableSort(cs: seq<Contour>, key: Contour -> nat)
    ensures NonIncreasing(SortedByKey(cs, key), key)
    ensures multiset(SortedByKey(cs, key)) == multiset(cs)
    ensures forall a :: OfKey(SortedByKey(cs, key), key, a) == OfKey(cs, key, a)
  {
    SortedByKeyIsOrdered(cs, key);
    SortedByKeyIsPermutation(cs, key);
    forall a ensures OfKey(SortedByKey(cs, key), key, a) == OfKey(cs, key, a) {
      SortedByKeyIsStable(cs, key, a);
    }
  }

  function Min(a: int, b: int): int { if a < b then a else b }

  /** `sorted(...)[:10]`: at most the ten largest contours, largest first. */
  function TopCandidates(cs: seq<Contour>, key: Contour -> nat): (r: seq<Contour>)
    ensures |r| == Min(MaxCandidates, |cs|)
  {
    var sorted := SortedByKey(cs, key);
    sorted[..Min(MaxCandidates, |sorted|)]
  }

  /** `img_shape[0] * img_shape[1] * min_area_ratio`. */
  function MinArea(rows: nat, cols: nat, minAreaRatio: real): real {
    (rows * cols) as real * minAreaRatio
  }

  /** Whether a contour of twice-area `twice` reaches `minArea`. */
  predicate LargeEnough(twice: nat, minArea: real) { twice as real / 2.0 >= minArea }

  /** The contours of s whose half key reaches minArea, in order. */
  function KeepLargeEnough(s: seq<Contour>, key: Contour -> nat, minArea: real): (r: seq<Contour>)
    ensures |r| <= |s|
    ensures forall i :: 0 <= i < |r| ==> LargeEnough(key(r[i]), minArea)
  {
    if s == [] then []
    else
      KeepLargeEnough(s[..|s| - 1], key, minArea) +
        (if LargeEnough(key(s[|s| - 1]), minArea) then [s[|s| - 1]] else [])
  }

  lemma {:induction false} KeepLargeEnoughMembers(s: seq<Contour>, key: Contour -> nat, minArea: real)
    ensures |KeepLargeEnough(s, key, minArea)| <= |s|
    ensures forall c :: c in KeepLargeEnough(s, key, minArea) <==> c in s && LargeEnough(key(c), minArea)
    ensures multiset(KeepLargeEnough(s, key, minArea)) <= multiset(s)
    decreases |s|
  {
    if s != [] {
      var init, last := s[..|s| - 1], s[|s| - 1];
      KeepLargeEnoughMembers(init, key, minArea);
      assert s == init + [last];
      assert multiset(s) == multiset(init) + multiset{last};
    }
  }

  lemma {:induction false} KeepLargeEnoughKeepsOrder(s: seq<Contour>, key: Contour -> nat, minArea: real)
    requires NonIncreasing(s, key)
    ensures NonIncreasing(KeepLargeEnough(s, key, minArea), key)
    decreases |s|
  {
    if s != [] {
      var init, last := s[..|s| - 1], s[|s| - 1];
      var k := KeepLargeEnough(init, key, minArea);
      var tail := if LargeEnough(key(last), minArea) then [last] else [];
      assert NonIncreasing(init, key) by {
        forall i, j | 0 <= i < j < |init| ensures key(init[j]) <= key(init[i]) {
          assert init[i] == s[i] && init[j] == s[j];
        }
      }
      KeepLargeEnoughKeepsOrder(init, key, minArea);
      KeepLargeEnoughMembers(init, key, minArea);
      var r := k + tail;
      forall i, j | 0 <= i < j < |r| ensures key(r[j]) <= key(r[i]) {
        if j < |k| {
          assert r[i] == k[i] && r[j] == k[j];
        } else {
          assert r[i] == k[i] && r[j] == last;
          assert k[i] in init;
          var m :| 0 <= m < |init| && init[m] == k[i];
          assert init[m] == s[m];
        }
      }
    }
  }

  lemma {:induction false} KeepLargeEnoughOfKey(s: seq<Contour>, key: Contour -> nat, minArea: real, a: nat)
    ensures OfKey(KeepLargeEnough(s, key, minArea), key, a) == if LargeEnough(a, minArea) then OfKey(s, key, a) else []
    decreases |s|
  {
    if s != [] {
      var init, last := s[..|s| - 1], s[|s| - 1];
      var tail := if LargeEnough(key(last), minArea) then [last] else [];
      KeepLargeEnoughOfKey(init, key, minArea, a);
      assert s == init + [last];
      OfKeyAppend(init, [last], key, a);
      OfKeyAppend(KeepLargeEnough(init, key, minArea), tail, key, a);
    }
  }

  lemma OfKeyOfPrefix(s: seq<Contour>, key: Contour -> nat, n: nat, a: nat)
    requires n <= |s|
    ensures OfKey(s[..n], key, a) <= OfKey(s, key, a)
  {
    assert s == s[..n] + s[n..];
    OfKeyAppend(s[..n], s[n..], key, a);
  }

  /** What `filter_document_contours` returns: at most ten contours, each large enough. */
  function FilteredContours(cs: seq<Contour>, rows: nat, cols: nat, minAreaRatio: real): (r: seq<Contour>)
    ensures |r| <= MaxCandidates
    ensures forall i :: 0 <= i < |r| ==> Area(r[i]) >= MinArea(rows, cols, minAreaRatio)
  {
    KeepLargeEnough(TopCandidates(cs, TwiceArea), TwiceArea, MinArea(rows, cols, minAreaRatio))
  }

  lemma TopCandidatesFacts(cs: seq<Contour>, key: Contour -> nat)
    ensures |TopCandidates(cs, key)| <= MaxCandidates
    ensures NonIncreasing(TopCandidates(cs, key), key)
    ensures multiset(TopCandidates(cs, key)) <= multiset(cs)
    ensures forall a :: OfKey(TopCandidates(cs, key), key, a) <= OfKey(cs, key, a)
  {
    var sorted := SortedByKey(cs, key);
    var n := Min(MaxCandidates, |sorted|);
    var top := sorted[..n];
    SortedByKeyIsStableSort(cs, key);
    assert NonIncreasing(top, key) by {
      forall i, j | 0 <= i < j < |top| ensures key(top[j]) <= key(top[i]) {
        assert top[i] == sorted[i] && top[j] == sorted[j];
      }
    }
    assert sorted == top + sorted[n..];
    assert multiset(sorted) == multiset(top) + multiset(sorted[n..]);
    forall a ensures OfKey(top, key, a) <= OfKey(cs, key, a) {
      OfKeyOfPrefix(sorted, key, n, a);
    }
  }

  /**
   * The size and area bounds of `filter_document_contours`: at most ten
   * contours, each of at least the minimum area, and a contour is kept
   * exactly when it is among the ten largest and large enough.
   */
  lemma FilteredContoursMembers(cs: seq<Contour>, rows: nat, cols: nat, minAreaRatio: real)
    ensures |FilteredContours(cs, rows, cols, minAreaRatio)| <= MaxCandidates
    ensures forall c :: c in FilteredContours(cs, rows, cols, minAreaRatio) ==> Area(c) >= MinArea(rows, cols, minAreaRatio)
    ensures forall c :: c in FilteredContours(cs, rows, cols, minAreaRatio) <==>
                        c in TopCandidates(cs, TwiceArea) && Area(c) >= MinArea(rows, cols, minAreaRatio)
    ensures multiset(FilteredContours(cs, rows, cols, minAreaRatio)) <= multiset(cs)
  {
    TopCandidatesFacts(cs, TwiceArea);
    KeepLargeEnoughMembers(TopCandidates(cs, TwiceArea), TwiceArea, MinArea(rows, cols, minAreaRatio));
  }

  /**
   * The order of `filter_document_contours`: largest area first, and the
   * contours of one area in their input order (a prefix of them, as the cut
   * at ten may fall among them).
   */
  lemma FilteredContoursOrder(cs: seq<Contour>, rows: nat, cols: nat, minAreaRatio: real)
    ensures NonIncreasing(FilteredContours(cs, rows, cols, minAreaRatio), TwiceArea)
    ensures forall a :: OfKey(FilteredContours(cs, rows, cols, minAreaRatio), TwiceArea, a) <= OfKey(cs, TwiceArea, a)
  {
    var top := TopCandidates(cs, TwiceArea);
    var m := MinArea(rows, cols, minAreaRatio);
    TopCandidatesFacts(cs, TwiceArea);
    KeepLargeEnoughKeepsOrder(top, TwiceArea, m);
    forall a ensures OfKey(FilteredContours(cs, rows, cols, minAreaRatio), TwiceArea, a) <= OfKey(cs, TwiceArea, a) {
      KeepLargeEnoughOfKey(top, TwiceArea, m, a);
    }
  }

  /** `filter_document_contours`: rank by area, keep the first ten, then append those large enough. */
  method FilterDocumentContours(cnts: seq<Contour>, rows: nat, cols: nat, minAreaRatio: real := DefaultMinAreaRatio)
    returns (valid: seq<Contour>)
    ensures valid == FilteredContours(cnts, rows, cols, minAreaRatio)
  {
    var imgArea := rows * cols;
    var minArea := imgArea as real * minAreaRatio;
    var sorted := SortedByKey(cnts, TwiceArea);
    var top := sorted[..Min(MaxCandidates, |sorted|)];
    assert top == TopCandidates(cnts, TwiceArea);
    assert minArea == MinArea(rows, cols, minAreaRatio);
    valid := [];
    for i := 0 to |top|
      invariant valid == KeepLargeEnough(top[..i], TwiceArea, minArea)
    {
      assert top[..i + 1][..i] == top[..i];
      var area := Area(top[i]);
      if area >= minArea {
        valid := valid + [top[i]];
      }
    }
    assert top[..|top|] == top;
  }

  // ---- Choosing the quadrilateral ----

  /** `cv2.approxPolyDP(c, 0.03 * cv2.arcLength(c, True), True)`. */
  function Approximation(cv: Cv, c: Contour): Contour {
    cv.approxPolyDP(c, ApproxTolerance * cv.arcLength(c))
  }

  /** What `find_rectangle_contour` returns: when anything, a quadrilateral. */
  function FirstQuad(cv: Cv, cs: seq<Contour>): (r: Option<Contour>)
    ensures r.Some? ==> |r.value| == 4
  {
    if cs == [] then None
    else if |Approximation(cv, cs[0])| == 4 then Some(Approximation(cv, cs[0]))
    else FirstQuad(cv, cs[1..])
  }

  /**
   * `find_rectangle_contour` returns `None` exactly when no contour's
   * approximation has four vertices, and otherwise a quadrilateral.
   */
  lemma {:induction false} FirstQuadIsNoneIffNoQuad(cv: Cv, cs: seq<Contour>)
    ensures FirstQuad(cv, cs).None? <==> forall i :: 0 <= i < |cs| ==> |Approximation(cv, cs[i])| != 4
    ensures FirstQuad(cv, cs).Some? ==> |FirstQuad(cv, cs).value| == 4
    decreases |cs|
  {
    if cs != [] && |Approximation(cv, cs[0])| != 4 {
      FirstQuadIsNoneIffNoQuad(cv, cs[1..]);
      assert forall i :: 0 < i < |cs| ==> cs[i] == cs[1..][i - 1];
    }
  }

  /**
   * When contour `i` is the first whose approximation, at 3% of its
   * perimeter, has four vertices, that approximation is the result.
   */
  lemma {:induction false} FirstQuadIsFirstMatch(cv: Cv, cs: seq<Contour>, i: nat)
    requires i < |cs| && |Approximation(cv, cs[i])| == 4
    requires forall j :: 0 <= j < i ==> |Approximation(cv, cs[j])| != 4
    ensures FirstQuad(cv, cs) == Some(cv.approxPolyDP(cs[i], 0.03 * cv.arcLength(cs[i])))
    decreases i
  {
    if i > 0 {
      assert |Approximation(cv, cs[0])| != 4;
      assert forall j :: 0 <= j < i - 1 ==> cs[1..][j] == cs[j + 1];
      FirstQuadIsFirstMatch(cv, cs[1..], i - 1);
    }
  }

  /** `find_rectangle_contour`: the loop that returns the first four-vertex approximation. */
  method FindRectangleContour(cv: Cv, contours: seq<Contour>) returns (approx: Option<Contour>)
    ensures approx == FirstQuad(cv, contours)
  {
    for i := 0 to |contours|
      invariant FirstQuad(cv, contours) == FirstQuad(cv, contours[i..])
    {
      assert contours[i..][1..] == contours[i + 1..];
      var c := contours[i];
      var peri := cv.arcLength(c);
      var a := cv.approxPolyDP(c, ApproxTolerance * peri);
      if |a| == 4 {
        return Some(a);
      }
    }
    return None;
  }
}
