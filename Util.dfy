/** Geometry predicates used for collision detection. Coordinates are exact reals. */
module Util {

  /** Whether x lies in the closed interval [a, b]. */
  predicate IsInInterval(a: real, b: real, x: real) {
    x >= a && x <= b
  }

  /** Whether the closed intervals [a, b] and [c, d] intersect. */
  predicate IntervalsOverlap(a: real, b: real, c: real, d: real) {
    b >= c && a <= d
  }

  function SquaredDistance(px: real, py: real, qx: real, qy: real): real {
    (px - qx) * (px - qx) + (py - qy) * (py - qy)
  }

  /** `Vector2.dst(p, q) <= radius` without the square root: a distance is never negative,
      so the comparison fails for a negative radius and otherwise compares squares. */
  predicate WithinDistance(px: real, py: real, qx: real, qy: real, radius: real) {
    radius >= 0.0 && SquaredDistance(px, py, qx, qy) <= radius * radius
  }

  /** Whether the circle of the given centre and radius meets the axis-aligned rectangle whose
      bottom-left corner is (rectX, rectY). If the centre lies within the rectangle's horizontal
      or vertical span, the circle is treated as its bounding square; otherwise one of the four
      corners must lie within the circle. */
  predicate RectIntersectsCircle(circX: real, circY: real, radius: real,
                                 rectX: real, rectY: real, rectWidth: real, rectHeight: real)
  {
    if IsInInterval(rectX, rectX + rectWidth, circX) || IsInInterval(rectY, rectY + rectHeight, circY) then
      IntervalsOverlap(circX - radius, circX + radius, rectX, rectX + rectWidth) &&
      IntervalsOverlap(circY - radius, circY + radius, rectY, rectY + rectHeight)
    else
      WithinDistance(circX, circY, rectX, rectY, radius) ||
      WithinDistance(circX, circY, rectX, rectY + rectHeight, radius) ||
      WithinDistance(circX, circY, rectX + rectWidth, rectY, radius) ||
      WithinDistance(circX, circY, rectX + rectWidth, rectY + rectHeight, radius)
  }

  // ---------------------------------------------------------------------------------------
  // Reference definitions: what "intersect" means, independently of the two-branch test.

  /** Point (px, py) lies in the closed rectangle. */
  predicate InRect(px: real, py: real, rectX: real, rectY: real, rectWidth: real, rectHeight: real) {
    IsInInterval(rectX, rectX + rectWidth, px) && IsInInterval(rectY, rectY + rectHeight, py)
  }

  /** The closed disc and the closed rectangle have a point in common. */
  ghost predicate DiscMeetsRect(circX: real, circY: real, radius: real,
                                rectX: real, rectY: real, rectWidth: real, rectHeight: real)
  {
    radius >= 0.0 &&
    exists px: real, py: real ::
      InRect(px, py, rectX, rectY, rectWidth, rectHeight) &&
      SquaredDistance(circX, circY, px, py) <= radius * radius
  }

  /** The point of [lo, hi] nearest to v. */
  function Clamp(v: real, lo: real, hi: real): real {
    if v < lo then lo else if v > hi then hi else v
  }

  /** The squared distance from (circX, circY) to the nearest point of the rectangle. */
  function SquaredDistanceToRect(circX: real, circY: real,
                                 rectX: real, rectY: real, rectWidth: real, rectHeight: real): real
  {
    SquaredDistance(circX, circY, Clamp(circX, rectX, rectX + rectWidth), Clamp(circY, rectY, rectY + rectHeight))
  }

  // ---------------------------------------------------------------------------------------
  // Intervals

  lemma IntervalsOverlapSymmetric(a: real, b: real, c: real, d: real)
    ensures IntervalsOverlap(a, b, c, d) == IntervalsOverlap(c, d, a, b)
  {
  }

  /** For proper intervals, "overlap" means exactly "have a point in common"; a point is in
      an interval iff the one-point interval overlaps it. */
  lemma IntervalsOverlapIffCommonPoint(a: real, b: real, c: real, d: real)
    requires a <= b && c <= d
    ensures IntervalsOverlap(a, b, c, d) <==> exists x :: IsInInterval(a, b, x) && IsInInterval(c, d, x)
    ensures forall x :: IsInInterval(a, b, x) <==> IntervalsOverlap(a, b, x, x)
  {
    if IntervalsOverlap(a, b, c, d) {
      var x := if a < c then c else a;
      assert IsInInterval(a, b, x) && IsInInterval(c, d, x);
    }
  }

  // ---------------------------------------------------------------------------------------
  // Squares of reals

  lemma SquareMonotone(a: real, b: real)
    requires 0.0 <= a <= b
    ensures a * a <= b * b
  {
    assert a * a <= a * b;
    assert a * b <= b * b;
  }

  lemma SquareStrictMonotone(a: real, b: real)
    requires 0.0 <= a < b
    ensures a * a < b * b
  {
    assert a * (b - a) >= 0.0;
    assert b * (b - a) > 0.0;
    assert b * b - a * a == a * (b - a) + b * (b - a);
  }

  lemma SquareNonNegative(a: real)
    ensures a * a >= 0.0
  {
    if a < 0.0 {
      assert a * a == (-a) * (-a);
    }
  }

  /** For r >= 0, a*a <= r*r iff |a| <= r. */
  lemma SquareAtMost(a: real, r: real)
    requires r >= 0.0
    ensures a * a <= r * r <==> -r <= a <= r
  {
    if a >= 0.0 {
      if a <= r { SquareMonotone(a, r); } else { SquareStrictMonotone(r, a); }
    } else {
      assert a * a == (-a) * (-a);
      if -a <= r { SquareMonotone(-a, r); } else { SquareStrictMonotone(r, -a); }
    }
  }

  // ---------------------------------------------------------------------------------------
  // Nearest point

  /** Clamping gives the point of [lo, hi] nearest to v. */
  lemma {:induction false} ClampIsNearest(v: real, lo: real, hi: real, p: real)
    requires IsInInterval(lo, hi, p)
    ensures IsInInterval(lo, hi, Clamp(v, lo, hi))
    ensures (v - Clamp(v, lo, hi)) * (v - Clamp(v, lo, hi)) <= (v - p) * (v - p)
  {
    var q := Clamp(v, lo, hi);
    if v < lo {
      assert v - q == -(lo - v) && v - p == -(p - v);
      assert (v - q) * (v - q) == (lo - v) * (lo - v);
      assert (v - p) * (v - p) == (p - v) * (p - v);
      SquareMonotone(lo - v, p - v);
    } else if v > hi {
      SquareMonotone(v - hi, v - p);
    } else {
      SquareNonNegative(v - p);
    }
  }

  /** The clamped point is the point of the closed rectangle nearest to the centre. */
  lemma NearestPointOfRect(circX: real, circY: real, rectX: real, rectY: real,
                           rectWidth: real, rectHeight: real, px: real, py: real)
    requires InRect(px, py, rectX, rectY, rectWidth, rectHeight)
    ensures InRect(Clamp(circX, rectX, rectX + rectWidth), Clamp(circY, rectY, rectY + rectHeight),
                   rectX, rectY, rectWidth, rectHeight)
    ensures SquaredDistanceToRect(circX, circY, rectX, rectY, rectWidth, rectHeight)
            <= SquaredDistance(circX, circY, px, py)
  {
    ClampIsNearest(circX, rectX, rectX + rectWidth, px);
    ClampIsNearest(circY, rectY, rectY + rectHeight, py);
  }

  // ---------------------------------------------------------------------------------------
  // The two branches of RectIntersectsCircle

  /** Side branch: with the centre inside one of the rectangle's spans, the bounding-square
      test is exact. */
  lemma SideBranchIsExact(circX: real, circY: real, radius: real,
                          rectX: real, rectY: real, rectWidth: real, rectHeight: real)
    requires radius >= 0.0 && rectWidth >= 0.0 && rectHeight >= 0.0
    requires IsInInterval(rectX, rectX + rectWidth, circX) || IsInInterval(rectY, rectY + rectHeight, circY)
    ensures RectIntersectsCircle(circX, circY, radius, rectX, rectY, rectWidth, rectHeight)
            <==> SquaredDistanceToRect(circX, circY, rectX, rectY, rectWidth, rectHeight) <= radius * radius
  {
    var dx := circX - Clamp(circX, rectX, rectX + rectWidth);
    var dy := circY - Clamp(circY, rectY, rectY + rectHeight);
    assert SquaredDistanceToRect(circX, circY, rectX, rectY, rectWidth, rectHeight) == dx * dx + dy * dy;
    if IsInInterval(rectX, rectX + rectWidth, circX) {
      assert dx == 0.0;
      SquareAtMost(dy, radius);
    } else {
      assert dy == 0.0;
      SquareAtMost(dx, radius);
    }
  }

  /** Corner branch: with the centre outside both spans, testing all four corners is the
      same as testing the nearest corner, which is the nearest point of the rectangle. */
  lemma CornerBranchIsExact(circX: real, circY: real, radius: real,
                            rectX: real, rectY: real, rectWidth: real, rectHeight: real)
    requires radius >= 0.0 && rectWidth >= 0.0 && rectHeight >= 0.0
    requires !IsInInterval(rectX, rectX + rectWidth, circX) && !IsInInterval(rectY, rectY + rectHeight, circY)
    ensures RectIntersectsCircle(circX, circY, radius, rectX, rectY, rectWidth, rectHeight)
            <==> SquaredDistanceToRect(circX, circY, rectX, rectY, rectWidth, rectHeight) <= radius * radius
  {
    var d := SquaredDistanceToRect(circX, circY, rectX, rectY, rectWidth, rectHeight);
    var right, top := rectX + rectWidth, rectY + rectHeight;
    if WithinDistance(circX, circY, rectX, rectY, radius) {
      NearestPointOfRect(circX, circY, rectX, rectY, rectWidth, rectHeight, rectX, rectY);
    } else if WithinDistance(circX, circY, rectX, top, radius) {
      NearestPointOfRect(circX, circY, rectX, rectY, rectWidth, rectHeight, rectX, top);
    } else if WithinDistance(circX, circY, right, rectY, radius) {
      NearestPointOfRect(circX, circY, rectX, rectY, rectWidth, rectHeight, right, rectY);
    } else if WithinDistance(circX, circY, right, top, radius) {
      NearestPointOfRect(circX, circY, rectX, rectY, rectWidth, rectHeight, right, top);
    }
  }

  /** The test is exact: for a non-negative radius and size it holds iff the nearest point of
      the rectangle lies within the radius of the centre. */
  lemma RectIntersectsCircleIsExact(circX: real, circY: real, radius: real,
                                    rectX: real, rectY: real, rectWidth: real, rectHeight: real)
    requires radius >= 0.0 && rectWidth >= 0.0 && rectHeight >= 0.0
    ensures RectIntersectsCircle(circX, circY, radius, rectX, rectY, rectWidth, rectHeight)
            <==> SquaredDistanceToRect(circX, circY, rectX, rectY, rectWidth, rectHeight) <= radius * radius
  {
    if IsInInterval(rectX, rectX + rectWidth, circX) || IsInInterval(rectY, rectY + rectHeight, circY) {
      SideBranchIsExact(circX, circY, radius, rectX, rectY, rectWidth, rectHeight);
    } else {
      CornerBranchIsExact(circX, circY, radius, rectX, rectY, rectWidth, rectHeight);
    }
  }

  /** The test holds exactly when the closed disc and the closed rectangle share a point. */
  lemma RectIntersectsCircleMeansShared(circX: real, circY: real, radius: real,
                                        rectX: real, rectY: real, rectWidth: real, rectHeight: real)
    requires radius >= 0.0 && rectWidth >= 0.0 && rectHeight >= 0.0
    ensures RectIntersectsCircle(circX, circY, radius, rectX, rectY, rectWidth, rectHeight)
            <==> DiscMeetsRect(circX, circY, radius, rectX, rectY, rectWidth, rectHeight)
  {
    RectIntersectsCircleIsExact(circX, circY, radius, rectX, rectY, rectWidth, rectHeight);
    var qx, qy := Clamp(circX, rectX, rectX + rectWidth), Clamp(circY, rectY, rectY + rectHeight);
    assert InRect(qx, qy, rectX, rectY, rectWidth, rectHeight);
    if DiscMeetsRect(circX, circY, radius, rectX, rectY, rectWidth, rectHeight) {
      var px: real, py: real :| InRect(px, py, rectX, rectY, rectWidth, rectHeight) &&
                                SquaredDistance(circX, circY, px, py) <= radius * radius;
      NearestPointOfRect(circX, circY, rectX, rectY, rectWidth, rectHeight, px, py);
    }
  }

  /** A circle whose centre lies in the closed rectangle always meets it. */
  lemma CentreInsideIntersects(circX: real, circY: real, radius: real,
                               rectX: real, rectY: real, rectWidth: real, rectHeight: real)
    requires radius >= 0.0
    requires InRect(circX, circY, rectX, rectY, rectWidth, rectHeight)
    ensures RectIntersectsCircle(circX, circY, radius, rectX, rectY, rectWidth, rectHeight)
  {
  }

  /** Mirroring the whole picture left-to-right does not change the answer. */
  lemma RectIntersectsCircleMirror(circX: real, circY: real, radius: real,
                                   rectX: real, rectY: real, rectWidth: real, rectHeight: real)
    ensures RectIntersectsCircle(-circX, circY, radius, -(rectX + rectWidth), rectY, rectWidth, rectHeight)
            == RectIntersectsCircle(circX, circY, radius, rectX, rectY, rectWidth, rectHeight)
  {
    var right := rectX + rectWidth;
    SquaredDistanceMirror(circX, circY, right, rectY);
    SquaredDistanceMirror(circX, circY, rectX, rectY);
    SquaredDistanceMirror(circX, circY, right, rectY + rectHeight);
    SquaredDistanceMirror(circX, circY, rectX, rectY + rectHeight);
  }

  /** Mirroring the whole picture top-to-bottom does not change the answer either. */
  lemma RectIntersectsCircleFlip(circX: real, circY: real, radius: real,
                                 rectX: real, rectY: real, rectWidth: real, rectHeight: real)
    ensures RectIntersectsCircle(circX, -circY, radius, rectX, -(rectY + rectHeight), rectWidth, rectHeight)
            == RectIntersectsCircle(circX, circY, radius, rectX, rectY, rectWidth, rectHeight)
  {
    var top := rectY + rectHeight;
    SquaredDistanceFlip(circX, circY, rectX, top);
    SquaredDistanceFlip(circX, circY, rectX, rectY);
    SquaredDistanceFlip(circX, circY, rectX + rectWidth, top);
    SquaredDistanceFlip(circX, circY, rectX + rectWidth, rectY);
  }

  lemma SquaredDistanceFlip(px: real, py: real, qx: real, qy: real)
    ensures SquaredDistance(px, -py, qx, -qy) == SquaredDistance(px, py, qx, qy)
  {
    assert (-py - -qy) * (-py - -qy) == (py - qy) * (py - qy) by {
      assert -py - -qy == -(py - qy);
    }
  }

  lemma SquaredDistanceMirror(px: real, py: real, qx: real, qy: real)
    ensures SquaredDistance(-px, py, -qx, qy) == SquaredDistance(px, py, qx, qy)
  {
    assert (-px - -qx) * (-px - -qx) == (px - qx) * (px - qx) by {
      assert -px - -qx == -(px - qx);
    }
  }
}
