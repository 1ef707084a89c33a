/**
 * The closed-form circle through three points, as `cirle_from_three_points`
 * computes it: the intersection of the perpendicular bisectors of the chords
 * p1-p2 and p3-p2, written in terms of the two chord slopes.
 *
 * Coordinates are reals. A float division by zero, which raises
 * ZeroDivisionError, is a failure named after the degeneracy its zero
 * divisor stands for. The square root of the radius is not taken: a circle
 * carries its squared radius.
 */
module Geometry {
  import opened Wrappers

  datatype Point = Point(x: real, y: real)

  /** A circle by centre and squared radius. */
  datatype Circle = Circle(center: Point, radiusSquared: real)

  /** Which division of the formula had a zero divisor. */
  datatype GeometryError =
    | VerticalFirstChord    // x1 == x2: slope_1 divides by zero
    | VerticalSecondChord   // x3 == x2: slope_2 divides by zero
    | ParallelChords        // slope_1 == slope_2: the centre's x divides by zero
    | HorizontalFirstChord  // slope_1 == 0: the centre's y divides by zero

  function DistSq(p: Point, q: Point): real {
    (p.x - q.x) * (p.x - q.x) + (p.y - q.y) * (p.y - q.y)
  }

  /** The three points lie on one line (the cross product of the chords is zero). */
  predicate Collinear(x1: real, y1: real, x2: real, y2: real, x3: real, y3: real) {
    (x1 - x2) * (y3 - y2) == (y1 - y2) * (x3 - x2)
  }

  /**
   * The centre and squared radius of the circle through (x1, y1), (x2, y2)
   * and (x3, y3), by the slope formula. Each float division whose divisor
   * is zero makes Python raise ZeroDivisionError; here it is the failure
   * named after what the zero divisor means, checked in evaluation order.
   */
  function CircleFromThreePoints(x1: real, y1: real, x2: real, y2: real, x3: real, y3: real)
    : Result<Circle, GeometryError>
  {
    if x1 - x2 == 0.0 then Failure(VerticalFirstChord)
    else
      var slope1 := (y1 - y2) / (x1 - x2);
      if x3 - x2 == 0.0 then Failure(VerticalSecondChord)
      else
        var slope2 := (y3 - y2) / (x3 - x2);
        if 2.0 * (slope1 - slope2) == 0.0 then Failure(ParallelChords)
        else
          var x := (slope1 * slope2 * (y3 - y1) + slope1 * (x2 + x3) - slope2 * (x1 + x2))
                   / (2.0 * (slope1 - slope2));
          if slope1 == 0.0 then Failure(HorizontalFirstChord)
          else
            var y := -1.0 / slope1 * (x - (x1 + x2) / 2.0) + (y1 + y2) / 2.0;
            Success(Circle(Point(x, y), DistSq(Point(x2, y2), Point(x, y))))
  }

  /**
   * The formula fails exactly on a vertical chord, on collinear points or on
   * a horizontal first chord, reported in that order and with no other
   * failures: a triple with no vertical chord and not collinear gets a circle
   * unless its first chord is horizontal.
   */
  lemma CircleFromThreePointsFailures(x1: real, y1: real, x2: real, y2: real, x3: real, y3: real)
    ensures var r := CircleFromThreePoints(x1, y1, x2, y2, x3, y3);
            && (x1 == x2 ==> r == Failure(VerticalFirstChord))
            && (x1 != x2 && x3 == x2 ==> r == Failure(VerticalSecondChord))
            && (x1 != x2 && x3 != x2 ==> (r == Failure(ParallelChords) <==> Collinear(x1, y1, x2, y2, x3, y3)))
            && (x1 != x2 && x3 != x2 && !Collinear(x1, y1, x2, y2, x3, y3) ==>
                  (r == Failure(HorizontalFirstChord) <==> y1 == y2))
            && (r.Success? <==> x1 != x2 && x3 != x2 && y1 != y2 && !Collinear(x1, y1, x2, y2, x3, y3))
  {
    if x1 != x2 && x3 != x2 {
      var slope1 := (y1 - y2) / (x1 - x2);
      var slope2 := (y3 - y2) / (x3 - x2);
      ParallelIffCollinear(x1, y1, x2, y2, x3, y3, slope1, slope2);
    }
  }

  /**
   * A computed circle passes through all three points: its centre is
   * equidistant from them and its radius is the distance to the second.
   */
  lemma CircleFromThreePointsIsEquidistant(x1: real, y1: real, x2: real, y2: real, x3: real, y3: real)
    requires CircleFromThreePoints(x1, y1, x2, y2, x3, y3).Success?
    ensures var c := CircleFromThreePoints(x1, y1, x2, y2, x3, y3).value;
            && c.radiusSquared == DistSq(Point(x2, y2), c.center)
            && DistSq(Point(x1, y1), c.center) == c.radiusSquared
            && DistSq(Point(x3, y3), c.center) == c.radiusSquared
  {
    var slope1 := (y1 - y2) / (x1 - x2);
    var slope2 := (y3 - y2) / (x3 - x2);
    var x := (slope1 * slope2 * (y3 - y1) + slope1 * (x2 + x3) - slope2 * (x1 + x2))
             / (2.0 * (slope1 - slope2));
    var inverse := -1.0 / slope1;
    var y := inverse * (x - (x1 + x2) / 2.0) + (y1 + y2) / 2.0;
    assert CircleFromThreePoints(x1, y1, x2, y2, x3, y3).value.center == Point(x, y);
    ComputedCentreIsEquidistant(x1, y1, x2, y2, x3, y3, slope1, slope2, x, inverse, y);
  }

  /**
   * Given two non-vertical chords through the middle point, their slopes are
   * equal exactly when the three points are collinear, and the first slope is
   * zero exactly when the first chord is horizontal.
   */
  lemma ParallelIffCollinear(x1: real, y1: real, x2: real, y2: real, x3: real, y3: real,
                             slope1: real, slope2: real)
    requires x1 != x2 && x3 != x2
    requires slope1 * (x1 - x2) == y1 - y2
    requires slope2 * (x3 - x2) == y3 - y2
    ensures 2.0 * (slope1 - slope2) == 0.0 <==> Collinear(x1, y1, x2, y2, x3, y3)
    ensures slope1 == 0.0 <==> y1 == y2
  {
    var d1, d3 := x1 - x2, x3 - x2;
    ProductIsNonZero(d1, d3);
    var d := d1 * d3;
    assert (x1 - x2) * (y3 - y2) == slope2 * d;
    assert (y1 - y2) * (x3 - x2) == slope1 * d;
    if slope1 != slope2 {
      ProductIsNonZero(slope2 - slope1, d);
      assert slope2 * d - slope1 * d == (slope2 - slope1) * d;
    }
    if slope1 != 0.0 {
      ProductIsNonZero(slope1, d1);
    }
  }

  /** The quotients the formula computes satisfy the equations the
      equidistance proof starts from. */
  lemma ComputedCentreIsEquidistant(x1: real, y1: real, x2: real, y2: real, x3: real, y3: real,
                                    slope1: real, slope2: real, cx: real, inverse: real, cy: real)
    requires x1 - x2 != 0.0 && x3 - x2 != 0.0
    requires slope1 == (y1 - y2) / (x1 - x2) && slope2 == (y3 - y2) / (x3 - x2)
    requires 2.0 * (slope1 - slope2) != 0.0 && slope1 != 0.0
    requires cx == (slope1 * slope2 * (y3 - y1) + slope1 * (x2 + x3) - slope2 * (x1 + x2))
                   / (2.0 * (slope1 - slope2))
    requires inverse == -1.0 / slope1
    requires cy == inverse * (cx - (x1 + x2) / 2.0) + (y1 + y2) / 2.0
    ensures DistSq(Point(x1, y1), Point(cx, cy)) == DistSq(Point(x2, y2), Point(cx, cy))
    ensures DistSq(Point(x3, y3), Point(cx, cy)) == DistSq(Point(x2, y2), Point(cx, cy))
  {
    QuotientTimesDivisor(y1 - y2, x1 - x2);
    QuotientTimesDivisor(y3 - y2, x3 - x2);
    QuotientTimesDivisor(slope1 * slope2 * (y3 - y1) + slope1 * (x2 + x3) - slope2 * (x1 + x2),
                         2.0 * (slope1 - slope2));
    QuotientTimesDivisor(-1.0, slope1);
    CentreIsEquidistant(x1, y1, x2, y2, x3, y3, slope1, slope2, inverse, cx, cy);
  }

  lemma QuotientTimesDivisor(a: real, b: real)
    requires b != 0.0
    ensures (a / b) * b == a
  {
  }

  lemma ProductIsNonZero(a: real, b: real)
    requires a != 0.0 && b != 0.0
    ensures a * b != 0.0
  {
  }

  /**
   * A point on the perpendicular bisector of chord p1-p2 (the line through
   * its midpoint with slope `inverse` = -1/slope1) whose x solves the
   * intersection with the bisector of chord p3-p2 is equidistant from all
   * three points.
   */
  lemma CentreIsEquidistant(x1: real, y1: real, x2: real, y2: real, x3: real, y3: real,
                            slope1: real, slope2: real, inverse: real, cx: real, cy: real)
    requires slope1 * (x1 - x2) == y1 - y2
    requires slope2 * (x3 - x2) == y3 - y2
    requires cx * (2.0 * (slope1 - slope2))
             == slope1 * slope2 * (y3 - y1) + slope1 * (x2 + x3) - slope2 * (x1 + x2)
    requires inverse * slope1 == -1.0
    requires cy == inverse * (cx - (x1 + x2) / 2.0) + (y1 + y2) / 2.0
    ensures DistSq(Point(x1, y1), Point(cx, cy)) == DistSq(Point(x2, y2), Point(cx, cy))
    ensures DistSq(Point(x3, y3), Point(cx, cy)) == DistSq(Point(x2, y2), Point(cx, cy))
  {
    var k := cx - (x1 + x2) / 2.0;
    // Distance to p1 against p2: both lie symmetric about the first bisector.
    assert y1 + y2 - 2.0 * cy == -2.0 * inverse * k;
    assert (y1 - y2) * (y1 + y2 - 2.0 * cy) == (x1 - x2) * (2.0 * k) by {
      calc {
        (y1 - y2) * (y1 + y2 - 2.0 * cy);
        (slope1 * (x1 - x2)) * (-2.0 * inverse * k);
        (x1 - x2) * (-2.0 * k) * (inverse * slope1);
      }
    }
    assert DistSq(Point(x1, y1), Point(cx, cy)) - DistSq(Point(x2, y2), Point(cx, cy))
           == (x1 - x2) * (x1 + x2 - 2.0 * cx) + (y1 - y2) * (y1 + y2 - 2.0 * cy);
    // Distance to p3 against p2: the centre also lies on the second bisector.
    var e := (x3 + x2 - 2.0 * cx) + slope2 * (y3 - y1) - 2.0 * slope2 * inverse * k;
    assert slope1 * e == 0.0 by {
      calc {
        slope1 * e;
        slope1 * (x3 + x2) - 2.0 * slope1 * cx + slope1 * slope2 * (y3 - y1)
          - 2.0 * slope2 * k * (inverse * slope1);
        slope1 * (x3 + x2) - 2.0 * slope1 * cx + slope1 * slope2 * (y3 - y1) + 2.0 * slope2 * k;
        slope1 * slope2 * (y3 - y1) + slope1 * (x2 + x3) - slope2 * (x1 + x2)
          - cx * (2.0 * (slope1 - slope2));
      }
    }
    assert slope1 != 0.0;
    assert e == 0.0;
    assert y3 + y2 - 2.0 * cy == (y3 - y1) - 2.0 * inverse * k;
    assert DistSq(Point(x3, y3), Point(cx, cy)) - DistSq(Point(x2, y2), Point(cx, cy))
           == (x3 - x2) * (x3 + x2 - 2.0 * cx) + (y3 - y2) * (y3 + y2 - 2.0 * cy);
    assert (y3 - y2) * (y3 + y2 - 2.0 * cy) == (x3 - x2) * (slope2 * (y3 + y2 - 2.0 * cy));
    assert (x3 - x2) * (x3 + x2 - 2.0 * cx) + (x3 - x2) * (slope2 * (y3 + y2 - 2.0 * cy))
           == (x3 - x2) * e;
  }

  /**
   * Three points that are not collinear have at most one point equidistant
   * from all of them, so a successful result is the only circle through
   * the three points.
   */
  lemma EquidistantPointIsUnique(x1: real, y1: real, x2: real, y2: real, x3: real, y3: real, c: Point, d: Point)
    requires !Collinear(x1, y1, x2, y2, x3, y3)
    requires DistSq(Point(x1, y1), c) == DistSq(Point(x2, y2), c)
    requires DistSq(Point(x3, y3), c) == DistSq(Point(x2, y2), c)
    requires DistSq(Point(x1, y1), d) == DistSq(Point(x2, y2), d)
    requires DistSq(Point(x3, y3), d) == DistSq(Point(x2, y2), d)
    ensures c == d
  {
    BisectorsAgree(x1, y1, x2, y2, c, d);
    BisectorsAgree(x3, y3, x2, y2, c, d);
    SamePointOnBothBisectors(x1, y1, x2, y2, x3, y3, c, d);
  }

  /** Two points both equidistant from p and q differ by a vector
      perpendicular to the chord p-q. */
  lemma BisectorsAgree(px: real, py: real, qx: real, qy: real, c: Point, d: Point)
    requires DistSq(Point(px, py), c) == DistSq(Point(qx, qy), c)
    requires DistSq(Point(px, py), d) == DistSq(Point(qx, qy), d)
    ensures (px - qx) * (c.x - d.x) + (py - qy) * (c.y - d.y) == 0.0
  {
    OnBisector(px, py, qx, qy, c.x, c.y);
    OnBisector(px, py, qx, qy, d.x, d.y);
    Distribute(px - qx, px + qx, c.x, d.x);
    Distribute(py - qy, py + qy, c.y, d.y);
  }

  /** A point equidistant from p and q satisfies the linear bisector equation. */
  lemma OnBisector(px: real, py: real, qx: real, qy: real, mx: real, my: real)
    requires DistSq(Point(px, py), Point(mx, my)) == DistSq(Point(qx, qy), Point(mx, my))
    ensures (px - qx) * (px + qx - 2.0 * mx) + (py - qy) * (py + qy - 2.0 * my) == 0.0
  {
    SquaresDifference(px, qx, mx);
    SquaresDifference(py, qy, my);
  }

  lemma SquaresDifference(a: real, b: real, m: real)
    ensures (a - m) * (a - m) - (b - m) * (b - m) == (a - b) * (a + b - 2.0 * m)
  {
  }

  lemma Distribute(a: real, s: real, u: real, w: real)
    ensures a * (s - 2.0 * u) - a * (s - 2.0 * w) == -2.0 * (a * (u - w))
  {
  }

  /** Two points on both perpendicular chords of a non-degenerate triangle coincide. */
  lemma SamePointOnBothBisectors(x1: real, y1: real, x2: real, y2: real, x3: real, y3: real, c: Point, d: Point)
    requires !Collinear(x1, y1, x2, y2, x3, y3)
    requires (x1 - x2) * (c.x - d.x) + (y1 - y2) * (c.y - d.y) == 0.0
    requires (x3 - x2) * (c.x - d.x) + (y3 - y2) * (c.y - d.y) == 0.0
    ensures c == d
  {
    OnlyZeroSolution(x1 - x2, y1 - y2, x3 - x2, y3 - y2, c.x - d.x, c.y - d.y);
  }

  /** A homogeneous 2x2 linear system with non-zero determinant. */
  lemma OnlyZeroSolution(a: real, b: real, e: real, f: real, u: real, v: real)
    requires a * f != b * e
    requires a * u + b * v == 0.0 && e * u + f * v == 0.0
    ensures u == 0.0 && v == 0.0
  {
    var det := a * f - b * e;
    assert u * det == f * (a * u + b * v) - b * (e * u + f * v);
    assert v * det == a * (e * u + f * v) - e * (a * u + b * v);
  }

  /** The circle of radius 2 about the origin, from three of its points. */
  lemma CircleOfRadiusTwo()
    ensures CircleFromThreePoints(2.0, 0.0, 0.0, 2.0, -2.0, 0.0) == Success(Circle(Point(0.0, 0.0), 4.0))
  {
  }

  /** The circle through (10,10), (20,0) and (30,10): centre (20,10), radius 10. */
  lemma CircleThroughSampleTriple()
    ensures CircleFromThreePoints(10.0, 10.0, 20.0, 0.0, 30.0, 10.0) == Success(Circle(Point(20.0, 10.0), 100.0))
  {
    var x1, y1, x2, y2, x3, y3 := 10.0, 10.0, 20.0, 0.0, 30.0, 10.0;
    assert (y1 - y2) / (x1 - x2) == -1.0;
    assert (y3 - y2) / (x3 - x2) == 1.0;
    assert (-1.0 * 1.0 * (y3 - y1) + -1.0 * (x2 + x3) - 1.0 * (x1 + x2)) / (2.0 * (-1.0 - 1.0)) == 20.0;
    assert -1.0 / -1.0 * (20.0 - (x1 + x2) / 2.0) + (y1 + y2) / 2.0 == 10.0;
  }

  /**
   * The formula rejects some triples that do have a circle: (0,0), (2,0),
   * (1,1) are not collinear and (1,0) is at distance 1 from each, but the
   * first chord is horizontal.
   */
  lemma HorizontalFirstChordRejected()
    ensures !Collinear(0.0, 0.0, 2.0, 0.0, 1.0, 1.0)
    ensures DistSq(Point(0.0, 0.0), Point(1.0, 0.0)) == 1.0
    ensures DistSq(Point(2.0, 0.0), Point(1.0, 0.0)) == 1.0
    ensures DistSq(Point(1.0, 1.0), Point(1.0, 0.0)) == 1.0
    ensures CircleFromThreePoints(0.0, 0.0, 2.0, 0.0, 1.0, 1.0) == Failure(HorizontalFirstChord)
  {
    var x1, y1, x2, y2, x3, y3 := 0.0, 0.0, 2.0, 0.0, 1.0, 1.0;
    assert !Collinear(x1, y1, x2, y2, x3, y3);
    CircleFromThreePointsFailures(x1, y1, x2, y2, x3, y3);
  }
}
