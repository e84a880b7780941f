/**
 `getPointOnCircle`: the point at a given radius and clock angle.

 The library's degree-based cosine and sine have no counterpart here, so
 they are parameters. The model fixes only what the program itself does:
 the +90 degree shift that puts angle 0 at twelve o'clock, and the
 scaling by the radius.
 */
module Projection {

  datatype Point = Point(x: real, y: real)

  function PointOnCircle(cosDeg: real -> real, sinDeg: real -> real, radius: real, theta: real): (p: Point)
    ensures radius == 0.0 ==> p == Point(0.0, 0.0)
  {
    var shifted := theta + 90.0;
    Point(radius * cosDeg(shifted), radius * sinDeg(shifted))
  }

  /** With 360-periodic cosine and sine, a whole turn lands on the same point. */
  lemma PointPeriodic(cosDeg: real -> real, sinDeg: real -> real, radius: real, theta: real)
    requires forall t :: cosDeg(t + 360.0) == cosDeg(t)
    requires forall t :: sinDeg(t + 360.0) == sinDeg(t)
    ensures PointOnCircle(cosDeg, sinDeg, radius, theta + 360.0)
            == PointOnCircle(cosDeg, sinDeg, radius, theta)
  {
    assert theta + 360.0 + 90.0 == (theta + 90.0) + 360.0;
  }

  /** Angle 0 is twelve o'clock and angle -90 is three o'clock: decreasing angles turn clockwise. */
  lemma ZeroIsTwelveOClock(cosDeg: real -> real, sinDeg: real -> real, radius: real)
    requires cosDeg(90.0) == 0.0 && sinDeg(90.0) == 1.0
    requires cosDeg(0.0) == 1.0 && sinDeg(0.0) == 0.0
    ensures PointOnCircle(cosDeg, sinDeg, radius, 0.0) == Point(0.0, radius)
    ensures PointOnCircle(cosDeg, sinDeg, radius, -90.0) == Point(radius, 0.0)
  {
  }

  /** When cosine and sine lie on the unit circle, the point lies at distance radius. */
  lemma PointOnCircleDistance(cosDeg: real -> real, sinDeg: real -> real, radius: real, theta: real)
    requires var c, s := cosDeg(theta + 90.0), sinDeg(theta + 90.0); c * c + s * s == 1.0
    ensures var p := PointOnCircle(cosDeg, sinDeg, radius, theta);
            p.x * p.x + p.y * p.y == radius * radius
  {
    var c, s := cosDeg(theta + 90.0), sinDeg(theta + 90.0);
    calc {
      (radius * c) * (radius * c) + (radius * s) * (radius * s);
      radius * radius * (c * c + s * s);
      radius * radius;
    }
  }
}
