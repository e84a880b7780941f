/**
 The angles at which the dial's tick markers are drawn: one marker per
 minute (60) and one per hour (12), both starting at twelve o'clock.
 */
module Markers {
  import opened ClockAngles

  predicate StrictlyIncreasing(thetas: seq<real>)
  {
    forall i, j :: 0 <= i < j < |thetas| ==> thetas[i] < thetas[j]
  }

  /** The loop `for i < count: theta = i * step`, collecting each theta in order. */
  method MarkerAngles(count: nat, step: real) returns (thetas: seq<real>)
    ensures |thetas| == count
    ensures forall i :: 0 <= i < count ==> thetas[i] == i as real * step
  {
    thetas := [];
    var i := 0;
    while i < count
      invariant 0 <= i <= count
      invariant |thetas| == i
      invariant forall j :: 0 <= j < i ==> thetas[j] == j as real * step
    {
      thetas := thetas + [i as real * step];
      i := i + 1;
    }
  }

  /**
   The 60 minute-marker angles: they start at 0, are evenly 6 degrees
   apart, strictly increase, stay within one turn, and the next step after
   the last closes the circle.
   */
  method MinuteMarkerAngles() returns (thetas: seq<real>)
    ensures |thetas| == 60
    ensures thetas[0] == 0.0
    ensures forall i :: 0 < i < |thetas| ==> thetas[i] == thetas[i - 1] + 6.0
    ensures forall i :: 0 <= i < |thetas| ==> InTurn(thetas[i])
    ensures StrictlyIncreasing(thetas)
    ensures thetas[59] + 6.0 == 360.0
  {
    thetas := MarkerAngles(60, DegPerMin);
  }

  /**
   The 12 hour-marker angles: 30 degrees apart from 0, strictly increasing,
   within one turn, and hour marker i lies exactly on minute marker 5 i.
   */
  method HourMarkerAngles() returns (thetas: seq<real>)
    ensures |thetas| == 12
    ensures thetas[0] == 0.0
    ensures forall i :: 0 < i < |thetas| ==> thetas[i] == thetas[i - 1] + 30.0
    ensures forall i :: 0 <= i < |thetas| ==> InTurn(thetas[i])
    ensures StrictlyIncreasing(thetas)
    ensures forall i :: 0 <= i < |thetas| ==> thetas[i] == (5 * i) as real * DegPerMin
    ensures thetas[11] + 30.0 == 360.0
  {
    thetas := MarkerAngles(12, DegPerHour);
  }
}
