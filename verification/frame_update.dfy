/**
 The per-frame advancement at the top of `render`: every hand is turned
 back by its rate times the elapsed time, then corrected ONCE by +360 if
 it went negative. The correction is not a full reduction modulo 360;
 `Wrap360` is the full reduction, kept as the reference the single
 correction is compared against.
 */
module FrameUpdate {
  import opened ClockAngles

  /** Reference normaliser: the representative of x modulo 360 in [0, 360). */
  function Wrap360(x: real): (r: real)
    ensures InTurn(r)
  {
    x - 360.0 * (x / 360.0).Floor as real
  }

  /** The reduction is the unique value in [0, 360) a whole number of turns from x. */
  lemma WrapUnique(x: real, y: real, k: int)
    requires InTurn(y)
    requires x == y + 360.0 * k as real
    ensures Wrap360(x) == y
  {
    var q := x / 360.0;
    assert q == y / 360.0 + k as real;
    assert 0.0 <= y / 360.0 < 1.0;
    assert q.Floor == k;
  }

  /** Whole turns do not change the reduced angle. */
  lemma WrapShift(x: real, k: int)
    ensures Wrap360(x + 360.0 * k as real) == Wrap360(x)
  {
    var f := (x / 360.0).Floor;
    var y := Wrap360(x);
    assert x == y + 360.0 * f as real;
    WrapUnique(x + 360.0 * k as real, y, f + k);
  }

  /** Angles already in [0, 360) are their own reduction. */
  lemma WrapInTurn(x: real)
    requires InTurn(x)
    ensures Wrap360(x) == x
  {
    assert (x / 360.0).Floor == 0;
  }

  /**
   One hand's update for one frame. The result differs from the plain
   decrement by 0 or one turn; it is negative exactly when the decrement
   fell below -360, and it lies in [0, 360) exactly when the decrement
   stayed within one turn of 0.
   */
  function Advance(angle: real, rate: real, delta: real): (r: real)
    ensures r == angle - rate * delta || r == angle - rate * delta + 360.0
    ensures r < 0.0 <==> angle - rate * delta < -360.0
    ensures InTurn(r) <==> -360.0 <= angle - rate * delta < 360.0
  {
    var d := angle - rate * delta;
    if d < 0.0 then d + 360.0 else d
  }

  /** The single correction never changes an angle's residue modulo 360. */
  lemma AdvanceCongruent(angle: real, rate: real, delta: real)
    ensures Wrap360(Advance(angle, rate, delta)) == Wrap360(angle - rate * delta)
  {
    WrapShift(angle - rate * delta, 1);
  }

  /**
   The single correction agrees with a full reduction modulo 360 exactly
   when the decremented angle is within one turn of 0.
   */
  lemma AdvanceIsWrapIff(angle: real, rate: real, delta: real)
    ensures Advance(angle, rate, delta) == Wrap360(angle - rate * delta)
            <==> -360.0 <= angle - rate * delta < 360.0
  {
    var d := angle - rate * delta;
    if -360.0 <= d < 0.0 {
      WrapShift(d, 1);
      WrapInTurn(d + 360.0);
    } else if 0.0 <= d < 360.0 {
      WrapInTurn(d);
    }
  }

  /**
   A frame that turns a hand back by at most one turn keeps an angle in
   [0, 360) there, and an angle in (-360, 360) there.
   */
  lemma AdvancePreservesTurn(angle: real, rate: real, delta: real)
    requires 0.0 <= rate * delta <= 360.0
    ensures InTurn(angle) ==> InTurn(Advance(angle, rate, delta))
    ensures WithinOneTurn(angle) ==> WithinOneTurn(Advance(angle, rate, delta))
  {
  }

  /** The state after one frame of `delta` seconds. */
  function Step(s: Angles, delta: real): (r: Angles)
    ensures AllInTurn(s) && 0.0 <= delta <= 60.0 ==> AllInTurn(r)
    ensures AllWithinOneTurn(s) && 0.0 <= delta <= 60.0 ==> AllWithinOneTurn(r)
  {
    var r := Angles(
      hour := Advance(s.hour, DegPerSecHour, delta),
      minute := Advance(s.minute, DegPerSecMinute, delta),
      second := Advance(s.second, DegPerSecSecond, delta));
    if 0.0 <= delta <= 60.0 then
      AdvancePreservesTurn(s.hour, DegPerSecHour, delta);
      AdvancePreservesTurn(s.minute, DegPerSecMinute, delta);
      AdvancePreservesTurn(s.second, DegPerSecSecond, delta);
      assert r.Get(Hour) == r.hour && r.Get(Minute) == r.minute && r.Get(Second) == r.second;
      assert s.Get(Hour) == s.hour && s.Get(Minute) == s.minute && s.Get(Second) == s.second;
      r
    else
      r
  }

  /** One frame turns each hand back by its rate times delta, modulo 360. */
  lemma StepCongruent(s: Angles, delta: real, hand: Hand)
    ensures Wrap360(Step(s, delta).Get(hand)) == Wrap360(s.Get(hand) - Rate(hand) * delta)
  {
    StepHandsIndependent(s, delta, hand);
    AdvanceCongruent(s.Get(hand), Rate(hand), delta);
  }

  /**
   Each hand is advanced on its own: its new angle is a function of its
   own old angle and rate only, whatever the other two hands hold.
   */
  lemma StepHandsIndependent(s: Angles, delta: real, hand: Hand)
    ensures Step(s, delta).Get(hand) == Advance(s.Get(hand), Rate(hand), delta)
  {
    match hand
    case Hour =>
    case Minute =>
    case Second =>
  }

  /** A frame of zero seconds leaves the state alone exactly when no angle is negative. */
  lemma ZeroDeltaIff(s: Angles)
    ensures Step(s, 0.0) == s <==> forall hand: Hand :: s.Get(hand) >= 0.0
    ensures forall hand: Hand :: s.Get(hand) < 0.0 ==> Step(s, 0.0).Get(hand) == s.Get(hand) + 360.0
  {
    var t := Step(s, 0.0);
    if t == s {
      assert t.Get(Hour) == s.Get(Hour) && t.Get(Minute) == s.Get(Minute) && t.Get(Second) == s.Get(Second);
    }
    if forall hand: Hand :: s.Get(hand) >= 0.0 {
      assert s.Get(Hour) >= 0.0 && s.Get(Minute) >= 0.0 && s.Get(Second) >= 0.0;
    }
  }

  /** A long pause is not fully normalised: more than 60 s keeps the second hand negative. */
  lemma LongPauseStaysNegative(delta: real)
    requires delta > 60.0
    ensures Step(Angles(0.0, 0.0, 0.0), delta).second < 0.0
  {
  }

  /** Total elapsed time of a run of frames. */
  function Total(deltas: seq<real>): real
  {
    if |deltas| == 0 then 0.0 else deltas[0] + Total(deltas[1..])
  }

  /** The state after frames of the given durations, in order. */
  function Run(s: Angles, deltas: seq<real>): Angles
    decreases |deltas|
  {
    if |deltas| == 0 then s else Run(Step(s, deltas[0]), deltas[1..])
  }

  predicate FramesAtMostMinute(deltas: seq<real>)
  {
    forall i :: 0 <= i < |deltas| ==> 0.0 <= deltas[i] <= 60.0
  }

  lemma Distribute(c: real, x: real, y: real, z: real)
    requires z == x + y
    ensures c * z == c * x + c * y
  {
  }

  /** One hand taken through frames of the given durations, on its own. */
  function RunHand(angle: real, rate: real, deltas: seq<real>): real
    decreases |deltas|
  {
    if |deltas| == 0 then angle else RunHand(Advance(angle, rate, deltas[0]), rate, deltas[1..])
  }

  /** How many frames of a run applied the +360 correction to one hand. */
  function HandCorrections(angle: real, rate: real, deltas: seq<real>): nat
    decreases |deltas|
  {
    if |deltas| == 0 then 0
    else
      (if angle - rate * deltas[0] < 0.0 then 1 else 0)
      + HandCorrections(Advance(angle, rate, deltas[0]), rate, deltas[1..])
  }

  function Corrections(s: Angles, deltas: seq<real>, hand: Hand): nat
  {
    HandCorrections(s.Get(hand), Rate(hand), deltas)
  }

  /** Over a whole run, each hand still evolves on its own. */
  lemma {:induction false} RunIsPerHand(s: Angles, deltas: seq<real>, hand: Hand)
    ensures Run(s, deltas).Get(hand) == RunHand(s.Get(hand), Rate(hand), deltas)
    decreases |deltas|
  {
    if |deltas| > 0 {
      StepHandsIndependent(s, deltas[0], hand);
      RunIsPerHand(Step(s, deltas[0]), deltas[1..], hand);
    }
  }

  lemma {:induction false} RunHandExact(angle: real, rate: real, deltas: seq<real>)
    ensures RunHand(angle, rate, deltas)
            == angle - rate * Total(deltas) + 360.0 * HandCorrections(angle, rate, deltas) as real
    ensures HandCorrections(angle, rate, deltas) <= |deltas|
    decreases |deltas|
  {
    if |deltas| > 0 {
      var d0, rest := deltas[0], deltas[1..];
      var next := Advance(angle, rate, d0);
      var c0 := if angle - rate * d0 < 0.0 then 1 else 0;
      assert next == angle - rate * d0 + 360.0 * c0 as real;
      assert rate * Total(deltas) == rate * d0 + rate * Total(rest) by {
        Distribute(rate, d0, Total(rest), Total(deltas));
      }
      RunHandExact(next, rate, rest);
    }
  }

  /**
   A run of frames moves each hand by exactly its rate times the total
   time, plus one turn for every correction it applied; a hand is
   corrected at most once per frame.
   */
  lemma RunExact(s: Angles, deltas: seq<real>, hand: Hand)
    ensures Run(s, deltas).Get(hand)
            == s.Get(hand) - Rate(hand) * Total(deltas) + 360.0 * Corrections(s, deltas, hand) as real
    ensures Corrections(s, deltas, hand) <= |deltas|
  {
    RunIsPerHand(s, deltas, hand);
    RunHandExact(s.Get(hand), Rate(hand), deltas);
  }

  /**
   Additivity: any run of frames leaves each hand congruent, modulo 360,
   to one decrement by the run's total time.
   */
  lemma RunCongruent(s: Angles, deltas: seq<real>, hand: Hand)
    ensures Wrap360(Run(s, deltas).Get(hand)) == Wrap360(s.Get(hand) - Rate(hand) * Total(deltas))
  {
    RunExact(s, deltas, hand);
    WrapShift(s.Get(hand) - Rate(hand) * Total(deltas), Corrections(s, deltas, hand));
  }

  /** n frames of the same length. */
  function Repeat(delta: real, n: nat): (ds: seq<real>)
    ensures |ds| == n
  {
    if n == 0 then [] else [delta] + Repeat(delta, n - 1)
  }

  lemma {:induction false} TotalRepeat(delta: real, n: nat)
    ensures Total(Repeat(delta, n)) == n as real * delta
  {
    if n > 0 {
      TotalRepeat(delta, n - 1);
      assert Repeat(delta, n)[1..] == Repeat(delta, n - 1);
      assert (n - 1) as real * delta + delta == n as real * delta;
    }
  }

  /** n frames of `delta` agree, modulo 360, with one frame of n * delta. */
  lemma RepeatedFramesCongruent(s: Angles, delta: real, n: nat, hand: Hand)
    ensures Wrap360(Run(s, Repeat(delta, n)).Get(hand)) == Wrap360(Step(s, n as real * delta).Get(hand))
  {
    var total := n as real * delta;
    var x := s.Get(hand) - Rate(hand) * total;
    var ds := Repeat(delta, n);
    var k := Corrections(s, ds, hand);
    assert Run(s, ds).Get(hand) == x + 360.0 * k as real by {
      RunExact(s, ds, hand);
      TotalRepeat(delta, n);
    }
    assert Wrap360(Run(s, ds).Get(hand)) == Wrap360(x) by {
      WrapShift(x, k);
    }
    assert Wrap360(Step(s, total).Get(hand)) == Wrap360(x) by {
      StepCongruent(s, total, hand);
    }
  }

  /** Once every angle is in [0, 360), frames of at most a minute keep it there. */
  lemma {:induction false} RunStaysInTurn(s: Angles, deltas: seq<real>)
    requires AllInTurn(s)
    requires FramesAtMostMinute(deltas)
    ensures AllInTurn(Run(s, deltas))
    decreases |deltas|
  {
    if |deltas| > 0 {
      assert 0.0 <= deltas[0] <= 60.0;
      assert FramesAtMostMinute(deltas[1..]) by {
        forall i | 0 <= i < |deltas[1..]| ensures 0.0 <= deltas[1..][i] <= 60.0 {
          assert deltas[1..][i] == deltas[i + 1];
        }
      }
      RunStaysInTurn(Step(s, deltas[0]), deltas[1..]);
    }
  }

  /** Frames of at most a minute keep every angle within one turn of 0. */
  lemma {:induction false} RunStaysWithinOneTurn(s: Angles, deltas: seq<real>)
    requires AllWithinOneTurn(s)
    requires FramesAtMostMinute(deltas)
    ensures AllWithinOneTurn(Run(s, deltas))
    decreases |deltas|
  {
    if |deltas| > 0 {
      assert 0.0 <= deltas[0] <= 60.0;
      assert FramesAtMostMinute(deltas[1..]) by {
        forall i | 0 <= i < |deltas[1..]| ensures 0.0 <= deltas[1..][i] <= 60.0 {
          assert deltas[1..][i] == deltas[i + 1];
        }
      }
      RunStaysWithinOneTurn(Step(s, deltas[0]), deltas[1..]);
    }
  }
}
