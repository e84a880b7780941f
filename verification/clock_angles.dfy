/**
 The clock's angular rates and its state of three hand angles.

 Java `float` constants and angles are modelled as exact `real`s: every
 property below is about the arithmetic the program means, not about
 IEEE single-precision rounding (6/60 and 30/3600 are not exact floats).
 */
module ClockAngles {

  /** Degrees the second hand turns per second. */
  const DegPerSec: real := 6.0
  /** Degrees between two minute positions on the dial. */
  const DegPerMin: real := 360.0 / 60.0
  /** Degrees between two hour positions on the dial. */
  const DegPerHour: real := 360.0 / 12.0
  /** Degrees each hand turns per elapsed second. */
  const DegPerSecSecond: real := DegPerSec
  const DegPerSecMinute: real := DegPerMin / 60.0
  const DegPerSecHour: real := DegPerHour / 60.0 / 60.0

  datatype Hand = Hour | Minute | Second

  /** The per-second rate at which a hand is advanced each frame. */
  function Rate(hand: Hand): real
  {
    match hand
    case Hour => DegPerSecHour
    case Minute => DegPerSecMinute
    case Second => DegPerSecSecond
  }

  /** Seconds a hand takes for one full turn on a twelve-hour dial. */
  function PeriodSeconds(hand: Hand): nat
  {
    match hand
    case Hour => 12 * 60 * 60
    case Minute => 60 * 60
    case Second => 60
  }

  /** The per-minute and per-hour constants and the per-second rates agree. */
  lemma RatesConsistent()
    ensures 60.0 * DegPerSecMinute == DegPerMin == 6.0
    ensures 3600.0 * DegPerSecHour == DegPerHour == 30.0
    ensures DegPerSecSecond == DegPerSec == 6.0
  {
  }

  /** Each hand's rate carries it exactly once around the dial in its period. */
  lemma RateIsOneTurnPerPeriod(hand: Hand)
    ensures Rate(hand) > 0.0
    ensures Rate(hand) * PeriodSeconds(hand) as real == 360.0
  {
  }

  /**
   The three hand angles, in degrees. Angles are stored "clockwise-negative":
   time passing decreases them, and 0 is the twelve-o'clock direction.
   */
  datatype Angles = Angles(hour: real, minute: real, second: real)
  {
    function Get(hand: Hand): real
    {
      match hand
      case Hour => hour
      case Minute => minute
      case Second => second
    }
  }

  /** One normalised turn: the range [0, 360). */
  predicate InTurn(x: real)
  {
    0.0 <= x < 360.0
  }

  predicate AllInTurn(a: Angles)
  {
    forall hand: Hand :: InTurn(a.Get(hand))
  }

  /** Less than one turn away from 0 in either direction: the range (-360, 360). */
  predicate WithinOneTurn(x: real)
  {
    -360.0 < x < 360.0
  }

  predicate AllWithinOneTurn(a: Angles)
  {
    forall hand: Hand :: WithinOneTurn(a.Get(hand))
  }
}
