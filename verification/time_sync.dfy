/**
 Setting the hand angles from a wall-clock time (`syncAnglesToCurrentTime`).

 Reading the calendar and parsing "HH:mm:ss" is left to the caller: the
 model takes the hour (24-hour scale), minute and second as integers.
 */
module TimeSync {
  import opened JavaInt
  import opened ClockAngles

  /** The values an "HH:mm:ss" reading can produce. */
  predicate ValidTime(hr: int, min: int, sec: int)
  {
    0 <= hr < 24 && 0 <= min < 60 && 0 <= sec < 60
  }

  /**
   Reference definition: seconds of a hand's own period already elapsed at
   hr:min:sec, on the twelve-hour dial.
   */
  function ElapsedInPeriod(hand: Hand, hr: int, min: int, sec: int): int
  {
    match hand
    case Second => sec
    case Minute => 60 * min + sec
    case Hour => 3600 * JavaRem(hr, 12) + 60 * min + sec
  }

  /**
   The three angles for hr:min:sec. The hour is first reduced to the
   twelve-hour scale with Java's `%`; each angle is the negated sum of
   rate times unit. The minute and hour angles are coupled to the faster
   hand, and for a real time every angle lies in (-360, 0], not in [0, 360).
   */
  function Sync(hr: int, min: int, sec: int): (a: Angles)
    ensures a.minute == -DegPerMin * min as real + a.second / 60.0
    ensures a.hour == -DegPerHour * JavaRem(hr, 12) as real + a.minute / 12.0
    ensures ValidTime(hr, min, sec) ==>
              forall hand: Hand :: -360.0 < a.Get(hand) <= 0.0
  {
    var h := JavaRem(hr, 12);
    Angles(
      hour := -(DegPerHour * h as real) - (DegPerSecHour * min as real * 60.0) - (DegPerSecHour * sec as real),
      minute := -(DegPerMin * min as real) - (DegPerSecMinute * sec as real),
      second := -(DegPerSecSecond * sec as real))
  }

  /** Each synced angle is minus the elapsed fraction of the hand's period, in degrees. */
  lemma SyncMatchesElapsed(hand: Hand, hr: int, min: int, sec: int)
    ensures Sync(hr, min, sec).Get(hand)
            == -(360.0 * ElapsedInPeriod(hand, hr, min, sec) as real / PeriodSeconds(hand) as real)
  {
  }

  /** For a real time, every hand has elapsed strictly less than its period. */
  lemma ElapsedWithinPeriod(hand: Hand, hr: int, min: int, sec: int)
    requires ValidTime(hr, min, sec)
    ensures 0 <= ElapsedInPeriod(hand, hr, min, sec) < PeriodSeconds(hand)
  {
  }

  /** A hand is synced to 0 (pointing at twelve) exactly when its elapsed time is zero. */
  lemma SyncZeroIff(hr: int, min: int, sec: int)
    requires ValidTime(hr, min, sec)
    ensures Sync(hr, min, sec).second == 0.0 <==> sec == 0
    ensures Sync(hr, min, sec).minute == 0.0 <==> min == 0 && sec == 0
    ensures Sync(hr, min, sec).hour == 0.0 <==> JavaRem(hr, 12) == 0 && min == 0 && sec == 0
  {
    SyncMatchesElapsed(Second, hr, min, sec);
    SyncMatchesElapsed(Minute, hr, min, sec);
    SyncMatchesElapsed(Hour, hr, min, sec);
  }

  /** Hours h and h + 12 give identical angles. */
  lemma SyncTwelveHourPeriodic(hr: int, min: int, sec: int)
    requires hr >= 0
    ensures Sync(hr + 12, min, sec) == Sync(hr, min, sec)
  {
  }

  /** Midnight and noon put all three hands at twelve; 6:00 and 3:30 as stored. */
  lemma SyncExamples()
    ensures Sync(0, 0, 0) == Angles(0.0, 0.0, 0.0)
    ensures Sync(12, 0, 0) == Angles(0.0, 0.0, 0.0)
    ensures Sync(6, 0, 0).hour == -180.0
    ensures Sync(3, 30, 0).hour == -105.0
  {
  }
}
