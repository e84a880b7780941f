/**
 Sync followed by frames: what the angles look like over the program's
 life, from a sync at startup or resume through any number of frames.
 */
module ClockRun {
  import opened ClockAngles
  import opened TimeSync
  import opened FrameUpdate

  /** The dial position a stored angle points at, in degrees clockwise from twelve. */
  function ClockwisePosition(angle: real): (p: real)
    ensures InTurn(p)
  {
    Wrap360(-angle)
  }

  /**
   A synced hand points at the fraction of its period already elapsed:
   its clockwise dial position is 360 times elapsed over period.
   */
  lemma SyncedPosition(hand: Hand, hr: int, min: int, sec: int)
    requires ValidTime(hr, min, sec)
    ensures ClockwisePosition(Sync(hr, min, sec).Get(hand))
            == 360.0 * ElapsedInPeriod(hand, hr, min, sec) as real / PeriodSeconds(hand) as real
  {
    SyncMatchesElapsed(hand, hr, min, sec);
    WrapInTurn(-Sync(hr, min, sec).Get(hand));
  }

  /** A synced state lies within one turn of 0. */
  lemma SyncWithinOneTurn(hr: int, min: int, sec: int)
    requires ValidTime(hr, min, sec)
    ensures AllWithinOneTurn(Sync(hr, min, sec))
  {
  }

  /** However many frames of at most a minute follow a sync, every angle stays in (-360, 360). */
  lemma FramesAfterSyncWithinOneTurn(hr: int, min: int, sec: int, deltas: seq<real>)
    requires ValidTime(hr, min, sec)
    requires FramesAtMostMinute(deltas)
    ensures AllWithinOneTurn(Run(Sync(hr, min, sec), deltas))
  {
    SyncWithinOneTurn(hr, min, sec);
    RunStaysWithinOneTurn(Sync(hr, min, sec), deltas);
  }

  /**
   The first frame after a sync brings a hand into [0, 360) exactly when
   it turns that hand back by no more than what remains of its turn.
   */
  lemma FirstFrameSettlesIff(hand: Hand, hr: int, min: int, sec: int, delta: real)
    requires ValidTime(hr, min, sec)
    requires delta >= 0.0
    ensures InTurn(Step(Sync(hr, min, sec), delta).Get(hand))
            <==> Sync(hr, min, sec).Get(hand) - Rate(hand) * delta >= -360.0
  {
    StepHandsIndependent(Sync(hr, min, sec), delta, hand);
    RateIsOneTurnPerPeriod(hand);
  }

  /**
   The state need not reach [0, 360): at 00:00:59 a first frame of 10 s
   leaves the second hand at -54, a frame of 0 s afterwards brings it to 306.
   */
  lemma FirstFrameMayStayNegative()
    ensures Step(Sync(0, 0, 59), 10.0).second == -54.0
    ensures Step(Step(Sync(0, 0, 59), 10.0), 0.0).second == 306.0
  {
  }

  /** A zero-length frame after a sync shows the hands in [0, 360): 6:00 and 3:30 examples. */
  lemma ZeroFrameAfterSyncExamples()
    ensures Step(Sync(6, 0, 0), 0.0).hour == 180.0
    ensures Step(Sync(3, 30, 0), 0.0).hour == 255.0
    ensures ClockwisePosition(Sync(3, 30, 0).hour) == 105.0
  {
    SyncedPosition(Hour, 3, 30, 0);
  }

  /** At 3:30 a first frame of delta seconds leaves the hour hand at 255 - delta/120. */
  lemma HalfPastThreeAfterFrame(delta: real)
    requires delta >= 0.0
    ensures Step(Sync(3, 30, 0), delta).hour == 255.0 - delta / 120.0
  {
  }
}
