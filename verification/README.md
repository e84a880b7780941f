# Triangle clock: a Dafny model of the clock arithmetic

The triangle clock draws an analog clock as a triangle. Its three vertices
are the hour, minute and second hands. They sit on one circle and turn
around its centre. Everything in the program except the clock arithmetic is
libGDX rendering. This project models that arithmetic from
`TriangleClock.java` and proves its properties:

- the angular rate constants (`ClockAngles`);
- setting the three hand angles from a wall-clock time (`TimeSync.Sync`);
- the per-frame update, which turns each hand back by rate × delta and then
  adds 360 once if the angle went negative (`FrameUpdate.Advance`, `Step`, `Run`);
- the layout lengths derived from the shorter window side (`Layout.Create`);
- the minute and hour marker angles (`Markers`);
- the angle-to-point projection, with cosine and sine as parameters (`Projection`);
- sync followed by frames (`ClockRun`).

Java `float` angles, rates and lengths are modelled as exact `real`s.
IEEE single-precision rounding is not modelled. 6/60 and 30/3600 are not
exact floats, so one operation of the program differs from the model in the
last bits. Over a run of frames these errors accumulate. The hour hand moves
only about 1.4e-4° per frame at 60 frames per second, so each frame's
rounding is a noticeable fraction of its step. Above about 550 frames per
second the step is below half a float unit at 360 and rounding swallows it
whole. Worse, `angle += 360f` can round a tiny negative angle up to exactly
360.0: an hour hand synced to 0 at twelve o'clock and given a 1 ms frame
lands on 360.0, and every later short frame rounds it back to 360.0, so the
hand stalls. Every statement about frames therefore holds in exact arithmetic
only: `FrameUpdate.Advance`, `Step`, `RunExact`, `RunCongruent`,
`RepeatedFramesCongruent`, `RunStaysInTurn`, `RunStaysWithinOneTurn`, and
`ClockRun.FirstFrameSettlesIff`, `FramesAfterSyncWithinOneTurn`. In float an
angle can be exactly 360.0, outside the [0, 360) these state. Java `int` division and remainder truncate toward zero. `JavaInt`
models that rule, so `Sync` and `Create` are total over all integers.

Angles are stored "clockwise-negative". Time passing decreases them, and 0
is twelve o'clock. One might expect the hands to be always in [0, 360), a
frame of zero length to change nothing, and the normalisation to be a full
reduction modulo 360. The code behaves otherwise. The model follows the code
and proves each point:

- Sync yields angles in (-360, 0], not in [0, 360). The first frame moves
  them into [0, 360) exactly when the decrement stays at or above -360
  (`ClockRun.FirstFrameSettlesIff`). So the code does not guarantee that
  every angle is in [0, 360) after every frame. At 00:00:59, a first frame
  of 10 s leaves the second hand at -54 (`ClockRun.FirstFrameMayStayNegative`).
  What always holds after a sync and any frames of at most 60 s is the range
  (-360, 360) (`ClockRun.FramesAfterSyncWithinOneTurn`).
- The normaliser adds 360 once. It is not a full reduction modulo 360.
  Whenever the decrement falls below -360 the result stays negative
  (`FrameUpdate.Advance`). For example, from twelve o'clock a frame longer
  than 60 s leaves the second hand negative
  (`FrameUpdate.LongPauseStaysNegative`). It agrees with a full reduction
  exactly when the decrement stays within one turn of 0
  (`FrameUpdate.AdvanceIsWrapIff`).
- A frame with delta = 0 is not a no-op. It adds 360 to a negative angle
  (`FrameUpdate.ZeroDeltaIff`).
- At 3:30 the hour hand is 105° clockwise from twelve. The stored angle is
  -105. After a frame of length zero it is 255; a frame of delta seconds
  gives 255 - delta/120 (`ClockRun.ZeroFrameAfterSyncExamples`,
  `ClockRun.HalfPastThreeAfterFrame`).
- The integer halving `screenSize / 2` makes the dial radius negative when
  the shorter side is one pixel, and only then (`Layout.DialRadiusNegativeIff`).

## Model

| member | source | states |
|---|---|---|
| JavaInt.JavaDiv | src/core/src/com/jaradgray/triangleclock/TriangleClock.java:58 | the quotient of Java's `int /` truncates toward zero: the remainder left by it is in [0, b) for a non-negative dividend, (-b, 0] for a negative one |
| JavaInt.JavaRem | src/core/src/com/jaradgray/triangleclock/TriangleClock.java:178 | Java's `%` satisfies quotient × b + remainder = a, with the remainder taking the dividend's sign |
| ClockAngles.RatesConsistent | src/core/src/com/jaradgray/triangleclock/TriangleClock.java:20-25 | 60 × minute-hand rate = degrees per minute = 6, 3600 × hour-hand rate = degrees per hour = 30, second-hand rate = 6 |
| ClockAngles.RateIsOneTurnPerPeriod | src/core/src/com/jaradgray/triangleclock/TriangleClock.java:20-25 | each hand's per-second rate is positive and turns it exactly 360° in its period (60 s, 1 h, 12 h) |
| TimeSync.Sync | src/core/src/com/jaradgray/triangleclock/TriangleClock.java:178-183 | minuteAngle = -6·min + secondAngle/60 and hourAngle = -30·(hr % 12) + minuteAngle/12; for a real time every angle lies in (-360, 0] |
| TimeSync.SyncMatchesElapsed | src/core/src/com/jaradgray/triangleclock/TriangleClock.java:178-183 | each synced angle is -360 × (seconds of the hand's period elapsed) / period, for every integer input |
| TimeSync.ElapsedWithinPeriod | src/core/src/com/jaradgray/triangleclock/TriangleClock.java:168-174 | for hour, minute and second readable from "HH:mm:ss", each hand's elapsed time is within its period |
| TimeSync.SyncZeroIff | src/core/src/com/jaradgray/triangleclock/TriangleClock.java:181-183 | the second hand syncs to 0 iff sec = 0; the minute hand iff min = sec = 0; the hour hand iff hr % 12 = min = sec = 0, with Java's remainder |
| TimeSync.SyncTwelveHourPeriodic | src/core/src/com/jaradgray/triangleclock/TriangleClock.java:178 | hours hr and hr + 12 give identical angles |
| TimeSync.SyncExamples | src/core/src/com/jaradgray/triangleclock/TriangleClock.java:178-183 | 0:00:00 and 12:00:00 give all zeros; 6:00 gives hour -180; 3:30 gives hour -105 |
| FrameUpdate.Advance | src/core/src/com/jaradgray/triangleclock/TriangleClock.java:93-98 | one hand's new angle differs from the decrement by 0 or one turn; it is negative iff the decrement is below -360; it is in [0, 360) iff the decrement is in [-360, 360) |
| FrameUpdate.AdvanceCongruent | src/core/src/com/jaradgray/triangleclock/TriangleClock.java:96-98 | the correction never changes the angle modulo 360 |
| FrameUpdate.AdvanceIsWrapIff | src/core/src/com/jaradgray/triangleclock/TriangleClock.java:96-98 | the single correction equals a full reduction modulo 360 iff the decrement is in [-360, 360) |
| FrameUpdate.AdvancePreservesTurn | src/core/src/com/jaradgray/triangleclock/TriangleClock.java:93-98 | when rate × delta is in [0, 360], an angle in [0, 360) stays in [0, 360) and an angle in (-360, 360) stays in (-360, 360) |
| FrameUpdate.Step | src/core/src/com/jaradgray/triangleclock/TriangleClock.java:93-98 | a frame of 0 ≤ delta ≤ 60 s keeps all angles in [0, 360), and keeps all angles in (-360, 360) |
| FrameUpdate.StepCongruent | src/core/src/com/jaradgray/triangleclock/TriangleClock.java:93-98 | after a frame each hand is congruent modulo 360 to its old angle minus rate × delta |
| FrameUpdate.StepHandsIndependent | src/core/src/com/jaradgray/triangleclock/TriangleClock.java:93-98 | each hand's new angle depends only on its own old angle and rate |
| FrameUpdate.ZeroDeltaIff | src/core/src/com/jaradgray/triangleclock/TriangleClock.java:93-98 | a zero-length frame leaves the state unchanged iff no angle is negative, and adds 360 to each negative angle |
| FrameUpdate.LongPauseStaysNegative | src/core/src/com/jaradgray/triangleclock/TriangleClock.java:93-96 | from 0, a frame longer than 60 s leaves the second hand negative |
| FrameUpdate.RunIsPerHand | src/core/src/com/jaradgray/triangleclock/TriangleClock.java:93-98 | over any run of frames each hand's angle depends only on its own start angle and rate |
| FrameUpdate.RunHandExact | src/core/src/com/jaradgray/triangleclock/TriangleClock.java:93-98 | one hand after a run equals its start minus rate × total time plus 360 × the number of frames that corrected it, and that number is at most the number of frames |
| FrameUpdate.RunExact | src/core/src/com/jaradgray/triangleclock/TriangleClock.java:89-98 | after a run, each hand equals its start minus rate × total time plus 360 × the number of corrections, with at most one correction per frame |
| FrameUpdate.RunCongruent | src/core/src/com/jaradgray/triangleclock/TriangleClock.java:89-98 | any run of frames is congruent modulo 360 to one decrement by the total elapsed time |
| FrameUpdate.RepeatedFramesCongruent | src/core/src/com/jaradgray/triangleclock/TriangleClock.java:89-98 | n frames of delta agree modulo 360 with one frame of n × delta |
| FrameUpdate.RunStaysInTurn | src/core/src/com/jaradgray/triangleclock/TriangleClock.java:89-98 | starting in [0, 360), frames of 0 to 60 s keep every angle in [0, 360) |
| FrameUpdate.RunStaysWithinOneTurn | src/core/src/com/jaradgray/triangleclock/TriangleClock.java:89-98 | starting in (-360, 360), frames of 0 to 60 s keep every angle in (-360, 360) |
| Layout.Create | src/core/src/com/jaradgray/triangleclock/TriangleClock.java:50-75 | screenSize is the shorter side; dial radius + margin = the integer half of screenSize; margin = screenSize/20; triangle = 3/4 dial; hour ring = dial/10; minute and second rings = 1/2 and 1/4 of the hour ring; tick outlines = 1.2 × fills; ring outline = half an hour tick width |
| Layout.DialRadiusClosedForm | src/core/src/com/jaradgray/triangleclock/TriangleClock.java:57-58 | dial radius = 9/20 screenSize, minus 1/2 when screenSize is odd |
| Layout.DialRadiusNegativeIff | src/core/src/com/jaradgray/triangleclock/TriangleClock.java:54-58 | for a non-negative window the dial radius is negative iff screenSize = 1 |
| Layout.RadiiNested | src/core/src/com/jaradgray/triangleclock/TriangleClock.java:54-75 | for screens of at least 2 px the radii strictly nest, the dial fits in half the screen, and an outlined hour ring at a vertex stays inside the dial |
| Markers.MarkerAngles | src/core/src/com/jaradgray/triangleclock/TriangleClock.java:133-134 | the marker loop yields count angles, the i-th being i × step |
| Markers.MinuteMarkerAngles | src/core/src/com/jaradgray/triangleclock/TriangleClock.java:133-134 | 60 angles from 0, 6° apart, strictly increasing, in [0, 360), the last one step short of 360 |
| Markers.HourMarkerAngles | src/core/src/com/jaradgray/triangleclock/TriangleClock.java:143-144 | 12 angles from 0, 30° apart, strictly increasing, in [0, 360); hour marker i is minute marker 5i |
| Projection.PointOnCircle | src/core/src/com/jaradgray/triangleclock/TriangleClock.java:195-200 | radius 0 gives the origin whatever the angle |
| Projection.PointPeriodic | src/core/src/com/jaradgray/triangleclock/TriangleClock.java:195-200 | given 360-periodic cosine and sine, theta and theta + 360 give the same point |
| Projection.ZeroIsTwelveOClock | src/core/src/com/jaradgray/triangleclock/TriangleClock.java:196-198 | with the usual values of cosine and sine at 0 and 90, angle 0 is the top point (0, r) and angle -90 is (r, 0) |
| Projection.PointOnCircleDistance | src/core/src/com/jaradgray/triangleclock/TriangleClock.java:195-200 | when cosine² + sine² = 1 the point is at distance r from the centre |
| ClockRun.ClockwisePosition | src/core/src/com/jaradgray/triangleclock/TriangleClock.java:196 | the clockwise dial position of a stored angle is in [0, 360) |
| ClockRun.SyncedPosition | src/core/src/com/jaradgray/triangleclock/TriangleClock.java:178-183 | a synced hand points 360 × elapsed / period degrees clockwise from twelve |
| ClockRun.SyncWithinOneTurn | src/core/src/com/jaradgray/triangleclock/TriangleClock.java:178-183 | a synced state lies in (-360, 360) |
| ClockRun.FramesAfterSyncWithinOneTurn | src/core/src/com/jaradgray/triangleclock/TriangleClock.java:80-98 | after a sync and any frames of at most 60 s every angle is in (-360, 360) |
| ClockRun.FirstFrameSettlesIff | src/core/src/com/jaradgray/triangleclock/TriangleClock.java:93-98 | the first frame after a sync puts a hand in [0, 360) iff its decrement stays at or above -360 |
| ClockRun.FirstFrameMayStayNegative | src/core/src/com/jaradgray/triangleclock/TriangleClock.java:93-98 | at 00:00:59 a 10 s first frame leaves the second hand at -54; a following 0 s frame makes it 306 |
| ClockRun.HalfPastThreeAfterFrame | src/core/src/com/jaradgray/triangleclock/TriangleClock.java:93-98 | at 3:30 a first frame of delta ≥ 0 seconds leaves the hour hand at 255 - delta/120 |
| ClockRun.ZeroFrameAfterSyncExamples | src/core/src/com/jaradgray/triangleclock/TriangleClock.java:93-98 | 6:00 shows the hour hand at 180 after a frame; 3:30 shows 255, i.e. 105° clockwise from twelve |

## Left out

- Reading the clock (`Calendar`, `SimpleDateFormat`, `Integer.parseInt` of substrings, lines 167-175). This is foreign I/O and formatting. `Sync` takes hour, minute and second as integers, and `ValidTime` states the ranges "HH:mm:ss" yields.
- The cosine and sine of `MathUtils`. These are floating-point trigonometry with no counterpart here. They are parameters of `Projection.PointOnCircle`, and each lemma states the facts it assumes about them.
- All `ShapeRenderer`, `OrthographicCamera`, `Gdx.gl` and colour code. This includes the order of draw calls and the hand and marker ring draws. It is rendering, not arithmetic.
- The `create`, `resume`, `render` and `dispose` lifecycle hooks. They are engine plumbing. `resume` only calls the sync, and `render` only runs one `Step` before drawing. `ClockRun` covers the sync followed by frames.
- IEEE single-precision rounding of every `float` value, including the rounding of `int` to `float` conversion above 2^24. All of these are exact reals here. Every statement about frames holds only in exact arithmetic: in float a small negative angle plus 360 rounds to exactly 360.0, and at high frame rates the hour hand's step rounds away, so it can stall.
