/**
 The dial layout computed once in `create` from the window size.

 Every length is a fixed ratio of `screenSize`, the shorter window side,
 except that the dial radius starts from the Java integer quotient
 `screenSize / 2` before the (real) margin is subtracted. Lengths are
 modelled as exact reals rather than Java floats.
 */
module Layout {
  import opened JavaInt

  datatype Metrics = Metrics(
    screenSize: int,
    dialMargin: real,
    dialRadius: real,
    triangleRadius: real,
    hourCircleRadius: real,
    minuteCircleRadius: real,
    secondCircleRadius: real,
    hourTickWidth: real,
    hourTickStrokeWidth: real,
    minuteTickWidth: real,
    minuteTickStrokeWidth: real,
    hourTickRadius: real,
    hourTickStrokeRadius: real,
    minuteTickRadius: real,
    minuteTickStrokeRadius: real,
    circleStrokeThickness: real)

  /**
   The layout for a window of the given width and height. The result is
   stated as the ratios the drawing relies on: the triangle's vertices sit
   at three quarters of the dial radius, the minute and second rings are a
   half and a quarter of the hour ring, tick outlines are 1.2 times their
   fills, and the ring outline is half an hour-tick wide.
   */
  function Create(width: int, height: int): (m: Metrics)
    ensures m.screenSize <= width && m.screenSize <= height
    ensures m.screenSize == width || m.screenSize == height
    ensures m.dialRadius + m.dialMargin == JavaDiv(m.screenSize, 2) as real
    ensures m.dialMargin * 20.0 == m.screenSize as real
    ensures m.triangleRadius == 0.75 * m.dialRadius
    ensures m.hourCircleRadius * 10.0 == m.dialRadius
    ensures m.minuteCircleRadius * 2.0 == m.hourCircleRadius
    ensures m.secondCircleRadius * 4.0 == m.hourCircleRadius
    ensures m.hourTickWidth * 50.0 == m.screenSize as real
    ensures m.hourTickStrokeWidth == 2.0 * m.hourTickWidth
    ensures m.minuteTickWidth * 4.0 == m.hourTickWidth
    ensures m.minuteTickStrokeWidth == 2.0 * m.minuteTickWidth
    ensures m.hourTickRadius * 2.0 == m.hourCircleRadius
    ensures m.minuteTickRadius * 4.0 == m.hourTickRadius
    ensures m.hourTickStrokeRadius == 1.2 * m.hourTickRadius
    ensures m.minuteTickStrokeRadius == 1.2 * m.minuteTickRadius
    ensures m.circleStrokeThickness * 2.0 == m.hourTickWidth
  {
    var screenSize := if height < width then height else width;
    var dialMargin := screenSize as real / 20.0;
    var dialRadius := JavaDiv(screenSize, 2) as real - dialMargin;
    var triangleRadius := dialRadius - dialRadius * 0.25;
    var hourCircleRadius := dialRadius * 0.1;
    var minuteCircleRadius := hourCircleRadius * 0.5;
    var secondCircleRadius := minuteCircleRadius * 0.5;
    var hourTickWidth := screenSize as real / 50.0;
    var hourTickStrokeWidth := hourTickWidth * 2.0;
    var minuteTickWidth := hourTickWidth / 4.0;
    var minuteTickStrokeWidth := minuteTickWidth * 2.0;
    var hourTickRadius := hourCircleRadius / 2.0;
    var hourTickStrokeRadius := hourTickRadius * 1.2;
    var minuteTickRadius := hourTickRadius / 4.0;
    var minuteTickStrokeRadius := minuteTickRadius * 1.2;
    var circleStrokeThickness := (hourTickStrokeWidth - hourTickWidth) / 2.0;
    Metrics(
      screenSize, dialMargin, dialRadius, triangleRadius,
      hourCircleRadius, minuteCircleRadius, secondCircleRadius,
      hourTickWidth, hourTickStrokeWidth, minuteTickWidth, minuteTickStrokeWidth,
      hourTickRadius, hourTickStrokeRadius, minuteTickRadius, minuteTickStrokeRadius,
      circleStrokeThickness)
  }

  /**
   Closed form of the dial radius: nine twentieths of the screen, less half
   a pixel when the screen size is odd (the integer halving drops it).
   */
  lemma DialRadiusClosedForm(width: int, height: int)
    requires width >= 0 && height >= 0
    ensures var m := Create(width, height);
            m.dialRadius == 9.0 * m.screenSize as real / 20.0 - (m.screenSize % 2) as real / 2.0
  {
    var m := Create(width, height);
    var s := m.screenSize;
    assert JavaDiv(s, 2) * 2 + s % 2 == s;
  }

  /**
   For a real window the dial radius is negative exactly when the shorter
   side is one pixel: halving 1 gives 0, and the margin 1/20 is then
   subtracted from nothing.
   */
  lemma DialRadiusNegativeIff(width: int, height: int)
    requires width >= 0 && height >= 0
    ensures Create(width, height).dialRadius < 0.0 <==> Create(width, height).screenSize == 1
  {
    DialRadiusClosedForm(width, height);
  }

  /**
   For any window at least two pixels on its shorter side the rings are
   strictly nested: second < minute < hour ring < triangle < dial, the
   dial plus its margin fits in half the screen, and an hour ring drawn
   with its outline at a triangle vertex stays inside the dial.
   */
  lemma RadiiNested(width: int, height: int)
    requires width >= 2 && height >= 2
    ensures var m := Create(width, height);
            && 0.0 < m.secondCircleRadius < m.minuteCircleRadius < m.hourCircleRadius
            && m.hourCircleRadius < m.triangleRadius < m.dialRadius
            && m.dialRadius + m.dialMargin <= m.screenSize as real / 2.0
            && m.triangleRadius + m.hourCircleRadius + m.circleStrokeThickness <= m.dialRadius
            && m.minuteTickRadius < m.minuteTickStrokeRadius < m.hourTickRadius < m.hourTickStrokeRadius
  {
    DialRadiusClosedForm(width, height);
  }
}
