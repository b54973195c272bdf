/**
 * Container geometry for the physics version of the game: a box centred on
 * the screen whose sides are padded from the centre in the ratio 5:6, scaled
 * as large as a 32x18 grid allows. TOP is the centre plus the vertical
 * padding and BOTTOM the centre minus it, so TOP > BOTTOM as numbers; this
 * file does not fix which way the y axis points.
 * Python's true division is exact real division on these values.
 */
module Config {

  const SCREEN_WIDTH: real := 1280.0
  const SCREEN_HEIGHT: real := 720.0
  const X_RATIO: real := 5.0
  const Y_RATIO: real := 6.0

  /** The derived landmarks for a given screen size. */
  datatype Layout = Layout(
    ctrX: real, ctrY: real,
    ratioScale: real, xPadding: real, yPadding: real,
    left: real, top: real, bottom: real, right: real)

  function Min(a: real, b: real): real
  {
    if a <= b then a else b
  }

  /**
   * The module-level formulas, for any screen size: the box is centred on
   * the screen, TOP exceeds BOTTOM by twice the vertical padding, and
   * width : height is X_RATIO : Y_RATIO.
   */
  function LayoutFor(screenWidth: real, screenHeight: real): (l: Layout)
    ensures l.left + l.right == 2.0 * l.ctrX && l.right - l.left == 2.0 * l.xPadding
    ensures l.top + l.bottom == 2.0 * l.ctrY && l.top - l.bottom == 2.0 * l.yPadding
    ensures (l.right - l.left) * Y_RATIO == (l.top - l.bottom) * X_RATIO
    ensures l.ratioScale <= screenHeight / 18.0 && l.ratioScale <= screenWidth / 32.0
    ensures l.ratioScale == screenHeight / 18.0 || l.ratioScale == screenWidth / 32.0
    ensures l.ctrX == screenWidth / 2.0 && l.ctrY == screenHeight / 2.0
    ensures l.left + l.right == screenWidth && l.top + l.bottom == screenHeight
    ensures l.right - l.left == 10.0 * l.ratioScale && l.top - l.bottom == 12.0 * l.ratioScale
  {
    var ctrX := screenWidth / 2.0;
    var ctrY := screenHeight / 2.0;
    var ratioScale := Min(screenHeight / 18.0, screenWidth / 32.0);
    var xPadding := X_RATIO * ratioScale;
    var yPadding := Y_RATIO * ratioScale;
    Layout(ctrX, ctrY, ratioScale, xPadding, yPadding,
           ctrX - xPadding, ctrY + yPadding, ctrY - yPadding, ctrX + xPadding)
  }

  const LAYOUT: Layout := LayoutFor(SCREEN_WIDTH, SCREEN_HEIGHT)
  const CTR_X: real := LAYOUT.ctrX
  const CTR_Y: real := LAYOUT.ctrY
  const RATIO_SCALE: real := LAYOUT.ratioScale
  const X_PADDING: real := LAYOUT.xPadding
  const Y_PADDING: real := LAYOUT.yPadding
  const LEFT: real := LAYOUT.left
  const TOP: real := LAYOUT.top
  const BOTTOM: real := LAYOUT.bottom
  const RIGHT: real := LAYOUT.right

  /**
   * For every positive screen size the box lies strictly inside the screen,
   * because 5/32 and 6/18 are both below 1/2.
   */
  lemma BoxInsideScreen(screenWidth: real, screenHeight: real)
    requires screenWidth > 0.0 && screenHeight > 0.0
    ensures var l := LayoutFor(screenWidth, screenHeight);
      0.0 < l.left < l.right < screenWidth && 0.0 < l.bottom < l.top < screenHeight
  {
  }

  /** With the configured 1280x720 screen every landmark is a whole number. */
  lemma ConfiguredValues()
    ensures RATIO_SCALE == 40.0 && X_PADDING == 200.0 && Y_PADDING == 240.0
    ensures CTR_X == 640.0 && CTR_Y == 360.0
    ensures LEFT == 440.0 && RIGHT == 840.0 && BOTTOM == 120.0 && TOP == 600.0
    ensures (RIGHT - LEFT, TOP - BOTTOM) == (400.0, 480.0)
  {
  }

  /** The configured box lies inside the configured screen. */
  lemma ConfiguredBoxInsideScreen()
    ensures 0.0 <= LEFT < RIGHT <= SCREEN_WIDTH
    ensures 0.0 <= BOTTOM < TOP <= SCREEN_HEIGHT
  {
    BoxInsideScreen(SCREEN_WIDTH, SCREEN_HEIGHT);
  }
}
