/**
 * The side selection of the brush-size widget: when a resize starts, the
 * cursor is warped onto the brush circle, to the right of the centre for a
 * right-handed user and to the left otherwise, unless that point lies
 * outside the region, in which case the other side is used and the
 * "reversed" flag is raised. The resize interaction then measures the
 * radius change with a side factor derived from the same two flags.
 */
module SketchBrush {

  /** Where the cursor is warped to, and the reversed flag afterwards. */
  datatype WarpTarget = WarpTarget(newX: real, screenHandReverse: bool)

  /** The x-coordinate on the user's preferred side of the circle. */
  function PreferredX(rightHanded: bool, x: real, pxlRad: real): real {
    if rightHanded then x + pxlRad else x - pxlRad
  }

  /** Whether the preferred point lies inside the region horizontally (only the edge it moves towards is tested). */
  predicate PreferredFits(rightHanded: bool, x: real, pxlRad: real, regionWidth: real) {
    if rightHanded then x + pxlRad <= regionWidth else x - pxlRad >= 0.0
  }

  /**
   * brush_pix_size_init without the cursor warp itself: the warp
   * x-coordinate and the new reversed flag, for a brush centred at `x` of
   * radius `pxlRad` in a region `regionWidth` wide. A flag already raised
   * stays raised.
   */
  function BrushPixSizeInit(rightHanded: bool, x: real, pxlRad: real, regionWidth: real,
                            screenHandReverse: bool): (r: WarpTarget)
    ensures r.newX == x + pxlRad || r.newX == x - pxlRad
    ensures PreferredFits(rightHanded, x, pxlRad, regionWidth) ==> r.newX == PreferredX(rightHanded, x, pxlRad)
    ensures !PreferredFits(rightHanded, x, pxlRad, regionWidth) ==> r.newX == PreferredX(!rightHanded, x, pxlRad)
    ensures r.screenHandReverse <==> screenHandReverse || !PreferredFits(rightHanded, x, pxlRad, regionWidth)
  {
    if rightHanded then
      var newX := x + pxlRad;
      if newX > regionWidth then WarpTarget(x - pxlRad, true)
      else WarpTarget(newX, screenHandReverse)
    else
      var newX := x - pxlRad;
      if newX < 0.0 then WarpTarget(x + pxlRad, true)
      else WarpTarget(newX, screenHandReverse)
  }

  /** The resize interaction's side factor: +1 when the handle is right of the centre, -1 when left. */
  function SideFactor(rightHanded: bool, screenHandReverse: bool): (s: int)
    ensures s == 1 || s == -1
    ensures (s == 1) <==> (rightHanded != screenHandReverse)
  {
    (-1 + 2 * (if rightHanded then 1 else 0)) * (1 - 2 * (if screenHandReverse then 1 else 0))
  }

  /**
   * The radius change the interaction reads off the cursor's x-coordinate,
   * before the shrink damping: the cursor's signed distance beyond the
   * starting handle, scaled by one tenth in precise mode.
   */
  function RadDiff(rightHanded: bool, screenHandReverse: bool, initX: real, pxlRad: real,
                   mouseX: real, precise: bool): (r: real)
    ensures var outward := SideFactor(rightHanded, screenHandReverse) as real * (mouseX - initX);
      r >= 0.0 <==> outward >= pxlRad
  {
    var side := SideFactor(rightHanded, screenHandReverse) as real;
    assert side * side == 1.0;
    var d := side * (mouseX - (initX + side * pxlRad));
    assert d == side * (mouseX - initX) - pxlRad;
    if precise then d * 0.1 else d
  }

  /**
   * The warp puts the cursor where the resize reads no change: starting
   * from an unreversed brush, the side factor computed from the new flag
   * points at the side the cursor was warped to, so the radius change at
   * the warped cursor is zero, and moving a further `dx` out makes it
   * exactly `dx` (a tenth of it in precise mode). The
   * interaction measures from the starting x-coordinate and the warp from
   * the centre; the widget always sets the two together (on creation and
   * on every hover move), so both are `x` here.
   */
  lemma WarpIsNeutral(rightHanded: bool, x: real, pxlRad: real, regionWidth: real, precise: bool, dx: real)
    requires dx >= 0.0
    ensures var w := BrushPixSizeInit(rightHanded, x, pxlRad, regionWidth, false);
      var s := SideFactor(rightHanded, w.screenHandReverse) as real;
      w.newX == x + s * pxlRad &&
      RadDiff(rightHanded, w.screenHandReverse, x, pxlRad, w.newX, precise) == 0.0 &&
      RadDiff(rightHanded, w.screenHandReverse, x, pxlRad, w.newX + s * dx, precise) == (if precise then dx * 0.1 else dx)
  {
    var w := BrushPixSizeInit(rightHanded, x, pxlRad, regionWidth, false);
    var s := SideFactor(rightHanded, w.screenHandReverse) as real;
    assert s * s == 1.0;
    assert s * (w.newX + s * dx - (x + s * pxlRad)) == s * s * dx;
  }

  /**
   * The warped cursor is the only x-coordinate at which the resize, started
   * from an unreversed brush, reads no change.
   */
  lemma WarpIsOnlyNeutralPoint(rightHanded: bool, x: real, pxlRad: real, regionWidth: real,
                               precise: bool, mouseX: real)
    ensures var w := BrushPixSizeInit(rightHanded, x, pxlRad, regionWidth, false);
      RadDiff(rightHanded, w.screenHandReverse, x, pxlRad, mouseX, precise) == 0.0 <==> mouseX == w.newX
  {
    var w := BrushPixSizeInit(rightHanded, x, pxlRad, regionWidth, false);
    var s := SideFactor(rightHanded, w.screenHandReverse) as real;
    assert s * s == 1.0;
  }

  /**
   * When the brush centre is inside the region and the circle is no wider
   * than the region, the warp target is inside the region too.
   */
  lemma WarpStaysInRegion(rightHanded: bool, x: real, pxlRad: real, regionWidth: real,
                          screenHandReverse: bool)
    requires 0.0 <= x <= regionWidth && 0.0 <= pxlRad && 2.0 * pxlRad <= regionWidth
    ensures 0.0 <= BrushPixSizeInit(rightHanded, x, pxlRad, regionWidth, screenHandReverse).newX <= regionWidth
  {
  }
}
