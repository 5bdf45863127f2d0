/**
 * The mouse controller: maps a fingertip position in the camera frame onto
 * the screen, smooths it with a single-pole exponential filter and drives
 * the operating system's pointer, whose calls are recorded in a log.
 */
module MouseControl {
  import opened Geometry

  /** Inset, in pixels, of the active rectangle from each edge of the camera frame. */
  const FrameMargin: int := 100

  /** One call to the operating system's input actuator. */
  datatype Actuation =
    | MoveTo(x: real, y: real)
    | Scroll(steps: int)
    | Click(button: string)
    | Zoom(steps: int)

  /**
   * One-dimensional linear interpolation as numpy's `interp` does it for an
   * increasing pair of sample points: the ends are held beyond the range.
   */
  function Interp(x: real, lo: real, hi: real, outLo: real, outHi: real): (r: real)
    requires lo < hi
    ensures x <= lo ==> r == outLo
    ensures x >= hi ==> r == outHi
    ensures lo <= x <= hi ==> r == MapRange(x, lo, hi, outLo, outHi)
  {
    if x <= lo then outLo
    else if x >= hi then outHi
    else (x - lo) * (outHi - outLo) / (hi - lo) + outLo
  }

  /** Clamp of `x` into [lo, hi]. */
  function Clamp(x: real, lo: real, hi: real): (r: real)
    requires lo <= hi
    ensures lo <= r <= hi
    ensures lo <= x <= hi ==> r == x
  {
    if x < lo then lo else if x > hi then hi else x
  }

  /** The interpolation is the affine range map applied to the clamped input. */
  lemma InterpIsClampedMapRange(x: real, lo: real, hi: real, outLo: real, outHi: real)
    requires lo < hi
    ensures Interp(x, lo, hi, outLo, outHi) == MapRange(Clamp(x, lo, hi), lo, hi, outLo, outHi)
  {
  }

  /** An increasing output range is never left. */
  lemma InterpBounded(x: real, lo: real, hi: real, outLo: real, outHi: real)
    requires lo < hi && outLo <= outHi
    ensures outLo <= Interp(x, lo, hi, outLo, outHi) <= outHi
  {
    InterpIsClampedMapRange(x, lo, hi, outLo, outHi);
    var c := Clamp(x, lo, hi);
    MapRangeMonotone(lo, c, lo, hi, outLo, outHi);
    MapRangeMonotone(c, hi, lo, hi, outLo, outHi);
  }

  /**
   * Screen coordinate aimed at by a fingertip coordinate `coord` in a frame of
   * extent `frameDim`, on a screen of extent `screenDim`.
   */
  function ScreenTarget(coord: int, frameDim: int, screenDim: int): (r: real)
    requires frameDim > 2 * FrameMargin
    ensures coord <= FrameMargin ==> r == 0.0
    ensures coord >= frameDim - FrameMargin ==> r == screenDim as real
  {
    Interp(coord as real, FrameMargin as real, (frameDim - FrameMargin) as real, 0.0, screenDim as real)
  }

  /**
   * The inset rectangle [100, frameDim - 100] is stretched over the whole
   * screen: at or before the margin gives 0, at or past the far margin gives
   * the full screen extent, linear in between, and never off the screen.
   */
  lemma ScreenTargetClamped(coord: int, frameDim: int, screenDim: nat)
    requires frameDim > 2 * FrameMargin
    ensures coord <= FrameMargin ==> ScreenTarget(coord, frameDim, screenDim) == 0.0
    ensures coord >= frameDim - FrameMargin ==> ScreenTarget(coord, frameDim, screenDim) == screenDim as real
    ensures FrameMargin <= coord <= frameDim - FrameMargin ==>
              ScreenTarget(coord, frameDim, screenDim)
              == MapRange(coord as real, FrameMargin as real, (frameDim - FrameMargin) as real, 0.0, screenDim as real)
    ensures 0.0 <= ScreenTarget(coord, frameDim, screenDim) <= screenDim as real
  {
    var lo, hi := FrameMargin as real, (frameDim - FrameMargin) as real;
    InterpIsClampedMapRange(coord as real, lo, hi, 0.0, screenDim as real);
    InterpBounded(coord as real, lo, hi, 0.0, screenDim as real);
  }

  /** One step of the exponential filter: move `1 / smoothing` of the way to the target. */
  function Smooth(prev: real, target: real, smoothing: real): (r: real)
    requires smoothing != 0.0
    ensures prev == target ==> r == target
  {
    prev + (target - prev) / smoothing
  }

  /**
   * The gap left to the target after one step is the old gap times
   * (smoothing - 1) / smoothing.
   */
  lemma SmoothShrinksGap(prev: real, target: real, smoothing: real)
    requires smoothing != 0.0
    ensures target - Smooth(prev, target, smoothing) == (target - prev) * ((smoothing - 1.0) / smoothing)
  {
    var d := target - prev;
    assert d * ((smoothing - 1.0) / smoothing) == d * (smoothing - 1.0) / smoothing;
    assert d * (smoothing - 1.0) / smoothing == d - d / smoothing;
  }

  /**
   * With a smoothing factor of at least 1 a step never overshoots: it lands
   * between the previous position and the target, and on the target when the
   * factor is exactly 1.
   */
  lemma SmoothStaysBetween(prev: real, target: real, smoothing: real)
    requires smoothing >= 1.0
    ensures prev <= target ==> prev <= Smooth(prev, target, smoothing) <= target
    ensures target <= prev ==> target <= Smooth(prev, target, smoothing) <= prev
    ensures smoothing == 1.0 ==> Smooth(prev, target, smoothing) == target
  {
    SmoothShrinksGap(prev, target, smoothing);
    var q := (smoothing - 1.0) / smoothing;
    assert 0.0 <= q < 1.0;
    var d := target - prev;
    if d >= 0.0 {
      assert 0.0 <= d * q <= d;
    } else {
      assert d <= d * q <= 0.0;
    }
  }

  /** `n` filter steps towards a fixed target. */
  function Approach(prev: real, target: real, smoothing: real, n: nat): real
    requires smoothing != 0.0
    decreases n
  {
    if n == 0 then prev else Approach(Smooth(prev, target, smoothing), target, smoothing, n - 1)
  }

  function Power(b: real, n: nat): real
  {
    if n == 0 then 1.0 else b * Power(b, n - 1)
  }

  /**
   * Repeated moves to a fixed target shrink the remaining gap geometrically,
   * by the factor (smoothing - 1) / smoothing per call.
   */
  lemma {:induction false} ApproachGap(prev: real, target: real, smoothing: real, n: nat)
    requires smoothing != 0.0
    ensures target - Approach(prev, target, smoothing, n)
            == (target - prev) * Power((smoothing - 1.0) / smoothing, n)
    decreases n
  {
    if n > 0 {
      var q := (smoothing - 1.0) / smoothing;
      var next := Smooth(prev, target, smoothing);
      ApproachGap(next, target, smoothing, n - 1);
      SmoothShrinksGap(prev, target, smoothing);
      assert (target - prev) * q * Power(q, n - 1) == (target - prev) * (q * Power(q, n - 1));
    }
  }

  /**
   * Repeated moves to a fixed target never overshoot it and never move away
   * from it: each position lies between the previous one and the target.
   */
  lemma {:induction false} ApproachMonotone(prev: real, target: real, smoothing: real, n: nat)
    requires smoothing >= 1.0
    ensures var a, b := Approach(prev, target, smoothing, n), Approach(prev, target, smoothing, n + 1);
            (prev <= target ==> prev <= a <= b <= target) &&
            (target <= prev ==> target <= b <= a <= prev)
    decreases n
  {
    var next := Smooth(prev, target, smoothing);
    SmoothStaysBetween(prev, target, smoothing);
    if n > 0 {
      ApproachMonotone(next, target, smoothing, n - 1);
    }
  }

  /**
   * The controller's state: the previous and current smoothed cursor
   * position, the screen size read once at construction, the smoothing
   * factor, and the log of actuator calls issued so far.
   */
  class MouseController {
    const screenWidth: nat
    const screenHeight: nat
    const smoothing: real
    var plocX: real
    var plocY: real
    var clocX: real
    var clocY: real
    var actuations: seq<Actuation>

    /** The screen size is a parameter here; the program asks the operating system for it. */
    constructor (screenWidth: nat, screenHeight: nat, smoothing: real)
      ensures this.screenWidth == screenWidth && this.screenHeight == screenHeight
      ensures this.smoothing == smoothing
      ensures plocX == 0.0 && plocY == 0.0 && clocX == 0.0 && clocY == 0.0
      ensures actuations == []
    {
      this.screenWidth := screenWidth;
      this.screenHeight := screenHeight;
      this.smoothing := smoothing;
      plocX, plocY := 0.0, 0.0;
      clocX, clocY := 0.0, 0.0;
      actuations := [];
    }

    /**
     * `move_mouse`: map the fingertip onto the screen, take one filter step
     * on each axis, ask the actuator to move there, and keep the new position
     * as the previous one. `failSafe` says whether the actuator refuses the
     * move with its fail-safe exception; the exception is swallowed and the
     * state advances all the same.
     */
    method MoveMouse(x: int, y: int, frameHeight: int, frameWidth: int, failSafe: bool)
      requires frameWidth > 2 * FrameMargin && frameHeight > 2 * FrameMargin
      requires smoothing != 0.0
      modifies this
      ensures clocX == Smooth(old(plocX), ScreenTarget(x, frameWidth, screenWidth), smoothing)
      ensures clocY == Smooth(old(plocY), ScreenTarget(y, frameHeight, screenHeight), smoothing)
      ensures plocX == clocX && plocY == clocY
      ensures actuations == old(actuations) + (if failSafe then [] else [MoveTo(clocX, clocY)])
    {
      var h, w := frameHeight, frameWidth;
      var frameR := FrameMargin;
      var xMapped := Interp(x as real, frameR as real, (w - frameR) as real, 0.0, screenWidth as real);
      var yMapped := Interp(y as real, frameR as real, (h - frameR) as real, 0.0, screenHeight as real);
      clocX := plocX + (xMapped - plocX) / smoothing;
      clocY := plocY + (yMapped - plocY) / smoothing;
      if !failSafe {
        actuations := actuations + [MoveTo(clocX, clocY)];
      }
      plocX, plocY := clocX, clocY;
    }

    /** `scroll`: forwarded to the actuator; the cursor state is untouched. */
    method Scroll(steps: int)
      modifies this`actuations
      ensures actuations == old(actuations) + [Actuation.Scroll(steps)]
    {
      actuations := actuations + [Actuation.Scroll(steps)];
    }

    /** `click`: forwarded to the actuator; the cursor state is untouched. */
    method Click(button: string)
      modifies this`actuations
      ensures actuations == old(actuations) + [Actuation.Click(button)]
    {
      actuations := actuations + [Actuation.Click(button)];
    }

    /** `drag` is not implemented: it does nothing at all. */
    method Drag(x: int, y: int, frameHeight: int, frameWidth: int)
      ensures unchanged(this)
    {
    }

    /**
     * Zoom by `steps`, the operation the frame loop calls for the two zoom
     * gestures. It is not part of the class as written; see README.
     */
    method Zoom(steps: int)
      modifies this`actuations
      ensures actuations == old(actuations) + [Actuation.Zoom(steps)]
    {
      actuations := actuations + [Actuation.Zoom(steps)];
    }
  }
}
