/** The scroller that drives the picker's motion (PlayerTimerPickerScroller).
    It is a state machine over integer positions: `startScroll` and `fling`
    configure a motion, `computeScrollOffset` advances it to the time given,
    and the finishing, pinning and retargeting rules are integer logic.

    The float curves are not modelled: the caller supplies, for each tick,
    the fraction the active curve yields (the interpolator's output in scroll
    mode, the spline's distance coefficient in fling mode) as a `Ratio`, and
    for a fling the rounded travel along each axis and the duration.  The
    clock is the explicit argument `now`.

    `State` with the functions below is the specification; the class
    `Scroller` is the imperative model, tied to it through `Snapshot()`. */
module ScrollerState {
  import opened Kotlin

  /** DEFAULT_DURATION of startScroll, in milliseconds */
  const DefaultDuration: int := 250

  /** SCROLL_MODE (0, the initial mode) and FLING_MODE (1) */
  datatype Mode = ScrollMode | FlingMode

  /** num / den: the value a float curve yields for the current time */
  datatype Fraction = Fraction(num: int, den: int)

  type Ratio = f: Fraction | f.den > 0 witness Fraction(0, 1)

  /** (f * x).roundToInt() */
  function Scale(f: Ratio, x: int): int
  {
    RoundHalfUp(f.num * x, f.den)
  }

  /** The fields of a scroller.  The deltas are the float fields mDeltaX and
      mDeltaY, which only ever hold integer values. */
  datatype State = State(
    mode: Mode,
    startX: int, startY: int,
    finalX: int, finalY: int,
    minX: int, maxX: int, minY: int, maxY: int,
    currX: int, currY: int,
    startTime: int, duration: int,
    deltaX: int, deltaY: int,
    finished: bool)

  /** A newly constructed scroller: scroll mode, everything zero, finished. */
  function Initial(): State
  {
    State(ScrollMode, 0, 0, 0, 0, 0, 0, 0, 0, 0, 0, 0, 0, 0, 0, true)
  }

  /** forceFinished(finished) */
  function ForceFinish(s: State, finished: bool): State
  {
    s.(finished := finished)
  }

  /** The finalX setter: retargets the X axis and restarts the scroller. */
  function WithFinalX(s: State, newX: int): State
  {
    s.(finalX := newX, deltaX := newX - s.startX, finished := false)
  }

  /** The finalY setter */
  function WithFinalY(s: State, newY: int): State
  {
    s.(finalY := newY, deltaY := newY - s.startY, finished := false)
  }

  /** startScroll(startX, startY, dx, dy, duration) at time `now` */
  function AfterStartScroll(s: State, now: int, startX: int, startY: int, dx: int, dy: int, duration: int): State
  {
    State(ScrollMode, startX, startY, startX + dx, startY + dy, s.minX, s.maxX, s.minY, s.maxY,
          s.currX, s.currY, now, duration, dx, dy, false)
  }

  /** fling(...) at time `now`, given the spline's rounded travel along each
      axis and its duration.  The target is pinned into the bounds. */
  function AfterFling(s: State, now: int, startX: int, startY: int,
                 minX: int, maxX: int, minY: int, maxY: int,
                 travelX: int, travelY: int, duration: int): (r: State)
    ensures r.mode == FlingMode && !r.finished && r.startTime == now && r.duration == duration
    ensures minX <= maxX ==> minX <= r.finalX <= maxX
    ensures minY <= maxY ==> minY <= r.finalY <= maxY
    ensures minX <= startX + travelX <= maxX ==> r.finalX == startX + travelX
    ensures minY <= startY + travelY <= maxY ==> r.finalY == startY + travelY
    ensures r.currX == s.currX && r.currY == s.currY && r.deltaX == s.deltaX && r.deltaY == s.deltaY
  {
    State(FlingMode, startX, startY,
          Coerce(startX + travelX, minX, maxX), Coerce(startY + travelY, minY, maxY),
          minX, maxX, minY, maxY, s.currX, s.currY,
          now, duration, s.deltaX, s.deltaY, false)
  }

  /** computeScrollOffset() at time `now`, the active curve yielding `f` */
  function Advance(s: State, now: int, f: Ratio): (r: State)
    // only the current position and the finished flag ever change
    ensures r == s.(currX := r.currX, currY := r.currY, finished := r.finished)
    // an already finished scroller is left as it is
    ensures s.finished ==> r == s
    // once the duration has elapsed the scroller lands on its target and stops
    ensures !s.finished && now - s.startTime >= s.duration ==>
      r.currX == s.finalX && r.currY == s.finalY && r.finished
    // before that, a scroll follows the curve and never stops on its own
    ensures !s.finished && now - s.startTime < s.duration && s.mode == ScrollMode ==>
      r.currX == s.startX + Scale(f, s.deltaX) && r.currY == s.startY + Scale(f, s.deltaY) && !r.finished
    // and a fling is pinned to its bounds and stops once it reaches its target
    ensures !s.finished && now - s.startTime < s.duration && s.mode == FlingMode ==>
      (s.minX <= s.maxX ==> s.minX <= r.currX <= s.maxX) &&
      (s.minY <= s.maxY ==> s.minY <= r.currY <= s.maxY) &&
      (r.finished <==> r.currX == s.finalX && r.currY == s.finalY)
  {
    if s.finished then s
    else if now - s.startTime < s.duration then
      match s.mode
      case ScrollMode =>
        s.(currX := s.startX + Scale(f, s.deltaX), currY := s.startY + Scale(f, s.deltaY))
      case FlingMode =>
        var x := Coerce(s.startX + Scale(f, s.finalX - s.startX), s.minX, s.maxX);
        var y := Coerce(s.startY + Scale(f, s.finalY - s.startY), s.minY, s.maxY);
        s.(currX := x, currY := y, finished := x == s.finalX && y == s.finalY)
    else
      s.(currX := s.finalX, currY := s.finalY, finished := true)
  }

  /** abortAnimation(): jump to the target and stop */
  function Abort(s: State): State
  {
    s.(currX := s.finalX, currY := s.finalY, finished := true)
  }

  /** extendDuration(extend) at time `now` */
  function Extend(s: State, now: int, extend: int): (r: State)
  {
    s.(duration := (now - s.startTime) + extend, finished := false)
  }

  /** The vertical distance still to go: finalY - currY */
  function Remaining(s: State): int
  {
    s.finalY - s.currY
  }

  /** isScrollingInDirection(velX, velY) */
  function ScrollingInDirection(s: State, velX: int, velY: int): bool
  {
    !s.finished && Sign(velX) == Sign(s.finalX - s.startX) && Sign(velY) == Sign(s.finalY - s.startY)
  }

  // ---------------------------------------------------------------------
  // Rounding a fraction of a distance

  /** Rounding p / d lands between 0 and x whenever p lies between 0 and d * x. */
  lemma RoundBetween(p: int, d: int, x: int)
    requires d > 0
    requires x >= 0 ==> 0 <= p <= d * x
    requires x < 0 ==> d * x <= p <= 0
    ensures Min(0, x) <= RoundHalfUp(p, d) <= Max(0, x)
  {
    if x >= 0 {
      assert (2 * d) * (x + 1) == 2 * (d * x) + 2 * d;
      DivBetween(2 * p + d, 2 * d, 0, x + 1);
    } else {
      assert (2 * d) * x == 2 * (d * x);
      DivBetween(2 * p + d, 2 * d, x, 1);
    }
  }

  lemma MulBetween(n: int, d: int, x: int)
    requires 0 <= n <= d
    ensures x >= 0 ==> 0 <= n * x <= d * x
    ensures x < 0 ==> d * x <= n * x <= 0
  {
    if x >= 0 {
      assert d * x - n * x == (d - n) * x;
      MulNonnegative(n, x);
      MulNonnegative(d - n, x);
    } else {
      assert n * x - d * x == (d - n) * (-x) && n * x == -(n * (-x));
      MulNonnegative(n, -x);
      MulNonnegative(d - n, -x);
    }
  }

  /** A fraction in [0, 1] of a distance, rounded, stays between 0 and it. */
  lemma ScaleBetween(f: Ratio, x: int)
    requires 0 <= f.num <= f.den
    ensures Min(0, x) <= Scale(f, x) <= Max(0, x)
  {
    MulBetween(f.num, f.den, x);
    RoundBetween(f.num * x, f.den, x);
  }

  /** The whole of a distance, rounded, is that distance. */
  lemma ScaleWhole(f: Ratio, x: int)
    requires f.num == f.den
    ensures Scale(f, x) == x
  {
    var d := f.den;
    assert 2 * (f.num * x) + d == 2 * (d * x) + d;
    assert (2 * d) * x == 2 * (d * x) && (2 * d) * (x + 1) == 2 * (d * x) + 2 * d;
    DivBetween(2 * (f.num * x) + d, 2 * d, x, x + 1);
  }

  // ---------------------------------------------------------------------
  // What a motion does once it has been configured

  /** After startScroll, a tick before the duration lands between the start
      and the target (for a curve value in [0, 1]) and keeps running; a tick
      at or after the duration lands on start + d and finishes. */
  lemma ScrollProgress(s: State, start: int, now: int, sx: int, sy: int, dx: int, dy: int, duration: int, f: Ratio)
    requires 0 <= f.num <= f.den
    ensures var r := Advance(AfterStartScroll(s, start, sx, sy, dx, dy, duration), now, f);
      if now - start < duration then
        !r.finished &&
        sx + Min(0, dx) <= r.currX <= sx + Max(0, dx) &&
        sy + Min(0, dy) <= r.currY <= sy + Max(0, dy)
      else
        r.finished && r.currX == sx + dx && r.currY == sy + dy
  {
    ScaleBetween(f, dx);
    ScaleBetween(f, dy);
  }

  /** After fling with non-empty bounds, every tick keeps the position inside
      the bounds, and a tick at which the spline has covered the whole
      distance (coefficient 1) lands on the target and finishes. */
  lemma FlingProgress(s: State, start: int, sx: int, sy: int,
                      minX: int, maxX: int, minY: int, maxY: int,
                      tx: int, ty: int, duration: int, now: int, f: Ratio)
    requires minX <= maxX && minY <= maxY
    ensures var t := AfterFling(s, start, sx, sy, minX, maxX, minY, maxY, tx, ty, duration);
      var r := Advance(t, now, f);
      minX <= r.currX <= maxX && minY <= r.currY <= maxY &&
      (f.num == f.den ==> r.finished && r.currX == t.finalX && r.currY == t.finalY)
  {
    var t := AfterFling(s, start, sx, sy, minX, maxX, minY, maxY, tx, ty, duration);
    if f.num == f.den {
      ScaleWhole(f, t.finalX - t.startX);
      ScaleWhole(f, t.finalY - t.startY);
    }
  }

  /** Moving the Y target of a scroll restarts it toward the new target
      (the X axis is unchanged) and the direction test follows the new target. */
  lemma RetargetProgress(s: State, newY: int, now: int, f: Ratio, velX: int, velY: int)
    requires s.mode == ScrollMode && 0 <= f.num <= f.den
    ensures var t := WithFinalY(s, newY);
      var r := Advance(t, now, f);
      (ScrollingInDirection(t, velX, velY) <==>
         Sign(velX) == Sign(s.finalX - s.startX) && Sign(velY) == Sign(newY - s.startY)) &&
      (now - s.startTime < s.duration ==>
         !r.finished && s.startY + Min(0, newY - s.startY) <= r.currY <= s.startY + Max(0, newY - s.startY)) &&
      (now - s.startTime >= s.duration ==> r.finished && r.currY == newY)
  {
    ScaleBetween(f, newY - s.startY);
  }

  /** Extending at time `at` by `extend` keeps a scroll running exactly until
      `at + extend`, toward the same target. */
  lemma ExtendProgress(s: State, at: int, extend: int, now: int, f: Ratio)
    requires s.mode == ScrollMode
    ensures var r := Advance(Extend(s, at, extend), now, f);
      r.finalX == s.finalX && r.finalY == s.finalY && r.startX == s.startX && r.startY == s.startY &&
      (r.finished <==> now >= at + extend) &&
      (now >= at + extend ==> r.currX == s.finalX && r.currY == s.finalY)
  {
  }

  /** The input picture of a scroller that abortAnimation stopped: already at
      its target, and every later tick leaves it there. */
  lemma AbortSettles(s: State, now: int, f: Ratio, velX: int, velY: int)
    ensures var a := Abort(s);
      a.currX == s.finalX && a.currY == s.finalY && Advance(a, now, f) == a && !ScrollingInDirection(a, velX, velY)
  {
  }
}
