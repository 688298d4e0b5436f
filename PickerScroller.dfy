/** The scroller itself (PlayerTimerPickerScroller): a class whose fields
    are the scroller's fields and whose methods update them in place.  Each
    method is tied to the transition of `ScrollerState` it performs through
    `Snapshot()`, so every property proved there holds of the class. */
module PickerScroller {
  import opened Kotlin
  import opened ScrollerState

  class Scroller {
    var mode: Mode
    var startX: int
    var startY: int
    var finalX: int
    var finalY: int
    var minX: int
    var maxX: int
    var minY: int
    var maxY: int
    var currX: int
    var currY: int
    var startTime: int
    var duration: int
    var deltaX: int
    var deltaY: int
    var isFinished: bool

    function Snapshot(): State
      reads this
    {
      State(mode, startX, startY, finalX, finalY, minX, maxX, minY, maxY,
            currX, currY, startTime, duration, deltaX, deltaY, isFinished)
    }

    constructor ()
      ensures Snapshot() == Initial()
    {
      mode := ScrollMode;
      startX, startY, finalX, finalY := 0, 0, 0, 0;
      minX, maxX, minY, maxY := 0, 0, 0, 0;
      currX, currY := 0, 0;
      startTime, duration := 0, 0;
      deltaX, deltaY := 0, 0;
      isFinished := true;
    }

    method ForceFinished(finished: bool)
      modifies this
      ensures Snapshot() == ForceFinish(old(Snapshot()), finished)
    {
      isFinished := finished;
    }

    method SetFinalX(newX: int)
      modifies this
      ensures Snapshot() == WithFinalX(old(Snapshot()), newX)
    {
      finalX := newX;
      deltaX := finalX - startX;
      isFinished := false;
    }

    method SetFinalY(newY: int)
      modifies this
      ensures Snapshot() == WithFinalY(old(Snapshot()), newY)
    {
      finalY := newY;
      deltaY := finalY - startY;
      isFinished := false;
    }

    /** Returns false, changing nothing, when already finished. */
    method ComputeScrollOffset(now: int, f: Ratio) returns (more: bool)
      modifies this
      ensures more == !old(isFinished)
      ensures Snapshot() == Advance(old(Snapshot()), now, f)
    {
      if isFinished {
        return false;
      }
      var timePassed := now - startTime;
      if timePassed < duration {
        match mode
        case ScrollMode =>
          currX := startX + Scale(f, deltaX);
          currY := startY + Scale(f, deltaY);
        case FlingMode =>
          currX := startX + Scale(f, finalX - startX);
          currX := Coerce(currX, minX, maxX);
          currY := startY + Scale(f, finalY - startY);
          currY := Coerce(currY, minY, maxY);
          if currX == finalX && currY == finalY {
            isFinished := true;
          }
      } else {
        currX := finalX;
        currY := finalY;
        isFinished := true;
      }
      return true;
    }

    method StartScroll(now: int, startX: int, startY: int, dx: int, dy: int, duration: int := DefaultDuration)
      modifies this
      ensures Snapshot() == AfterStartScroll(old(Snapshot()), now, startX, startY, dx, dy, duration)
    {
      assert old(Snapshot()) == State(mode, this.startX, this.startY, finalX, finalY, minX, maxX, minY, maxY,
                                      currX, currY, startTime, this.duration, deltaX, deltaY, isFinished);
      mode, isFinished, this.duration, startTime := ScrollMode, false, duration, now;
      this.startX, this.startY := startX, startY;
      finalX, finalY := startX + dx, startY + dy;
      deltaX, deltaY := dx, dy;
    }

    method Fling(now: int, startX: int, startY: int,
                 minX: int, maxX: int, minY: int, maxY: int,
                 travelX: int, travelY: int, flingDuration: int)
      modifies this
      ensures Snapshot() == AfterFling(old(Snapshot()), now, startX, startY,
                                                 minX, maxX, minY, maxY, travelX, travelY, flingDuration)
    {
      assert old(Snapshot()) == State(mode, this.startX, this.startY, finalX, finalY, this.minX, this.maxX, this.minY, this.maxY,
                                      currX, currY, startTime, duration, deltaX, deltaY, isFinished);
      mode, isFinished := FlingMode, false;
      duration, startTime := flingDuration, now;
      this.startX, this.startY := startX, startY;
      this.minX, this.maxX, this.minY, this.maxY := minX, maxX, minY, maxY;
      finalX := Coerce(startX + travelX, minX, maxX);
      finalY := Coerce(startY + travelY, minY, maxY);
    }

    method AbortAnimation()
      modifies this
      ensures Snapshot() == Abort(old(Snapshot()))
    {
      currX := finalX;
      currY := finalY;
      isFinished := true;
    }

    method ExtendDuration(now: int, extend: int)
      modifies this
      ensures Snapshot() == Extend(old(Snapshot()), now, extend)
    {
      var passed := TimePassed(now);
      duration := passed + extend;
      isFinished := false;
    }

    /** timePassed() */
    function TimePassed(now: int): (t: int)
      reads this
      ensures now >= startTime ==> t >= 0
    {
      now - startTime
    }

    function IsScrollingInDirection(velX: int, velY: int): (b: bool)
      reads this
      ensures b == ScrollingInDirection(Snapshot(), velX, velY)
      ensures b ==> !isFinished
    {
      !isFinished && Sign(velX) == Sign(finalX - startX) && Sign(velY) == Sign(finalY - startY)
    }
  }
}
