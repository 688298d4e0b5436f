# Wheel time picker: a Dafny model

This project models the integer core of a wheel-style number picker
(`PlayerTimePicker`) and of the scroller that animates it
(`PlayerTimerPickerScroller`). Only the vertical axis is modelled. The
horizontal branches of the picker mirror the vertical ones, with one
exception: ACTION_DOWN on a running scroller. There the horizontal branch
also calls onScrollerFinished after stopping the scrollers
(PlayerTimePicker.kt:543-551) and the vertical one does not (566-572).

- `Kotlin.dfy` (module `Kotlin`) gives Kotlin's `Int` operators as the code
  uses them:
  - `/` and `%` round toward zero (`Quot`, `Rem`);
  - `Math.round` rounds halves up (`RoundHalfUp`);
  - `coerceAtMost(hi).coerceAtLeast(lo)` is `Coerce`.

  It also holds the exceptions the modelled code throws and the `Result`,
  `Outcome` and `Option` wrappers.
- `ScrollerState.dfy` (module `ScrollerState`) is the scroller as a
  datatype `State` with one pure transition function per operation. It also
  proves what a scroll or a fling does once started.
- `PickerScroller.dfy` (module `PickerScroller`) is the scroller as a class
  `Scroller` whose fields are the scroller's fields. Every method updates
  them in place and is tied to its transition by `Snapshot()`.
- `WheelMath.dfy` (module `WheelMath`) holds the picker's pure integer
  rules:
  - the wrap formula, the selector window and its one-slot rotations;
  - the commit rule of `setValueInternal`;
  - the two loops of `scrollBy`, pass by pass (`DownLoop`, `UpLoop`), and
    the whole of `scrollBy` (`ScrollOutcome`);
  - the snap-back and overshoot corrections;
  - the ACTION_UP and ACTION_DOWN decisions.
- `TimePicker.dfy` (module `TimePicker`) is the picker as a class
  `PlayerTimePicker`:
  - `selectorIndices` is an `array<int>` that is rotated and refilled in
    place;
  - the listeners are a log `events` of what they were told;
  - the text view is the string `selectedText`;
  - the posted long-press command is `pendingRepeat`;
  - the two scrollers are `Scroller` objects.

  `Valid()` is the invariant every method keeps: window shape, wrap
  soundness and cache soundness. `Consistent()` adds that the value is in
  range, that the wrap flag is on only when the window allows wrapping, and
  that the window is built around the value. `scrollBy` on a consistent
  wheel is proved to reach `ScrollOutcome`, and `ScrollOutcome` is then characterised in `WheelMath`:
  - a drag of k whole elements steps the value k times;
  - one `scrollBy` of the whole distance a smooth scroll of n steps
    covers walks the value n steps. By `WalkCircularUp`/`WalkCircularDown`
    and `WalkClamped` that is n values away, circularly, when wrapping,
    and saturates at the bound without wrapping;
  - in ascending order, one `scrollBy` of the whole distance that
    `smoothScrollToPosition` sets up lands on the position; in descending
    order it walks as many steps the other way.

  These two are statements about a single `scrollBy`. The scroller
  delivers a smooth scroll in ticks, one `scrollBy` per `computeScroll`.
  The ticks add up to the whole distance (`TickTotalTelescopes`), but
  their combined effect on the wheel is not proved to be the same.

Inputs the code takes from Android become parameters:
- the animation clock is an explicit `now`;
- the scroller's curve output for one tick (the interpolator in scroll
  mode, the spline distance coefficient in fling mode) is a `Ratio` `f`;
- the spline's fling travel and duration are `travel` and `flingDuration`;
- the release velocity is `velocity`;
- touch coordinates are integers;
- the element size, initial offset, loop threshold (`maxTextSize.toInt()`),
  touch slop, minimum fling velocity, divider band and number formatter are
  constructor parameters of the picker.

## Model

| member | source | states |
|---|---|---|
| Kotlin.Quot | PlayerTimePicker.kt:670 | integer division rounds toward zero: the magnitude is the quotient of the magnitudes and the sign follows the operands |
| Kotlin.Rem | PlayerTimePicker.kt:511 | the remainder is smaller than the divisor in magnitude and takes the sign of the dividend |
| Kotlin.QuotRem | PlayerTimePicker.kt:511 | quotient and remainder rebuild the dividend: a == b * (a / b) + a % b |
| Kotlin.RoundHalfUp | PlayerTimerPickerScroller.kt:263 | Math.round(n / d) is the nearest integer, halves rounded up |
| Kotlin.Coerce | PlayerTimerPickerScroller.kt:265-266 | coerceAtMost then coerceAtLeast: the result lies in a non-empty range, equals a value already inside it, and is lo for an empty range |
| ScrollerState.AfterFling | PlayerTimerPickerScroller.kt:370-393 | fling sets fling mode, clears finished, records start time and duration, and clamps each final coordinate into its bounds, keeping a target that already fits |
| ScrollerState.Advance | PlayerTimerPickerScroller.kt:230-278 | computeScrollOffset changes only the current position and the finished flag; a finished scroller is left alone; once the duration has elapsed it lands on the target and finishes; a scroll follows the curve without finishing; a fling is pinned to its bounds and finishes exactly when it reaches the target |
| ScrollerState.ScaleBetween | PlayerTimerPickerScroller.kt:238-240 | a curve value in [0, 1] times a distance, rounded, lies between 0 and that distance |
| ScrollerState.ScaleWhole | PlayerTimerPickerScroller.kt:259-263 | the whole distance, rounded, is the distance itself |
| ScrollerState.ScrollProgress | PlayerTimerPickerScroller.kt:308-326 | after startScroll, a tick before the duration lies between start and target and keeps running; a tick at or after it lands on start + d and finishes |
| ScrollerState.FlingProgress | PlayerTimerPickerScroller.kt:259-269 | after fling with non-empty bounds, every tick stays inside the bounds, and a tick at which the spline has covered the whole distance lands on the target and finishes |
| ScrollerState.RetargetProgress | PlayerTimerPickerScroller.kt:218-224 | setting finalY restarts a scroll toward the new target, and the direction test then follows the new target |
| ScrollerState.ExtendProgress | PlayerTimerPickerScroller.kt:435-440 | extendDuration keeps start and target and runs the scroll exactly until the extended end |
| ScrollerState.AbortSettles | PlayerTimerPickerScroller.kt:421-425 | abortAnimation puts the scroller on its target, stopped; later ticks leave it there, and it scrolls in no direction for any velocity |
| PickerScroller.Scroller.constructor | PlayerTimerPickerScroller.kt:18-80 | a new scroller is the initial state: finished, at the origin |
| PickerScroller.Scroller.ForceFinished | PlayerTimerPickerScroller.kt:175-177 | only the finished flag changes |
| PickerScroller.Scroller.SetFinalX | PlayerTimerPickerScroller.kt:199-205 | sets finalX, recomputes deltaX = finalX - startX and clears finished |
| PickerScroller.Scroller.SetFinalY | PlayerTimerPickerScroller.kt:218-224 | sets finalY, recomputes deltaY = finalY - startY and clears finished |
| PickerScroller.Scroller.ComputeScrollOffset | PlayerTimerPickerScroller.kt:230-278 | returns false, changing nothing, when finished; otherwise performs the Advance transition and returns true |
| PickerScroller.Scroller.StartScroll | PlayerTimerPickerScroller.kt:307-326 | performs AfterStartScroll: scroll mode, unfinished, target start + d, delta d, the given duration (250 by default) |
| PickerScroller.Scroller.Fling | PlayerTimerPickerScroller.kt:347-393 | performs AfterFling with the given travel and duration |
| PickerScroller.Scroller.AbortAnimation | PlayerTimerPickerScroller.kt:421-425 | the current position becomes the target and the scroller finishes |
| PickerScroller.Scroller.ExtendDuration | PlayerTimerPickerScroller.kt:435-440 | the duration becomes time passed + extend, and finished is cleared |
| PickerScroller.Scroller.TimePassed | PlayerTimerPickerScroller.kt:447-449 | the time since the start, never negative once the start has been reached |
| PickerScroller.Scroller.IsScrollingInDirection | PlayerTimerPickerScroller.kt:454-457 | true exactly when unfinished and both velocity signs match the signs of final - start |
| WheelMath.WrappedIndex | PlayerTimePicker.kt:1679-1686 | the identity on [min, max]; throws ArithmeticException exactly when the index is outside a one-value range |
| WheelMath.WrapAcrossEnds | PlayerTimePicker.kt:1679-1686 | for 1 <= i - max < max - min the result is min + (i - max) - 1, the mirror below min, so max + 1 wraps to min and min - 1 to max |
| WheelMath.WrapNear | PlayerTimePicker.kt:1679-1686 | next to the range the formula is the usual wrap-around |
| WheelMath.WrapMatchesCircular | PlayerTimePicker.kt:1679-1686 | within one modulus of the range the formula agrees with circular indexing over the max - min + 1 values |
| WheelMath.WrapLeavesRange | PlayerTimePicker.kt:1679-1686 | with modulus max - min, i = max + (max - min) wraps to min - 1 (outside the range) where circular indexing gives max - 1 |
| WheelMath.WrapBounds | PlayerTimePicker.kt:1679-1686 | a wrapped index is at most one outside the range and lands back on the near side of it |
| WheelMath.WrapStepDown | PlayerTimePicker.kt:1712-1722 | wrapping and then stepping down as decrementSelectorIndices does equals wrapping the index below |
| WheelMath.WrapStepUp | PlayerTimePicker.kt:1696-1706 | wrapping and then stepping up as incrementSelectorIndices does equals wrapping the index above |
| WheelMath.Window | PlayerTimePicker.kt:1480-1492 | the rebuilt window has the given length, slot i holds current + (i - middle), wrapped when wrapping, and the middle slot holds the value |
| WheelMath.WindowWithinRange | PlayerTimePicker.kt:1009-1015 | when wrapping is allowed (max - min >= size - 1), every slot of a window around a value in range is in range |
| WheelMath.SlotShiftDown | PlayerTimePicker.kt:1712-1722 | slot i of the window around the value above the middle equals slot i - 1 of the current window |
| WheelMath.SlotEnterDown | PlayerTimePicker.kt:1712-1722 | the index entering at the front of a decremented window is slot 0 of the window around the value above the middle |
| WheelMath.SlotShiftUp | PlayerTimePicker.kt:1696-1706 | slot i of the window around the value below the middle equals slot i + 1 of the current window |
| WheelMath.SlotEnterUp | PlayerTimePicker.kt:1696-1706 | the index entering at the end of an incremented window is the last slot of the window around the value below the middle |
| WheelMath.DecrementedWindow | PlayerTimePicker.kt:1712-1722 | rotating a window down in place gives the window rebuilt around the slot above the middle |
| WheelMath.IncrementedWindow | PlayerTimePicker.kt:1696-1706 | rotating a window up in place gives the window rebuilt around the slot below the middle |
| WheelMath.Committed | PlayerTimePicker.kt:1499-1505 | the stored value lies in the range when not wrapping, and a value already in range is stored unchanged |
| WheelMath.NeighbourCommits | PlayerTimePicker.kt:819-842 | the neighbour of the middle slot differs from the value, committing it is one step, and the step stays in range |
| WheelMath.RotatedMiddle | PlayerTimePicker.kt:819-842 | one in-place rotation brings a new value into the middle slot, and committing it is one step in range |
| WheelMath.WalkLog | PlayerTimePicker.kt:1785-1789 | k passes send exactly k value-change notifications |
| WheelMath.Label | PlayerTimePicker.kt:1728-1749 | the cached string is empty for an index outside the range |
| WheelMath.WalkClamped | PlayerTimePicker.kt:1503-1504 | without wrapping, k passes saturate at the bound: min(c + k, max) upward, max(c - k, min) downward |
| WheelMath.CircularSucc | PlayerTimePicker.kt:1696-1706 | wrapping one past a circular count gives the next count |
| WheelMath.CircularPred | PlayerTimePicker.kt:1712-1722 | wrapping one before a circular count gives the previous count |
| WheelMath.WalkCircularUp | PlayerTimePicker.kt:819-842 | with wrapping, k passes up count k places on, circularly over the max - min + 1 values |
| WheelMath.WalkCircularDown | PlayerTimePicker.kt:819-842 | with wrapping, k passes down count k places back, circularly |
| WheelMath.StepInRange | PlayerTimePicker.kt:826 | one pass from a value in range lands in range |
| WheelMath.WalkInRange | PlayerTimePicker.kt:819-842 | any number of passes from a value in range stays in range |
| WheelMath.WalkLogEntries | PlayerTimePicker.kt:1506-1514 | pass j reports the value before and after that pass |
| WheelMath.WalkShift | PlayerTimePicker.kt:819-830 | k >= 1 passes are one pass followed by k - 1 passes |
| WheelMath.WalkLogShift | PlayerTimePicker.kt:819-830 | the notifications of k >= 1 passes are the first pass's followed by those of the remaining k - 1 |
| WheelMath.WalkTextShift | PlayerTimePicker.kt:1508-1511 | the text after k >= 1 passes is that of k - 1 passes begun with the text the first pass leaves |
| WheelMath.ClampedPassesRepeat | PlayerTimePicker.kt:1503-1514 | without wrapping, every pass after the bound is reached still notifies, with previous and current both equal to the bound |
| WheelMath.DownCompletesStep | PlayerTimePicker.kt:819-830 | one pass of the first loop moves the offset back one element, steps the value and keeps the loop on course to its outcome |
| WheelMath.DownCompletesDone | PlayerTimePicker.kt:819 | when the first loop's condition fails, value, offset, text and notifications are the loop's outcome |
| WheelMath.UpCompletesStep | PlayerTimePicker.kt:831-842 | one pass of the second loop moves the offset on one element and steps the value the other way |
| WheelMath.UpCompletesDone | PlayerTimePicker.kt:831 | when the second loop's condition fails, the state is the loop's outcome |
| WheelMath.FirstUp | PlayerTimePicker.kt:821-825 | the first loop steps toward larger values exactly in descending order |
| WheelMath.DownLoop | PlayerTimePicker.kt:819-830 | the first loop exits with offset - initial <= gap, runs no pass when already there, and keeps a value in range in range |
| WheelMath.UpLoop | PlayerTimePicker.kt:831-842 | the second loop exits with offset - initial >= -gap, runs no pass when already there, and keeps a value in range in range |
| WheelMath.DownLoopPasses | PlayerTimePicker.kt:819-830 | each pass of the first loop moves the offset by exactly -E and sends one notification, and a loop that runs stops within one element of the threshold |
| WheelMath.UpLoopPasses | PlayerTimePicker.kt:831-842 | each pass of the second loop moves the offset by exactly +E and sends one notification, and a loop that runs stops within one element of the threshold |
| WheelMath.DownLoopWhole | PlayerTimePicker.kt:819-830 | from k whole elements past rest (threshold below E) the first loop makes k passes: it walks the value k steps, sends the walk's notifications, leaves the walk's text and comes back to rest |
| WheelMath.DownLoopWholeValue | PlayerTimePicker.kt:819-830 | from k whole elements past rest the first loop comes to rest with the value walked k steps |
| WheelMath.DownLoopWholeLog | PlayerTimePicker.kt:819-830 | from k whole elements past rest the first loop sends the walk's k notifications |
| WheelMath.DownLoopWholeText | PlayerTimePicker.kt:819-830 | from k whole elements past rest the first loop leaves the walk's text |
| WheelMath.UpLoopWhole | PlayerTimePicker.kt:831-842 | from k whole elements short of rest the second loop makes k passes the other way, with the walk's value, notifications and text |
| WheelMath.UpLoopWholeValue | PlayerTimePicker.kt:831-842 | from k whole elements short of rest the second loop comes to rest with the value walked k steps |
| WheelMath.UpLoopWholeLog | PlayerTimePicker.kt:831-842 | from k whole elements short of rest the second loop sends the walk's k notifications |
| WheelMath.UpLoopWholeText | PlayerTimePicker.kt:831-842 | from k whole elements short of rest the second loop leaves the walk's text |
| WheelMath.ScrollOutcome | PlayerTimePicker.kt:769-850 | a rejected move puts the offset at rest and changes nothing else; an accepted one keeps a value in range in range and ends with offset - initial >= -gap |
| WheelMath.ScrollOutcomeAccepted | PlayerTimePicker.kt:817-849 | an accepted scrollBy is the first loop from the moved offset, then the second loop, then one offset-change report when the offset moved |
| WheelMath.RejectedIffBlocked | PlayerTimePicker.kt:798-816 | without wrapping, a move is rejected exactly when the value already sits on the bound the move heads for |
| WheelMath.DragWholeElements | PlayerTimePicker.kt:769-850 | a drag of exactly k elements (threshold below E) steps the value k times, notifies each step and comes back to rest |
| WheelMath.DragWholeElementsBack | PlayerTimePicker.kt:769-850 | a drag of exactly k elements the other way steps the value k times in the other direction |
| WheelMath.SnapAligns | PlayerTimePicker.kt:1948-1956 | no snap exactly at rest; otherwise the snap lands on an element boundary next to the initial offset, never travels farther than the offset is off, and within one element travels at most half an element |
| WheelMath.OvershootAdjustment | PlayerTimePicker.kt:509-524 | the correction throws ArithmeticException exactly when E is 0 |
| WheelMath.OvershootAligns | PlayerTimePicker.kt:509-526 | no scroll exactly when the future remainder equals the initial offset; otherwise the corrected scroll ends a whole number of elements from the initial offset |
| WheelMath.FinalScrollAligns | PlayerTimePicker.kt:509-524 | the distance moveToFinalScrollerPosition scrolls: none exactly when the future remainder equals the initial offset, otherwise one that ends a whole number of elements from the initial offset |
| WheelMath.CatchUpChoice | PlayerTimePicker.kt:1539-1541 | the fling scroller's final scroll when it has one, otherwise the adjust scroller's; none exactly when neither needs a move; any scroll chosen ends aligned |
| WheelMath.TicksAreNotOneScroll | PlayerTimePicker.kt:750-755 | two ticks of scrollBy can end on another value and offset than one scrollBy of their sum |
| WheelMath.SmoothScrollSteps | PlayerTimePicker.kt:1564-1574 | one scrollBy of a smooth scroll's whole distance of n steps, from rest, walks the value n times, toward larger values when incrementing in ascending order |
| WheelMath.WalkToPosition | PlayerTimePicker.kt:1550-1556 | walking the distance between two values of the range toward the other one lands on it, wrapping or not |
| WheelMath.PositionDistance | PlayerTimePicker.kt:1555 | the distance toward a larger position is negative and toward a smaller one positive, never zero |
| WheelMath.SmoothScrollToPositionReaches | PlayerTimePicker.kt:1550-1574 | in ascending order one scrollBy of the smooth scroll's whole distance lands on the position at rest; in descending order it walks as many steps the other way |
| WheelMath.ReleaseAction | PlayerTimePicker.kt:662-683 | a release faster than the minimum fling velocity flings; a slow release beyond the touch slop snaps back |
| WheelMath.TapBands | PlayerTimePicker.kt:667-678 | a tap increments exactly below the middle element, decrements exactly above it, and snaps back exactly on it |
| WheelMath.PressBands | PlayerTimePicker.kt:566-583 | a press while a scroller runs stops it and never clicks or repeats; at rest the band between the dividers clicks, above it repeats down and below it repeats up |
| TimePicker.PlayerTimePicker.constructor | PlayerTimePicker.kt:2314-2366 | after init and the first layout the wheel is consistent, range [1, 100] with value 1, wrapping, at rest, idle, with no events, no posted command and both scrollers finished |
| TimePicker.PlayerTimePicker.Init | PlayerTimePicker.kt:2314-2366 | init leaves range [1, 100], value 1, a window of 7 slots and wrapping on |
| TimePicker.PlayerTimePicker.EnsureCachedScrollSelectorValue | PlayerTimePicker.kt:1728-1749 | an uncached index gets its label; a cached one is left; the cache stays sound and then holds the index |
| TimePicker.PlayerTimePicker.UpdateInputTextView | PlayerTimePicker.kt:1763-1779 | the text becomes the formatted value, unless that is empty |
| TimePicker.PlayerTimePicker.InitializeSelectorWheelIndices | PlayerTimePicker.kt:1480-1492 | the array becomes the window around the current value and the cache holds exactly its slots |
| TimePicker.PlayerTimePicker.IncrementSelectorIndices | PlayerTimePicker.kt:1696-1706 | in place: new[i] = old[i + 1] and the last slot gets old[last] + 1, min when wrapping past max; the entering index is cached |
| TimePicker.PlayerTimePicker.DecrementSelectorIndices | PlayerTimePicker.kt:1712-1722 | in place: new[i] = old[i - 1] and slot 0 gets old[0] - 1, max when wrapping below min; the entering index is cached |
| TimePicker.PlayerTimePicker.SetCurrentValue | PlayerTimePicker.kt:104-107 | assigns the value and changes neither the window, the text, the cache nor the events |
| TimePicker.PlayerTimePicker.SetValueInternal | PlayerTimePicker.kt:1494-1518 | an unchanged value does nothing; otherwise the committed value is stored, the text refreshed unless flinging, (previous, current) notified only when asked, and the window rebuilt around it |
| TimePicker.PlayerTimePicker.UpdateWrapSelectorWheel | PlayerTimePicker.kt:1009-1015 | the wrap flag is on exactly when preferred and max - min >= window size - 1 |
| TimePicker.PlayerTimePicker.SetWrapSelectorWheel | PlayerTimePicker.kt:997-1000 | records the preference and recomputes the flag |
| TimePicker.PlayerTimePicker.SetMinValue | PlayerTimePicker.kt:1088-1101 | the value is raised to the bound, the flag recomputed, the window rebuilt and the text refreshed; the wheel is consistent again when the range is non-empty |
| TimePicker.PlayerTimePicker.SetMaxValue | PlayerTimePicker.kt:1122-1135 | a negative bound throws and changes nothing; otherwise the value is lowered to the bound, the flag recomputed, the window rebuilt and the text refreshed |
| TimePicker.PlayerTimePicker.SetWheelItemCount | PlayerTimePicker.kt:2118-2126 | a count below 1 throws; otherwise the window is a fresh zero-filled array of max(count, 7) slots with middle at length / 2 |
| TimePicker.PlayerTimePicker.SetOrder | PlayerTimePicker.kt:2108-2110 | records the order |
| TimePicker.PlayerTimePicker.SetEnabled | PlayerTimePicker.kt:764-767 | records whether the picker is enabled |
| TimePicker.PlayerTimePicker.InitializeSelectorWheel | PlayerTimePicker.kt:1576-1596 | rebuilds the window, puts the offset at rest and refreshes the text |
| TimePicker.PlayerTimePicker.OnScrollStateChange | PlayerTimePicker.kt:1626-1634 | sets the state and reports it only when it changes |
| TimePicker.StateReport | PlayerTimePicker.kt:1628-1633 | the report of a state change is empty exactly when the state stays the same |
| TimePicker.PlayerTimePicker.StepWheel | PlayerTimePicker.kt:820-838 | on a consistent wheel one rotation and commit steps the value once, keeps consistency, notifies once and refreshes the text unless flinging |
| TimePicker.PlayerTimePicker.DownPass | PlayerTimePicker.kt:820-829 | one pass of the first loop moves the offset back one element (or to rest) and keeps the loop on course to its outcome |
| TimePicker.PlayerTimePicker.ConsumePositiveOverflow | PlayerTimePicker.kt:819-830 | the first loop ends with offset - initial <= gap and, on a consistent wheel, reaches DownLoop's outcome |
| TimePicker.PlayerTimePicker.UpPass | PlayerTimePicker.kt:832-841 | one pass of the second loop moves the offset on one element (or to rest) and keeps the loop on course |
| TimePicker.PlayerTimePicker.ConsumeNegativeOverflow | PlayerTimePicker.kt:831-842 | the second loop ends with offset - initial >= -gap and, on a consistent wheel, reaches UpLoop's outcome |
| TimePicker.PlayerTimePicker.ScrollBy | PlayerTimePicker.kt:769-850 | does nothing while the scroller is disabled; otherwise keeps the wheel consistent and reaches ScrollOutcome: value, offset, text and notifications |
| TimePicker.PlayerTimePicker.MoveAndSettle | PlayerTimePicker.kt:817-849 | moves the offset, runs both loops and reports an offset change when the offset moved; on a consistent wheel the loops reach their outcomes |
| TimePicker.PlayerTimePicker.ConsumeOverflow | PlayerTimePicker.kt:819-842 | the two loops in sequence; on a consistent wheel they reach the first loop's outcome and then the second's |
| TimePicker.PlayerTimePicker.EnsureScrollWheelAdjusted | PlayerTimePicker.kt:1948-1977 | starts nothing at rest; otherwise starts the adjust scroller from (0, 0) over the folded snap distance for 800 ms and resets the tick origin |
| TimePicker.PlayerTimePicker.SmoothScroll | PlayerTimePicker.kt:1564-1574 | resets the tick origin and starts the fling scroller from (0, 0) over steps elements (negative to increment) for 300 ms |
| TimePicker.PlayerTimePicker.SmoothScrollToPosition | PlayerTimePicker.kt:1550-1556 | nothing when the middle slot shows the position; otherwise a smooth scroll over the distance between the two values |
| TimePicker.PlayerTimePicker.MoveToFinalScrollerPosition | PlayerTimePicker.kt:489-527 | stops the scroller; returns true exactly when FinalScroll has a distance, changes nothing else when false, and otherwise (on a consistent wheel) reaches ScrollOutcome for that distance |
| TimePicker.PlayerTimePicker.ScrollToBoundary | PlayerTimePicker.kt:509-524 | once the scroller is stopped, scrolls by FinalScroll's distance when there is one, reaching ScrollOutcome on a consistent wheel, and changes nothing otherwise |
| TimePicker.PlayerTimePicker.CatchUpScrollers | PlayerTimePicker.kt:1539-1541 | stops the fling scroller, stops the adjust scroller only when the fling scroller needed no move, and on a consistent wheel reaches ScrollOutcome for CatchUpScroll's distance |
| TimePicker.PlayerTimePicker.ChangeValueByOne | PlayerTimePicker.kt:1538-1543 | the catch-up of both scrollers reaches ScrollOutcome for CatchUpScroll's distance, the adjust scroller is stopped only when the fling scroller needed no move, then a one-element smooth scroll starts |
| TimePicker.PlayerTimePicker.Fling | PlayerTimePicker.kt:1639-1674 | resets the tick origin and flings the fling scroller from 0 (positive velocity) or Int.MAX_VALUE, bounded by [0, Int.MAX_VALUE] |
| TimePicker.PlayerTimePicker.FollowScroller | PlayerTimePicker.kt:750-755 | scrolls the wheel by the scroller's travel since the previous tick (since its start after a reset) and records the new position |
| TimePicker.PlayerTimePicker.ComputeScroll | PlayerTimePicker.kt:730-762 | nothing while disabled or both scrollers are finished; otherwise advances the fling scroller if running, else the adjust scroller; a fling that runs on leaves the adjust scroller, the state and the tick origin as they were, one that stops snaps the wheel back and goes idle, and an adjustment keeps the state |
| TimePicker.PlayerTimePicker.DriveScroller | PlayerTimePicker.kt:741-761 | advances the chosen scroller; a finished fling snaps the wheel back and goes idle; a running fling or an adjustment leaves the state alone |
| TimePicker.PlayerTimePicker.AdvanceScroller | PlayerTimePicker.kt:741-755 | advances the scroller by Advance and records its position as the tick origin |
| TimePicker.PlayerTimePicker.OnScrollerFinished | PlayerTimePicker.kt:1613-1621 | after a fling: snap back, refresh the text and go idle; after an adjustment: refresh the text unless dragging |
| TimePicker.PlayerTimePicker.OnInterceptTouchDown | PlayerTimePicker.kt:529-585 | a disabled picker declines; otherwise the press is recorded and, by PressAction, a fling is stopped (going idle), an adjustment stopped, a click reported or a repeat posted |
| TimePicker.PlayerTimePicker.OnTouchMove | PlayerTimePicker.kt:588-633 | before dragging, a move beyond the touch slop drops the repeat and starts the drag; while dragging the wheel reaches ScrollOutcome for the finger's move |
| TimePicker.PlayerTimePicker.OnTouchUp | PlayerTimePicker.kt:634-687 | drops the repeat, then by ReleaseAction flings and reports flinging (the adjust scroller untouched), steps by one element (stopping the adjust scroller only when the fling scroller needed no move), or snaps back, going idle in the last two cases; the events are those reports, after the catch-up scroll's when stepping |
| TimePicker.PlayerTimePicker.Release | PlayerTimePicker.kt:635-683 | the release decision, its effect on both scrollers and the state, and the events it sends (ReleaseDone, ReleaseTold) |
| TimePicker.PlayerTimePicker.SettleRelease | PlayerTimePicker.kt:666-683 | a slow release steps by one for a tap off the middle element, snaps back otherwise, and goes idle, with both scrollers and the events as ReleaseDone and ReleaseTold state them |
| TimePicker.PlayerTimePicker.TapRelease | PlayerTimePicker.kt:670-678 | a release within the touch slop steps by one off the middle element and snaps back on it, as ReleaseDone and ReleaseTold state |
| TimePicker.PlayerTimePicker.StepRelease | PlayerTimePicker.kt:672-675 | the catch-up scroll reaches ScrollOutcome for CatchUpScroll's distance on a consistent wheel, the adjust scroller is stopped only when the fling scroller needed no move, a one-element smooth scroll starts, then idle is reported if the state changes |
| TimePicker.PlayerTimePicker.SnapRelease | PlayerTimePicker.kt:677-682 | snap back, then idle |
| TimePicker.PlayerTimePicker.FlingRelease | PlayerTimePicker.kt:663-665 | fling, then report flinging if the state changes; value, offset and text are untouched |
| TimePicker.FlingTravelFits | PlayerTimePicker.kt:1657-1671 | the start chosen by fling leaves room for a travel of up to Int.MAX_VALUE inside [0, Int.MAX_VALUE], and the target never leaves those bounds |
| TimePicker.TickTotalTelescopes | PlayerTimePicker.kt:750-755 | the ticks of one motion add up to the distance from the tick origin to the scroller's last position |

## Left out

- The horizontal axis. Every horizontal branch of the picker mirrors a vertical one, except ACTION_DOWN on a running scroller: there the horizontal branch also calls onScrollerFinished (PlayerTimePicker.kt:543-551), which snaps back and refreshes the text, and the vertical one does not (566-572). Only the vertical behaviour is modelled.
- Float physics of the scroller: the spline tables, getSplineDeceleration, getSplineFlingDuration, getSplineFlingDistance, the viscous-fluid interpolator, currVelocity and mDistance. Their outputs are parameters: one curve `Ratio` per tick, and the fling's travel and duration.
- The velocity carried into a new fling. fling combines it with the running fling's velocity (`hypot`, `sign`), which only changes the travel, and the travel is a parameter.
- Layout, measurement and drawing. This covers onLayout, onMeasure, onDraw, the dividers, fading edges and tryComputeMaxWidth. The float sizing in initializeSelectorWheel fixes the element size, the initial offset and the threshold, which are parameters here.
- The input text filter, accessibility and resource helpers.
- Displayed values. ensureCachedScrollSelectorValue and updateInputTextView use only the formatter, which is an abstract `int -> string`.
- Message-queue scheduling. The long-press repeat is recorded as `pendingRepeat`, and removeAllCallbacks and removeChangeCurrentByOneFromLongPress clear it. The repeat command's own run, postDelayed and postInvalidate are not modelled.
- VelocityTracker. The release velocity is a parameter.
- Float touch coordinates. They are integers here, so their `toInt()` truncation is not modelled.
- Listener nullness. Every notification, including a click, is recorded in `events` whether or not a listener is set.
- dispatchKeyEvent, dispatchTouchEvent and dispatchTrackballEvent.
- onInterceptTouchEvent for actions other than ACTION_DOWN, which return false, and onTouchEvent for actions other than MOVE and UP.
- invalidate and requestDisallowInterceptTouchEvent.
- SetEnabled: the enabled state of the text view is not modelled.
- 32-bit wrap-around. Integers are unbounded, so products such as E * steps in smoothScroll do not overflow.
- AdvanceScroller, DriveScroller and ComputeScroll: they do not restate the wheel's scroll outcome for the tick. FollowScroller states it.
- ScrollBy, MoveAndSettle, ConsumeOverflow, ScrollToBoundary, MoveToFinalScrollerPosition, CatchUpScrollers, ChangeValueByOne, StepRelease, TapRelease, SettleRelease, Release, OnTouchUp, OnTouchMove and FollowScroller: the scroll outcome is stated for a consistent wheel. An inconsistent one only keeps `Valid()`. An inconsistent wheel is easy to reach: SetCurrentValue with any new value leaves the window built around the old value, and SetMinValue above the maximum leaves the value outside the range.
- SmoothScrollSteps: it is about one scrollBy of the whole distance, not the ticks. computeScroll delivers a smooth scroll as one scrollBy per tick, and ScrollOutcome is not additive over ticks. TicksAreNotOneScroll shows it: with range [0, 100], wrapping, ascending order, value 50, initial offset 0, threshold 8 and element size 10, ticks of 9 and then -5 end at value 49, offset -6, while one scrollBy of 4 ends at value 50, offset 4.
- SmoothScrollToPositionReaches: for the same reason it is about one scrollBy of the whole distance, not the tick-by-tick delivery.
- Init: init's own intermediate zero-filled window is stated by shape only. The constructor states the window after the first layout.
