/** The picker (PlayerTimePicker) on its vertical axis: a class whose fields
    are the picker's integer state and whose methods change it in place.
    The selector window is an array rotated and refilled in place; the
    listeners are a log of `Event`s; the text view is its text; the posted
    long-press command is the step it would repeat.  The element size, the
    initial offset and the loop threshold are fixed by layout and are
    constructor parameters here, as are the touch slop, the minimum fling
    velocity, the divider band and the number formatter. */
module TimePicker {
  import opened Kotlin
  import opened ScrollerState
  import opened PickerScroller
  import opened WheelMath

  const DefaultMinValue: int := 1
  const DefaultMaxValue: int := 100
  const DefaultWheelItemCount: int := 7
  /** SELECTOR_ADJUSTMENT_DURATION_MILLIS */
  const SelectorAdjustmentDuration: int := 800
  /** SNAP_SCROLL_DURATION */
  const SnapScrollDuration: int := 300
  /** The order constants of setOrder */
  const Ascending: int := 0
  const Descending: int := 1

  class PlayerTimePicker {
    var minValue: int
    var maxValue: int
    var currentValue: int
    var selectorIndices: array<int>
    var wheelItemCount: int
    var realWheelItemCount: int
    var wheelMiddleItemIndex: int
    var currentScrollOffset: int
    var wrapSelectorWheel: bool
    var wrapSelectorWheelPreferred: bool
    var scrollState: ScrollState
    var order: int
    var enabled: bool
    var scrollerEnabled: bool
    /** mSelectorIndexToStringCache */
    var cache: map<int, string>
    /** the text of mSelectedText */
    var selectedText: string
    /** what the listeners were told, oldest first */
    var events: seq<Event>
    /** the posted long-press command and the direction it steps in */
    var pendingRepeat: Option<bool>
    var lastDownY: int
    var lastDownOrMoveY: int
    var previousScrollerY: int

    const elementSize: int
    const initialScrollOffset: int
    /** maxTextSize.toInt(): the threshold of scrollBy's loops */
    const gap: int
    /** the formatter, TimePickerFormatter.format */
    const format: int -> string
    const touchSlop: int
    const minimumFlingVelocity: int
    const topDividerTop: int
    const bottomDividerBottom: int
    const flingScroller: Scroller
    const adjustScroller: Scroller

    /** init() followed by the first layout: the defaults, then
        updateInputTextView, setMaxValue(100), setMinValue(1),
        setWheelItemCount(7), setWrapSelectorWheel(true), and the integer
        part of initializeSelectorWheel. */
    constructor (elementSize: int, initialScrollOffset: int, gap: int, format: int -> string,
                 touchSlop: int, minimumFlingVelocity: int, topDividerTop: int, bottomDividerBottom: int)
      requires elementSize > 0 && gap >= 0
      ensures Consistent()
      ensures minValue == DefaultMinValue && maxValue == DefaultMaxValue && currentValue == DefaultMinValue
      ensures wrapSelectorWheel && currentScrollOffset == initialScrollOffset
      ensures scrollState == Idle && events == [] && pendingRepeat == None
      ensures fresh(flingScroller) && fresh(adjustScroller)
      ensures flingScroller.isFinished && adjustScroller.isFinished
    {
      this.elementSize, this.initialScrollOffset, this.gap, this.format := elementSize, initialScrollOffset, gap, format;
      this.touchSlop, this.minimumFlingVelocity := touchSlop, minimumFlingVelocity;
      this.topDividerTop, this.bottomDividerBottom := topDividerTop, bottomDividerBottom;
      flingScroller := new Scroller();
      adjustScroller := new Scroller();
      minValue, maxValue, currentValue := DefaultMinValue, DefaultMaxValue, 0;
      wheelItemCount, realWheelItemCount := DefaultWheelItemCount, DefaultWheelItemCount;
      wheelMiddleItemIndex := DefaultWheelItemCount / 2;
      selectorIndices := new int[DefaultWheelItemCount](_ => 0);
      currentScrollOffset := 0;
      wrapSelectorWheel, wrapSelectorWheelPreferred := true, true;
      scrollState, order := Idle, Ascending;
      enabled, scrollerEnabled := true, true;
      cache, selectedText, events, pendingRepeat := map[], "", [], None;
      lastDownY, lastDownOrMoveY, previousScrollerY := 0, 0, 0;
      new;
      Init();
      InitializeSelectorWheel();
    }

    /** init() from updateInputTextView on: the range, the window size and
        the wrap preference, set through their setters */
    method Init()
      requires Valid() && currentValue == 0
      modifies this, selectorIndices
      ensures Valid() && selectorIndices.Length == DefaultWheelItemCount && fresh(selectorIndices)
      ensures minValue == DefaultMinValue && maxValue == DefaultMaxValue && currentValue == DefaultMinValue
      ensures wrapSelectorWheel
      ensures scrollState == old(scrollState) && events == old(events) && pendingRepeat == old(pendingRepeat)
    {
      UpdateInputTextView();
      var outcome := SetMaxValue(DefaultMaxValue);
      SetMinValue(DefaultMinValue);
      outcome := SetWheelItemCount(DefaultWheelItemCount);
      SetWrapSelectorWheel(true);
    }

    // -------------------------------------------------------------------
    // Invariants

    /** setWheelItemCount's window: at least seven slots, middle in the middle */
    ghost predicate Shape()
      reads this`selectorIndices, this`wheelItemCount, this`realWheelItemCount, this`wheelMiddleItemIndex
    {
      realWheelItemCount >= 1 && wheelItemCount == Max(realWheelItemCount, DefaultWheelItemCount) &&
      selectorIndices.Length == wheelItemCount && wheelMiddleItemIndex == wheelItemCount / 2
    }

    /** The layout results the model takes as given */
    ghost predicate Layout()
    {
      elementSize > 0 && gap >= 0 && flingScroller != adjustScroller
    }

    /** Wrapping is only ever switched on when preferred and when the range
        covers a window, so the wrap formula's modulus is never zero. */
    ghost predicate WrapSound()
      reads this`wrapSelectorWheel, this`wrapSelectorWheelPreferred, this`minValue, this`maxValue
    {
      wrapSelectorWheel ==> wrapSelectorWheelPreferred && maxValue - minValue >= DefaultWheelItemCount - 1
    }

    /** Every cached string is the one the current range gives its index. */
    ghost predicate CacheSound()
      reads this`cache, this`minValue, this`maxValue
    {
      forall k :: k in cache ==> cache[k] == Label(k, minValue, maxValue, format)
    }

    ghost predicate Valid()
      reads this`selectorIndices, this`wheelItemCount, this`realWheelItemCount, this`wheelMiddleItemIndex,
            this`wrapSelectorWheel, this`wrapSelectorWheelPreferred, this`minValue, this`maxValue, this`cache
    {
      Shape() && Layout() && WrapSound() && CacheSound()
    }

    /** The wheel as the user sees it at rest: the value is in range, the
        wrap flag is up to date and the window is built around the value. */
    ghost predicate Consistent()
      reads this`selectorIndices, this`wheelItemCount, this`realWheelItemCount, this`wheelMiddleItemIndex,
            this`wrapSelectorWheel, this`wrapSelectorWheelPreferred, this`minValue, this`maxValue, this`cache,
            this`currentValue, selectorIndices
    {
      Valid() &&
      (wrapSelectorWheel ==> WrappingAllowed(minValue, maxValue, selectorIndices.Length)) &&
      minValue <= currentValue <= maxValue &&
      selectorIndices[..] == Window(currentValue, selectorIndices.Length, wheelMiddleItemIndex,
                                    wrapSelectorWheel, minValue, maxValue)
    }

    /** isAscendingOrder() */
    function IsAscendingOrder(): bool
      reads this`order
    {
      order == Ascending
    }

    /** The text view is refreshed while the picker is not flinging. */
    function ShowsText(): bool
      reads this`scrollState
    {
      scrollState != Flinging
    }

    /** What scrollBy reads and does not change */
    function Config(): Wheel
      reads this`minValue, this`maxValue, this`wrapSelectorWheel, this`order
    {
      Wheel(minValue, maxValue, wrapSelectorWheel, IsAscendingOrder(), initialScrollOffset, gap, elementSize)
    }

    /** What scrollBy(0, y) does from the current state, as a value */
    ghost function Outcome(y: int): Scrolled
      reads this`minValue, this`maxValue, this`wrapSelectorWheel, this`order, this`currentValue,
            this`currentScrollOffset, this`selectedText, this`scrollState
      requires WellFormed(Config())
    {
      ScrollOutcome(Config(), currentValue, currentScrollOffset, selectedText, ShowsText(), format, y)
    }

    /** The picker shows `r`, having told the listeners r.log after `before` */
    ghost predicate Reached(r: Scrolled, before: seq<Event>)
      reads this`currentValue, this`currentScrollOffset, this`events, this`selectedText
    {
      OnScreen() == Told(r, before)
    }

    /** The value, offset and text shown, with every notification so far */
    ghost function OnScreen(): Scrolled
      reads this`currentValue, this`currentScrollOffset, this`events, this`selectedText
    {
      Scrolled(currentValue, currentScrollOffset, events, selectedText)
    }

    /** The picker shows `r`, having told the listeners `before`, then
        r.log, then `after` */
    ghost predicate ReachedThen(r: Scrolled, before: seq<Event>, after: seq<Event>)
      reads this`currentValue, this`currentScrollOffset, this`events, this`selectedText
    {
      OnScreen() == Scrolled(r.value, r.offset, before + r.log + after, r.text)
    }


    // -------------------------------------------------------------------
    // The text view and the string cache

    /** ensureCachedScrollSelectorValue */
    method EnsureCachedScrollSelectorValue(k: int)
      modifies this`cache
      ensures cache == if k in old(cache) then old(cache) else old(cache)[k := Label(k, minValue, maxValue, format)]
      ensures old(CacheSound()) ==> CacheSound() && k in cache
    {
      if k in cache {
        return;
      }
      var value := if k < minValue || k > maxValue then "" else format(k);
      cache := cache[k := value];
    }

    /** updateInputTextView: an empty formatted value leaves the text alone */
    method UpdateInputTextView()
      modifies this`selectedText
      ensures selectedText == Shown(old(selectedText), currentValue, format)
    {
      var text := format(currentValue);
      if text == "" {
        return;
      }
      if text == selectedText {
        return;
      }
      selectedText := text;
    }

    // -------------------------------------------------------------------
    // The window

    /** initializeSelectorWheelIndices: clears the cache and rebuilds the
        window around the current value, caching each slot's string. */
    method InitializeSelectorWheelIndices()
      requires Shape() && (wrapSelectorWheel ==> maxValue != minValue)
      modifies this`cache, selectorIndices
      ensures selectorIndices[..] == Window(currentValue, selectorIndices.Length, wheelMiddleItemIndex,
                                            wrapSelectorWheel, minValue, maxValue)
      ensures CacheSound()
      ensures forall k :: k in cache <==> k in selectorIndices[..]
    {
      cache := map[];
      var a := selectorIndices;
      var current := currentValue;
      for i := 0 to a.Length
        invariant forall j :: 0 <= j < i ==> a[j] == Slot(current, j, wheelMiddleItemIndex, wrapSelectorWheel, minValue, maxValue)
        invariant CacheSound()
        invariant forall k :: k in cache <==> k in a[..i]
      {
        var index := current + (i - wheelMiddleItemIndex);
        if wrapSelectorWheel {
          index := Wrap(index, minValue, maxValue);
        }
        a[i] := index;
        assert a[..i + 1] == a[..i] + [index];
        EnsureCachedScrollSelectorValue(a[i]);
      }
      assert a[..a.Length] == a[..];
    }

    /** incrementSelectorIndices: shift every slot down by one in place and
        let the index after the last one enter at the end. */
    method IncrementSelectorIndices()
      requires Shape() && CacheSound()
      modifies selectorIndices, this`cache
      ensures selectorIndices[..] == Incremented(old(selectorIndices[..]), wrapSelectorWheel, minValue, maxValue)
      ensures CacheSound()
      ensures forall k :: k in cache <==> k in old(cache) || k == selectorIndices[selectorIndices.Length - 1]
    {
      var a := selectorIndices;
      ghost var s := a[..];
      for i := 0 to a.Length - 1
        modifies a
        invariant forall j :: 0 <= j < i ==> a[j] == s[j + 1]
        invariant forall j :: i <= j < a.Length ==> a[j] == s[j]
      {
        a[i] := a[i + 1];
      }
      var next := a[a.Length - 2] + 1;
      if wrapSelectorWheel && next > maxValue {
        next := minValue;
      }
      a[a.Length - 1] := next;
      assert a[..] == s[1..] + [next];
      EnsureCachedScrollSelectorValue(next);
    }

    /** decrementSelectorIndices: shift every slot up by one in place and
        let the index before the first one enter at the front. */
    method DecrementSelectorIndices()
      requires Shape() && CacheSound()
      modifies selectorIndices, this`cache
      ensures selectorIndices[..] == Decremented(old(selectorIndices[..]), wrapSelectorWheel, minValue, maxValue)
      ensures CacheSound()
      ensures forall k :: k in cache <==> k in old(cache) || k == selectorIndices[0]
    {
      var a := selectorIndices;
      ghost var s := a[..];
      var i := a.Length - 1;
      while i >= 1
        modifies a
        invariant 0 <= i <= a.Length - 1
        invariant forall j :: 0 <= j <= i ==> a[j] == s[j]
        invariant forall j :: i < j < a.Length ==> a[j] == s[j - 1]
      {
        a[i] := a[i - 1];
        i := i - 1;
      }
      var next := a[1] - 1;
      if wrapSelectorWheel && next < minValue {
        next := maxValue;
      }
      a[0] := next;
      assert a[..] == [next] + s[..a.Length - 1];
      EnsureCachedScrollSelectorValue(next);
    }

    // -------------------------------------------------------------------
    // The value

    /** setCurrentValue: assigns the value; the setValueInternal it then
        calls returns at once, so neither the window nor the text moves. */
    method SetCurrentValue(value: int)
      modifies this`currentValue, this`selectedText, this`events, this`cache, selectorIndices
      ensures currentValue == value
      ensures selectedText == old(selectedText) && events == old(events) && cache == old(cache)
      ensures selectorIndices[..] == old(selectorIndices[..])
      decreases 1
    {
      currentValue := value;
      SetValueInternal(value, false);
    }

    /** setValueInternal: a value equal to the current one changes nothing;
        otherwise the value is wrapped or clamped, the text refreshed unless
        flinging, the change reported when asked, and the window rebuilt. */
    method SetValueInternal(value: int, notifyChange: bool)
      requires currentValue == value || Valid()
      modifies this`currentValue, this`selectedText, this`events, this`cache, selectorIndices
      ensures old(currentValue) == value ==>
        currentValue == value && selectedText == old(selectedText) && events == old(events) &&
        cache == old(cache) && selectorIndices[..] == old(selectorIndices[..])
      ensures old(currentValue) != value ==>
        currentValue == Committed(value, wrapSelectorWheel, minValue, maxValue) &&
        selectedText == (if ShowsText() then Shown(old(selectedText), currentValue, format) else old(selectedText)) &&
        events == old(events) + (if notifyChange then [ValueChanged(old(currentValue), currentValue)] else []) &&
        selectorIndices[..] == Window(currentValue, selectorIndices.Length, wheelMiddleItemIndex,
                                      wrapSelectorWheel, minValue, maxValue) &&
        (forall k :: k in cache <==> k in selectorIndices[..])
      ensures old(Valid()) ==> Valid()
      decreases if currentValue == value then 0 else 2
    {
      if currentValue == value {
        return;
      }
      var current := value;
      if wrapSelectorWheel {
        current := Wrap(current, minValue, maxValue);
      } else {
        current := Max(current, minValue);
        current := Min(current, maxValue);
      }
      var previous := currentValue;
      SetCurrentValue(current);
      if scrollState != Flinging {
        UpdateInputTextView();
      }
      if notifyChange {
        events := events + [ValueChanged(previous, current)];
      }
      InitializeSelectorWheelIndices();
    }

    // -------------------------------------------------------------------
    // Range, wrapping and window size

    /** updateWrapSelectorWheel */
    method UpdateWrapSelectorWheel()
      modifies this`wrapSelectorWheel
      ensures wrapSelectorWheel == (WrappingAllowed(minValue, maxValue, selectorIndices.Length) && wrapSelectorWheelPreferred)
      ensures Shape() ==> WrapSound()
    {
      wrapSelectorWheel := maxValue - minValue >= selectorIndices.Length - 1 && wrapSelectorWheelPreferred;
    }

    /** setWrapSelectorWheel: records the preference and recomputes the flag;
        the window is left as it is. */
    method SetWrapSelectorWheel(wrap: bool)
      requires Valid()
      modifies this`wrapSelectorWheelPreferred, this`wrapSelectorWheel
      ensures wrapSelectorWheelPreferred == wrap
      ensures wrapSelectorWheel == (WrappingAllowed(minValue, maxValue, selectorIndices.Length) && wrap)
      ensures Valid()
    {
      wrapSelectorWheelPreferred := wrap;
      UpdateWrapSelectorWheel();
    }

    /** setMinValue: no check on the bound; the value is raised to it, the
        wrap flag recomputed and the window rebuilt. */
    method SetMinValue(minValue: int)
      requires Valid()
      modifies this`minValue, this`currentValue, this`wrapSelectorWheel, this`cache, selectorIndices,
               this`selectedText, this`events
      ensures this.minValue == minValue && currentValue == Max(old(currentValue), minValue)
      ensures wrapSelectorWheel == (WrappingAllowed(minValue, maxValue, selectorIndices.Length) && wrapSelectorWheelPreferred)
      ensures selectorIndices[..] == Window(currentValue, selectorIndices.Length, wheelMiddleItemIndex,
                                            wrapSelectorWheel, minValue, maxValue)
      ensures selectedText == Shown(old(selectedText), currentValue, format) && events == old(events)
      ensures Valid()
      ensures minValue <= maxValue && old(currentValue) <= maxValue ==> Consistent()
    {
      this.minValue := minValue;
      if this.minValue > currentValue {
        SetCurrentValue(this.minValue);
      }
      UpdateWrapSelectorWheel();
      InitializeSelectorWheelIndices();
      UpdateInputTextView();
    }

    /** setMaxValue: a negative bound throws; otherwise the value is lowered
        to it, the wrap flag recomputed and the window rebuilt. */
    method SetMaxValue(maxValue: int) returns (result: Outcome)
      requires Valid()
      modifies this`maxValue, this`currentValue, this`wrapSelectorWheel, this`cache, selectorIndices,
               this`selectedText, this`events
      ensures maxValue < 0 ==> result == Fail(IllegalArgumentException) && unchanged(this, selectorIndices)
      ensures maxValue >= 0 ==>
        result == Pass && this.maxValue == maxValue && currentValue == Min(old(currentValue), maxValue) &&
        wrapSelectorWheel == (WrappingAllowed(minValue, maxValue, selectorIndices.Length) && wrapSelectorWheelPreferred) &&
        selectorIndices[..] == Window(currentValue, selectorIndices.Length, wheelMiddleItemIndex,
                                      wrapSelectorWheel, minValue, maxValue) &&
        selectedText == Shown(old(selectedText), currentValue, format) && events == old(events)
      ensures Valid()
      ensures maxValue >= 0 && minValue <= maxValue && minValue <= old(currentValue) ==> Consistent()
    {
      if maxValue < 0 {
        return Fail(IllegalArgumentException);
      }
      this.maxValue := maxValue;
      if this.maxValue < currentValue {
        SetCurrentValue(this.maxValue);
      }
      UpdateWrapSelectorWheel();
      InitializeSelectorWheelIndices();
      UpdateInputTextView();
      return Pass;
    }

    /** setWheelItemCount: a count below one throws; otherwise the window
        becomes a fresh zero-filled array of at least seven slots.  Neither
        the wrap flag nor the window contents are recomputed. */
    method SetWheelItemCount(count: int) returns (result: Outcome)
      requires Valid()
      modifies this`realWheelItemCount, this`wheelItemCount, this`wheelMiddleItemIndex, this`selectorIndices
      ensures count < 1 ==> result == Fail(IllegalArgumentException) && unchanged(this)
      ensures count >= 1 ==>
        result == Pass && realWheelItemCount == count && wheelItemCount == Max(count, DefaultWheelItemCount) &&
        wheelMiddleItemIndex == wheelItemCount / 2 && fresh(selectorIndices) &&
        selectorIndices[..] == seq(wheelItemCount, _ => 0)
      ensures Valid()
    {
      if count < 1 {
        return Fail(IllegalArgumentException);
      }
      realWheelItemCount := count;
      wheelItemCount := Max(count, DefaultWheelItemCount);
      wheelMiddleItemIndex := wheelItemCount / 2;
      selectorIndices := new int[wheelItemCount](_ => 0);
      return Pass;
    }

    /** setOrder */
    method SetOrder(order: int)
      modifies this`order
      ensures this.order == order
    {
      this.order := order;
    }

    /** setEnabled, as far as the touch handlers see it */
    method SetEnabled(enabled: bool)
      modifies this`enabled
      ensures this.enabled == enabled
    {
      this.enabled := enabled;
    }

    /** The integer part of initializeSelectorWheel: rebuild the window, put
        the offset at rest and refresh the text. */
    method InitializeSelectorWheel()
      requires Valid()
      modifies this`cache, selectorIndices, this`currentScrollOffset, this`selectedText
      ensures selectorIndices[..] == Window(currentValue, selectorIndices.Length, wheelMiddleItemIndex,
                                            wrapSelectorWheel, minValue, maxValue)
      ensures currentScrollOffset == initialScrollOffset
      ensures selectedText == Shown(old(selectedText), currentValue, format)
      ensures Valid()
      ensures (minValue <= currentValue <= maxValue &&
              (wrapSelectorWheel ==> WrappingAllowed(minValue, maxValue, selectorIndices.Length))) ==> Consistent()
    {
      InitializeSelectorWheelIndices();
      currentScrollOffset := initialScrollOffset;
      UpdateInputTextView();
    }

    // -------------------------------------------------------------------
    // Scrolling

    /** onScrollStateChange: reports a change of scroll state, and nothing
        when the state does not change. */
    method OnScrollStateChange(state: ScrollState)
      modifies this`scrollState, this`events
      ensures scrollState == state
      ensures events == old(events) + StateReport(old(scrollState), state)
    {
      if scrollState == state {
        return;
      }
      scrollState := state;
      events := events + [ScrollStateChanged(state)];
    }

    /** One pass of scrollBy's loops, after the offset has moved by one
        element: rotate the window one slot (decrement the indices for a
        step down, increment them for a step up) and commit its new centre. */
    method StepWheel(up: bool)
      requires Valid()
      modifies this`currentValue, this`selectedText, this`events, this`cache, selectorIndices
      ensures Valid()
      ensures old(Consistent()) ==>
        Consistent() && currentValue == Step(old(currentValue), up, wrapSelectorWheel, minValue, maxValue) &&
        selectorIndices[wheelMiddleItemIndex] == currentValue &&
        events == old(events) + [ValueChanged(old(currentValue), currentValue)] &&
        selectedText == (if ShowsText() then Shown(old(selectedText), currentValue, format) else old(selectedText))
    {
      ghost var consistent := Consistent();
      if consistent {
        RotatedMiddle(currentValue, selectorIndices.Length, wheelMiddleItemIndex, up,
                      wrapSelectorWheel, minValue, maxValue);
      }
      if up {
        IncrementSelectorIndices();
      } else {
        DecrementSelectorIndices();
      }
      SetValueInternal(selectorIndices[wheelMiddleItemIndex], true);
    }

    /** The wheel is consistent, and the part of scrollBy's first loop that
        is still to run takes it to `goal`, the outcome of the whole loop
        begun with notifications e0. */
    ghost predicate MadeDownPasses(goal: Scrolled, e0: seq<Event>)
      reads this`selectorIndices, this`wheelItemCount, this`realWheelItemCount, this`wheelMiddleItemIndex,
            this`wrapSelectorWheel, this`wrapSelectorWheelPreferred, this`minValue, this`maxValue, this`cache,
            this`currentValue, selectorIndices, this`currentScrollOffset, this`events, this`selectedText,
            this`order, this`scrollState
    {
      Consistent() &&
      DownCompletes(Config(), goal, e0, ShowsText(), format, currentScrollOffset, currentValue, events, selectedText)
    }

    /** One pass of the first loop of scrollBy.  On a consistent wheel the
        value stays in range, so the reset to rest never fires. */
    method DownPass(ghost tracked: bool, ghost goal: Scrolled, ghost e0: seq<Event>)
      requires Valid()
      requires tracked ==> MadeDownPasses(goal, e0) && currentScrollOffset - initialScrollOffset > gap
      modifies this`currentScrollOffset, this`currentValue, this`selectedText, this`events, this`cache, selectorIndices
      ensures Valid()
      ensures currentScrollOffset == old(currentScrollOffset) - elementSize || currentScrollOffset == initialScrollOffset
      ensures tracked ==> MadeDownPasses(goal, e0)
    {
      if tracked {
        DownCompletesStep(Config(), goal, e0, ShowsText(), format,
                          currentScrollOffset, currentValue, events, selectedText);
      }
      currentScrollOffset := currentScrollOffset - elementSize;
      StepWheel(!IsAscendingOrder());
      if !wrapSelectorWheel && selectorIndices[wheelMiddleItemIndex] < minValue {
        currentScrollOffset := initialScrollOffset;
      }
    }

    /** The first loop of scrollBy: while the offset is more than the
        threshold past rest, move it back one element and step the value
        (down in ascending order); a value below the range puts the offset
        at rest.  Run on a consistent wheel (`tracked`) it reaches `r`, the
        outcome `DownLoop` gives for the state it starts from. */
    method ConsumePositiveOverflow(ghost tracked: bool, ghost r: Scrolled)
      requires Valid()
      requires tracked ==>
        Consistent() && r == DownLoop(Config(), currentScrollOffset, currentValue, selectedText, ShowsText(), format)
      modifies this`currentScrollOffset, this`currentValue, this`selectedText, this`events, this`cache, selectorIndices
      ensures Valid()
      ensures currentScrollOffset - initialScrollOffset <= gap
      ensures tracked ==> Consistent() && Reached(r, old(events))
    {
      ghost var e0 := events;
      while currentScrollOffset - initialScrollOffset > gap
        invariant Valid()
        invariant tracked ==> MadeDownPasses(r, e0)
        decreases if currentScrollOffset - initialScrollOffset > gap then currentScrollOffset - initialScrollOffset - gap else 0
      {
        DownPass(tracked, r, e0);
      }
      if tracked {
        DownCompletesDone(Config(), r, e0, ShowsText(), format, currentScrollOffset, currentValue, events, selectedText);
      }
    }

    /** The mirror of `MadeDownPasses` for the second loop */
    ghost predicate MadeUpPasses(goal: Scrolled, e0: seq<Event>)
      reads this`selectorIndices, this`wheelItemCount, this`realWheelItemCount, this`wheelMiddleItemIndex,
            this`wrapSelectorWheel, this`wrapSelectorWheelPreferred, this`minValue, this`maxValue, this`cache,
            this`currentValue, selectorIndices, this`currentScrollOffset, this`events, this`selectedText,
            this`order, this`scrollState
    {
      Consistent() &&
      UpCompletes(Config(), goal, e0, ShowsText(), format, currentScrollOffset, currentValue, events, selectedText)
    }

    /** One pass of the second loop of scrollBy */
    method UpPass(ghost tracked: bool, ghost goal: Scrolled, ghost e0: seq<Event>)
      requires Valid()
      requires tracked ==> MadeUpPasses(goal, e0) && currentScrollOffset - initialScrollOffset < -gap
      modifies this`currentScrollOffset, this`currentValue, this`selectedText, this`events, this`cache, selectorIndices
      ensures Valid()
      ensures currentScrollOffset == old(currentScrollOffset) + elementSize || currentScrollOffset == initialScrollOffset
      ensures tracked ==> MadeUpPasses(goal, e0)
    {
      if tracked {
        UpCompletesStep(Config(), goal, e0, ShowsText(), format,
                        currentScrollOffset, currentValue, events, selectedText);
      }
      currentScrollOffset := currentScrollOffset + elementSize;
      StepWheel(IsAscendingOrder());
      if !wrapSelectorWheel && selectorIndices[wheelMiddleItemIndex] > maxValue {
        currentScrollOffset := initialScrollOffset;
      }
    }

    /** The second loop of scrollBy: while the offset is more than the
        threshold short of rest, move it on one element and step the value
        (up in ascending order); a value above the range puts the offset at
        rest.  Run on a consistent wheel it reaches `r`, the outcome
        `UpLoop` gives. */
    method ConsumeNegativeOverflow(ghost tracked: bool, ghost r: Scrolled)
      requires Valid()
      requires tracked ==>
        Consistent() && r == UpLoop(Config(), currentScrollOffset, currentValue, selectedText, ShowsText(), format)
      modifies this`currentScrollOffset, this`currentValue, this`selectedText, this`events, this`cache, selectorIndices
      ensures Valid()
      ensures currentScrollOffset - initialScrollOffset >= -gap
      ensures tracked ==> Consistent() && Reached(r, old(events))
    {
      ghost var e0 := events;
      while currentScrollOffset - initialScrollOffset < -gap
        invariant Valid()
        invariant tracked ==> MadeUpPasses(r, e0)
        decreases if currentScrollOffset - initialScrollOffset < -gap then -gap - (currentScrollOffset - initialScrollOffset) else 0
      {
        UpPass(tracked, r, e0);
      }
      if tracked {
        UpCompletesDone(Config(), r, e0, ShowsText(), format, currentScrollOffset, currentValue, events, selectedText);
      }
    }

    /** scrollBy(0, y): refuse to move past a bound when not wrapping;
        otherwise move the offset by y, run the two loops and report the
        offset change.  On a consistent wheel this is `ScrollOutcome`. */
    method ScrollBy(y: int)
      requires Valid()
      modifies this`currentScrollOffset, this`currentValue, this`selectedText, this`events, this`cache, selectorIndices
      ensures Valid()
      ensures !scrollerEnabled ==> unchanged(this, selectorIndices)
      ensures scrollerEnabled ==> currentScrollOffset - initialScrollOffset >= -gap
      ensures old(Consistent()) ==> Consistent()
      ensures scrollerEnabled && old(Consistent()) ==> Reached(old(Outcome(y)), old(events))
    {
      if !scrollerEnabled {
        return;
      }
      var startScrollOffset := currentScrollOffset;
      var centre := selectorIndices[wheelMiddleItemIndex];
      assert old(Consistent()) ==> centre == currentValue;
      var blocked := if IsAscendingOrder() then (y > 0 && centre <= minValue) || (y < 0 && centre >= maxValue)
                     else (y > 0 && centre >= maxValue) || (y < 0 && centre <= minValue);
      if !wrapSelectorWheel && blocked {
        currentScrollOffset := initialScrollOffset;
        return;
      }
      ghost var tracked := Consistent();
      ghost var w, c0, t0, e0, shows := Config(), currentValue, selectedText, events, ShowsText();
      ghost var r1 := DownLoop(w, startScrollOffset + y, c0, t0, shows, format);
      ghost var r2 := UpLoop(w, r1.offset, r1.value, r1.text, shows, format);
      MoveAndSettle(y, tracked, w, shows, r1, r2);
      if tracked {
        assert !Rejected(w, y, c0);
        ScrollOutcomeAccepted(w, c0, startScrollOffset, t0, shows, format, y, r1, r2, e0, events);
      }
    }

    /** The rest of scrollBy once the move is accepted: move the offset by
        y, run the two loops (reaching r1, then r2, on a consistent wheel)
        and report an offset change. */
    method MoveAndSettle(y: int, ghost tracked: bool, ghost w: Wheel, ghost shows: bool,
                         ghost r1: Scrolled, ghost r2: Scrolled)
      requires Valid()
      requires tracked ==>
        Consistent() && w == Config() && shows == ShowsText() &&
        r1 == DownLoop(w, currentScrollOffset + y, currentValue, selectedText, shows, format) &&
        r2 == UpLoop(w, r1.offset, r1.value, r1.text, shows, format)
      modifies this`currentScrollOffset, this`currentValue, this`selectedText, this`events, this`cache, selectorIndices
      ensures Valid()
      ensures currentScrollOffset - initialScrollOffset >= -gap
      ensures tracked ==>
        Consistent() && currentValue == r2.value && currentScrollOffset == r2.offset && selectedText == r2.text &&
        events == old(events) + r1.log + r2.log +
                  (if r2.offset != old(currentScrollOffset) then [ScrollChanged(r2.offset, old(currentScrollOffset))] else [])
    {
      var startScrollOffset := currentScrollOffset;
      currentScrollOffset := currentScrollOffset + y;
      ConsumeOverflow(tracked, w, shows, r1, r2);
      if startScrollOffset != currentScrollOffset {
        events := events + [ScrollChanged(currentScrollOffset, startScrollOffset)];
      }
    }

    /** scrollBy's two loops, one after the other: on a consistent wheel
        the first reaches r1 and the second, run from there, reaches r2. */
    method ConsumeOverflow(ghost tracked: bool, ghost w: Wheel, ghost shows: bool, ghost r1: Scrolled, ghost r2: Scrolled)
      requires Valid()
      requires tracked ==>
        Consistent() && w == Config() && shows == ShowsText() &&
        r1 == DownLoop(w, currentScrollOffset, currentValue, selectedText, shows, format) &&
        r2 == UpLoop(w, r1.offset, r1.value, r1.text, shows, format)
      modifies this`currentScrollOffset, this`currentValue, this`selectedText, this`events, this`cache, selectorIndices
      ensures Valid()
      ensures currentScrollOffset - initialScrollOffset >= -gap
      ensures tracked ==>
        Consistent() && currentValue == r2.value && currentScrollOffset == r2.offset && selectedText == r2.text &&
        events == old(events) + r1.log + r2.log
    {
      ConsumePositiveOverflow(tracked, r1);
      ConsumeNegativeOverflow(tracked, r2);
    }

    // -------------------------------------------------------------------
    // Animations

    /** ensureScrollWheelAdjusted: start the adjust scroller from (0, 0)
        over the snap distance, unless the wheel is at rest already. */
    method EnsureScrollWheelAdjusted(now: int)
      modifies adjustScroller, this`previousScrollerY
      ensures SnapStarted(old(adjustScroller.Snapshot()), adjustScroller.Snapshot(), old(previousScrollerY),
                          previousScrollerY, SnapDelta(initialScrollOffset, currentScrollOffset, elementSize), now)
    {
      var delta := initialScrollOffset - currentScrollOffset;
      if delta == 0 {
        return;
      }
      if Abs(delta) > Quot(elementSize, 2) {
        delta := delta + (if delta > 0 then -elementSize else elementSize);
      }
      previousScrollerY := 0;
      adjustScroller.StartScroll(now, 0, 0, 0, delta, SelectorAdjustmentDuration);
    }

    /** smoothScroll(increment, steps): start the fling scroller from
        (0, 0) over `steps` elements, upward to increment. */
    method SmoothScroll(now: int, increment: bool, steps: int)
      requires Valid()
      modifies flingScroller, this`previousScrollerY
      ensures Valid() && (old(Consistent()) ==> Consistent())
      ensures previousScrollerY == 0
      ensures flingScroller.Snapshot() ==
        AfterStartScroll(old(flingScroller.Snapshot()), now, 0, 0, 0, SmoothDistance(increment, steps, elementSize),
                         SnapScrollDuration)
    {
      var diffSteps := (if increment then -elementSize else elementSize) * steps;
      previousScrollerY := 0;
      flingScroller.StartScroll(now, 0, 0, 0, diffSteps, SnapScrollDuration);
    }

    /** smoothScrollToPosition(position): nothing when the middle slot
        already shows the position, otherwise a smooth scroll over as many
        elements as the two values are apart, upward toward a larger one. */
    method SmoothScrollToPosition(now: int, position: int)
      requires Valid()
      modifies flingScroller, this`previousScrollerY
      ensures var current := selectorIndices[wheelMiddleItemIndex];
        if position == current then
          flingScroller.Snapshot() == old(flingScroller.Snapshot()) && previousScrollerY == old(previousScrollerY)
        else
          previousScrollerY == 0 &&
          flingScroller.Snapshot() ==
            AfterStartScroll(old(flingScroller.Snapshot()), now, 0, 0, 0,
                             SmoothDistance(position > current, Abs(position - current), elementSize), SnapScrollDuration)
    {
      var currentPosition := selectorIndices[wheelMiddleItemIndex];
      if currentPosition == position {
        return;
      }
      SmoothScroll(now, position > currentPosition, Abs(position - currentPosition));
    }

    /** moveToFinalScrollerPosition(s): stop `s`; then, unless the distance
        still to go leaves the offset on an element boundary, scroll that
        distance corrected to the nearest boundary and report true.  On a
        consistent wheel the move made is the final scroll's outcome. */
    method MoveToFinalScrollerPosition(s: Scroller, ghost amount: int, ghost tracked: bool, ghost w: Wheel, ghost shows: bool)
      returns (moved: bool)
      requires Valid() && (s == flingScroller || s == adjustScroller) && amount == s.finalY - s.currY
      requires w == Config() && shows == ShowsText() && (tracked ==> Consistent())
      modifies s, this`currentScrollOffset, this`currentValue, this`selectedText, this`events, this`cache, selectorIndices
      ensures Valid()
      ensures s.Snapshot() == ForceFinish(old(s.Snapshot()), true)
      ensures (moved <==> FinalScroll(old(currentScrollOffset), amount, initialScrollOffset, elementSize).Some?) &&
        (!moved ==> unchanged(this, selectorIndices))
      ensures tracked && scrollerEnabled ==>
        Reached(Moved(w, old(currentValue), old(currentScrollOffset), old(selectedText), shows, format,
                      FinalScroll(old(currentScrollOffset), amount, initialScrollOffset, elementSize)),
                old(events))
      ensures tracked ==> Consistent()
    {
      s.ForceFinished(true);
      assert unchanged(this, selectorIndices);
      moved := ScrollToBoundary(s.finalY - s.currY, tracked, w, shows);
    }

    /** The rest of moveToFinalScrollerPosition once the scroller is
        stopped: the remainder the offset would be left with after
        `amountToScroll`, its distance from the initial offset folded
        toward zero, and the corrected scroll. */
    method ScrollToBoundary(amountToScroll: int, ghost tracked: bool, ghost w: Wheel, ghost shows: bool)
      returns (moved: bool)
      requires Valid() && w == Config() && shows == ShowsText() && (tracked ==> Consistent())
      modifies this`currentScrollOffset, this`currentValue, this`selectedText, this`events, this`cache, selectorIndices
      ensures Valid()
      ensures (moved <==> FinalScroll(old(currentScrollOffset), amountToScroll, initialScrollOffset, elementSize).Some?) &&
        (!moved ==> unchanged(this, selectorIndices))
      ensures tracked && scrollerEnabled ==>
        Reached(Moved(w, old(currentValue), old(currentScrollOffset), old(selectedText), shows, format,
                      FinalScroll(old(currentScrollOffset), amountToScroll, initialScrollOffset, elementSize)),
                old(events))
      ensures tracked ==> Consistent()
    {
      var futureScrollOffset := Rem(currentScrollOffset + amountToScroll, elementSize);
      var overshootAdjustment := initialScrollOffset - futureScrollOffset;
      if overshootAdjustment == 0 {
        assert events == old(events) + [];
        return false;
      }
      if Abs(overshootAdjustment) > Quot(elementSize, 2) {
        if overshootAdjustment > 0 {
          overshootAdjustment := overshootAdjustment - elementSize;
        } else {
          overshootAdjustment := overshootAdjustment + elementSize;
        }
      }
      ScrollBy(amountToScroll + overshootAdjustment);
      return true;
    }

    /** changeValueByOne(increment): bring the fling scroller, or failing a
        move there the adjust scroller, to its final position, then start a
        smooth scroll of one element. */
    method ChangeValueByOne(now: int, increment: bool)
      requires Valid()
      modifies flingScroller, adjustScroller, this`previousScrollerY,
               this`currentScrollOffset, this`currentValue, this`selectedText, this`events, this`cache, selectorIndices
      ensures Valid()
      ensures old(Consistent()) ==> Consistent()
      ensures previousScrollerY == 0
      ensures flingScroller.Snapshot() ==
        AfterStartScroll(ForceFinish(old(flingScroller.Snapshot()), true), now, 0, 0, 0,
                         SmoothDistance(increment, 1, elementSize), SnapScrollDuration)
      ensures adjustScroller.Snapshot() ==
        if FinalScroll(old(currentScrollOffset), Remaining(old(flingScroller.Snapshot())),
                       initialScrollOffset, elementSize).None?
        then ForceFinish(old(adjustScroller.Snapshot()), true)
        else old(adjustScroller.Snapshot())
      // the wheel: the first final scroll there is, or no change at all
      ensures scrollerEnabled && old(Consistent()) ==>
        Reached(Moved(old(Config()), old(currentValue), old(currentScrollOffset), old(selectedText), old(ShowsText()), format,
                      CatchUpScroll(old(currentScrollOffset), Remaining(old(flingScroller.Snapshot())),
                                    Remaining(old(adjustScroller.Snapshot())), initialScrollOffset, elementSize)),
                old(events))
    {
      CatchUpScrollers(Remaining(flingScroller.Snapshot()), Remaining(adjustScroller.Snapshot()),
                       Consistent(), Config(), ShowsText());
      SmoothScroll(now, increment, 1);
    }

    /** changeValueByOne's first half: bring the fling scroller, or failing
        a move there the adjust scroller, to its final position. */
    method CatchUpScrollers(ghost flingAmount: int, ghost adjustAmount: int, ghost consistent: bool,
                            ghost w: Wheel, ghost shows: bool)
      requires Valid() && flingAmount == flingScroller.finalY - flingScroller.currY
      requires adjustAmount == adjustScroller.finalY - adjustScroller.currY
      requires w == Config() && shows == ShowsText() && (consistent ==> Consistent())
      modifies flingScroller, adjustScroller,
               this`currentScrollOffset, this`currentValue, this`selectedText, this`events, this`cache, selectorIndices
      ensures Valid()
      ensures consistent ==> Consistent()
      ensures flingScroller.Snapshot() == ForceFinish(old(flingScroller.Snapshot()), true)
      ensures adjustScroller.Snapshot() ==
        if FinalScroll(old(currentScrollOffset), flingAmount, initialScrollOffset, elementSize).None?
        then ForceFinish(old(adjustScroller.Snapshot()), true)
        else old(adjustScroller.Snapshot())
      ensures consistent && scrollerEnabled ==>
        Reached(Moved(w, old(currentValue), old(currentScrollOffset), old(selectedText), shows, format,
                      CatchUpScroll(old(currentScrollOffset), flingAmount, adjustAmount, initialScrollOffset, elementSize)),
                old(events))
    {
      var moved := MoveToFinalScrollerPosition(flingScroller, flingAmount, consistent, w, shows);
      if !moved {
        moved := MoveToFinalScrollerPosition(adjustScroller, adjustAmount, consistent, w, shows);
      }
    }

    /** fling(velocity): start the fling scroller from 0 for a positive
        velocity and from Int.MAX_VALUE otherwise, bounded by [0,
        Int.MAX_VALUE]; the spline's travel and duration are given. */
    method Fling(now: int, velocity: int, travel: int, flingDuration: int)
      modifies flingScroller, this`previousScrollerY
      ensures previousScrollerY == 0
      ensures flingScroller.Snapshot() ==
        AfterFling(old(flingScroller.Snapshot()), now, 0, FlingStart(velocity), 0, 0, 0, IntMax, 0, travel, flingDuration)
    {
      previousScrollerY := 0;
      if velocity > 0 {
        flingScroller.Fling(now, 0, 0, 0, 0, 0, IntMax, 0, travel, flingDuration);
      } else {
        flingScroller.Fling(now, 0, IntMax, 0, 0, 0, IntMax, 0, travel, flingDuration);
      }
    }


    /** computeScroll's move once the driven scroller has advanced to
        `currentScrollerY`: scroll the wheel by how far the scroller moved
        since the previous tick, counted from the scroller's start
        `startY` when the previous position was reset to 0. */
    method FollowScroller(currentScrollerY: int, startY: int, ghost tracked: bool)
      requires Valid() && scrollerEnabled && (tracked ==> Consistent())
      modifies this`previousScrollerY,
               this`currentScrollOffset, this`currentValue, this`selectedText, this`events, this`cache, selectorIndices
      ensures Valid()
      ensures previousScrollerY == currentScrollerY
      ensures tracked ==>
        Consistent() && Reached(old(Outcome(TickDistance(startY, previousScrollerY, currentScrollerY))), old(events))
    {
      if previousScrollerY == 0 {
        previousScrollerY := startY;
      }
      ScrollBy(currentScrollerY - previousScrollerY);
      previousScrollerY := currentScrollerY;
    }

    /** computeScroll: drive the fling scroller while it runs, else the
        adjust scroller while it runs, else nothing. */
    method ComputeScroll(now: int, f: Ratio)
      requires Valid()
      modifies flingScroller, adjustScroller, this`previousScrollerY, this`scrollState,
               this`currentScrollOffset, this`currentValue, this`selectedText, this`events, this`cache, selectorIndices
      ensures Valid()
      ensures old(Consistent()) ==> Consistent()
      ensures !scrollerEnabled || (old(flingScroller.isFinished) && old(adjustScroller.isFinished)) ==>
        unchanged(this, selectorIndices, flingScroller, adjustScroller)
      // a running fling is driven
      ensures scrollerEnabled && !old(flingScroller.isFinished) ==>
        flingScroller.Snapshot() == Advance(old(flingScroller.Snapshot()), now, f)
      // a fling that runs on leaves the rest alone; one that stops snaps back and goes idle
      ensures scrollerEnabled && !old(flingScroller.isFinished) && !flingScroller.isFinished ==>
        adjustScroller.Snapshot() == old(adjustScroller.Snapshot()) && scrollState == old(scrollState) &&
        previousScrollerY == flingScroller.currY
      ensures scrollerEnabled && !old(flingScroller.isFinished) && flingScroller.isFinished ==>
        scrollState == Idle &&
        SnapStarted(old(adjustScroller.Snapshot()), adjustScroller.Snapshot(), flingScroller.currY, previousScrollerY,
                    SnapDelta(initialScrollOffset, currentScrollOffset, elementSize), now)
      // otherwise a running adjustment is
      ensures scrollerEnabled && old(flingScroller.isFinished) && !old(adjustScroller.isFinished) ==>
        unchanged(flingScroller) && adjustScroller.Snapshot() == Advance(old(adjustScroller.Snapshot()), now, f) &&
        scrollState == old(scrollState) && previousScrollerY == adjustScroller.currY
    {
      if !scrollerEnabled {
        return;
      }
      var s := flingScroller;
      if s.isFinished {
        s := adjustScroller;
        if s.isFinished {
          return;
        }
      }
      DriveScroller(now, s, f, Consistent());
    }

    /** One tick of computeScroll on the running scroller `s`: advance it,
        follow it with the wheel, and hand it to onScrollerFinished once it
        has come to rest.  While a fling runs on, the adjust scroller is
        left alone; once it stops, the wheel snaps back and goes idle. */
    method DriveScroller(now: int, s: Scroller, f: Ratio, ghost tracked: bool)
      requires Valid() && scrollerEnabled && (s == flingScroller || s == adjustScroller) && (tracked ==> Consistent())
      modifies s, adjustScroller, this`previousScrollerY, this`scrollState,
               this`currentScrollOffset, this`currentValue, this`selectedText, this`events, this`cache, selectorIndices
      ensures Valid()
      ensures tracked ==> Consistent()
      ensures s.Snapshot() == Advance(old(s.Snapshot()), now, f)
      ensures s == adjustScroller ==> scrollState == old(scrollState) && previousScrollerY == s.currY
      ensures s == flingScroller && !s.isFinished ==>
        adjustScroller.Snapshot() == old(adjustScroller.Snapshot()) && scrollState == old(scrollState) &&
        previousScrollerY == s.currY
      ensures s == flingScroller && s.isFinished ==>
        scrollState == Idle &&
        SnapStarted(old(adjustScroller.Snapshot()), adjustScroller.Snapshot(), s.currY, previousScrollerY,
                    SnapDelta(initialScrollOffset, currentScrollOffset, elementSize), now)
    {
      AdvanceScroller(now, s, f, tracked);
      if s.isFinished {
        OnScrollerFinished(now, s);
      }
    }

    /** computeScrollOffset on `s`, then the wheel follows it by the
        scroller's travel since the previous tick (FollowScroller). */
    method AdvanceScroller(now: int, s: Scroller, f: Ratio, ghost tracked: bool)
      requires Valid() && scrollerEnabled && (s == flingScroller || s == adjustScroller) && (tracked ==> Consistent())
      modifies s, this`previousScrollerY,
               this`currentScrollOffset, this`currentValue, this`selectedText, this`events, this`cache, selectorIndices
      ensures Valid()
      ensures s.Snapshot() == Advance(old(s.Snapshot()), now, f)
      ensures previousScrollerY == s.currY
      ensures tracked ==> Consistent()
    {
      var more := s.ComputeScrollOffset(now, f);
      assert unchanged(this, selectorIndices);
      FollowScroller(s.currY, s.startY, tracked);
    }

    /** onScrollerFinished(s): after a fling, snap back, refresh the text
        and go idle; after an adjustment, refresh the text unless the user
        is dragging. */
    method OnScrollerFinished(now: int, s: Scroller)
      requires s == flingScroller || s == adjustScroller
      modifies adjustScroller, this`previousScrollerY, this`selectedText, this`scrollState, this`events
      ensures s == flingScroller ==>
        SnapStarted(old(adjustScroller.Snapshot()), adjustScroller.Snapshot(), old(previousScrollerY),
                    previousScrollerY, SnapDelta(initialScrollOffset, currentScrollOffset, elementSize), now) &&
        selectedText == Shown(old(selectedText), currentValue, format) && scrollState == Idle &&
        events == old(events) + StateReport(old(scrollState), Idle)
      ensures s != flingScroller ==>
        adjustScroller.Snapshot() == old(adjustScroller.Snapshot()) && previousScrollerY == old(previousScrollerY) &&
        scrollState == old(scrollState) && events == old(events) &&
        selectedText == if old(scrollState) != TouchScroll then Shown(old(selectedText), currentValue, format)
                        else old(selectedText)
    {
      if s == flingScroller {
        EnsureScrollWheelAdjusted(now);
        UpdateInputTextView();
        OnScrollStateChange(Idle);
      } else if scrollState != TouchScroll {
        UpdateInputTextView();
      }
    }
    // -------------------------------------------------------------------
    // Touch

    /** onInterceptTouchEvent for ACTION_DOWN: drop the posted commands and
        remember where the press went down; then stop a running fling (and
        go idle) or a running adjustment, or else click on the band between
        the dividers or post the long-press repeat above or below it. */
    method OnInterceptTouchDown(y: int) returns (handled: bool)
      modifies flingScroller, adjustScroller, this`pendingRepeat, this`lastDownY, this`lastDownOrMoveY,
               this`scrollState, this`events
      ensures !enabled ==> !handled && unchanged(this, flingScroller, adjustScroller)
      ensures enabled ==> handled && lastDownY == y && lastDownOrMoveY == y
      ensures enabled ==>
        var press := PressAction(old(flingScroller.isFinished), old(adjustScroller.isFinished), y,
                                 topDividerTop, bottomDividerBottom);
        var stopped := press == StopFling || press == StopAdjust;
        (stopped ==>
           flingScroller.Snapshot() == ForceFinish(old(flingScroller.Snapshot()), true) &&
           adjustScroller.Snapshot() == ForceFinish(old(adjustScroller.Snapshot()), true)) &&
        (!stopped ==>
           flingScroller.Snapshot() == old(flingScroller.Snapshot()) &&
           adjustScroller.Snapshot() == old(adjustScroller.Snapshot())) &&
        (press == StopFling ==>
           scrollState == Idle && events == old(events) + StateReport(old(scrollState), Idle)) &&
        (press != StopFling ==> scrollState == old(scrollState)) &&
        (press == StopAdjust ==> events == old(events)) &&
        (press == Click ==> events == old(events) + [Clicked]) &&
        (press.RepeatStep? ==> events == old(events) && pendingRepeat == Some(press.increment)) &&
        (!press.RepeatStep? ==> pendingRepeat == None)
    {
      if !enabled {
        return false;
      }
      pendingRepeat := None;
      lastDownY := y;
      lastDownOrMoveY := lastDownY;
      if !flingScroller.isFinished {
        flingScroller.ForceFinished(true);
        adjustScroller.ForceFinished(true);
        OnScrollStateChange(Idle);
      } else if !adjustScroller.isFinished {
        flingScroller.ForceFinished(true);
        adjustScroller.ForceFinished(true);
      } else if lastDownY >= topDividerTop && lastDownY <= bottomDividerBottom {
        events := events + [Clicked];
      } else if lastDownY < topDividerTop {
        pendingRepeat := Some(false);
      } else if lastDownY > bottomDividerBottom {
        pendingRepeat := Some(true);
      }
      return true;
    }

    /** onTouchEvent for ACTION_MOVE: before the drag has begun, a move
        farther than the touch slop from the press drops the posted commands
        and starts it; once dragging, the wheel follows the finger. */
    method OnTouchMove(y: int) returns (handled: bool)
      requires Valid()
      modifies this`pendingRepeat, this`scrollState, this`lastDownOrMoveY,
               this`currentScrollOffset, this`currentValue, this`selectedText, this`events, this`cache, selectorIndices
      ensures Valid()
      ensures old(Consistent()) ==> Consistent()
      ensures !enabled || !scrollerEnabled ==> !handled && unchanged(this, selectorIndices)
      ensures enabled && scrollerEnabled ==> handled && lastDownOrMoveY == y
      ensures enabled && scrollerEnabled && old(scrollState) != TouchScroll ==>
        unchanged(selectorIndices) && currentValue == old(currentValue) &&
        currentScrollOffset == old(currentScrollOffset) && selectedText == old(selectedText) &&
        if Abs(y - lastDownY) > touchSlop then
          scrollState == TouchScroll && pendingRepeat == None && events == old(events) + [ScrollStateChanged(TouchScroll)]
        else
          scrollState == old(scrollState) && pendingRepeat == old(pendingRepeat) && events == old(events)
      ensures enabled && scrollerEnabled && old(scrollState) == TouchScroll ==>
        scrollState == TouchScroll && pendingRepeat == old(pendingRepeat) &&
        (old(Consistent()) ==> Reached(old(Outcome(y - lastDownOrMoveY)), old(events)))
    {
      if !enabled || !scrollerEnabled {
        return false;
      }
      if scrollState != TouchScroll {
        var deltaDownY := Abs(y - lastDownY);
        if deltaDownY > touchSlop {
          pendingRepeat := None;
          OnScrollStateChange(TouchScroll);
        }
        lastDownOrMoveY := y;
      } else {
        var deltaMoveY := y - lastDownOrMoveY;
        lastDownOrMoveY := y;
        ScrollBy(deltaMoveY);
      }
      return true;
    }

    /** onTouchEvent for ACTION_UP: drop the long-press repeat, then take
        the release decision: fling and report flinging, or step by one
        element, or snap back, and in the last two cases go idle.  The
        release velocity and the fling's travel and duration are given. */
    method OnTouchUp(now: int, y: int, velocity: int, travel: int, flingDuration: int) returns (handled: bool)
      requires Valid()
      modifies flingScroller, adjustScroller, this`pendingRepeat, this`scrollState, this`previousScrollerY,
               this`currentScrollOffset, this`currentValue, this`selectedText, this`events, this`cache, selectorIndices
      ensures Valid()
      ensures old(Consistent()) ==> Consistent()
      ensures !enabled || !scrollerEnabled ==> !handled && unchanged(this, selectorIndices, flingScroller, adjustScroller)
      ensures enabled && scrollerEnabled ==>
        handled && ReleaseDone(old(flingScroller.Snapshot()), old(adjustScroller.Snapshot()), old(previousScrollerY),
                               old(currentScrollOffset), now, y, velocity, travel, flingDuration)
      ensures enabled && scrollerEnabled ==>
        ReleaseTold(old(flingScroller.Snapshot()), old(adjustScroller.Snapshot()), y, velocity, old(scrollState),
                    old(currentValue), old(currentScrollOffset), old(selectedText), old(events),
                    old(Config()), old(ShowsText()), old(Consistent()))
    {
      if !enabled || !scrollerEnabled {
        return false;
      }
      ghost var tracked := Consistent();
      Release(now, y, velocity, travel, flingDuration, tracked);
      return true;
    }

    /** What ACTION_UP leaves behind for an enabled picker, from the
        scrollers and previous scroller position it found: no posted
        repeat, and the state the release decision calls for. */
    ghost predicate ReleaseDone(fling0: State, adjust0: State, previous0: int, offset0: int, now: int, y: int,
                                velocity: int, travel: int, flingDuration: int)
      reads this, flingScroller, adjustScroller
    {
        var release := ReleaseAction(velocity, minimumFlingVelocity, y, lastDownY, touchSlop, elementSize,
                                     wheelMiddleItemIndex);
        pendingRepeat == None && release.Ok? &&
        (release.value == StartFling ==>
           scrollState == Flinging && previousScrollerY == 0 && adjustScroller.Snapshot() == adjust0 &&
           flingScroller.Snapshot() ==
             AfterFling(fling0, now, 0, FlingStart(velocity), 0, 0, 0, IntMax, 0, travel, flingDuration)) &&
        (release.value.StepBy? ==>
           scrollState == Idle && previousScrollerY == 0 &&
           flingScroller.Snapshot() ==
             AfterStartScroll(ForceFinish(fling0, true), now, 0, 0, 0,
                              SmoothDistance(release.value.increment, 1, elementSize), SnapScrollDuration) &&
           adjustScroller.Snapshot() ==
             if FinalScroll(offset0, Remaining(fling0), initialScrollOffset, elementSize).None?
             then ForceFinish(adjust0, true)
             else adjust0) &&
        (release.value == Snap ==>
           scrollState == Idle && flingScroller.Snapshot() == fling0 &&
           SnapStarted(adjust0, adjustScroller.Snapshot(), previous0,
                       previousScrollerY, SnapDelta(initialScrollOffset, currentScrollOffset, elementSize), now))
    }

    /** What ACTION_UP leaves on screen and tells the listeners, from what
        it found there: a fling or a snap back leaves value, offset and text
        alone and reports the new state; a step by one element, on a
        consistent wheel, shows changeValueByOne's catching up and then
        reports going idle. */
    ghost predicate ReleaseTold(fling0: State, adjust0: State, y: int, velocity: int, state0: ScrollState,
                                value0: int, offset0: int, text0: string, events0: seq<Event>,
                                w0: Wheel, shows0: bool, consistent0: bool)
      reads this
    {
        var release := ReleaseAction(velocity, minimumFlingVelocity, y, lastDownY, touchSlop, elementSize,
                                     wheelMiddleItemIndex);
        release.Ok? &&
        (release.value == StartFling ==>
           OnScreen() == Scrolled(value0, offset0, events0 + StateReport(state0, Flinging), text0)) &&
        (release.value == Snap ==>
           OnScreen() == Scrolled(value0, offset0, events0 + StateReport(state0, Idle), text0)) &&
        (release.value.StepBy? && consistent0 && scrollerEnabled && WellFormed(w0) ==>
           ReachedThen(Moved(w0, value0, offset0, text0, shows0, format,
                             CatchUpScroll(offset0, Remaining(fling0), Remaining(adjust0), initialScrollOffset, elementSize)),
                       events0, StateReport(state0, Idle)))
    }

    /** ACTION_UP on an enabled picker: drop the long-press repeat and act
        on the release decision. */
    method Release(now: int, y: int, velocity: int, travel: int, flingDuration: int, ghost tracked: bool)
      requires Valid() && (tracked ==> Consistent())
      modifies flingScroller, adjustScroller, this`pendingRepeat, this`scrollState, this`previousScrollerY,
               this`currentScrollOffset, this`currentValue, this`selectedText, this`events, this`cache, selectorIndices
      ensures Valid()
      ensures tracked ==> Consistent()
      ensures ReleaseDone(old(flingScroller.Snapshot()), old(adjustScroller.Snapshot()), old(previousScrollerY),
                          old(currentScrollOffset), now, y, velocity, travel, flingDuration)
      ensures ReleaseTold(old(flingScroller.Snapshot()), old(adjustScroller.Snapshot()), y, velocity, old(scrollState),
                          old(currentValue), old(currentScrollOffset), old(selectedText), old(events),
                          old(Config()), old(ShowsText()), tracked)
    {
      pendingRepeat := None;
      assert old(flingScroller.Snapshot()) == flingScroller.Snapshot() && old(adjustScroller.Snapshot()) == adjustScroller.Snapshot();
      assert old(Config()) == Config() && old(ShowsText()) == ShowsText();
      if Abs(velocity) > minimumFlingVelocity {
        FlingRelease(now, y, velocity, travel, flingDuration, tracked);
      } else {
        SettleRelease(now, y, velocity, travel, flingDuration, tracked);
      }
    }

    /** The slow release of ACTION_UP: a tap off the middle element steps
        by one element, and any other release snaps the wheel back; either
        way the picker goes idle. */
    method SettleRelease(now: int, y: int, ghost velocity: int, ghost travel: int, ghost flingDuration: int,
                         ghost tracked: bool)
      requires Valid() && Abs(velocity) <= minimumFlingVelocity && (tracked ==> Consistent()) && pendingRepeat == None
      modifies flingScroller, adjustScroller, this`previousScrollerY, this`scrollState,
               this`currentScrollOffset, this`currentValue, this`selectedText, this`events, this`cache, selectorIndices
      ensures Valid()
      ensures tracked ==> Consistent()
      ensures ReleaseDone(old(flingScroller.Snapshot()), old(adjustScroller.Snapshot()), old(previousScrollerY),
                          old(currentScrollOffset), now, y, velocity, travel, flingDuration)
      ensures ReleaseTold(old(flingScroller.Snapshot()), old(adjustScroller.Snapshot()), y, velocity, old(scrollState),
                          old(currentValue), old(currentScrollOffset), old(selectedText), old(events),
                          old(Config()), old(ShowsText()), tracked)
    {
      var deltaMoveY := Abs(y - lastDownY);
      if deltaMoveY <= touchSlop {
        TapRelease(now, y, velocity, travel, flingDuration, tracked);
      } else {
        SnapRelease(now);
      }
    }

    /** A slow release within the touch slop: a tap off the middle element
        steps by one toward it, a tap on it snaps back. */
    method TapRelease(now: int, y: int, ghost velocity: int, ghost travel: int, ghost flingDuration: int,
                      ghost tracked: bool)
      requires Valid() && Abs(velocity) <= minimumFlingVelocity && (tracked ==> Consistent()) && pendingRepeat == None &&
               Abs(y - lastDownY) <= touchSlop
      modifies flingScroller, adjustScroller, this`previousScrollerY, this`scrollState,
               this`currentScrollOffset, this`currentValue, this`selectedText, this`events, this`cache, selectorIndices
      ensures Valid()
      ensures tracked ==> Consistent()
      ensures ReleaseDone(old(flingScroller.Snapshot()), old(adjustScroller.Snapshot()), old(previousScrollerY),
                          old(currentScrollOffset), now, y, velocity, travel, flingDuration)
      ensures ReleaseTold(old(flingScroller.Snapshot()), old(adjustScroller.Snapshot()), y, velocity, old(scrollState),
                          old(currentValue), old(currentScrollOffset), old(selectedText), old(events),
                          old(Config()), old(ShowsText()), tracked)
    {
      var selectorIndexOffset := Quot(y, elementSize) - wheelMiddleItemIndex;
      if selectorIndexOffset != 0 {
        StepRelease(now, selectorIndexOffset > 0, tracked);
      } else {
        SnapRelease(now);
      }
    }

    /** A tap off the middle element: step by one element, then go idle. */
    method StepRelease(now: int, increment: bool, ghost tracked: bool)
      requires Valid() && (tracked ==> Consistent())
      modifies flingScroller, adjustScroller, this`previousScrollerY, this`scrollState,
               this`currentScrollOffset, this`currentValue, this`selectedText, this`events, this`cache, selectorIndices
      ensures Valid()
      ensures tracked ==> Consistent()
      ensures scrollState == Idle && previousScrollerY == 0
      ensures flingScroller.Snapshot() ==
        AfterStartScroll(ForceFinish(old(flingScroller.Snapshot()), true), now, 0, 0, 0,
                         SmoothDistance(increment, 1, elementSize), SnapScrollDuration)
      ensures adjustScroller.Snapshot() ==
        if FinalScroll(old(currentScrollOffset), Remaining(old(flingScroller.Snapshot())),
                       initialScrollOffset, elementSize).None?
        then ForceFinish(old(adjustScroller.Snapshot()), true)
        else old(adjustScroller.Snapshot())
      // the wheel caught up as changeValueByOne does, then the report of going idle
      ensures tracked && scrollerEnabled ==>
        ReachedThen(Moved(old(Config()), old(currentValue), old(currentScrollOffset), old(selectedText), old(ShowsText()),
                          format, CatchUpScroll(old(currentScrollOffset), Remaining(old(flingScroller.Snapshot())),
                                                Remaining(old(adjustScroller.Snapshot())), initialScrollOffset, elementSize)),
                    old(events), StateReport(old(scrollState), Idle))
    {
      ChangeValueByOne(now, increment);
      OnScrollStateChange(Idle);
    }

    /** Any other slow release: snap the wheel back, then go idle. */
    method SnapRelease(now: int)
      modifies adjustScroller, this`previousScrollerY, this`scrollState, this`events
      ensures scrollState == Idle
      ensures SnapStarted(old(adjustScroller.Snapshot()), adjustScroller.Snapshot(), old(previousScrollerY),
                          previousScrollerY, SnapDelta(initialScrollOffset, currentScrollOffset, elementSize), now)
      ensures events == old(events) + StateReport(old(scrollState), Idle)
    {
      EnsureScrollWheelAdjusted(now);
      OnScrollStateChange(Idle);
    }

    /** The fast release of ACTION_UP: fling and report flinging. */
    method FlingRelease(now: int, ghost y: int, velocity: int, travel: int, flingDuration: int, ghost tracked: bool)
      requires Valid() && Abs(velocity) > minimumFlingVelocity && pendingRepeat == None
      modifies flingScroller, this`previousScrollerY, this`scrollState, this`events
      ensures Valid() && unchanged(this`currentValue, this`currentScrollOffset, this`selectedText, selectorIndices)
      ensures scrollState == Flinging && previousScrollerY == 0
      ensures flingScroller.Snapshot() ==
        AfterFling(old(flingScroller.Snapshot()), now, 0, FlingStart(velocity), 0, 0, 0, IntMax, 0, travel, flingDuration)
      ensures events == old(events) + StateReport(old(scrollState), Flinging)
      ensures ReleaseDone(old(flingScroller.Snapshot()), old(adjustScroller.Snapshot()), old(previousScrollerY),
                          old(currentScrollOffset), now, y, velocity, travel, flingDuration)
      ensures ReleaseTold(old(flingScroller.Snapshot()), old(adjustScroller.Snapshot()), y, velocity, old(scrollState),
                          old(currentValue), old(currentScrollOffset), old(selectedText), old(events),
                          old(Config()), old(ShowsText()), tracked)
    {
      Fling(now, velocity, travel, flingDuration);
      OnScrollStateChange(Flinging);
    }
  }

  /** What onScrollStateChange tells the listeners on going from `from` to
      `to`: the new state, unless it is the old one */
  function StateReport(from: ScrollState, to: ScrollState): (l: seq<Event>)
    ensures l == [] <==> from == to
  {
    if from == to then [] else [ScrollStateChanged(to)]
  }

  /** The adjust scroller and previousScrollerY after ensureScrollWheelAdjusted
      with snap distance d: untouched when there is none, otherwise the
      scroller started from (0, 0) over d and the tick origin reset. */
  predicate SnapStarted(before: State, after: State, previousBefore: int, previousAfter: int, d: Option<int>, now: int)
  {
    if d.None? then after == before && previousAfter == previousBefore
    else previousAfter == 0 && after == AfterStartScroll(before, now, 0, 0, 0, d.value, SelectorAdjustmentDuration)
  }

  /** fling's start position: 0 for a positive velocity, Int.MAX_VALUE otherwise */
  function FlingStart(velocity: int): int
  {
    if velocity > 0 then 0 else IntMax
  }

  /** The start leaves the whole travel room inside [0, Int.MAX_VALUE]: a
      downward travel of up to Int.MAX_VALUE from 0, an upward one of up to
      Int.MAX_VALUE from Int.MAX_VALUE.  The target never leaves the bounds. */
  lemma FlingTravelFits(s: State, now: int, velocity: int, travel: int, flingDuration: int)
    ensures var r := AfterFling(s, now, 0, FlingStart(velocity), 0, 0, 0, IntMax, 0, travel, flingDuration);
      0 <= r.finalY <= IntMax && r.finalX == 0 &&
      (velocity > 0 && 0 <= travel <= IntMax ==> r.finalY == travel) &&
      (velocity <= 0 && -IntMax <= travel <= 0 ==> r.finalY == IntMax + travel)
  {
  }

  /** computeScroll's scroll distance for one tick: how far the scroller
      has moved since the previous tick, or since its start when the
      previous position was reset to 0 */
  function TickDistance(startY: int, previous: int, currY: int): int
  {
    currY - (if previous == 0 then startY else previous)
  }

  /** The total distance the ticks of one motion scroll, the scroller at
      positions `ys`, the tick origin `previous` before the first */
  function TickTotal(startY: int, previous: int, ys: seq<int>): int
    decreases |ys|
  {
    if |ys| == 0 then 0
    else TickDistance(startY, previous, ys[0]) + TickTotal(startY, ys[0], ys[1..])
  }

  /** The ticks add up to the distance from the origin to the last position
      (the origin itself counts from the start when it is 0), as long as an
      intermediate position is 0 only for a motion that starts at 0. */
  lemma {:induction false} TickTotalTelescopes(startY: int, previous: int, ys: seq<int>)
    requires |ys| > 0
    requires forall i :: 0 <= i < |ys| - 1 ==> ys[i] != 0 || startY == 0
    ensures TickTotal(startY, previous, ys) == ys[|ys| - 1] - (if previous == 0 then startY else previous)
    decreases |ys|
  {
    if |ys| > 1 {
      assert forall i :: 0 <= i < |ys[1..]| - 1 ==> ys[1..][i] == ys[i + 1];
      TickTotalTelescopes(startY, ys[0], ys[1..]);
    }
  }
}
