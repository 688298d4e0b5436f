/** The integer rules of the picker's wheel (PlayerTimePicker): the wrap
    formula, the window of selector indices and its one-slot rotations, the
    commit rule of setValueInternal, the walk of values scrollBy's two loops
    perform, the snap-back and overshoot corrections, and the decisions the
    touch handlers take on release and on press.  Everything here is a pure
    function of its arguments; the class in TimePicker performs these steps
    in place and is specified by them. */
module WheelMath {
  import opened Kotlin

  /** OnScrollListener's SCROLL_STATE_IDLE, SCROLL_STATE_TOUCH_SCROLL and SCROLL_STATE_FLING */
  datatype ScrollState = Idle | TouchScroll | Flinging

  /** What the picker reports to its listeners, in the order it reports it. */
  datatype Event =
    | ValueChanged(previous: int, current: int)   // OnValueChangeListener.onValueChange
    | ScrollStateChanged(state: ScrollState)      // OnScrollListener.onScrollStateChange
    | ScrollChanged(offset: int, oldOffset: int)  // onScrollChanged, vertical components
    | Clicked                                     // OnClickListener.onClick

  // ---------------------------------------------------------------------
  // The wrap formula

  /** getWrappedSelectorIndex(i) for the range [lo, hi].  The modulus is
      hi - lo, so an index outside a one-element range divides by zero. */
  function WrappedIndex(i: int, lo: int, hi: int): (r: Result<int>)
    ensures r.Err? <==> (i < lo || hi < i) && hi == lo
    ensures r.Err? ==> r.fault == ArithmeticException
    ensures lo <= i <= hi ==> r == Ok(i)
  {
    if i > hi then
      if hi - lo == 0 then Err(ArithmeticException) else Ok(lo + Rem(i - hi, hi - lo) - 1)
    else if i < lo then
      if hi - lo == 0 then Err(ArithmeticException) else Ok(hi - Rem(lo - i, hi - lo) + 1)
    else
      Ok(i)
  }

  /** The wrapped index where the formula cannot throw */
  function Wrap(i: int, lo: int, hi: int): int
    requires hi != lo
  {
    WrappedIndex(i, lo, hi).value
  }

  /** Circular indexing over the hi - lo + 1 values of the range: the
      reference the wrap formula is compared with. */
  function Circular(i: int, lo: int, hi: int): int
    requires lo <= hi
  {
    lo + (i - lo) % (hi - lo + 1)
  }

  /** Just past either end the formula wraps to the other end:
      max + 1 is min and min - 1 is max once the range has three values. */
  lemma WrapAcrossEnds(i: int, lo: int, hi: int)
    requires hi > lo
    ensures 1 <= i - hi < hi - lo ==> Wrap(i, lo, hi) == lo + (i - hi) - 1
    ensures 1 <= lo - i < hi - lo ==> Wrap(i, lo, hi) == hi - (lo - i) + 1
    ensures hi - lo >= 2 ==> Wrap(hi + 1, lo, hi) == lo && Wrap(lo - 1, lo, hi) == hi
  {
    if 1 <= i - hi < hi - lo {
      RemSmall(i - hi, hi - lo);
    }
    if 1 <= lo - i < hi - lo {
      RemSmall(lo - i, hi - lo);
    }
    if hi - lo >= 2 {
      RemSmall(1, hi - lo);
    }
  }

  /** Next to the range, wrapping is the familiar wrap-around. */
  lemma WrapNear(i: int, lo: int, hi: int)
    requires hi - lo >= 2 && lo - 1 <= i <= hi + 1
    ensures Wrap(i, lo, hi) == if i > hi then lo else if i < lo then hi else i
  {
    WrapAcrossEnds(i, lo, hi);
  }

  /** Within one modulus of the range the formula is circular indexing. */
  lemma WrapMatchesCircular(i: int, lo: int, hi: int)
    requires hi > lo && lo - (hi - lo) < i < hi + (hi - lo)
    ensures Wrap(i, lo, hi) == Circular(i, lo, hi)
  {
    var m := hi - lo + 1;
    WrapAcrossEnds(i, lo, hi);
    if i > hi {
      ModUnique(i - lo, m, 1, i - hi - 1);
    } else if i < lo {
      ModUnique(i - lo, m, -1, m - (lo - i));
    } else {
      ModUnique(i - lo, m, 0, i - lo);
    }
  }

  /** The modulus max - min is one short of the range size: a whole modulus
      past either end leaves the range, where circular indexing would not. */
  lemma WrapLeavesRange(lo: int, hi: int)
    requires hi - lo >= 2
    ensures Wrap(hi + (hi - lo), lo, hi) == lo - 1
    ensures Wrap(lo - (hi - lo), lo, hi) == hi + 1
    ensures Circular(hi + (hi - lo), lo, hi) == hi - 1
  {
    RemSelf(hi - lo);
    ModUnique(2 * (hi - lo), hi - lo + 1, 1, hi - lo - 1);
  }

  /** A wrapped index is never more than one outside the range. */
  lemma WrapBounds(i: int, lo: int, hi: int)
    requires hi > lo
    ensures lo - 1 <= Wrap(i, lo, hi) <= hi + 1
    ensures i > hi ==> Wrap(i, lo, hi) < hi
    ensures i < lo ==> Wrap(i, lo, hi) > lo
  {
  }

  /** One modulus apart, hi + t and lo - 1 + t wrap alike. */
  lemma WrapShift(t: int, lo: int, hi: int)
    requires hi - lo >= 2 && 1 - (hi - lo) < t < hi - lo
    ensures Wrap(hi + t, lo, hi) == Wrap(lo - 1 + t, lo, hi)
  {
    WrapAcrossEnds(hi + t, lo, hi);
    WrapAcrossEnds(lo - 1 + t, lo, hi);
  }

  /** Wrapping and then stepping down as decrementSelectorIndices does is
      wrapping the index below. */
  lemma WrapStepDown(x: int, lo: int, hi: int)
    requires hi - lo >= 2 && lo - (hi - lo) + 1 < x < hi + (hi - lo)
    ensures (if Wrap(x, lo, hi) - 1 < lo then hi else Wrap(x, lo, hi) - 1) == Wrap(x - 1, lo, hi)
  {
    WrapAcrossEnds(x, lo, hi);
    WrapAcrossEnds(x - 1, lo, hi);
  }

  /** Wrapping and then stepping up as incrementSelectorIndices does is
      wrapping the index above. */
  lemma WrapStepUp(x: int, lo: int, hi: int)
    requires hi - lo >= 2 && lo - (hi - lo) < x < hi + (hi - lo) - 1
    ensures (if Wrap(x, lo, hi) + 1 > hi then lo else Wrap(x, lo, hi) + 1) == Wrap(x + 1, lo, hi)
  {
    WrapAcrossEnds(x, lo, hi);
    WrapAcrossEnds(x + 1, lo, hi);
  }

  // ---------------------------------------------------------------------
  // The window of selector indices

  /** isWrappingAllowed(): the range fills the whole window */
  function WrappingAllowed(lo: int, hi: int, size: int): bool
  {
    hi - lo >= size - 1
  }

  /** The value selector slot i holds when the window is built around c */
  function Slot(c: int, i: int, mid: int, wrap: bool, lo: int, hi: int): int
    requires wrap ==> hi != lo
  {
    var raw := c + (i - mid);
    if wrap then Wrap(raw, lo, hi) else raw
  }

  /** The window initializeSelectorWheelIndices builds around c */
  function Window(c: int, n: nat, mid: int, wrap: bool, lo: int, hi: int): (w: seq<int>)
    requires wrap ==> hi != lo
    ensures |w| == n
    ensures forall i :: 0 <= i < n ==> w[i] == Slot(c, i, mid, wrap, lo, hi)
    // the middle slot shows the value itself
    ensures 0 <= mid < n && lo <= c <= hi ==> w[mid] == c
  {
    seq(n, i => Slot(c, i, mid, wrap, lo, hi))
  }

  /** When wrapping is allowed, every slot of a window around a value of the
      range shows a value of the range. */
  lemma WindowWithinRange(c: int, n: int, mid: int, lo: int, hi: int)
    requires n >= 6 && mid == n / 2 && WrappingAllowed(lo, hi, n) && lo <= c <= hi
    ensures forall i :: 0 <= i < n ==> lo <= Window(c, n, mid, true, lo, hi)[i] <= hi
  {
    forall i | 0 <= i < n
      ensures lo <= Window(c, n, mid, true, lo, hi)[i] <= hi
    {
      WrapAcrossEnds(c + (i - mid), lo, hi);
    }
  }

  /** decrementSelectorIndices: every slot takes its upper neighbour's value
      and the first slot receives the index below, wrapped to max. */
  function Decremented(s: seq<int>, wrap: bool, lo: int, hi: int): seq<int>
    requires |s| >= 2
  {
    var entering := s[0] - 1;
    [if wrap && entering < lo then hi else entering] + s[..|s| - 1]
  }

  /** incrementSelectorIndices: every slot takes its lower neighbour's value
      and the last slot receives the index above, wrapped to min. */
  function Incremented(s: seq<int>, wrap: bool, lo: int, hi: int): seq<int>
    requires |s| >= 2
  {
    var entering := s[|s| - 1] + 1;
    s[1..] + [if wrap && entering > hi then lo else entering]
  }

  /** Slot i of the window around the value above equals slot i - 1 of the
      window around c. */
  lemma SlotShiftDown(c: int, i: int, n: int, mid: int, wrap: bool, lo: int, hi: int)
    requires n >= 6 && mid == n / 2 && 1 <= i < n
    requires wrap ==> WrappingAllowed(lo, hi, n) && lo <= c <= hi
    ensures Slot(c, i - 1, mid, wrap, lo, hi) == Slot(Slot(c, mid - 1, mid, wrap, lo, hi), i, mid, wrap, lo, hi)
  {
    if wrap {
      WrapNear(c - 1, lo, hi);
      if c == lo {
        WrapShift(i - mid, lo, hi);
      }
    }
  }

  /** The index entering at the top of a rotated-down window is slot 0 of
      the window around the value above. */
  lemma SlotEnterDown(c: int, n: int, mid: int, wrap: bool, lo: int, hi: int)
    requires n >= 6 && mid == n / 2
    requires wrap ==> WrappingAllowed(lo, hi, n) && lo <= c <= hi
    ensures var x := Slot(c, 0, mid, wrap, lo, hi) - 1;
      (if wrap && x < lo then hi else x) == Slot(Slot(c, mid - 1, mid, wrap, lo, hi), 0, mid, wrap, lo, hi)
  {
    if wrap {
      WrapNear(c - 1, lo, hi);
      WrapStepDown(c - mid, lo, hi);
      if c == lo {
        WrapShift(-mid, lo, hi);
      }
    }
  }

  /** Slot i of the window around the value below equals slot i + 1 of the
      window around c. */
  lemma SlotShiftUp(c: int, i: int, n: int, mid: int, wrap: bool, lo: int, hi: int)
    requires n >= 6 && mid == n / 2 && 0 <= i < n - 1
    requires wrap ==> WrappingAllowed(lo, hi, n) && lo <= c <= hi
    ensures Slot(c, i + 1, mid, wrap, lo, hi) == Slot(Slot(c, mid + 1, mid, wrap, lo, hi), i, mid, wrap, lo, hi)
  {
    if wrap {
      WrapNear(c + 1, lo, hi);
      if c == hi {
        WrapShift(i - mid + 1, lo, hi);
      }
    }
  }

  /** The index entering at the bottom of a rotated-up window is the last
      slot of the window around the value below. */
  lemma SlotEnterUp(c: int, n: int, mid: int, wrap: bool, lo: int, hi: int)
    requires n >= 6 && mid == n / 2
    requires wrap ==> WrappingAllowed(lo, hi, n) && lo <= c <= hi
    ensures var x := Slot(c, n - 1, mid, wrap, lo, hi) + 1;
      (if wrap && x > hi then lo else x) == Slot(Slot(c, mid + 1, mid, wrap, lo, hi), n - 1, mid, wrap, lo, hi)
  {
    if wrap {
      WrapNear(c + 1, lo, hi);
      WrapStepUp(c + (n - 1 - mid), lo, hi);
      if c == hi {
        WrapShift(n - mid, lo, hi);
      }
    }
  }

  /** Rotating a window down in place gives the window rebuilt around the
      value of the slot above the middle. */
  lemma DecrementedWindow(c: int, n: int, mid: int, wrap: bool, lo: int, hi: int)
    requires n >= 6 && mid == n / 2
    requires wrap ==> WrappingAllowed(lo, hi, n) && lo <= c <= hi
    ensures Decremented(Window(c, n, mid, wrap, lo, hi), wrap, lo, hi)
         == Window(Slot(c, mid - 1, mid, wrap, lo, hi), n, mid, wrap, lo, hi)
  {
    var s := Window(c, n, mid, wrap, lo, hi);
    var w := Window(Slot(c, mid - 1, mid, wrap, lo, hi), n, mid, wrap, lo, hi);
    var r := Decremented(s, wrap, lo, hi);
    forall i | 0 <= i < n
      ensures r[i] == w[i]
    {
      if i == 0 {
        SlotEnterDown(c, n, mid, wrap, lo, hi);
      } else {
        assert r[i] == s[i - 1];
        SlotShiftDown(c, i, n, mid, wrap, lo, hi);
      }
    }
    assert r == w;
  }

  /** Rotating a window up in place gives the window rebuilt around the
      value of the slot below the middle. */
  lemma IncrementedWindow(c: int, n: int, mid: int, wrap: bool, lo: int, hi: int)
    requires n >= 6 && mid == n / 2
    requires wrap ==> WrappingAllowed(lo, hi, n) && lo <= c <= hi
    ensures Incremented(Window(c, n, mid, wrap, lo, hi), wrap, lo, hi)
         == Window(Slot(c, mid + 1, mid, wrap, lo, hi), n, mid, wrap, lo, hi)
  {
    var s := Window(c, n, mid, wrap, lo, hi);
    var w := Window(Slot(c, mid + 1, mid, wrap, lo, hi), n, mid, wrap, lo, hi);
    var r := Incremented(s, wrap, lo, hi);
    forall i | 0 <= i < n
      ensures r[i] == w[i]
    {
      if i == n - 1 {
        SlotEnterUp(c, n, mid, wrap, lo, hi);
      } else {
        assert r[i] == s[i + 1];
        SlotShiftUp(c, i, n, mid, wrap, lo, hi);
      }
    }
    assert r == w;
  }

  // ---------------------------------------------------------------------
  // Committing a value and walking

  /** Math.min(Math.max(v, lo), hi): an empty range yields hi */
  function Clamped(v: int, lo: int, hi: int): int
  {
    Min(Max(v, lo), hi)
  }

  /** The value setValueInternal stores for a requested value v */
  function Committed(v: int, wrap: bool, lo: int, hi: int): (r: int)
    requires wrap ==> hi != lo
    ensures !wrap && lo <= hi ==> lo <= r <= hi
    ensures lo <= v <= hi ==> r == v
  {
    if wrap then Wrap(v, lo, hi) else Clamped(v, lo, hi)
  }

  /** The value after one pass of a scrollBy loop in direction `up` */
  function Step(c: int, up: bool, wrap: bool, lo: int, hi: int): int
    requires wrap ==> hi != lo
  {
    Committed(c + (if up then 1 else -1), wrap, lo, hi)
  }

  /** On a window built around a value of the range, the neighbour of the
      middle slot differs from the value and commits to one step. */
  lemma NeighbourCommits(c: int, up: bool, mid: int, wrap: bool, lo: int, hi: int)
    requires lo <= c <= hi && (wrap ==> hi - lo >= 2)
    ensures var v := Slot(c, if up then mid + 1 else mid - 1, mid, wrap, lo, hi);
      v != c && Committed(v, wrap, lo, hi) == Step(c, up, wrap, lo, hi) &&
      lo <= Step(c, up, wrap, lo, hi) <= hi
  {
    if wrap {
      WrapNear(c + 1, lo, hi);
      WrapNear(c - 1, lo, hi);
    }
  }

  /** On a window built around a value of the range, one rotation in place
      brings a new value into the middle slot, and committing it is one step. */
  lemma RotatedMiddle(c: int, n: int, mid: int, up: bool, wrap: bool, lo: int, hi: int)
    requires n >= 6 && mid == n / 2 && lo <= c <= hi && (wrap ==> WrappingAllowed(lo, hi, n))
    ensures var s := Window(c, n, mid, wrap, lo, hi);
      var v := (if up then Incremented(s, wrap, lo, hi) else Decremented(s, wrap, lo, hi))[mid];
      v != c && Committed(v, wrap, lo, hi) == Step(c, up, wrap, lo, hi) && lo <= Step(c, up, wrap, lo, hi) <= hi
  {
    var s := Window(c, n, mid, wrap, lo, hi);
    assert (if up then Incremented(s, wrap, lo, hi) else Decremented(s, wrap, lo, hi))[mid]
        == s[if up then mid + 1 else mid - 1];
    NeighbourCommits(c, up, mid, wrap, lo, hi);
  }

  /** The value after k passes in direction `up` */
  function Walk(c: int, k: nat, up: bool, wrap: bool, lo: int, hi: int): int
    requires wrap ==> hi != lo
  {
    if k == 0 then c else Step(Walk(c, k - 1, up, wrap, lo, hi), up, wrap, lo, hi)
  }

  /** The notifications k passes send: each pass reports (previous, current) */
  function WalkLog(c: int, k: nat, up: bool, wrap: bool, lo: int, hi: int): (l: seq<Event>)
    requires wrap ==> hi != lo
    ensures |l| == k
  {
    if k == 0 then []
    else WalkLog(c, k - 1, up, wrap, lo, hi)
         + [ValueChanged(Walk(c, k - 1, up, wrap, lo, hi), Walk(c, k, up, wrap, lo, hi))]
  }

  /** The string ensureCachedScrollSelectorValue caches for index k: empty
      outside the range, the formatted number inside it */
  function Label(k: int, lo: int, hi: int, format: int -> string): (l: string)
    ensures (k < lo || hi < k) ==> l == ""
  {
    if k < lo || k > hi then "" else format(k)
  }

  /** updateInputTextView: the text shown for value v, an empty formatted
      value leaving the shown text as it is */
  function Shown(text: string, v: int, format: int -> string): string
  {
    var formatted := format(v);
    if formatted == "" then text else formatted
  }

  /** The selected text after k passes; while flinging it is left alone */
  function WalkText(text: string, c: int, k: nat, up: bool, wrap: bool, lo: int, hi: int,
                    shows: bool, format: int -> string): string
    requires wrap ==> hi != lo
  {
    if k == 0 then text
    else
      var t := WalkText(text, c, k - 1, up, wrap, lo, hi, shows, format);
      if shows then Shown(t, Walk(c, k, up, wrap, lo, hi), format) else t
  }

  /** Without wrapping, a walk saturates at the bound it runs into. */
  lemma {:induction false} WalkClamped(c: int, k: nat, up: bool, lo: int, hi: int)
    requires lo <= c <= hi
    ensures Walk(c, k, up, false, lo, hi) == if up then Min(c + k, hi) else Max(c - k, lo)
  {
    if k > 0 {
      WalkClamped(c, k - 1, up, lo, hi);
    }
  }

  lemma ModSucc(x: int, m: int)
    requires m > 0
    ensures (x % m + 1) % m == (x + 1) % m
  {
    var q, r := x / m, x % m;
    assert x == m * q + r && 0 <= r < m;
    if r + 1 < m {
      ModUnique(x + 1, m, q, r + 1);
      ModUnique(r + 1, m, 0, r + 1);
    } else {
      assert x + 1 == m * (q + 1) + 0;
      ModUnique(x + 1, m, q + 1, 0);
      ModUnique(r + 1, m, 1, 0);
    }
  }

  lemma ModPred(x: int, m: int)
    requires m > 0
    ensures (x % m - 1) % m == (x - 1) % m
  {
    var q, r := x / m, x % m;
    assert x == m * q + r && 0 <= r < m;
    if r >= 1 {
      ModUnique(x - 1, m, q, r - 1);
      ModUnique(r - 1, m, 0, r - 1);
    } else {
      assert x - 1 == m * (q - 1) + (m - 1);
      ModUnique(x - 1, m, q - 1, m - 1);
      ModUnique(r - 1, m, -1, m - 1);
    }
  }

  /** Wrapping the value after a circular count, plus one, is the next count. */
  lemma CircularSucc(x: int, lo: int, hi: int)
    requires hi - lo >= 2
    ensures Wrap(lo + x % (hi - lo + 1) + 1, lo, hi) == lo + (x + 1) % (hi - lo + 1)
  {
    var m := hi - lo + 1;
    WrapMatchesCircular(lo + x % m + 1, lo, hi);
    ModSucc(x, m);
  }

  /** Wrapping the value after a circular count, minus one, is the count before. */
  lemma CircularPred(x: int, lo: int, hi: int)
    requires hi - lo >= 2
    ensures Wrap(lo + x % (hi - lo + 1) - 1, lo, hi) == lo + (x - 1) % (hi - lo + 1)
  {
    var m := hi - lo + 1;
    WrapMatchesCircular(lo + x % m - 1, lo, hi);
    ModPred(x, m);
  }

  /** With wrapping, k passes up count k places on, circularly over the range. */
  lemma {:induction false} WalkCircularUp(c: int, k: nat, lo: int, hi: int)
    requires hi - lo >= 2 && lo <= c <= hi
    ensures Walk(c, k, true, true, lo, hi) == lo + (c - lo + k) % (hi - lo + 1)
  {
    if k == 0 {
      ModUnique(c - lo, hi - lo + 1, 0, c - lo);
    } else {
      WalkCircularUp(c, k - 1, lo, hi);
      CircularSucc(c - lo + (k - 1), lo, hi);
    }
  }

  /** With wrapping, k passes down count k places back, circularly. */
  lemma {:induction false} WalkCircularDown(c: int, k: nat, lo: int, hi: int)
    requires hi - lo >= 2 && lo <= c <= hi
    ensures Walk(c, k, false, true, lo, hi) == lo + (c - lo - k) % (hi - lo + 1)
  {
    if k == 0 {
      ModUnique(c - lo, hi - lo + 1, 0, c - lo);
    } else {
      WalkCircularDown(c, k - 1, lo, hi);
      CircularPred(c - lo - (k - 1), lo, hi);
    }
  }

  /** One pass from a value of the range lands in the range. */
  lemma StepInRange(c: int, up: bool, wrap: bool, lo: int, hi: int)
    requires wrap ==> hi - lo >= 2
    ensures lo <= c <= hi ==> lo <= Step(c, up, wrap, lo, hi) <= hi
  {
    if lo <= c <= hi && wrap {
      WrapAcrossEnds(c + (if up then 1 else -1), lo, hi);
    }
  }

  /** A walk from a value of the range stays in the range. */
  lemma WalkInRange(c: int, k: nat, up: bool, wrap: bool, lo: int, hi: int)
    requires wrap ==> hi - lo >= 2
    ensures lo <= c <= hi ==> lo <= Walk(c, k, up, wrap, lo, hi) <= hi
  {
    if lo <= c <= hi {
      if wrap && up {
        WalkCircularUp(c, k, lo, hi);
      } else if wrap {
        WalkCircularDown(c, k, lo, hi);
      } else {
        WalkClamped(c, k, up, lo, hi);
      }
    }
  }

  /** Pass j of a walk reports the value before and after that pass. */
  lemma {:induction false} WalkLogEntries(c: int, k: nat, up: bool, wrap: bool, lo: int, hi: int)
    requires wrap ==> hi != lo
    ensures forall j :: 0 <= j < k ==>
      WalkLog(c, k, up, wrap, lo, hi)[j] == ValueChanged(Walk(c, j, up, wrap, lo, hi), Walk(c, j + 1, up, wrap, lo, hi))
  {
    if k > 0 {
      WalkLogEntries(c, k - 1, up, wrap, lo, hi);
    }
  }

  /** A walk of k >= 1 passes is one pass followed by a walk of k - 1. */
  lemma {:induction false} WalkShift(c: int, k: nat, up: bool, wrap: bool, lo: int, hi: int)
    requires wrap ==> hi != lo
    requires k >= 1
    ensures Walk(c, k, up, wrap, lo, hi) == Walk(Step(c, up, wrap, lo, hi), k - 1, up, wrap, lo, hi)
  {
    if k > 1 {
      WalkShift(c, k - 1, up, wrap, lo, hi);
      assert Walk(Step(c, up, wrap, lo, hi), k - 1, up, wrap, lo, hi) ==
             Step(Walk(Step(c, up, wrap, lo, hi), k - 2, up, wrap, lo, hi), up, wrap, lo, hi);
    }
  }

  /** The notifications of k >= 1 passes: the first pass's, then those of a
      walk of k - 1 from where it left the value. */
  lemma {:induction false} WalkLogShift(c: int, k: nat, up: bool, wrap: bool, lo: int, hi: int)
    requires wrap ==> hi != lo
    requires k >= 1
    ensures WalkLog(c, k, up, wrap, lo, hi) ==
      [ValueChanged(c, Step(c, up, wrap, lo, hi))] + WalkLog(Step(c, up, wrap, lo, hi), k - 1, up, wrap, lo, hi)
  {
    var v := Step(c, up, wrap, lo, hi);
    if k == 1 {
      assert WalkLog(c, 1, up, wrap, lo, hi) == [] + [ValueChanged(c, v)];
    } else {
      WalkLogShift(c, k - 1, up, wrap, lo, hi);
      WalkShift(c, k - 1, up, wrap, lo, hi);
      WalkShift(c, k, up, wrap, lo, hi);
      Prepend([ValueChanged(c, v)], WalkLog(v, k - 2, up, wrap, lo, hi),
              ValueChanged(Walk(v, k - 2, up, wrap, lo, hi), Walk(v, k - 1, up, wrap, lo, hi)));
    }
  }

  lemma Prepend(first: seq<Event>, before: seq<Event>, last: Event)
    ensures (first + before) + [last] == first + (before + [last])
  {
  }

  /** The text after k >= 1 passes: that of a walk of k - 1 begun with the
      text the first pass leaves. */
  lemma {:induction false} WalkTextShift(text: string, c: int, k: nat, up: bool, wrap: bool, lo: int, hi: int,
                                         shows: bool, format: int -> string)
    requires wrap ==> hi != lo
    requires k >= 1
    ensures var v := Step(c, up, wrap, lo, hi);
      WalkText(text, c, k, up, wrap, lo, hi, shows, format) ==
      WalkText(if shows then Shown(text, v, format) else text, v, k - 1, up, wrap, lo, hi, shows, format)
  {
    var v := Step(c, up, wrap, lo, hi);
    var t := if shows then Shown(text, v, format) else text;
    if k == 1 {
      assert Walk(c, 1, up, wrap, lo, hi) == v;
    } else {
      WalkTextShift(text, c, k - 1, up, wrap, lo, hi, shows, format);
      WalkShift(c, k, up, wrap, lo, hi);
      assert WalkText(t, v, k - 1, up, wrap, lo, hi, shows, format) ==
        var u := WalkText(t, v, k - 2, up, wrap, lo, hi, shows, format);
        if shows then Shown(u, Walk(v, k - 1, up, wrap, lo, hi), format) else u;
    }
  }

  /** Without wrapping, every pass after the walk reaches the bound still
      notifies, with previous and current both equal to the bound. */
  lemma ClampedPassesRepeat(c: int, k: nat, up: bool, lo: int, hi: int)
    requires lo <= c <= hi
    ensures forall j :: (if up then hi - c else c - lo) <= j < k ==>
      WalkLog(c, k, up, false, lo, hi)[j] == ValueChanged(if up then hi else lo, if up then hi else lo)
  {
    WalkLogEntries(c, k, up, false, lo, hi);
    forall j | (if up then hi - c else c - lo) <= j < k
      ensures WalkLog(c, k, up, false, lo, hi)[j] == ValueChanged(if up then hi else lo, if up then hi else lo)
    {
      WalkClamped(c, j, up, lo, hi);
      WalkClamped(c, j + 1, up, lo, hi);
    }
  }

  // ---------------------------------------------------------------------
  // scrollBy on a wheel whose window is built around its value

  /** The configuration scrollBy reads and does not change */
  datatype Wheel = Wheel(lo: int, hi: int, wrap: bool, ascending: bool, initial: int, gap: int, e: int)

  predicate WellFormed(w: Wheel)
  {
    w.e > 0 && w.gap >= 0 && (w.wrap ==> w.hi - w.lo >= 2)
  }

  /** scrollBy's first loop, standing at offset o with the given value,
      notifications and text, has still to do what takes it to `goal`, the
      whole run's outcome begun with notifications `before`. */
  predicate DownCompletes(w: Wheel, goal: Scrolled, before: seq<Event>, shows: bool, format: int -> string,
                          o: int, value: int, log: seq<Event>, text: string)
    requires WellFormed(w)
  {
    var r := DownLoop(w, o, value, text, shows, format);
    r.value == goal.value && r.offset == goal.offset && r.text == goal.text && log + r.log == before + goal.log
  }

  /** A pass of the first loop moves back one element and steps the value. */
  lemma DownCompletesStep(w: Wheel, goal: Scrolled, before: seq<Event>, shows: bool, format: int -> string,
                          o: int, value: int, log: seq<Event>, text: string)
    requires WellFormed(w) && DownCompletes(w, goal, before, shows, format, o, value, log, text)
    requires o - w.initial > w.gap
    ensures var v := Step(value, FirstUp(w), w.wrap, w.lo, w.hi);
      DownCompletes(w, goal, before, shows, format, o - w.e, v, log + [ValueChanged(value, v)],
                    if shows then Shown(text, v, format) else text)
  {
    var v := Step(value, FirstUp(w), w.wrap, w.lo, w.hi);
    var r := DownLoop(w, o - w.e, v, if shows then Shown(text, v, format) else text, shows, format);
    assert log + [ValueChanged(value, v)] + r.log == log + ([ValueChanged(value, v)] + r.log);
  }

  /** Once the first loop's condition fails, the loop has reached `goal`. */
  lemma DownCompletesDone(w: Wheel, goal: Scrolled, before: seq<Event>, shows: bool, format: int -> string,
                          o: int, value: int, log: seq<Event>, text: string)
    requires WellFormed(w) && DownCompletes(w, goal, before, shows, format, o, value, log, text)
    requires o - w.initial <= w.gap
    ensures value == goal.value && o == goal.offset && text == goal.text && log == before + goal.log
  {
    assert log + [] == log;
  }

  /** The mirror of `DownCompletes` for the second loop */
  predicate UpCompletes(w: Wheel, goal: Scrolled, before: seq<Event>, shows: bool, format: int -> string,
                        o: int, value: int, log: seq<Event>, text: string)
    requires WellFormed(w)
  {
    var r := UpLoop(w, o, value, text, shows, format);
    r.value == goal.value && r.offset == goal.offset && r.text == goal.text && log + r.log == before + goal.log
  }

  /** A pass of the second loop moves on one element and steps the value. */
  lemma UpCompletesStep(w: Wheel, goal: Scrolled, before: seq<Event>, shows: bool, format: int -> string,
                        o: int, value: int, log: seq<Event>, text: string)
    requires WellFormed(w) && UpCompletes(w, goal, before, shows, format, o, value, log, text)
    requires o - w.initial < -w.gap
    ensures var v := Step(value, !FirstUp(w), w.wrap, w.lo, w.hi);
      UpCompletes(w, goal, before, shows, format, o + w.e, v, log + [ValueChanged(value, v)],
                  if shows then Shown(text, v, format) else text)
  {
    var v := Step(value, !FirstUp(w), w.wrap, w.lo, w.hi);
    var r := UpLoop(w, o + w.e, v, if shows then Shown(text, v, format) else text, shows, format);
    assert log + [ValueChanged(value, v)] + r.log == log + ([ValueChanged(value, v)] + r.log);
  }

  /** Once the second loop's condition fails, the loop has reached `goal`. */
  lemma UpCompletesDone(w: Wheel, goal: Scrolled, before: seq<Event>, shows: bool, format: int -> string,
                        o: int, value: int, log: seq<Event>, text: string)
    requires WellFormed(w) && UpCompletes(w, goal, before, shows, format, o, value, log, text)
    requires o - w.initial >= -w.gap
    ensures value == goal.value && o == goal.offset && text == goal.text && log == before + goal.log
  {
    assert log + [] == log;
  }

  /** scrollBy's refusal to move past a bound when not wrapping */
  predicate Rejected(w: Wheel, y: int, centre: int)
  {
    !w.wrap &&
    if w.ascending then (y > 0 && centre <= w.lo) || (y < 0 && centre >= w.hi)
    else (y > 0 && centre >= w.hi) || (y < 0 && centre <= w.lo)
  }

  /** A positive overflow runs the first loop, which moves toward smaller
      values in ascending order; the second loop runs the other way. */
  function FirstUp(w: Wheel): bool { !w.ascending }

  /** The effect of one scrollBy(0, y) */
  datatype Scrolled = Scrolled(value: int, offset: int, log: seq<Event>, text: string)

  /** scrollBy's first loop run from offset `offset`, pass by pass: the
      value it reaches, the offset it stops at, what it notifies and the
      text it leaves */
  function DownLoop(w: Wheel, offset: int, value: int, text: string, shows: bool,
                    format: int -> string): (r: Scrolled)
    requires WellFormed(w)
    ensures r.offset - w.initial <= w.gap
    ensures offset - w.initial <= w.gap ==> r == Scrolled(value, offset, [], text)
    ensures w.lo <= value <= w.hi ==> w.lo <= r.value <= w.hi
    decreases if offset - w.initial > w.gap then offset - w.initial - w.gap else 0
  {
    if offset - w.initial > w.gap then
      var v := Step(value, FirstUp(w), w.wrap, w.lo, w.hi);
      StepInRange(value, FirstUp(w), w.wrap, w.lo, w.hi);
      var r := DownLoop(w, offset - w.e, v, if shows then Shown(text, v, format) else text, shows, format);
      Scrolled(r.value, r.offset, [ValueChanged(value, v)] + r.log, r.text)
    else Scrolled(value, offset, [], text)
  }

  /** scrollBy's second loop run from offset `offset`, pass by pass */
  function UpLoop(w: Wheel, offset: int, value: int, text: string, shows: bool,
                  format: int -> string): (r: Scrolled)
    requires WellFormed(w)
    ensures r.offset - w.initial >= -w.gap
    ensures offset - w.initial >= -w.gap ==> r == Scrolled(value, offset, [], text)
    ensures w.lo <= value <= w.hi ==> w.lo <= r.value <= w.hi
    decreases if offset - w.initial < -w.gap then -w.gap - (offset - w.initial) else 0
  {
    if offset - w.initial < -w.gap then
      var v := Step(value, !FirstUp(w), w.wrap, w.lo, w.hi);
      StepInRange(value, !FirstUp(w), w.wrap, w.lo, w.hi);
      var r := UpLoop(w, offset + w.e, v, if shows then Shown(text, v, format) else text, shows, format);
      Scrolled(r.value, r.offset, [ValueChanged(value, v)] + r.log, r.text)
    else Scrolled(value, offset, [], text)
  }

  /** Each pass of the first loop moves the offset back one element and
      sends one notification, and the loop stops within one element of the
      threshold. */
  lemma {:induction false} DownLoopPasses(w: Wheel, offset: int, value: int, text: string, shows: bool,
                                          format: int -> string)
    requires WellFormed(w)
    ensures var r := DownLoop(w, offset, value, text, shows, format);
      r.offset == offset - w.e * |r.log| &&
      (offset - w.initial > w.gap ==> w.gap - w.e < r.offset - w.initial)
    decreases if offset - w.initial > w.gap then offset - w.initial - w.gap else 0
  {
    if offset - w.initial > w.gap {
      var v := Step(value, FirstUp(w), w.wrap, w.lo, w.hi);
      var t := if shows then Shown(text, v, format) else text;
      var r := DownLoop(w, offset - w.e, v, t, shows, format);
      DownLoopPasses(w, offset - w.e, v, t, shows, format);
      assert w.e * (|r.log| + 1) == w.e * |r.log| + w.e;
    }
  }

  /** The mirror for the second loop */
  lemma {:induction false} UpLoopPasses(w: Wheel, offset: int, value: int, text: string, shows: bool,
                                        format: int -> string)
    requires WellFormed(w)
    ensures var r := UpLoop(w, offset, value, text, shows, format);
      r.offset == offset + w.e * |r.log| &&
      (offset - w.initial < -w.gap ==> r.offset - w.initial < -w.gap + w.e)
    decreases if offset - w.initial < -w.gap then -w.gap - (offset - w.initial) else 0
  {
    if offset - w.initial < -w.gap {
      var v := Step(value, !FirstUp(w), w.wrap, w.lo, w.hi);
      var t := if shows then Shown(text, v, format) else text;
      var r := UpLoop(w, offset + w.e, v, t, shows, format);
      UpLoopPasses(w, offset + w.e, v, t, shows, format);
      assert w.e * (|r.log| + 1) == w.e * |r.log| + w.e;
    }
  }

  /** From k whole elements past rest, with a threshold below the element
      size, the first loop makes k passes: it walks the value k steps and
      comes back to rest. */
  lemma DownLoopWhole(w: Wheel, k: nat, value: int, text: string, shows: bool,
                       format: int -> string)
    requires WellFormed(w) && w.gap < w.e
    ensures var r := DownLoop(w, w.initial + k * w.e, value, text, shows, format);
      r.offset == w.initial && r.value == Walk(value, k, FirstUp(w), w.wrap, w.lo, w.hi) &&
      r.log == WalkLog(value, k, FirstUp(w), w.wrap, w.lo, w.hi) &&
      r.text == WalkText(text, value, k, FirstUp(w), w.wrap, w.lo, w.hi, shows, format)
  {
    DownLoopWholeValue(w, k, value, text, shows, format);
    DownLoopWholeLog(w, k, value, text, shows, format);
    DownLoopWholeText(w, k, value, text, shows, format);
  }

  /** From k whole elements past rest: the offset it comes to rest at and the value it reaches */
  lemma {:induction false} DownLoopWholeValue(w: Wheel, k: nat, value: int, text: string, shows: bool,
                                              format: int -> string)
    requires WellFormed(w) && w.gap < w.e
    ensures var r := DownLoop(w, w.initial + k * w.e, value, text, shows, format);
      r.offset == w.initial && r.value == Walk(value, k, FirstUp(w), w.wrap, w.lo, w.hi)
  {
    if k > 0 {
      var v := Step(value, FirstUp(w), w.wrap, w.lo, w.hi);
      var t := if shows then Shown(text, v, format) else text;
      assert k * w.e == (k - 1) * w.e + w.e;
      assert (k - 1) * w.e >= 0 by { MulNonnegative(k - 1, w.e); }
      DownLoopWholeValue(w, k - 1, v, t, shows, format);
      WalkShift(value, k, FirstUp(w), w.wrap, w.lo, w.hi);
    }
  }

  /** From k whole elements past rest: the notifications it sends */
  lemma {:induction false} DownLoopWholeLog(w: Wheel, k: nat, value: int, text: string, shows: bool,
                                            format: int -> string)
    requires WellFormed(w) && w.gap < w.e
    ensures var r := DownLoop(w, w.initial + k * w.e, value, text, shows, format);
      r.log == WalkLog(value, k, FirstUp(w), w.wrap, w.lo, w.hi)
  {
    if k > 0 {
      var v := Step(value, FirstUp(w), w.wrap, w.lo, w.hi);
      var t := if shows then Shown(text, v, format) else text;
      assert k * w.e == (k - 1) * w.e + w.e;
      assert (k - 1) * w.e >= 0 by { MulNonnegative(k - 1, w.e); }
      DownLoopWholeLog(w, k - 1, v, t, shows, format);
      assert DownLoop(w, w.initial + k * w.e, value, text, shows, format).log ==
             [ValueChanged(value, v)] + DownLoop(w, w.initial + (k - 1) * w.e, v, t, shows, format).log;
      WalkLogShift(value, k, FirstUp(w), w.wrap, w.lo, w.hi);
    }
  }

  /** From k whole elements past rest: the text it leaves */
  lemma {:induction false} DownLoopWholeText(w: Wheel, k: nat, value: int, text: string, shows: bool,
                                             format: int -> string)
    requires WellFormed(w) && w.gap < w.e
    ensures var r := DownLoop(w, w.initial + k * w.e, value, text, shows, format);
      r.text == WalkText(text, value, k, FirstUp(w), w.wrap, w.lo, w.hi, shows, format)
  {
    if k > 0 {
      var v := Step(value, FirstUp(w), w.wrap, w.lo, w.hi);
      var t := if shows then Shown(text, v, format) else text;
      assert k * w.e == (k - 1) * w.e + w.e;
      assert (k - 1) * w.e >= 0 by { MulNonnegative(k - 1, w.e); }
      DownLoopWholeText(w, k - 1, v, t, shows, format);
      WalkTextShift(text, value, k, FirstUp(w), w.wrap, w.lo, w.hi, shows, format);
    }
  }

  /** The mirror: from k whole elements short of rest the second loop makes
      k passes. */
  lemma UpLoopWhole(w: Wheel, k: nat, value: int, text: string, shows: bool,
                     format: int -> string)
    requires WellFormed(w) && w.gap < w.e
    ensures var r := UpLoop(w, w.initial - k * w.e, value, text, shows, format);
      r.offset == w.initial && r.value == Walk(value, k, !FirstUp(w), w.wrap, w.lo, w.hi) &&
      r.log == WalkLog(value, k, !FirstUp(w), w.wrap, w.lo, w.hi) &&
      r.text == WalkText(text, value, k, !FirstUp(w), w.wrap, w.lo, w.hi, shows, format)
  {
    UpLoopWholeValue(w, k, value, text, shows, format);
    UpLoopWholeLog(w, k, value, text, shows, format);
    UpLoopWholeText(w, k, value, text, shows, format);
  }

  /** From k whole elements short of rest: the offset it comes to rest at and the value it reaches */
  lemma {:induction false} UpLoopWholeValue(w: Wheel, k: nat, value: int, text: string, shows: bool,
                                            format: int -> string)
    requires WellFormed(w) && w.gap < w.e
    ensures var r := UpLoop(w, w.initial - k * w.e, value, text, shows, format);
      r.offset == w.initial && r.value == Walk(value, k, !FirstUp(w), w.wrap, w.lo, w.hi)
  {
    if k > 0 {
      var v := Step(value, !FirstUp(w), w.wrap, w.lo, w.hi);
      var t := if shows then Shown(text, v, format) else text;
      assert k * w.e == (k - 1) * w.e + w.e;
      assert (k - 1) * w.e >= 0 by { MulNonnegative(k - 1, w.e); }
      UpLoopWholeValue(w, k - 1, v, t, shows, format);
      WalkShift(value, k, !FirstUp(w), w.wrap, w.lo, w.hi);
    }
  }

  /** From k whole elements short of rest: the notifications it sends */
  lemma {:induction false} UpLoopWholeLog(w: Wheel, k: nat, value: int, text: string, shows: bool,
                                          format: int -> string)
    requires WellFormed(w) && w.gap < w.e
    ensures var r := UpLoop(w, w.initial - k * w.e, value, text, shows, format);
      r.log == WalkLog(value, k, !FirstUp(w), w.wrap, w.lo, w.hi)
  {
    if k > 0 {
      var v := Step(value, !FirstUp(w), w.wrap, w.lo, w.hi);
      var t := if shows then Shown(text, v, format) else text;
      assert k * w.e == (k - 1) * w.e + w.e;
      assert (k - 1) * w.e >= 0 by { MulNonnegative(k - 1, w.e); }
      UpLoopWholeLog(w, k - 1, v, t, shows, format);
      assert UpLoop(w, w.initial - k * w.e, value, text, shows, format).log ==
             [ValueChanged(value, v)] + UpLoop(w, w.initial - (k - 1) * w.e, v, t, shows, format).log;
      WalkLogShift(value, k, !FirstUp(w), w.wrap, w.lo, w.hi);
    }
  }

  /** From k whole elements short of rest: the text it leaves */
  lemma {:induction false} UpLoopWholeText(w: Wheel, k: nat, value: int, text: string, shows: bool,
                                           format: int -> string)
    requires WellFormed(w) && w.gap < w.e
    ensures var r := UpLoop(w, w.initial - k * w.e, value, text, shows, format);
      r.text == WalkText(text, value, k, !FirstUp(w), w.wrap, w.lo, w.hi, shows, format)
  {
    if k > 0 {
      var v := Step(value, !FirstUp(w), w.wrap, w.lo, w.hi);
      var t := if shows then Shown(text, v, format) else text;
      assert k * w.e == (k - 1) * w.e + w.e;
      assert (k - 1) * w.e >= 0 by { MulNonnegative(k - 1, w.e); }
      UpLoopWholeText(w, k - 1, v, t, shows, format);
      WalkTextShift(text, value, k, !FirstUp(w), w.wrap, w.lo, w.hi, shows, format);
    }
  }

  /** scrollBy(0, y) from the given value, offset and text */
  function ScrollOutcome(w: Wheel, value: int, offset: int, text: string, shows: bool,
                         format: int -> string, y: int): (r: Scrolled)
    requires WellFormed(w)
    ensures Rejected(w, y, value) ==> r == Scrolled(value, w.initial, [], text)
    ensures !Rejected(w, y, value) && w.lo <= value <= w.hi ==> w.lo <= r.value <= w.hi
    ensures !Rejected(w, y, value) ==> -w.gap <= r.offset - w.initial
  {
    if Rejected(w, y, value) then Scrolled(value, w.initial, [], text)
    else
      var r1 := DownLoop(w, offset + y, value, text, shows, format);
      var r2 := UpLoop(w, r1.offset, r1.value, r1.text, shows, format);
      var log := if r2.offset != offset then r1.log + r2.log + [ScrollChanged(r2.offset, offset)] else r1.log + r2.log;
      Scrolled(r2.value, r2.offset, log, r2.text)
  }

  /** An accepted scrollBy runs the first loop from the moved offset, then
      the second loop from where the first stopped, and reports an offset
      change last: whoever has told its listeners `before`, then both loops'
      notifications and then that change, has told them `before` followed by
      the outcome's log. */
  lemma ScrollOutcomeAccepted(w: Wheel, value: int, offset: int, text: string, shows: bool,
                              format: int -> string, y: int, r1: Scrolled, r2: Scrolled,
                              before: seq<Event>, after: seq<Event>)
    requires WellFormed(w) && !Rejected(w, y, value)
    requires r1 == DownLoop(w, offset + y, value, text, shows, format)
    requires r2 == UpLoop(w, r1.offset, r1.value, r1.text, shows, format)
    requires after == before + r1.log + r2.log + (if r2.offset != offset then [ScrollChanged(r2.offset, offset)] else [])
    ensures var r := ScrollOutcome(w, value, offset, text, shows, format, y);
      r.value == r2.value && r.offset == r2.offset && r.text == r2.text && after == before + r.log
  {
    var tail := if r2.offset != offset then [ScrollChanged(r2.offset, offset)] else [];
    assert before + r1.log + r2.log + tail == before + (r1.log + r2.log + tail);
  }

  /** scrollBy rejects a move exactly when its first pass would be stopped
      by the clamp, i.e. when the value already sits on the bound the move
      heads for. */
  lemma RejectedIffBlocked(w: Wheel, y: int, c: int)
    requires WellFormed(w) && !w.wrap && w.lo <= c <= w.hi && y != 0
    ensures Rejected(w, y, c) <==> Step(c, if y > 0 then FirstUp(w) else !FirstUp(w), false, w.lo, w.hi) == c
  {
  }

  /** A drag of exactly k elements away from rest, with a threshold below the
      element size, steps the value k times and comes back to rest. */
  lemma DragWholeElements(w: Wheel, value: int, text: string, shows: bool, format: int -> string, k: nat)
    requires WellFormed(w) && w.gap < w.e && !Rejected(w, k * w.e, value)
    ensures var r := ScrollOutcome(w, value, w.initial, text, shows, format, k * w.e);
      r.offset == w.initial && r.value == Walk(value, k, FirstUp(w), w.wrap, w.lo, w.hi) &&
      r.log == WalkLog(value, k, FirstUp(w), w.wrap, w.lo, w.hi)
  {
    DownLoopWhole(w, k, value, text, shows, format);
    var r1 := DownLoop(w, w.initial + k * w.e, value, text, shows, format);
    var r2 := UpLoop(w, r1.offset, r1.value, r1.text, shows, format);
    assert r2 == Scrolled(r1.value, w.initial, [], r1.text);
    assert r1.log + r2.log == r1.log;
    assert ScrollOutcome(w, value, w.initial, text, shows, format, k * w.e) ==
           Scrolled(r1.value, w.initial, r1.log, r1.text);
  }

  /** The mirror: a drag of exactly k elements the other way steps the value
      k times in the other direction. */
  lemma DragWholeElementsBack(w: Wheel, value: int, text: string, shows: bool, format: int -> string, k: nat)
    requires WellFormed(w) && w.gap < w.e && !Rejected(w, -(k * w.e), value)
    ensures var r := ScrollOutcome(w, value, w.initial, text, shows, format, -(k * w.e));
      r.offset == w.initial && r.value == Walk(value, k, !FirstUp(w), w.wrap, w.lo, w.hi) &&
      r.log == WalkLog(value, k, !FirstUp(w), w.wrap, w.lo, w.hi)
  {
    assert w.initial + -(k * w.e) == w.initial - k * w.e;
    UpLoopWhole(w, k, value, text, shows, format);
  }

  // ---------------------------------------------------------------------
  // Snap-back and overshoot correction

  /** ensureScrollWheelAdjusted: the distance the adjust scroller is started
      with, none when the offset is already the initial one */
  function SnapDelta(initial: int, offset: int, e: int): (r: Option<int>)
  {
    var delta := initial - offset;
    if delta == 0 then None
    else if Abs(delta) > Quot(e, 2) then Some(delta + (if delta > 0 then -e else e))
    else Some(delta)
  }

  /** The snap lands on an element boundary relative to the initial offset,
      never travels farther than the offset is off, and within one element
      takes the nearer boundary. */
  lemma SnapAligns(initial: int, offset: int, e: int)
    requires e > 0
    ensures SnapDelta(initial, offset, e) == None <==> offset == initial
    ensures SnapDelta(initial, offset, e).Some? ==>
      var r := SnapDelta(initial, offset, e).value;
      (offset + r == initial || offset + r == initial - e || offset + r == initial + e) &&
      Abs(r) <= Abs(initial - offset) &&
      (Abs(initial - offset) <= e ==> Abs(r) <= e - Abs(initial - offset) || r == initial - offset) &&
      (Abs(initial - offset) <= e ==> 2 * Abs(r) <= e)
  {
  }

  /** moveToFinalScrollerPosition: None when the scroller's final position
      already leaves the offset on an element boundary (no scroll is then
      performed), otherwise the correction, folded once toward zero, to add
      to the remaining scroller distance. */
  function OvershootAdjustment(offset: int, amount: int, initial: int, e: int): (r: Result<Option<int>>)
    ensures r.Err? <==> e == 0
  {
    if e == 0 then Err(ArithmeticException)
    else
      var adjustment := initial - Rem(offset + amount, e);
      if adjustment == 0 then Ok(None)
      else if Abs(adjustment) > Quot(e, 2) then
        Ok(Some(if adjustment > 0 then adjustment - e else adjustment + e))
      else Ok(Some(adjustment))
  }

  /** No scroll is made exactly when the future offset's remainder already
      equals the initial offset; otherwise the corrected scroll ends a whole
      number of elements away from the initial offset. */
  lemma OvershootAligns(offset: int, amount: int, initial: int, e: int)
    requires e > 0
    ensures OvershootAdjustment(offset, amount, initial, e) == Ok(None) <==> Rem(offset + amount, e) == initial
    ensures OvershootAdjustment(offset, amount, initial, e).value.Some? ==>
      (offset + amount + OvershootAdjustment(offset, amount, initial, e).value.value - initial) % e == 0
  {
    var future := offset + amount;
    var m := Rem(future, e);
    QuotRem(future, e);
    ModMultiple(future - m, e, Quot(future, e));
    var raw := initial - m;
    assert future + raw - initial == future - m;
  }

  /** A multiple of e, and its neighbouring multiples, leave no remainder. */
  lemma ModMultiple(t: int, e: int, q: int)
    requires e > 0 && t == e * q
    ensures t % e == 0 && (t + e) % e == 0 && (t - e) % e == 0
  {
    ModUnique(t, e, q, 0);
    assert e * (q + 1) == e * q + e;
    ModUnique(t + e, e, q + 1, 0);
    assert e * (q - 1) == e * q - e;
    ModUnique(t - e, e, q - 1, 0);
  }

  /** The distance moveToFinalScrollerPosition scrolls for a scroller with
      `amount` still to go: none when the offset would come to rest on an
      element boundary anyway, otherwise `amount` corrected to the nearest
      boundary. */
  function FinalScroll(offset: int, amount: int, initial: int, e: int): Option<int>
  {
    var adjustment := OvershootAdjustment(offset, amount, initial, e);
    if adjustment.Ok? && adjustment.value.Some? then Some(amount + adjustment.value.value) else None
  }

  /** No final scroll is made exactly when the offset after `amount`
      already sits on the initial offset modulo an element; a final scroll
      that is made ends on an element boundary. */
  lemma FinalScrollAligns(offset: int, amount: int, initial: int, e: int)
    requires e > 0
    ensures FinalScroll(offset, amount, initial, e).None? <==> Rem(offset + amount, e) == initial
    ensures FinalScroll(offset, amount, initial, e).Some? ==>
      (offset + FinalScroll(offset, amount, initial, e).value - initial) % e == 0
  {
    OvershootAligns(offset, amount, initial, e);
  }

  /** What shows once listeners told `before` have been told r.log */
  function Told(r: Scrolled, before: seq<Event>): Scrolled
  {
    Scrolled(r.value, r.offset, before + r.log, r.text)
  }

  /** The wheel after a scrollBy of y when there is one, and as it is
      otherwise */
  function Moved(w: Wheel, value: int, offset: int, text: string, shows: bool,
                 format: int -> string, y: Option<int>): Scrolled
    requires WellFormed(w)
  {
    if y.Some? then ScrollOutcome(w, value, offset, text, shows, format, y.value)
    else Scrolled(value, offset, [], text)
  }

  /** changeValueByOne's catching up: the fling scroller's final scroll,
      or failing one the adjust scroller's. */
  function CatchUpScroll(offset: int, flingAmount: int, adjustAmount: int, initial: int, e: int): Option<int>
  {
    var first := FinalScroll(offset, flingAmount, initial, e);
    if first.Some? then first else FinalScroll(offset, adjustAmount, initial, e)
  }

  /** Catching up scrolls nothing exactly when both scrollers would come to
      rest on an element boundary anyway; the adjust scroller's distance
      counts only when the fling scroller's would; and any scroll made ends
      on an element boundary. */
  lemma CatchUpChoice(offset: int, flingAmount: int, adjustAmount: int, initial: int, e: int)
    requires e > 0
    ensures CatchUpScroll(offset, flingAmount, adjustAmount, initial, e).None? <==>
      Rem(offset + flingAmount, e) == initial && Rem(offset + adjustAmount, e) == initial
    ensures Rem(offset + flingAmount, e) != initial ==>
      CatchUpScroll(offset, flingAmount, adjustAmount, initial, e) == FinalScroll(offset, flingAmount, initial, e)
    ensures Rem(offset + flingAmount, e) == initial ==>
      CatchUpScroll(offset, flingAmount, adjustAmount, initial, e) == FinalScroll(offset, adjustAmount, initial, e)
    ensures CatchUpScroll(offset, flingAmount, adjustAmount, initial, e).Some? ==>
      (offset + CatchUpScroll(offset, flingAmount, adjustAmount, initial, e).value - initial) % e == 0
  {
    FinalScrollAligns(offset, flingAmount, initial, e);
    FinalScrollAligns(offset, adjustAmount, initial, e);
  }

  // ---------------------------------------------------------------------
  // Smooth scrolling

  /** smoothScroll: the distance the fling scroller is started with, one
      element per step, negative to increment */
  function SmoothDistance(increment: bool, steps: int, e: int): int
  {
    (if increment then -e else e) * steps
  }

  /** The scroller delivers a smooth scroll tick by tick, and scrollBy is
      not additive over ticks: two ticks of 9 and -5 leave the wheel on
      another value and offset than one scrollBy of their sum 4.  So the
      smooth-scroll lemmas below are about one scrollBy of the whole
      distance only. */
  lemma TicksAreNotOneScroll()
    ensures var w := Wheel(0, 100, true, true, 0, 8, 10);
      var first := ScrollOutcome(w, 50, 0, "", true, _ => "", 9);
      var second := ScrollOutcome(w, first.value, first.offset, first.text, true, _ => "", -5);
      var whole := ScrollOutcome(w, 50, 0, "", true, _ => "", 4);
      second.value == 49 && second.offset == -6 && whole.value == 50 && whole.offset == 4
  {
  }

  /** A smooth scroll's whole distance, scrolled from rest, steps the value
      `steps` times: toward larger values when incrementing in ascending
      order or decrementing in descending order, toward smaller ones
      otherwise. */
  lemma SmoothScrollSteps(w: Wheel, value: int, text: string, shows: bool, format: int -> string,
                          increment: bool, steps: nat)
    requires WellFormed(w) && w.gap < w.e && !Rejected(w, SmoothDistance(increment, steps, w.e), value)
    ensures var r := ScrollOutcome(w, value, w.initial, text, shows, format, SmoothDistance(increment, steps, w.e));
      r.offset == w.initial && r.value == Walk(value, steps, increment == w.ascending, w.wrap, w.lo, w.hi)
  {
    if increment {
      assert SmoothDistance(increment, steps, w.e) == -(steps * w.e);
      DragWholeElementsBack(w, value, text, shows, format, steps);
    } else {
      assert SmoothDistance(increment, steps, w.e) == steps * w.e;
      DragWholeElements(w, value, text, shows, format, steps);
    }
  }

  /** Walking the distance between two values of the range toward the
      larger one, or the smaller, lands on it, wrapping or not. */
  lemma WalkToPosition(value: int, position: int, wrap: bool, lo: int, hi: int)
    requires (wrap ==> hi - lo >= 2) && lo <= value <= hi && lo <= position <= hi
    ensures Walk(value, Abs(position - value), position > value, wrap, lo, hi) == position
  {
    var k := Abs(position - value);
    if wrap {
      ModUnique(position - lo, hi - lo + 1, 0, position - lo);
      if position > value {
        WalkCircularUp(value, k, lo, hi);
      } else {
        WalkCircularDown(value, k, lo, hi);
      }
    } else {
      WalkClamped(value, k, position > value, lo, hi);
    }
  }

  /** smoothScrollToPosition's distance: one element per value between
      the two, negative toward a larger position, so never zero */
  lemma PositionDistance(value: int, position: int, e: int)
    requires e > 0 && position != value
    ensures var y := SmoothDistance(position > value, Abs(position - value), e);
      (position > value ==> y < 0) && (position < value ==> y > 0)
  {
    MulMonotone(e, 1, Abs(position - value));
  }

  /** smoothScrollToPosition from a value of the range to another: in
      ascending order its whole distance, scrolled from rest, lands on the
      position, wrapping or not.  In descending order the same number of
      steps is walked toward the other side. */
  lemma SmoothScrollToPositionReaches(w: Wheel, value: int, text: string, shows: bool, format: int -> string,
                                      position: int)
    requires WellFormed(w) && w.gap < w.e && w.lo <= value <= w.hi && w.lo <= position <= w.hi
    requires position != value
    ensures var y := SmoothDistance(position > value, Abs(position - value), w.e);
      var r := ScrollOutcome(w, value, w.initial, text, shows, format, y);
      (w.ascending ==> r.value == position && r.offset == w.initial) &&
      (!w.ascending && !Rejected(w, y, value) ==>
         r.value == Walk(value, Abs(position - value), position < value, w.wrap, w.lo, w.hi))
  {
    var k := Abs(position - value);
    PositionDistance(value, position, w.e);
    if w.ascending {
      SmoothScrollSteps(w, value, text, shows, format, position > value, k);
      WalkToPosition(value, position, w.wrap, w.lo, w.hi);
    } else if !Rejected(w, SmoothDistance(position > value, k, w.e), value) {
      SmoothScrollSteps(w, value, text, shows, format, position > value, k);
    }
  }

  // ---------------------------------------------------------------------
  // Touch decisions

  /** What ACTION_UP does when it does not hand over to a fling */
  datatype Release = StartFling | StepBy(increment: bool) | Snap

  /** The ACTION_UP decision: a fast release flings; a slow release that
      stayed within the touch slop is a tap, stepping by one when it lands
      off the middle element; anything else snaps back. */
  function ReleaseAction(velocity: int, minFling: int, y: int, downY: int, slop: int,
                         e: int, mid: int): (r: Result<Release>)
    ensures Abs(velocity) > minFling ==> r == Ok(StartFling)
    ensures Abs(velocity) <= minFling && Abs(y - downY) > slop ==> r == Ok(Snap)
  {
    if Abs(velocity) > minFling then Ok(StartFling)
    else if Abs(y - downY) <= slop then
      if e == 0 then Err(ArithmeticException)
      else
        var slots := Quot(y, e) - mid;
        if slots > 0 then Ok(StepBy(true))
        else if slots < 0 then Ok(StepBy(false))
        else Ok(Snap)
    else Ok(Snap)
  }

  /** A tap below the middle element increments, above it decrements, and
      on it snaps back. */
  lemma TapBands(velocity: int, minFling: int, y: int, downY: int, slop: int, e: int, mid: int)
    requires e > 0 && mid >= 1
    requires Abs(velocity) <= minFling && Abs(y - downY) <= slop
    ensures ReleaseAction(velocity, minFling, y, downY, slop, e, mid) == Ok(StepBy(true)) <==> y >= (mid + 1) * e
    ensures ReleaseAction(velocity, minFling, y, downY, slop, e, mid) == Ok(StepBy(false)) <==> y < mid * e
    ensures ReleaseAction(velocity, minFling, y, downY, slop, e, mid) == Ok(Snap) <==> mid * e <= y < (mid + 1) * e
  {
    if y >= 0 {
      var q := y / e;
      assert Quot(y, e) == q;
      assert e * q <= y < e * (q + 1) by {
        assert y == e * q + y % e;
      }
      if q >= mid + 1 {
        MulMonotone(e, mid + 1, q);
      } else if q < mid {
        MulMonotone(e, q + 1, mid);
      } else {
        assert q == mid;
      }
      assert (mid + 1) * e == e * (mid + 1) && mid * e == e * mid;
    } else {
      assert Quot(y, e) <= 0;
      MulMonotone(e, 0, mid);
      assert mid * e == e * mid;
    }
  }

  /** What ACTION_DOWN does on the vertical axis */
  datatype Press = StopFling | StopAdjust | Click | RepeatStep(increment: bool)

  /** The ACTION_DOWN decision: a running fling or adjustment is stopped;
      otherwise the band between the dividers clicks and the bands above and
      below start the long-press repeat. */
  function PressAction(flingFinished: bool, adjustFinished: bool, y: int, top: int, bottom: int): Press
  {
    if !flingFinished then StopFling
    else if !adjustFinished then StopAdjust
    else if top <= y <= bottom then Click
    else if y < top then RepeatStep(false)
    else RepeatStep(true)
  }

  /** A press while the wheel moves never clicks or repeats; a press at rest
      is classified by the band it falls in alone. */
  lemma PressBands(flingFinished: bool, adjustFinished: bool, y: int, top: int, bottom: int)
    ensures var p := PressAction(flingFinished, adjustFinished, y, top, bottom);
      (!flingFinished || !adjustFinished <==> p == StopFling || p == StopAdjust) &&
      (flingFinished && adjustFinished ==>
        (p == Click <==> top <= y <= bottom) &&
        (p == RepeatStep(false) <==> y < top) &&
        (p == RepeatStep(true) <==> y > bottom && y >= top))
  {
  }
}
