/** Kotlin's Int arithmetic as the picker and its scroller use it, and the
    exceptions their code can throw.  Dafny's `/` and `%` are Euclidean;
    Kotlin's round toward zero, so both are written out here. */
module Kotlin {

  /** Int.MAX_VALUE */
  const IntMax: int := 0x7fff_ffff

  /** The exceptions the modelled code throws. */
  datatype Fault = ArithmeticException | IllegalArgumentException

  datatype Option<T> = None | Some(value: T)

  /** A value, or the exception that computing it throws. */
  datatype Result<T> = Ok(value: T) | Err(fault: Fault)

  /** A setter that either completes or throws. */
  datatype Outcome = Pass | Fail(fault: Fault)

  function Abs(x: int): nat { if x < 0 then -x else x }

  function Max(a: int, b: int): int { if a < b then b else a }

  function Min(a: int, b: int): int { if a < b then a else b }

  /** kotlin.math.sign on an integral value */
  function Sign(x: int): int { if x > 0 then 1 else if x < 0 then -1 else 0 }

  /** `a / b` on Int: the quotient rounded toward zero. */
  function Quot(a: int, b: int): (q: int)
    requires b != 0
    ensures Abs(q) == Abs(a) / Abs(b)
    ensures (a >= 0) == (b > 0) ==> q >= 0
    ensures (a >= 0) != (b > 0) ==> q <= 0
  {
    var m := Abs(a) / Abs(b);
    assert 0 <= m by { DivNonnegative(Abs(a), Abs(b)); }
    if (a >= 0) == (b > 0) then m else -m
  }

  lemma DivNonnegative(x: nat, y: nat)
    requires y > 0
    ensures x / y >= 0
  {
  }

  /** The remainder of x by y, by repeated subtraction */
  function NatRem(x: nat, y: nat): (r: nat)
    requires y > 0
    ensures r < y
    decreases x
  {
    if x < y then x else NatRem(x - y, y)
  }

  /** Repeated subtraction leaves Dafny's remainder. */
  lemma {:induction false} NatRemIsMod(x: nat, y: nat)
    requires y > 0
    ensures NatRem(x, y) == x % y
    decreases x
  {
    if x < y {
      ModUnique(x, y, 0, x);
    } else {
      NatRemIsMod(x - y, y);
      var q := (x - y) / y;
      assert x - y == y * q + (x - y) % y && 0 <= (x - y) % y < y;
      assert y * (q + 1) == y * q + y;
      ModUnique(x, y, q + 1, (x - y) % y);
    }
  }

  /** `a % b` on Int: the remainder of the magnitudes, with the sign of the
      dividend. */
  function Rem(a: int, b: int): (r: int)
    requires b != 0
    ensures Abs(r) < Abs(b)
    ensures r > 0 ==> a > 0
    ensures r < 0 ==> a < 0
  {
    var m: int := NatRem(Abs(a), Abs(b));
    if a >= 0 then m else -m
  }

  /** Quotient and remainder put the dividend back together. */
  lemma QuotRem(a: int, b: int)
    requires b != 0
    ensures a == b * Quot(a, b) + Rem(a, b)
  {
    NatRemIsMod(Abs(a), Abs(b));
    var m := Abs(a) % Abs(b);
    assert Abs(a) == Abs(b) * (Abs(a) / Abs(b)) + m;
  }

  /** Math.round(n / d) for d > 0: the nearest integer, halves rounded up. */
  function RoundHalfUp(n: int, d: int): (r: int)
    requires d > 0
    ensures 2 * d * r <= 2 * n + d < 2 * d * r + 2 * d
  {
    (2 * n + d) / (2 * d)
  }

  /** v.coerceAtMost(hi).coerceAtLeast(lo): the upper bound is applied first,
      so an empty range yields `lo`. */
  function Coerce(v: int, lo: int, hi: int): (r: int)
    ensures lo <= hi ==> lo <= r <= hi
    ensures lo <= v <= hi ==> r == v
    ensures hi < lo ==> r == lo
  {
    Max(Min(v, hi), lo)
  }

  // ---------------------------------------------------------------------
  // Facts about integer arithmetic the models rely on

  lemma MulMonotone(b: int, u: int, v: int)
    requires b > 0 && u <= v
    ensures b * u <= b * v
  {
    assert b * v - b * u == b * (v - u);
  }

  /** Integer division by a positive divisor respects bounds on the dividend. */
  lemma DivBetween(a: int, b: int, lo: int, hi: int)
    requires b > 0 && b * lo <= a < b * hi
    ensures lo <= a / b < hi
  {
    var q, m := a / b, a % b;
    assert a == b * q + m && 0 <= m < b;
    if q < lo {
      assert b * (q + 1) == b * q + b;
      MulMonotone(b, q + 1, lo);
    }
    if q >= hi {
      MulMonotone(b, hi, q);
    }
  }

  lemma MulNonnegative(a: int, b: int)
    requires a >= 0 && b >= 0
    ensures a * b >= 0
  {
  }

  /** Dafny's (Euclidean) remainder is determined by any decomposition. */
  lemma ModUnique(a: int, b: int, q: int, m: int)
    requires b > 0 && a == b * q + m && 0 <= m < b
    ensures a % b == m && a / b == q
  {
    var q', m' := a / b, a % b;
    assert a == b * q' + m' && 0 <= m' < b;
    var d := q - q';
    assert b * d == m' - m by {
      assert b * d == b * q - b * q';
    }
    if d >= 1 {
      MulMonotone(b, 1, d);
    } else if d <= -1 {
      MulMonotone(b, d, -1);
    }
  }

  /** A Kotlin remainder of a value already below the divisor is the value. */
  lemma RemSmall(a: int, b: int)
    requires 0 <= a < b
    ensures Rem(a, b) == a
  {
  }

  /** The Kotlin remainder of the divisor itself is zero. */
  lemma RemSelf(b: int)
    requires b > 0
    ensures Rem(b, b) == 0
  {
    assert NatRem(b, b) == NatRem(0, b);
  }
}
