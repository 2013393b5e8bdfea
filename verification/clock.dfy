/**
 * Time arithmetic of the acquisition loop. An instant (Go `time.Time`) is the
 * number of nanoseconds since Go's zero Time, so the zero value of an unwritten
 * sample is the instant 0. A duration (Go `time.Duration`) is an int64 count of
 * nanoseconds.
 */
module Clock {

  const MIN_DURATION: int := -0x8000_0000_0000_0000
  const MAX_DURATION: int := 0x7FFF_FFFF_FFFF_FFFF

  /** Nanoseconds per microsecond (Go `time.Microsecond`). */
  const MICROSECOND: int := 1000

  /** Go's zero `time.Time`, the timestamp of a never-written sample. */
  const ZERO_TIME: int := 0

  /** A difference clipped to the int64 range, as `Time.Sub` does on overflow. */
  function Saturate(d: int): (r: int)
    ensures MIN_DURATION <= r <= MAX_DURATION
    ensures MIN_DURATION <= d <= MAX_DURATION ==> r == d
    ensures d < MIN_DURATION ==> r == MIN_DURATION
    ensures d > MAX_DURATION ==> r == MAX_DURATION
  {
    if d < MIN_DURATION then MIN_DURATION
    else if d > MAX_DURATION then MAX_DURATION
    else d
  }

  /** `t.Sub(u)`: the duration t - u, saturated to the int64 range. */
  function Sub(t: int, u: int): int
  {
    Saturate(t - u)
  }

  /** Go's integer division, which truncates toward zero. */
  function Quot(a: int, b: int): int
    requires b > 0
  {
    if a >= 0 then a / b else -((-a) / b)
  }

  /** Go's remainder, whose sign follows the dividend. */
  function Rem(a: int, b: int): int
    requires b > 0
  {
    a - Quot(a, b) * b
  }

  /**
   * Quot and Rem satisfy the Go language definition of division: the
   * quotient-remainder identity with a remainder smaller than the divisor and
   * carrying the dividend's sign.
   */
  lemma QuotRem(a: int, b: int)
    requires b > 0
    ensures a == Quot(a, b) * b + Rem(a, b)
    ensures -b < Rem(a, b) < b
    ensures a >= 0 ==> Rem(a, b) >= 0
    ensures a <= 0 ==> Rem(a, b) <= 0
  {
    if a < 0 {
      var q := (-a) / b;
      var r := (-a) % b;
      assert -a == q * b + r;
      assert Rem(a, b) == -r;
    }
  }

  /** Truncating division is monotone in its dividend. */
  lemma QuotMonotone(a1: int, a2: int, b: int)
    requires b > 0
    requires a1 <= a2
    ensures Quot(a1, b) <= Quot(a2, b)
  {
    if a1 >= 0 {
      DivMonotone(a1, a2, b);
    } else if a2 < 0 {
      DivMonotone(-a2, -a1, b);
    } else {
      DivNonNegative(-a1, b);
      DivNonNegative(a2, b);
    }
  }

  lemma DivNonNegative(a: int, b: int)
    requires a >= 0 && b > 0
    ensures a / b >= 0
  {
  }

  lemma MulMonotone(x: int, y: int, b: int)
    requires x <= y && b >= 0
    ensures x * b <= y * b
  {
  }

  lemma DivMonotone(a1: int, a2: int, b: int)
    requires b > 0
    requires 0 <= a1 <= a2
    ensures a1 / b <= a2 / b
  {
    var q1, r1 := a1 / b, a1 % b;
    var q2, r2 := a2 / b, a2 % b;
    if q1 > q2 {
      MulMonotone(q2 + 1, q1, b);
      assert false;
    }
  }

  /**
   * `int64(t.Sub(shift) / time.Microsecond)`: the offset of t from the shift
   * time in whole microseconds, truncated toward zero.
   */
  function OffsetUs(t: int, shift: int): (us: int)
    ensures t == shift ==> us == 0
    ensures 0 <= t - shift <= MAX_DURATION ==> 1000 * us <= t - shift < 1000 * us + 1000
  {
    QuotRem(Sub(t, shift), MICROSECOND);
    Quot(Sub(t, shift), MICROSECOND)
  }

  /**
   * An instant more than the largest Duration after the shift time gets the
   * saturated offset: the largest Duration in whole microseconds.
   */
  lemma OffsetSaturated(t: int, shift: int)
    requires t - shift > MAX_DURATION
    ensures OffsetUs(t, shift) == 9_223_372_036_854_775
  {
    assert Sub(t, shift) == MAX_DURATION;
  }

  /** Later instants never get an earlier offset. */
  lemma OffsetMonotone(t1: int, t2: int, shift: int)
    requires t1 <= t2
    ensures OffsetUs(t1, shift) <= OffsetUs(t2, shift)
  {
    QuotMonotone(Sub(t1, shift), Sub(t2, shift), MICROSECOND);
  }
}
