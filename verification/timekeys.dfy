/** `getTimeKey`: the canonical key of an instant under a range selector.
    "hour" and "day" zero the seconds and milliseconds (a minute key),
    "week" zeroes the local time of day (a day key), and any other selector
    leaves the instant alone. Local time is `t + offset` for a fixed offset
    in milliseconds; `toISOString` is injective, so a key is kept as the
    instant it prints. */
module TimeKeys {
  import opened Window
  import opened Arith

  /** `x` lies on the local grid of width `unit`. */
  predicate Aligned(x: int, unit: int, offset: int)
    requires unit > 0
  {
    (x + offset) % unit == 0
  }

  /** The start of the local `unit`-wide slot that holds `t`. */
  function Floor(t: int, unit: int, offset: int): (k: int)
    requires unit > 0
    ensures Aligned(k, unit, offset)
    ensures t - unit < k <= t
  {
    var a := t + offset;
    assert a - a % unit == unit * (a / unit);
    MultipleIsAligned(unit, a / unit);
    t - a % unit
  }

  /** A whole number of units leaves no remainder. */
  lemma MultipleIsAligned(unit: int, q: int)
    requires unit > 0
    ensures (unit * q) % unit == 0
  {
    var x := unit * q;
    var d, m := x / unit, x % unit;
    assert x == unit * d + m && 0 <= m < unit;
    assert unit * (q - d) == m;
    if q - d >= 1 {
      MulMonotone(unit, 1, q - d);
    } else if q - d <= -1 {
      MulMonotone(unit, q - d, -1);
    }
  }

  /** Two grid points less than one unit apart in the wrong direction are
      in fact ordered. */
  lemma AlignedOrder(x: int, y: int, unit: int, offset: int)
    requires unit > 0
    requires Aligned(x, unit, offset) && Aligned(y, unit, offset)
    requires x < y + unit
    ensures x <= y
  {
    var p, q := (x + offset) / unit, (y + offset) / unit;
    assert x + offset == unit * p;
    assert y + offset == unit * q;
    if p > q {
      MulMonotone(unit, q + 1, p);
      assert false;
    }
    MulMonotone(unit, p, q);
  }

  /** `Floor` is the greatest grid point at or before `t`. */
  lemma FloorIsGreatest(t: int, unit: int, offset: int, a: int)
    requires unit > 0
    requires Aligned(a, unit, offset) && a <= t
    ensures a <= Floor(t, unit, offset)
  {
    AlignedOrder(a, Floor(t, unit, offset), unit, offset);
  }

  /** The only grid point in `(t - unit, t]` is `Floor(t)`. */
  lemma FloorUnique(t: int, unit: int, offset: int, a: int)
    requires unit > 0
    requires Aligned(a, unit, offset) && t - unit < a <= t
    ensures a == Floor(t, unit, offset)
  {
    var k := Floor(t, unit, offset);
    AlignedOrder(a, k, unit, offset);
    AlignedOrder(k, a, unit, offset);
  }

  /** Moving one unit along moves the slot one unit along. */
  lemma FloorShift(t: int, unit: int, offset: int)
    requires unit > 0
    ensures Floor(t + unit, unit, offset) == Floor(t, unit, offset) + unit
  {
    var k := Floor(t, unit, offset);
    var q := (k + offset) / unit;
    assert k + offset == unit * q;
    assert k + unit + offset == unit * (q + 1);
    MultipleIsAligned(unit, q + 1);
    FloorUnique(t + unit, unit, offset, k + unit);
  }

  /** `getTimeKey(t, range)`. */
  function TimeKey(t: int, r: Range, offset: int): (k: int)
    ensures r == Hour || r == Day ==> Aligned(k, MinuteMs, offset) && t - MinuteMs < k <= t
    ensures r == Week ==> Aligned(k, DayMs, offset) && t - DayMs < k <= t
    ensures r == Unrecognised ==> k == t
  {
    match r
    case Hour => Floor(t, MinuteMs, offset)
    case Day => Floor(t, MinuteMs, offset)
    case Week => Floor(t, DayMs, offset)
    case Unrecognised => t
  }

  /** Keying a key changes nothing. */
  lemma TimeKeyIdempotent(t: int, r: Range, offset: int)
    ensures TimeKey(TimeKey(t, r, offset), r, offset) == TimeKey(t, r, offset)
  {
    var k := TimeKey(t, r, offset);
    match r
    case Hour => FloorUnique(k, MinuteMs, offset, k);
    case Day => FloorUnique(k, MinuteMs, offset, k);
    case Week => FloorUnique(k, DayMs, offset, k);
    case Unrecognised =>
  }

  /** For "hour" and "day" the key is the latest local minute boundary at or
      before `t`; for "week" it is the latest local midnight. */
  lemma TimeKeyIsLatestBoundary(t: int, r: Range, offset: int, a: int)
    requires a <= t
    requires || ((r == Hour || r == Day) && Aligned(a, MinuteMs, offset))
             || (r == Week && Aligned(a, DayMs, offset))
    ensures a <= TimeKey(t, r, offset)
  {
    if r == Week {
      FloorIsGreatest(t, DayMs, offset, a);
    } else {
      FloorIsGreatest(t, MinuteMs, offset, a);
    }
  }

  /** Later instants never get earlier keys. */
  lemma TimeKeyMonotone(t1: int, t2: int, r: Range, offset: int)
    requires t1 <= t2
    ensures TimeKey(t1, r, offset) <= TimeKey(t2, r, offset)
  {
    if r != Unrecognised {
      TimeKeyIsLatestBoundary(t2, r, offset, TimeKey(t1, r, offset));
    }
  }

  /** One step of the walk moves the key by exactly one step: the step of
      every selector is a whole number of its key's slots. */
  lemma TimeKeyStep(t: int, r: Range, offset: int)
    ensures TimeKey(t + Increment(r), r, offset) == TimeKey(t, r, offset) + Increment(r)
  {
    match r
    case Hour => FloorShift(t, MinuteMs, offset);
    case Day => FloorShift(t, MinuteMs, offset);
    case Week => FloorShift(t, DayMs, offset);
    case Unrecognised =>
  }
}
