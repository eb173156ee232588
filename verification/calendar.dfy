/**
 * UTC calendar arithmetic for the `startOfYear` dynamic filter value: the first instant
 * (epoch milliseconds) of the UTC calendar year that contains a given instant, in the
 * proleptic Gregorian calendar that JavaScript dates use.
 */
module Calendar {

  const MsPerDay: int := 86_400_000
  const EpochYear: int := 1970

  predicate IsLeapYear(y: int) {
    y % 4 == 0 && (y % 100 != 0 || y % 400 == 0)
  }

  /** Leap years in 1 .. y-1 (floor division, so also meaningful for y <= 0). */
  function LeapYearsBefore(y: int): int {
    (y - 1) / 4 - (y - 1) / 100 + (y - 1) / 400
  }

  /** Days from 1970-01-01 to January 1 of year y (negative before 1970). */
  function DaysBeforeYear(y: int): int {
    365 * (y - EpochYear) + LeapYearsBefore(y) - LeapYearsBefore(EpochYear)
  }

  /** Midnight UTC on January 1 of year y, in milliseconds since the epoch. */
  function YearStartMs(y: int): int {
    DaysBeforeYear(y) * MsPerDay
  }

  lemma MulMonotone(d: int, x: int, y: int)
    requires d >= 0 && x <= y
    ensures d * x <= d * y
  {
    assert d * y - d * x == d * (y - x);
  }

  lemma DivisionUnique(a: int, d: int, q: int, r: int)
    requires d > 0 && 0 <= r < d && a == d * q + r
    ensures a / d == q && a % d == r
  {
    var q', r' := a / d, a % d;
    assert a == d * q' + r' && 0 <= r' < d;
    if q' < q {
      MulMonotone(d, q' + 1, q);
      assert false;
    } else if q < q' {
      MulMonotone(d, q + 1, q');
      assert false;
    }
  }

  /** Stepping a by one moves a / d up exactly when a + 1 is a multiple of d. */
  lemma DivStep(a: int, d: int)
    requires d > 0
    ensures (a + 1) / d - a / d == if (a + 1) % d == 0 then 1 else 0
  {
    var q, r := a / d, a % d;
    if r + 1 < d {
      DivisionUnique(a + 1, d, q, r + 1);
    } else {
      DivisionUnique(a + 1, d, q + 1, 0);
    }
  }

  lemma MultipleOf(a: int, d: int, k: int)
    requires d > 0 && k > 0 && a % (d * k) == 0
    ensures a % d == 0
  {
    var q := a / (d * k);
    assert a == (d * k) * q;
    assert a == d * (k * q);
    DivisionUnique(a, d, k * q, 0);
  }

  /** A year has 366 days exactly when it is a leap year. */
  lemma {:induction false} YearLength(y: int)
    ensures DaysBeforeYear(y + 1) - DaysBeforeYear(y) == if IsLeapYear(y) then 366 else 365
  {
    DivStep(y - 1, 4);
    DivStep(y - 1, 100);
    DivStep(y - 1, 400);
    if y % 400 == 0 {
      MultipleOf(y, 100, 4);
      MultipleOf(y, 4, 100);
    } else if y % 100 == 0 {
      MultipleOf(y, 4, 25);
    }
  }

  lemma {:induction false} DaysBeforeYearAtMost(y: int)
    requires y <= EpochYear
    ensures DaysBeforeYear(y) <= 365 * (y - EpochYear)
    decreases EpochYear - y
  {
    if y < EpochYear {
      DaysBeforeYearAtMost(y + 1);
      YearLength(y);
    }
  }

  /** January 1 moves strictly forward from year to year. */
  lemma {:induction false} DaysBeforeYearIncreasing(a: int, b: int)
    requires a < b
    ensures DaysBeforeYear(a) < DaysBeforeYear(b)
    decreases b - a
  {
    YearLength(a);
    if a + 1 < b {
      DaysBeforeYearIncreasing(a + 1, b);
    }
  }

  /** The year containing day d, searching upward from a year that starts no later than d. */
  function ScanYear(d: int, y: int): (r: int)
    requires DaysBeforeYear(y) <= d
    ensures DaysBeforeYear(r) <= d < DaysBeforeYear(r + 1)
    decreases d - DaysBeforeYear(y)
  {
    YearLength(y);
    if d < DaysBeforeYear(y + 1) then y else ScanYear(d, y + 1)
  }

  /** The year containing day number d (days since 1970-01-01). */
  function YearOfDay(d: int): (y: int)
    ensures DaysBeforeYear(y) <= d < DaysBeforeYear(y + 1)
  {
    var y0 := if d >= 0 then EpochYear else EpochYear + d / 365 - 1;
    DaysBeforeYearAtMost(if d >= 0 then EpochYear else y0);
    ScanYear(d, y0)
  }

  /** `now.getUTCFullYear()`. */
  function UtcYear(now: int): (y: int)
    ensures YearStartMs(y) <= now < YearStartMs(y + 1)
  {
    var d := now / MsPerDay;
    var y := YearOfDay(d);
    assert DaysBeforeYear(y) * MsPerDay <= d * MsPerDay <= now;
    assert now < (d + 1) * MsPerDay <= DaysBeforeYear(y + 1) * MsPerDay;
    y
  }

  /** `Date.UTC(y, 0, 1, 0, 0, 0, 0)`, which reads a year from 0 to 99 as 1900 + y. */
  function DateUtcJanuaryFirst(y: int): int {
    if 0 <= y <= 99 then YearStartMs(1900 + y) else YearStartMs(y)
  }

  /**
   * `Date.UTC(now.getUTCFullYear(), 0, 1, ...)`: the first instant of the UTC calendar
   * year containing now, for every year outside 0..99.
   */
  function StartOfYearMs(now: int): (start: int)
    ensures !(0 <= UtcYear(now) <= 99) ==> start <= now < YearStartMs(UtcYear(now) + 1)
  {
    DateUtcJanuaryFirst(UtcYear(now))
  }

  /** For an instant in the years 0..99 the computed start lies 1900 years after it. */
  lemma TwoDigitYearStart(now: int)
    requires 0 <= UtcYear(now) <= 99
    ensures StartOfYearMs(now) > now
  {
    DaysBeforeYearIncreasing(UtcYear(now) + 1, 1900 + UtcYear(now));
  }

  /** The year containing an instant is unique: any year bracketing now is UtcYear(now). */
  lemma {:induction false} UtcYearUnique(now: int, y: int)
    requires YearStartMs(y) <= now < YearStartMs(y + 1)
    ensures UtcYear(now) == y
  {
    var u := UtcYear(now);
    if u < y {
      if u + 1 < y {
        DaysBeforeYearIncreasing(u + 1, y);
      }
      assert false;
    } else if y < u {
      if y + 1 < u {
        DaysBeforeYearIncreasing(y + 1, u);
      }
      assert false;
    }
  }

  /** 2025-01-01T00:00:00Z is 1735689600000 ms and 2026-01-01T00:00:00Z is 1767225600000 ms. */
  lemma {:induction false} StartOf2025(now: int)
    requires 1735689600000 <= now < 1767225600000
    ensures StartOfYearMs(now) == 1735689600000
  {
    assert DaysBeforeYear(2025) == 20089;
    assert DaysBeforeYear(2026) == 20454;
    UtcYearUnique(now, 2025);
  }
}
