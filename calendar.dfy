/** UTC calendar arithmetic the ingesters rely on: the proleptic Gregorian
    dates of Python's `datetime` (years 1 to 9999), day numbers counted from
    1970-01-01, the noon timestamp every metric of a day carries, and the
    instants of the daily schedule, in microseconds since the epoch (the
    resolution of `datetime`). */
module Calendar {

  /** A `%Y-%m-%d` date. */
  datatype Date = Date(year: int, month: int, day: int)

  predicate IsLeapYear(y: int)
  {
    y % 4 == 0 && (y % 100 != 0 || y % 400 == 0)
  }

  function YearLength(y: int): int
  {
    if IsLeapYear(y) then 366 else 365
  }

  /** Days in the months of year `y` before month `m`; month 13 stands for the
      end of the year. */
  function DaysBeforeMonth(y: int, m: int): int
    requires 1 <= m <= 13
  {
    [0, 31, 59, 90, 120, 151, 181, 212, 243, 273, 304, 334, 365][m - 1]
      + (if m > 2 && IsLeapYear(y) then 1 else 0)
  }

  function DaysInMonth(y: int, m: int): int
    requires 1 <= m <= 12
  {
    DaysBeforeMonth(y, m + 1) - DaysBeforeMonth(y, m)
  }

  /** Days from 0001-01-01 to the first day of year `y`. */
  function DaysBeforeYear(y: int): int
  {
    var p := y - 1;
    365 * p + p / 4 - p / 100 + p / 400
  }

  predicate ValidDate(d: Date)
  {
    1 <= d.year <= 9999 && 1 <= d.month <= 12 && 1 <= d.day <= DaysInMonth(d.year, d.month)
  }

  /** Days from 0001-01-01 to 1970-01-01. */
  const EpochOffset: int := 719162

  /** The day numbers of 0001-01-01 and 9999-12-31, the range of `datetime`. */
  const MinDay: int := -719162
  const MaxDay: int := 2932896

  /** Days from 1970-01-01 to `d`: zero on the epoch itself, and inside the
      `datetime` range for every valid date. */
  function DaysFromCivil(d: Date): (r: int)
    requires ValidDate(d)
    ensures d == Date(1970, 1, 1) ==> r == 0
    ensures MinDay <= r <= MaxDay
  {
    DaysBeforeYearStep(d.year);
    DaysBeforeYearMonotone(1, d.year);
    DaysBeforeYearMonotone(d.year + 1, 10000);
    DaysBeforeYear(d.year) + DaysBeforeMonth(d.year, d.month) + d.day - 1 - EpochOffset
  }

  lemma DivStep4(p: int)
    ensures (p + 1) / 4 == p / 4 + (if (p + 1) % 4 == 0 then 1 else 0)
  {
  }

  lemma DivStep100(p: int)
    ensures (p + 1) / 100 == p / 100 + (if (p + 1) % 100 == 0 then 1 else 0)
  {
  }

  lemma DivStep400(p: int)
    ensures (p + 1) / 400 == p / 400 + (if (p + 1) % 400 == 0 then 1 else 0)
  {
  }

  /** Each year adds its own length to the day count. */
  lemma DaysBeforeYearStep(y: int)
    ensures DaysBeforeYear(y + 1) == DaysBeforeYear(y) + YearLength(y)
  {
    var p := y - 1;
    DivStep4(p);
    DivStep100(p);
    DivStep400(p);
    LeapDivisors(y);
    assert DaysBeforeYear(y + 1) - DaysBeforeYear(y)
      == 365 + ((p + 1) / 4 - p / 4) - ((p + 1) / 100 - p / 100) + ((p + 1) / 400 - p / 400);
  }

  /** A multiple of 400 is one of 100, and a multiple of 100 one of 4. */
  lemma LeapDivisors(y: int)
    ensures y % 400 == 0 ==> y % 100 == 0
    ensures y % 100 == 0 ==> y % 4 == 0
  {
    if y % 400 == 0 {
      assert y == 400 * (y / 400);
      assert y / 100 == 4 * (y / 400);
    }
    if y % 100 == 0 {
      assert y == 100 * (y / 100);
      assert y / 4 == 25 * (y / 100);
    }
  }

  lemma {:induction false} DaysBeforeYearMonotone(a: int, b: int)
    requires a <= b
    ensures DaysBeforeYear(a) + 365 * (b - a) <= DaysBeforeYear(b)
    decreases b - a
  {
    if a < b {
      DaysBeforeYearMonotone(a, b - 1);
      DaysBeforeYearStep(b - 1);
    }
  }

  /** The year in which day `ord` (counted from 0001-01-01) falls, searching
      upwards from year `y`. */
  function YearFrom(ord: int, y: int): (r: int)
    requires DaysBeforeYear(y) <= ord
    ensures y <= r
    ensures DaysBeforeYear(r) <= ord < DaysBeforeYear(r + 1)
    decreases ord - DaysBeforeYear(y)
  {
    DaysBeforeYearStep(y);
    if ord < DaysBeforeYear(y + 1) then y else YearFrom(ord, y + 1)
  }

  /** The month in which day `r` of year `y` falls, searching upwards from month `m`. */
  function MonthFrom(y: int, r: int, m: int): (k: int)
    requires 1 <= m <= 12
    requires DaysBeforeMonth(y, m) <= r < DaysBeforeMonth(y, 13)
    ensures m <= k <= 12
    ensures DaysBeforeMonth(y, k) <= r < DaysBeforeMonth(y, k + 1)
    decreases 12 - m
  {
    if r < DaysBeforeMonth(y, m + 1) then m else MonthFrom(y, r, m + 1)
  }

  /** The date of day number `n`: the inverse of `DaysFromCivil`. */
  function CivilFromDays(n: int): (d: Date)
    requires MinDay <= n <= MaxDay
    ensures ValidDate(d)
    ensures DaysFromCivil(d) == n
  {
    var ord := n + EpochOffset;
    var y := YearFrom(ord, 1);
    DaysBeforeYearStep(y);
    assert y <= 9999 by {
      if y >= 10000 {
        DaysBeforeYearMonotone(10000, y);
      }
    }
    var r := ord - DaysBeforeYear(y);
    var m := MonthFrom(y, r, 1);
    Date(y, m, r - DaysBeforeMonth(y, m) + 1)
  }

  /** At most one year contains a given day. */
  lemma YearUnique(ord: int, a: int, b: int)
    requires DaysBeforeYear(a) <= ord < DaysBeforeYear(a + 1)
    requires DaysBeforeYear(b) <= ord < DaysBeforeYear(b + 1)
    ensures a == b
  {
    if a < b {
      DaysBeforeYearMonotone(a + 1, b);
    } else if b < a {
      DaysBeforeYearMonotone(b + 1, a);
    }
  }

  /** At most one month of a year contains a given day of that year. */
  lemma MonthUnique(y: int, r: int, a: int, b: int)
    requires 1 <= a <= 12 && 1 <= b <= 12
    requires DaysBeforeMonth(y, a) <= r < DaysBeforeMonth(y, a + 1)
    requires DaysBeforeMonth(y, b) <= r < DaysBeforeMonth(y, b + 1)
    ensures a == b
  {
  }

  lemma YearOfDate(d: Date)
    requires ValidDate(d)
    ensures YearFrom(DaysFromCivil(d) + EpochOffset, 1) == d.year
  {
    var ord := DaysFromCivil(d) + EpochOffset;
    DaysBeforeYearStep(d.year);
    DaysBeforeYearMonotone(1, d.year);
    YearUnique(ord, YearFrom(ord, 1), d.year);
  }

  lemma MonthOfDate(d: Date)
    requires ValidDate(d)
    ensures MonthFrom(d.year, DaysBeforeMonth(d.year, d.month) + d.day - 1, 1) == d.month
  {
    var r := DaysBeforeMonth(d.year, d.month) + d.day - 1;
    MonthUnique(d.year, r, MonthFrom(d.year, r, 1), d.month);
  }

  /** The two conversions are inverse bijections between valid dates and the day
      numbers of the `datetime` range. */
  lemma CivilFromDaysInverse(d: Date)
    requires ValidDate(d)
    ensures MinDay <= DaysFromCivil(d) <= MaxDay
    ensures CivilFromDays(DaysFromCivil(d)) == d
  {
    DaysBeforeYearStep(d.year);
    DaysBeforeYearMonotone(1, d.year);
    DaysBeforeYearMonotone(d.year + 1, 10000);
    YearOfDate(d);
    MonthOfDate(d);
  }

  lemma DaysFromCivilInjective(d1: Date, d2: Date)
    requires ValidDate(d1) && ValidDate(d2)
    requires DaysFromCivil(d1) == DaysFromCivil(d2)
    ensures d1 == d2
  {
    CivilFromDaysInverse(d1);
    CivilFromDaysInverse(d2);
  }

  const MillisPerDay: int := 86_400_000

  /** The millisecond timestamp of 12:00:00 UTC on `d`, the one every metric
      line for `d` carries. */
  function NoonTimestampMs(d: Date): (r: int)
    requires ValidDate(d)
    ensures r / MillisPerDay == DaysFromCivil(d)
    ensures r % MillisPerDay == 43_200_000
  {
    DaysFromCivil(d) * MillisPerDay + MillisPerDay / 2
  }

  /** Different dates never share a timestamp. */
  lemma NoonTimestampInjective(d1: Date, d2: Date)
    requires ValidDate(d1) && ValidDate(d2)
    requires NoonTimestampMs(d1) == NoonTimestampMs(d2)
    ensures d1 == d2
  {
    DaysFromCivilInjective(d1, d2);
  }

  const MicrosPerDay: int := 86_400_000_000

  /** 00:05:00 UTC, the daily trigger, as an offset into the day. */
  const RunOffsetMicros: int := 300_000_000

  /** The day number of an instant (days since 1970-01-01, rounding down). */
  function DayOf(t: int): int
  {
    t / MicrosPerDay
  }

  predicate IsRunInstant(t: int)
  {
    t % MicrosPerDay == RunOffsetMicros
  }

  /** `wait_until_next_run`: 00:05:00 of the current day when `now` is strictly
      before it, otherwise 00:05:00 of the next day. */
  function NextRun(now: int): (next: int)
    ensures now < next <= now + MicrosPerDay
    ensures IsRunInstant(next)
    ensures forall t :: now < t < next ==> !IsRunInstant(t)
  {
    var today := DayOf(now) * MicrosPerDay + RunOffsetMicros;
    var next := if now >= today then today + MicrosPerDay else today;
    assert IsRunInstant(next);
    assert forall t :: now < t < next ==> !IsRunInstant(t) by {
      forall t | now < t < next ensures !IsRunInstant(t) {
      }
    }
    next
  }
}
