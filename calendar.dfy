/** The proleptic Gregorian calendar over the years 1 through 9999, with
    dates numbered by ordinal the way Python's `datetime` numbers them:
    0001-01-01 is day 1.  `datetime` differences (`(b - a).days`) and
    `date + timedelta(days=k)` are differences and shifts of ordinals. */
module Calendar {
  import opened Runtime

  datatype Date = Date(year: int, month: int, day: int)

  const MinYear: int := 1
  const MaxYear: int := 9999
  /** The ordinal of 9999-12-31, the last representable date. */
  const MaxOrdinal: int := 3652059

  predicate IsLeap(y: int) {
    y % 4 == 0 && (y % 100 != 0 || y % 400 == 0)
  }

  function DaysInYear(y: int): int {
    if IsLeap(y) then 366 else 365
  }

  function DaysInMonth(y: int, m: int): (n: int)
    requires 1 <= m <= 12
    ensures 28 <= n <= 31
    ensures n == 29 <==> m == 2 && IsLeap(y)
  {
    if m == 2 then (if IsLeap(y) then 29 else 28)
    else if m == 4 || m == 6 || m == 9 || m == 11 then 30
    else 31
  }

  /** A (year, month, day) triple that names a real date Python can represent. */
  predicate ValidDate(d: Date) {
    MinYear <= d.year <= MaxYear && 1 <= d.month <= 12 && 1 <= d.day <= DaysInMonth(d.year, d.month)
  }

  /** Calendar order: `a` is strictly earlier than `b`. */
  predicate Before(a: Date, b: Date) {
    a.year < b.year
    || (a.year == b.year && a.month < b.month)
    || (a.year == b.year && a.month == b.month && a.day < b.day)
  }

  /** Number of days in the years 1 .. y-1. */
  function DaysBeforeYear(y: int): int
    requires 1 <= y
  {
    var p := y - 1;
    p * 365 + p / 4 - p / 100 + p / 400
  }

  /** Number of days in the months 1 .. m-1 of year `y` (m == 13 gives the whole year). */
  function DaysBeforeMonth(y: int, m: int): int
    requires 1 <= m <= 13
  {
    var common := [0, 31, 59, 90, 120, 151, 181, 212, 243, 273, 304, 334, 365][m - 1];
    if m > 2 && IsLeap(y) then common + 1 else common
  }

  lemma DaysBeforeNextYear(y: int)
    requires 1 <= y
    ensures DaysBeforeYear(y + 1) == DaysBeforeYear(y) + DaysInYear(y)
  {
    var p := y - 1;
    assert y / 4 == p / 4 + (if y % 4 == 0 then 1 else 0);
    assert y / 100 == p / 100 + (if y % 100 == 0 then 1 else 0);
    assert y / 400 == p / 400 + (if y % 400 == 0 then 1 else 0);
  }

  lemma DaysBeforeNextMonth(y: int, m: int)
    requires 1 <= m <= 12
    ensures DaysBeforeMonth(y, m + 1) == DaysBeforeMonth(y, m) + DaysInMonth(y, m)
    ensures DaysBeforeMonth(y, 1) == 0 && DaysBeforeMonth(y, 13) == DaysInYear(y)
  {
  }

  /** Every later year starts at least 365 days later. */
  lemma {:induction false} DaysBeforeYearGrows(a: int, b: int)
    requires 1 <= a <= b
    ensures DaysBeforeYear(a) + 365 * (b - a) <= DaysBeforeYear(b)
    decreases b - a
  {
    if a < b {
      DaysBeforeYearGrows(a, b - 1);
      DaysBeforeNextYear(b - 1);
    }
  }

  lemma {:induction false} DaysBeforeMonthGrows(y: int, a: int, b: int)
    requires 1 <= a <= b <= 13
    ensures DaysBeforeMonth(y, a) + 28 * (b - a) <= DaysBeforeMonth(y, b)
    decreases b - a
  {
    if a < b {
      DaysBeforeMonthGrows(y, a, b - 1);
      DaysBeforeNextMonth(y, b - 1);
    }
  }

  /** The day of the year of a valid date lies within its year. */
  lemma DayOfYearBounds(d: Date)
    requires ValidDate(d)
    ensures DaysBeforeMonth(d.year, d.month) < DaysBeforeMonth(d.year, d.month) + d.day <= DaysBeforeMonth(d.year, d.month + 1)
    ensures 1 <= DaysBeforeMonth(d.year, d.month) + d.day <= DaysInYear(d.year)
  {
    DaysBeforeNextMonth(d.year, d.month);
    DaysBeforeMonthGrows(d.year, d.month + 1, 13);
  }

  /** `d.toordinal()`: the day number of a valid date, 0001-01-01 being day 1. */
  function DaysFromCivil(d: Date): (z: int)
    requires ValidDate(d)
    ensures DaysBeforeYear(d.year) < z <= DaysBeforeYear(d.year + 1)
    ensures 1 <= z <= MaxOrdinal
  {
    DayOfYearBounds(d);
    DaysBeforeNextYear(d.year);
    DaysBeforeYearGrows(d.year + 1, MaxYear + 1);
    DaysBeforeYear(d.year) + DaysBeforeMonth(d.year, d.month) + d.day
  }

  /** The year whose days contain day number `z`, searching upward from `y`. */
  function YearContaining(z: int, y: int): (r: int)
    requires 1 <= y && DaysBeforeYear(y) < z
    ensures y <= r && DaysBeforeYear(r) < z <= DaysBeforeYear(r + 1)
    decreases z - DaysBeforeYear(y)
  {
    DaysBeforeNextYear(y);
    if z <= DaysBeforeYear(y + 1) then y else YearContaining(z, y + 1)
  }

  /** The month of year `y` whose days contain day-of-year `r`, searching upward from `m`. */
  function MonthContaining(y: int, r: int, m: int): (k: int)
    requires 1 <= m <= 12 && DaysBeforeMonth(y, m) < r <= DaysInYear(y)
    ensures m <= k <= 12 && DaysBeforeMonth(y, k) < r <= DaysBeforeMonth(y, k + 1)
    decreases 12 - m
  {
    DaysBeforeNextMonth(y, m);
    if r <= DaysBeforeMonth(y, m + 1) then m else MonthContaining(y, r, m + 1)
  }

  /** `date.fromordinal(z)`: the date whose day number is `z`. */
  function CivilFromDays(z: int): (d: Date)
    requires 1 <= z <= MaxOrdinal
    ensures ValidDate(d) && DaysFromCivil(d) == z
  {
    var y := YearContaining(z, 1);
    if y > MaxYear then
      DaysBeforeYearGrows(MaxYear + 1, y);
      assert false;
      Date(MaxYear, 12, 31)
    else
      DaysBeforeNextYear(y);
      var r := z - DaysBeforeYear(y);
      DaysBeforeNextMonth(y, 1);
      var m := MonthContaining(y, r, 1);
      DaysBeforeNextMonth(y, m);
      Date(y, m, r - DaysBeforeMonth(y, m))
  }

  /** Day numbers follow calendar order. */
  lemma DaysFromCivilMonotone(a: Date, b: Date)
    requires ValidDate(a) && ValidDate(b) && Before(a, b)
    ensures DaysFromCivil(a) < DaysFromCivil(b)
  {
    if a.year < b.year {
      DaysBeforeYearGrows(a.year + 1, b.year);
    } else if a.month < b.month {
      DayOfYearBounds(a);
      DaysBeforeMonthGrows(a.year, a.month + 1, b.month);
    }
  }

  /** Distinct dates have distinct day numbers. */
  lemma DaysFromCivilInjective(a: Date, b: Date)
    requires ValidDate(a) && ValidDate(b) && DaysFromCivil(a) == DaysFromCivil(b)
    ensures a == b
  {
    if Before(a, b) {
      DaysFromCivilMonotone(a, b);
    } else if Before(b, a) {
      DaysFromCivilMonotone(b, a);
    }
  }

  /** `date.fromordinal(d.toordinal()) == d`. */
  lemma CivilDaysRoundTrip(d: Date)
    requires ValidDate(d)
    ensures CivilFromDays(DaysFromCivil(d)) == d
  {
    DaysFromCivilInjective(CivilFromDays(DaysFromCivil(d)), d);
  }

  /** The calendar successor of a date, written out by month and year rollover. */
  function NextDay(d: Date): Date
    requires ValidDate(d)
  {
    if d.day < DaysInMonth(d.year, d.month) then Date(d.year, d.month, d.day + 1)
    else if d.month < 12 then Date(d.year, d.month + 1, 1)
    else Date(d.year + 1, 1, 1)
  }

  /** The calendar successor is exactly one day number later. */
  lemma NextDayIsOneLater(d: Date)
    requires ValidDate(d) && DaysFromCivil(d) < MaxOrdinal
    ensures ValidDate(NextDay(d)) && DaysFromCivil(NextDay(d)) == DaysFromCivil(d) + 1
  {
    DaysBeforeNextMonth(d.year, d.month);
    if d.day == DaysInMonth(d.year, d.month) && d.month == 12 {
      DaysBeforeNextYear(d.year);
    }
  }

  /** `(b - a).days`: the signed number of whole days from `a` to `b`. */
  function DaysBetween(a: Date, b: Date): int
    requires ValidDate(a) && ValidDate(b)
  {
    DaysFromCivil(b) - DaysFromCivil(a)
  }

  /** A positive difference means exactly that `b` falls after `a`;
      a zero difference means the dates are the same. */
  lemma DaysBetweenSign(a: Date, b: Date)
    requires ValidDate(a) && ValidDate(b)
    ensures DaysBetween(a, b) > 0 <==> Before(a, b)
    ensures DaysBetween(a, b) == 0 <==> a == b
  {
    if Before(a, b) {
      DaysFromCivilMonotone(a, b);
    } else if Before(b, a) {
      DaysFromCivilMonotone(b, a);
    }
  }

  /** `d + timedelta(days=k)`: None when the result would leave years 1..9999
      (where Python raises OverflowError). */
  function AddDays(d: Date, k: int): (r: Option<Date>)
    requires ValidDate(d)
    ensures r.Some? <==> 1 <= DaysFromCivil(d) + k <= MaxOrdinal
    ensures r.Some? ==> ValidDate(r.value) && DaysBetween(d, r.value) == k
  {
    var z := DaysFromCivil(d) + k;
    if 1 <= z <= MaxOrdinal then Some(CivilFromDays(z)) else None
  }

  /** Adding one more day moves to the calendar successor. */
  lemma AddDaysStep(d: Date, k: int)
    requires ValidDate(d) && AddDays(d, k).Some? && AddDays(d, k + 1).Some?
    ensures AddDays(d, k + 1).value == NextDay(AddDays(d, k).value)
  {
    var e := AddDays(d, k).value;
    NextDayIsOneLater(e);
    DaysFromCivilInjective(AddDays(d, k + 1).value, NextDay(e));
  }

  /** Shifting by the difference of two dates lands on the second one. */
  lemma AddDaysBetween(a: Date, b: Date)
    requires ValidDate(a) && ValidDate(b)
    ensures AddDays(a, DaysBetween(a, b)) == Some(b)
  {
    DaysFromCivilInjective(AddDays(a, DaysBetween(a, b)).value, b);
  }
}
