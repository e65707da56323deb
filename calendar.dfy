/**
 * Proleptic Gregorian calendar arithmetic, as Python's `datetime.date` does it,
 * and the search endpoint's day parameter `d`, which the crawler derives from a date.
 */
module Calendar {

  datatype Date = Date(year: int, month: int, day: int)

  /** The bounds of Python's `date` type. */
  const MIN_YEAR := 1
  const MAX_YEAR := 9999

  /** The day parameter of the reference date and the reference date itself. */
  const REFERENCE_DAY_PARAM := 5245
  const REFERENCE_DATE := Date(2022, 5, 11)

  predicate IsLeapYear(y: int)
  {
    y % 4 == 0 && (y % 100 != 0 || y % 400 == 0)
  }

  function DaysInYear(y: int): int
  {
    if IsLeapYear(y) then 366 else 365
  }

  function DaysInMonth(y: int, m: int): int
  {
    if m == 2 then (if IsLeapYear(y) then 29 else 28)
    else if m == 4 || m == 6 || m == 9 || m == 11 then 30
    else 31
  }

  predicate IsValidDate(d: Date)
  {
    MIN_YEAR <= d.year <= MAX_YEAR && 1 <= d.month <= 12 && 1 <= d.day <= DaysInMonth(d.year, d.month)
  }

  /** Days in the years before `y` (year 1 starts at ordinal 1). */
  function DaysBeforeYear(y: int): int
    requires y >= 1
  {
    var p := y - 1;
    p * 365 + p / 4 - p / 100 + p / 400
  }

  /** Days in the months of year `y` before month `m`: a fixed table plus one day after February in a leap year. */
  function DaysBeforeMonth(y: int, m: int): int
    requires 1 <= m <= 12
  {
    var table := [0, 31, 59, 90, 120, 151, 181, 212, 243, 273, 304, 334];
    table[m - 1] + (if m > 2 && IsLeapYear(y) then 1 else 0)
  }

  /** `date.toordinal()`: 0001-01-01 has ordinal 1. */
  function Ordinal(d: Date): int
    requires IsValidDate(d)
  {
    DaysBeforeYear(d.year) + DaysBeforeMonth(d.year, d.month) + d.day
  }

  /** `d + timedelta(days = 1)`; the last representable date has no successor. */
  function NextDay(d: Date): (r: Date)
    requires IsValidDate(d) && d != Date(MAX_YEAR, 12, 31)
    ensures IsValidDate(r)
  {
    if d.day < DaysInMonth(d.year, d.month) then Date(d.year, d.month, d.day + 1)
    else if d.month < 12 then Date(d.year, d.month + 1, 1)
    else Date(d.year + 1, 1, 1)
  }

  /** Python's `<` on dates: lexicographic on (year, month, day). */
  predicate Before(a: Date, b: Date)
  {
    a.year < b.year || (a.year == b.year && (a.month < b.month || (a.month == b.month && a.day < b.day)))
  }

  /** `get_day_param`: the reference parameter plus the whole-day difference from the reference date. */
  function DayParam(ordinal: int): int
  {
    REFERENCE_DAY_PARAM + (ordinal - Ordinal(REFERENCE_DATE))
  }

  lemma DivStep(y: int)
    requires y >= 1
    ensures y / 4 - (y - 1) / 4 == (if y % 4 == 0 then 1 else 0)
    ensures y / 100 - (y - 1) / 100 == (if y % 100 == 0 then 1 else 0)
    ensures y / 400 - (y - 1) / 400 == (if y % 400 == 0 then 1 else 0)
  {
  }

  /** Consecutive years are `DaysInYear` apart, leap years included. */
  lemma DaysBeforeNextYear(y: int)
    requires y >= 1
    ensures DaysBeforeYear(y + 1) == DaysBeforeYear(y) + DaysInYear(y)
  {
    DivStep(y);
    LeapDivisors(y);
    assert DaysBeforeYear(y + 1) == y * 365 + y / 4 - y / 100 + y / 400;
    assert DaysBeforeYear(y) == (y - 1) * 365 + (y - 1) / 4 - (y - 1) / 100 + (y - 1) / 400;
  }

  /** A multiple of 400 is a multiple of 100, and a multiple of 100 a multiple of 4. */
  lemma LeapDivisors(y: int)
    ensures y % 400 == 0 ==> y % 100 == 0
    ensures y % 100 == 0 ==> y % 4 == 0
  {
    if y % 400 == 0 {
      var k := y / 400;
      var m := 4 * k;
      assert y == 100 * m;
    }
    if y % 100 == 0 {
      var k := y / 100;
      var m := 25 * k;
      assert y == 4 * m;
    }
  }

  lemma {:induction false} DaysBeforeYearGrows(y1: int, y2: int)
    requires 1 <= y1 <= y2
    ensures DaysBeforeYear(y2) >= DaysBeforeYear(y1) + 365 * (y2 - y1)
    decreases y2 - y1
  {
    if y1 < y2 {
      DaysBeforeYearGrows(y1, y2 - 1);
      DaysBeforeNextYear(y2 - 1);
    }
  }

  /** The ordinal of a valid date lies inside its year's range. */
  lemma OrdinalWithinYear(d: Date)
    requires IsValidDate(d)
    ensures DaysBeforeYear(d.year) + 1 <= Ordinal(d) <= DaysBeforeYear(d.year) + DaysInYear(d.year)
  {
  }

  /** Advancing a date by one day advances its ordinal by exactly one, across month and year ends. */
  lemma OrdinalNextDay(d: Date)
    requires IsValidDate(d) && d != Date(MAX_YEAR, 12, 31)
    ensures Ordinal(NextDay(d)) == Ordinal(d) + 1
  {
    if d.day == DaysInMonth(d.year, d.month) && d.month == 12 {
      DaysBeforeNextYear(d.year);
    }
  }

  /** A month starts where the previous one ends. */
  lemma DaysBeforeNextMonth(y: int, m: int)
    requires 1 <= m < 12
    ensures DaysBeforeMonth(y, m + 1) == DaysBeforeMonth(y, m) + DaysInMonth(y, m)
  {
  }

  lemma {:induction false} DaysBeforeMonthGrows(y: int, m1: int, m2: int)
    requires 1 <= m1 < m2 <= 12
    ensures DaysBeforeMonth(y, m1) + DaysInMonth(y, m1) <= DaysBeforeMonth(y, m2)
    decreases m2 - m1
  {
    DaysBeforeNextMonth(y, m1);
    if m1 + 1 < m2 {
      DaysBeforeMonthGrows(y, m1 + 1, m2);
    }
  }

  /** Within one year, comparing ordinals is comparing (month, day). */
  lemma SameYearOrder(a: Date, b: Date)
    requires IsValidDate(a) && IsValidDate(b) && a.year == b.year
    ensures Before(a, b) <==> Ordinal(a) < Ordinal(b)
    ensures a == b <==> Ordinal(a) == Ordinal(b)
  {
    if a.month < b.month {
      DaysBeforeMonthGrows(a.year, a.month, b.month);
    } else if b.month < a.month {
      DaysBeforeMonthGrows(a.year, b.month, a.month);
    }
  }

  /** Comparing ordinals is comparing dates: the crawler's `current_date <= until_date` may use ordinals. */
  lemma OrdinalOrder(a: Date, b: Date)
    requires IsValidDate(a) && IsValidDate(b)
    ensures Before(a, b) <==> Ordinal(a) < Ordinal(b)
    ensures a == b <==> Ordinal(a) == Ordinal(b)
  {
    if a.year < b.year {
      EarlierYear(a, b);
    } else if b.year < a.year {
      EarlierYear(b, a);
    } else {
      SameYearOrder(a, b);
    }
  }

  /** Every date of an earlier year has a smaller ordinal. */
  lemma EarlierYear(a: Date, b: Date)
    requires IsValidDate(a) && IsValidDate(b) && a.year < b.year
    ensures Ordinal(a) < Ordinal(b)
  {
    OrdinalWithinYear(a);
    OrdinalWithinYear(b);
    DaysBeforeNextYear(a.year);
    DaysBeforeYearGrows(a.year + 1, b.year);
  }

  /** The day parameter of the reference date is the reference parameter. */
  lemma DayParamAtReference()
    ensures DayParam(Ordinal(REFERENCE_DATE)) == 5245
    ensures DayParam(Ordinal(Date(2022, 5, 12))) == 5246
    ensures DayParam(Ordinal(Date(2017, 1, 1))) == 3289
    ensures DayParam(Ordinal(Date(2022, 5, 28))) == 5262
  {
  }

  /** Going to the next day raises the day parameter by exactly one. */
  lemma DayParamNextDay(d: Date)
    requires IsValidDate(d) && d != Date(MAX_YEAR, 12, 31)
    ensures DayParam(Ordinal(NextDay(d))) == DayParam(Ordinal(d)) + 1
  {
    OrdinalNextDay(d);
  }

  /** The day parameter is strictly monotonic in the date. */
  lemma DayParamMonotonic(a: Date, b: Date)
    requires IsValidDate(a) && IsValidDate(b)
    ensures Before(a, b) <==> DayParam(Ordinal(a)) < DayParam(Ordinal(b))
  {
    OrdinalOrder(a, b);
  }
}
