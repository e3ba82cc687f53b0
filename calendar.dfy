/** Proleptic Gregorian calendar arithmetic with the meaning of Python's
    `datetime`: day ordinals (`date.toordinal`, 0001-01-01 is day 1), their
    inverse (`date.fromordinal`) and week days (Monday is 0). */
module Calendar {

  const MinYear := 1
  const MaxYear := 9999

  datatype Date = Date(year: int, month: int, day: int)

  datatype DateTime = DateTime(date: Date, hour: int, minute: int, second: int)

  predicate IsLeap(y: int)
  {
    y % 4 == 0 && (y % 100 != 0 || y % 400 == 0)
  }

  function DaysInYear(y: int): int
  {
    if IsLeap(y) then 366 else 365
  }

  function DaysInMonth(y: int, m: int): int
    requires 1 <= m <= 12
  {
    if m == 2 then (if IsLeap(y) then 29 else 28)
    else if m == 4 || m == 6 || m == 9 || m == 11 then 30
    else 31
  }

  /** Days of year `y` that come before the first of month `m` (13 = whole year). */
  function DaysBeforeMonth(y: int, m: int): int
    requires 1 <= m <= 13
  {
    [0, 31, 59, 90, 120, 151, 181, 212, 243, 273, 304, 334, 365][m - 1]
    + (if m > 2 && IsLeap(y) then 1 else 0)
  }

  /** Days in all years before year `y`. */
  function DaysBeforeYear(y: int): int
    requires y >= 1
  {
    if y == 1 then 0 else DaysBeforeYear(y - 1) + DaysInYear(y - 1)
  }

  /** A year is one day longer than 365 exactly when it adds one to the
      count of leap years before it. */
  lemma LeapCountStep(p: int)
    requires p >= 1
    ensures DaysInYear(p) == 365 + (p / 4 - (p - 1) / 4) - (p / 100 - (p - 1) / 100) + (p / 400 - (p - 1) / 400)
  {
    FloorStep4(p);
    FloorStep100(p);
    FloorStep400(p);
  }

  lemma FloorStep4(p: int)
    ensures p / 4 - (p - 1) / 4 == (if p % 4 == 0 then 1 else 0)
  {
  }

  lemma FloorStep100(p: int)
    ensures p / 100 - (p - 1) / 100 == (if p % 100 == 0 then 1 else 0)
  {
  }

  lemma FloorStep400(p: int)
    ensures p / 400 - (p - 1) / 400 == (if p % 400 == 0 then 1 else 0)
  {
  }

  /** Python's closed form for the days before a year (`_days_before_year`)
      counts the same days as adding up the year lengths. */
  lemma {:induction false} DaysBeforeYearClosedForm(y: int)
    requires y >= 1
    ensures var p := y - 1; DaysBeforeYear(y) == 365 * p + p / 4 - p / 100 + p / 400
  {
    if y > 1 {
      DaysBeforeYearClosedForm(y - 1);
      LeapCountStep(y - 1);
    }
  }

  predicate ValidDate(d: Date)
  {
    MinYear <= d.year <= MaxYear && 1 <= d.month <= 12 && 1 <= d.day <= DaysInMonth(d.year, d.month)
  }

  predicate ValidDateTime(t: DateTime)
  {
    ValidDate(t.date) && 0 <= t.hour < 24 && 0 <= t.minute < 60 && 0 <= t.second < 60
  }

  /** Python's `date.toordinal()`. */
  function ToOrdinal(d: Date): int
    requires ValidDate(d)
  {
    DaysBeforeYear(d.year) + DaysBeforeMonth(d.year, d.month) + d.day
  }

  /** The ordinal of 9999-12-31, the last day Python can represent. */
  const MaxOrdinal := 3652059

  lemma MaxOrdinalEndsYear9999()
    ensures DaysBeforeYear(MaxYear + 1) == MaxOrdinal
  {
    DaysBeforeYearClosedForm(MaxYear + 1);
  }

  lemma DaysBeforeYearStep(y: int)
    requires y >= 1
    ensures DaysBeforeYear(y + 1) == DaysBeforeYear(y) + DaysInYear(y)
  {
  }

  lemma {:induction false} DaysBeforeYearMonotonic(a: int, b: int)
    requires 1 <= a <= b
    ensures DaysBeforeYear(a) <= DaysBeforeYear(b)
    ensures a < b ==> DaysBeforeYear(a + 1) <= DaysBeforeYear(b)
    decreases b - a
  {
    if a < b {
      DaysBeforeYearStep(a);
      DaysBeforeYearMonotonic(a + 1, b);
    }
  }

  lemma DaysBeforeMonthStep(y: int, m: int)
    requires 1 <= m <= 12
    ensures DaysBeforeMonth(y, m + 1) == DaysBeforeMonth(y, m) + DaysInMonth(y, m)
    ensures DaysBeforeMonth(y, 13) == DaysInYear(y)
  {
  }

  lemma {:induction false} DaysBeforeMonthMonotonic(y: int, a: int, b: int)
    requires 1 <= a <= b <= 13
    ensures DaysBeforeMonth(y, a) <= DaysBeforeMonth(y, b)
    decreases b - a
  {
    if a < b {
      DaysBeforeMonthStep(y, a);
      DaysBeforeMonthMonotonic(y, a + 1, b);
    }
  }

  /** The year that holds day `n`, searched upwards from year `y`. */
  function YearFrom(n: int, y: int): (r: int)
    requires y >= 1 && DaysBeforeYear(y) < n
    ensures r >= y && DaysBeforeYear(r) < n <= DaysBeforeYear(r + 1)
    decreases n - DaysBeforeYear(y)
  {
    DaysBeforeYearStep(y);
    if n <= DaysBeforeYear(y + 1) then y else YearFrom(n, y + 1)
  }

  /** The month of year `y` that holds day `r` of the year, searched upwards from `m`. */
  function MonthFrom(y: int, r: int, m: int): (res: int)
    requires 1 <= m <= 12 && DaysBeforeMonth(y, m) < r <= DaysInYear(y)
    ensures m <= res <= 12 && DaysBeforeMonth(y, res) < r <= DaysBeforeMonth(y, res + 1)
    decreases 12 - m
  {
    DaysBeforeMonthStep(y, m);
    if r <= DaysBeforeMonth(y, m + 1) then m else MonthFrom(y, r, m + 1)
  }

  /** Python's `date.fromordinal(n)`: the date whose ordinal is `n`. */
  function FromOrdinal(n: int): (d: Date)
    requires 1 <= n <= MaxOrdinal
    ensures ValidDate(d) && ToOrdinal(d) == n
  {
    assert DaysBeforeYear(1) == 0;
    var y := YearFrom(n, 1);
    DaysBeforeYearStep(y);
    assert y <= MaxYear by {
      MaxOrdinalEndsYear9999();
      if y > MaxYear {
        DaysBeforeYearMonotonic(MaxYear + 1, y);
      }
    }
    var m := MonthFrom(y, n - DaysBeforeYear(y), 1);
    DaysBeforeMonthStep(y, m);
    Date(y, m, n - DaysBeforeYear(y) - DaysBeforeMonth(y, m))
  }

  /** Every valid date has an ordinal in range, inside its own year. */
  lemma OrdinalBounds(d: Date)
    requires ValidDate(d)
    ensures DaysBeforeYear(d.year) < ToOrdinal(d) <= DaysBeforeYear(d.year + 1)
    ensures 1 <= ToOrdinal(d) <= MaxOrdinal
  {
    DaysBeforeMonthStep(d.year, d.month);
    DaysBeforeYearStep(d.year);
    DaysBeforeYearMonotonic(1, d.year);
    DaysBeforeYearMonotonic(d.year + 1, MaxYear + 1);
    MaxOrdinalEndsYear9999();
  }

  lemma {:induction false} YearFromUnique(n: int, y: int, t: int)
    requires 1 <= y <= t && DaysBeforeYear(y) < n
    requires DaysBeforeYear(t) < n <= DaysBeforeYear(t + 1)
    ensures YearFrom(n, y) == t
  {
    var r := YearFrom(n, y);
    if r < t {
      DaysBeforeYearMonotonic(r, t);
    } else if r > t {
      DaysBeforeYearMonotonic(t, r);
    }
  }

  lemma {:induction false} MonthFromUnique(y: int, r: int, m: int, t: int)
    requires 1 <= m <= t <= 12 && DaysBeforeMonth(y, m) < r <= DaysInYear(y)
    requires DaysBeforeMonth(y, t) < r <= DaysBeforeMonth(y, t + 1)
    ensures MonthFrom(y, r, m) == t
  {
    var res := MonthFrom(y, r, m);
    if res < t {
      DaysBeforeMonthMonotonic(y, res + 1, t);
    } else if res > t {
      DaysBeforeMonthMonotonic(y, t + 1, res);
    }
  }

  /** Ordinals name dates one-to-one: `fromordinal(toordinal(d)) == d`. */
  lemma FromToOrdinal(d: Date)
    requires ValidDate(d)
    ensures 1 <= ToOrdinal(d) <= MaxOrdinal
    ensures FromOrdinal(ToOrdinal(d)) == d
  {
    var n := ToOrdinal(d);
    OrdinalBounds(d);
    assert DaysBeforeYear(1) == 0;
    YearFromUnique(n, 1, d.year);
    DaysBeforeMonthStep(d.year, d.month);
    MonthFromUnique(d.year, n - DaysBeforeYear(d.year), 1, d.month);
  }

  /** Two valid dates with the same ordinal are the same date. */
  lemma OrdinalInjective(a: Date, b: Date)
    requires ValidDate(a) && ValidDate(b) && ToOrdinal(a) == ToOrdinal(b)
    ensures a == b
  {
    FromToOrdinal(a);
    FromToOrdinal(b);
  }

  /** Python's `date.weekday()`: Monday is 0 and Sunday is 6. */
  function Weekday(d: Date): (w: int)
    requires ValidDate(d)
    ensures 0 <= w <= 6
  {
    (ToOrdinal(d) + 6) % 7
  }

  /** 1 January of any year falls on the weekday of the Gregorian rule
      `(p + p/4 - p/100 + p/400) % 7`, `p` the years before it: Monday for
      year 1 and for 2024 (2513 % 7 == 0), as Python's calendar has it. */
  lemma NewYearWeekday(y: int)
    requires MinYear <= y <= MaxYear
    ensures var p := y - 1; Weekday(Date(y, 1, 1)) == (p + p / 4 - p / 100 + p / 400) % 7
  {
    DaysBeforeYearClosedForm(y);
    var p := y - 1;
    var x := p + p / 4 - p / 100 + p / 400;
    var k := 52 * p + 1;
    assert ToOrdinal(Date(y, 1, 1)) == DaysBeforeYear(y) + 1;
    assert 365 * p + 7 == p + 7 * k;
    ModMultiple(x, k);
  }

  /** Adding whole weeks keeps the day of the week. */
  lemma ModMultiple(x: int, k: int)
    ensures (x + 7 * k) % 7 == x % 7
  {
  }
}
