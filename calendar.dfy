/** The proleptic Gregorian calendar as a day count. This stands in for the
    JavaScript `Date` object wherever the userscript uses one for a local
    calendar date: `new Date(y, m, d)` with its field normalisation,
    `setDate(getDate() + n)`, `getDay()` and the millisecond time value at
    local midnight. */
module Calendar {

  /** A calendar date; `month` is 1..12 (one more than `getMonth()`). */
  datatype Date = Date(year: int, month: int, day: int)

  /** The Gregorian leap rule: divisible by 400, or by 4 but not by 100. */
  predicate IsLeap(y: int)
  {
    y % 400 == 0 || (y % 100 != 0 && y % 4 == 0)
  }

  function MonthLength(y: int, m: int): (n: int)
    requires 1 <= m <= 12
    ensures 28 <= n <= 31
    ensures m == 2 ==> (n == 29 <==> IsLeap(y))
  {
    if m == 2 then (if IsLeap(y) then 29 else 28)
    else if m == 4 || m == 6 || m == 9 || m == 11 then 30
    else 31
  }

  predicate Valid(d: Date)
  {
    1 <= d.month <= 12 && 1 <= d.day <= MonthLength(d.year, d.month)
  }

  function YearLength(y: int): int
  {
    if IsLeap(y) then 366 else 365
  }

  /** Days from 0001-01-01 to January 1st of year `y`. */
  function DaysBeforeYear(y: int): int
  {
    var p := y - 1;
    365 * p + p / 4 - p / 100 + p / 400
  }

  /** Days from January 1st to the first of month `m`. */
  function DaysBeforeMonth(y: int, m: int): int
    requires 1 <= m <= 12
  {
    var common := [0, 31, 59, 90, 120, 151, 181, 212, 243, 273, 304, 334];
    common[m - 1] + (if m > 2 && IsLeap(y) then 1 else 0)
  }

  /** Days since 0001-01-01 (a Monday). */
  function DayNumber(d: Date): int
    requires Valid(d)
  {
    DaysBeforeYear(d.year) + DaysBeforeMonth(d.year, d.month) + d.day - 1
  }

  /** `new Date(y, m, d).getTime()` on a clock whose zero is local midnight of 0001-01-01. */
  function DayMs(d: Date): int
    requires Valid(d)
  {
    DayNumber(d) * 86400000
  }

  /** `getDay()`: 0 is Sunday. */
  function Weekday(d: Date): (w: int)
    requires Valid(d)
    ensures 0 <= w < 7
  {
    (DayNumber(d) + 1) % 7
  }

  function NextMonthFirst(d: Date): (r: Date)
    requires Valid(d)
    ensures Valid(r)
  {
    if d.month == 12 then Date(d.year + 1, 1, 1) else Date(d.year, d.month + 1, 1)
  }

  function PrevMonthLast(d: Date): (r: Date)
    requires Valid(d)
    ensures Valid(r)
  {
    if d.month == 1 then Date(d.year - 1, 12, 31)
    else Date(d.year, d.month - 1, MonthLength(d.year, d.month - 1))
  }

  /** `date.setDate(date.getDate() + n)`: moves `n` days, rolling over months and years. */
  function AddDays(d: Date, n: int): (r: Date)
    requires Valid(d)
    ensures Valid(r)
    decreases if n < 0 then -n else n
  {
    if n == 0 then d
    else if n > 0 then
      var ml := MonthLength(d.year, d.month);
      if d.day + n <= ml then Date(d.year, d.month, d.day + n)
      else AddDays(NextMonthFirst(d), n - (ml - d.day + 1))
    else
      if d.day + n >= 1 then Date(d.year, d.month, d.day + n)
      else AddDays(PrevMonthLast(d), n + d.day)
  }

  /** Stepping from `y - 1` to `y` raises `y / 4` exactly when 4 divides `y`; likewise for 100 and 400. */
  lemma DivStep4(y: int)
    ensures y / 4 == (y - 1) / 4 + (if y % 4 == 0 then 1 else 0)
  {
  }

  lemma DivStep100(y: int)
    ensures y / 100 == (y - 1) / 100 + (if y % 100 == 0 then 1 else 0)
  {
  }

  lemma DivStep400(y: int)
    ensures y / 400 == (y - 1) / 400 + (if y % 400 == 0 then 1 else 0)
  {
  }

  /** One year's worth of days separates consecutive New Year's Days. */
  lemma YearStep(y: int)
    ensures DaysBeforeYear(y + 1) == DaysBeforeYear(y) + YearLength(y)
  {
    DivStep4(y);
    DivStep100(y);
    DivStep400(y);
    Century(y);
  }

  /** A multiple of 400 is a multiple of 100, and a multiple of 100 one of 4. */
  lemma Century(y: int)
    ensures y % 100 == 0 ==> y % 4 == 0
    ensures y % 400 == 0 ==> y % 100 == 0
  {
    if y % 100 == 0 {
      var x := 25 * (y / 100);
      assert y == 4 * x;
    }
    if y % 400 == 0 {
      var x := 4 * (y / 400);
      assert y == 100 * x;
    }
  }

  /** The day after the last day of a month is the first of the next month. */
  lemma NextMonthFirstNumber(d: Date)
    requires Valid(d)
    ensures DayNumber(NextMonthFirst(d)) == DayNumber(d) - d.day + MonthLength(d.year, d.month) + 1
  {
    if d.month == 12 {
      YearStep(d.year);
    }
  }

  lemma PrevMonthLastNumber(d: Date)
    requires Valid(d)
    ensures DayNumber(PrevMonthLast(d)) == DayNumber(d) - d.day
  {
    if d.month == 1 {
      YearStep(d.year - 1);
    }
  }

  /** Adding `n` days yields a real date exactly `n` days later. */
  lemma {:induction false} AddDaysNumber(d: Date, n: int)
    requires Valid(d)
    ensures DayNumber(AddDays(d, n)) == DayNumber(d) + n
    decreases if n < 0 then -n else n
  {
    if n > 0 {
      var ml := MonthLength(d.year, d.month);
      if d.day + n > ml {
        var e, rest := NextMonthFirst(d), n - (ml - d.day + 1);
        assert AddDays(d, n) == AddDays(e, rest);
        NextMonthFirstNumber(d);
        AddDaysNumber(e, rest);
      }
    } else if n < 0 {
      if d.day + n < 1 {
        var e, rest := PrevMonthLast(d), n + d.day;
        assert AddDays(d, n) == AddDays(e, rest);
        PrevMonthLastNumber(d);
        AddDaysNumber(e, rest);
      }
    }
  }

  /** Adding days in two steps is adding them at once. */
  lemma AddDaysCompose(d: Date, a: int, b: int)
    requires Valid(d)
    ensures AddDays(AddDays(d, a), b) == AddDays(d, a + b)
  {
    var x, z := AddDays(d, a), AddDays(d, a + b);
    AddDaysNumber(d, a);
    AddDaysNumber(d, a + b);
    AddDaysTo(x, b, z);
  }

  /** The date `n` days on is the real date whose day number is `n` more. */
  lemma AddDaysTo(d: Date, n: int, r: Date)
    requires Valid(d) && Valid(r) && DayNumber(r) == DayNumber(d) + n
    ensures AddDays(d, n) == r
  {
    AddDaysNumber(d, n);
    DayNumberInjective(AddDays(d, n), r);
  }

  /** Every day of year `y` has a day number in [DaysBeforeYear(y), DaysBeforeYear(y + 1)). */
  lemma DayNumberInYear(d: Date)
    requires Valid(d)
    ensures DaysBeforeYear(d.year) <= DayNumber(d) < DaysBeforeYear(d.year + 1)
  {
    YearStep(d.year);
  }

  lemma {:induction false} DaysBeforeYearMonotone(a: int, b: int)
    requires a < b
    ensures DaysBeforeYear(a + 1) <= DaysBeforeYear(b)
    decreases b - a
  {
    if a + 1 < b {
      DaysBeforeYearMonotone(a + 1, b);
      YearStep(a + 1);
    }
  }

  /** Different real dates have different day numbers, so the day count loses nothing. */
  lemma DayNumberInjective(a: Date, b: Date)
    requires Valid(a) && Valid(b)
    requires DayNumber(a) == DayNumber(b)
    ensures a == b
  {
    DayNumberInYear(a);
    DayNumberInYear(b);
    if a.year < b.year {
      DaysBeforeYearMonotone(a.year, b.year);
    } else if b.year < a.year {
      DaysBeforeYearMonotone(b.year, a.year);
    }
    assert a.year == b.year;
    if a.month < b.month {
      MonthsApart(a.year, a.month, b.month);
    } else if b.month < a.month {
      MonthsApart(a.year, b.month, a.month);
    }
  }

  /** A month's days all come before the first of any later month. */
  lemma {:induction false} MonthsApart(y: int, m1: int, m2: int)
    requires 1 <= m1 < m2 <= 12
    ensures DaysBeforeMonth(y, m1) + MonthLength(y, m1) <= DaysBeforeMonth(y, m2)
    decreases m2 - m1
  {
    if m1 + 1 < m2 {
      MonthsApart(y, m1 + 1, m2);
      MonthNext(y, m1);
    } else {
      MonthNext(y, m1);
    }
  }

  lemma MonthNext(y: int, m: int)
    requires 1 <= m < 12
    ensures DaysBeforeMonth(y, m + 1) == DaysBeforeMonth(y, m) + MonthLength(y, m)
  {
  }

  /** Later dates (in year, month, day order) have larger day numbers. */
  lemma DayNumberOrder(a: Date, b: Date)
    requires Valid(a) && Valid(b)
    requires a.year < b.year || (a.year == b.year && (a.month < b.month || (a.month == b.month && a.day < b.day)))
    ensures DayNumber(a) < DayNumber(b)
  {
    DayNumberInYear(a);
    DayNumberInYear(b);
    if a.year < b.year {
      DaysBeforeYearMonotone(a.year, b.year);
    }
  }

  /** A week after any day falls on the same weekday; the next day is the next weekday. */
  lemma WeekdayAddDays(d: Date, n: int)
    requires Valid(d)
    ensures Weekday(AddDays(d, n)) == (Weekday(d) + n) % 7
  {
    AddDaysNumber(d, n);
    ModSeven(DayNumber(d) + 1, n);
  }

  lemma ModSeven(x: int, n: int)
    ensures (x + n) % 7 == (x % 7 + n) % 7
  {
  }
}
