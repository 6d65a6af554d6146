/**
 The UTC calendar behind `Date` (sections 21.4.1.3 to 21.4.1.13 of ECMA-262), on unbounded
 integers. An instant is a count of milliseconds since the epoch and a day is a count of days.
 */
module Calendar {
  const DAY_MS := 86_400_000

  predicate Leap(y: int) {
    y % 4 == 0 && (y % 100 != 0 || y % 400 == 0)
  }

  function DaysInYear(y: int): int {
    if Leap(y) then 366 else 365
  }

  /** The day on which year `y` starts, counted year by year from 1970. */
  function DayFromYear(y: int): int
    decreases if y >= 1970 then y - 1970 else 1970 - y
  {
    if y == 1970 then 0
    else if y > 1970 then DayFromYear(y - 1) + DaysInYear(y - 1)
    else DayFromYear(y + 1) - DaysInYear(y)
  }

  /** Months count from 0, as in JavaScript. */
  type Month = m: int | 0 <= m < 12

  function DaysInMonth(y: int, m: Month): int {
    if m == 1 then if Leap(y) then 29 else 28
    else if m == 3 || m == 5 || m == 8 || m == 10 then 30 else 31
  }

  function DaysBeforeMonth(y: int, m: Month): int {
    if m == 0 then 0 else DaysBeforeMonth(y, m - 1) + DaysInMonth(y, m - 1)
  }

  datatype Civil = Civil(year: int, month: int, date: int) {
    predicate Valid() {
      0 <= month < 12 && 1 <= date <= DaysInMonth(year, month)
    }

    predicate Before(that: Civil) {
      || year < that.year
      || (year == that.year && month < that.month)
      || (year == that.year && month == that.month && date < that.date)
    }
  }

  function DayOf(c: Civil): int
    requires 0 <= c.month < 12
  {
    DayFromYear(c.year) + DaysBeforeMonth(c.year, c.month) + c.date - 1
  }

  /** MakeDay: month and date may lie outside their usual ranges and carry over. */
  function MakeDay(y: int, m: int, d: int): int {
    DayOf(Civil(y + m / 12, m % 12, d))
  }

  /** The closed form of section 21.4.1.3. */
  function DayFromYearFormula(y: int): int {
    365 * (y - 1970) + (y - 1969) / 4 - (y - 1901) / 100 + (y - 1601) / 400
  }

  /** The closed form counts the same days. */
  lemma {:induction false} DayFromYearClosedForm(y: int)
    ensures DayFromYear(y) == DayFromYearFormula(y)
    decreases if y >= 1970 then y - 1970 else 1970 - y
  {
    if y > 1970 {
      DayFromYearClosedForm(y - 1);
      FormulaStep(y - 1);
    } else if y < 1970 {
      DayFromYearClosedForm(y + 1);
      FormulaStep(y);
    }
  }

  function One(b: bool): int {
    if b then 1 else 0
  }

  lemma {:induction false} DaysInYearCounts(y: int)
    ensures DaysInYear(y) == 365 + One(y % 4 == 0) - One(y % 100 == 0) + One(y % 400 == 0)
  {
    if y % 400 == 0 {
      FourHundredsAreHundreds(y);
    }
    if y % 100 == 0 {
      HundredsAreFours(y);
    }
  }

  lemma {:induction false} HundredsAreFours(y: int)
    requires y % 100 == 0
    ensures y % 4 == 0
  {
    assert y == 4 * (25 * (y / 100));
  }

  lemma {:induction false} FourHundredsAreHundreds(y: int)
    requires y % 400 == 0
    ensures y % 100 == 0
  {
    assert y == 100 * (4 * (y / 400));
  }

  lemma {:induction false} FormulaStep(y: int)
    ensures DayFromYearFormula(y + 1) == DayFromYearFormula(y) + DaysInYear(y)
  {
    DaysInYearCounts(y);
    FoursCounted(y - 1968);
    HundredsCounted(y - 1900);
    FourHundredsCounted(y - 1600);
    ShiftedRemainders(y);
  }

  lemma {:induction false} ShiftedRemainders(y: int)
    ensures (y - 1968) % 4 == y % 4 && (y - 1900) % 100 == y % 100 && (y - 1600) % 400 == y % 400
  {
    assert y - 1968 == 4 * (y / 4 - 492) + y % 4;
    assert y - 1900 == 100 * (y / 100 - 19) + y % 100;
    assert y - 1600 == 400 * (y / 400 - 4) + y % 400;
  }

  lemma {:induction false} FoursCounted(n: int)
    ensures n / 4 - (n - 1) / 4 == One(n % 4 == 0)
  {
  }

  lemma {:induction false} HundredsCounted(n: int)
    ensures n / 100 - (n - 1) / 100 == One(n % 100 == 0)
  {
  }

  lemma {:induction false} FourHundredsCounted(n: int)
    ensures n / 400 - (n - 1) / 400 == One(n % 400 == 0)
  {
  }

  lemma {:induction false} YearLength(y: int)
    ensures DayFromYear(y + 1) == DayFromYear(y) + DaysInYear(y)
  {
  }

  lemma {:induction false} MonthsFillYear(y: int)
    ensures DaysBeforeMonth(y, 11) + DaysInMonth(y, 11) == DaysInYear(y)
  {
    assert DaysBeforeMonth(y, 1) == 31;
    assert DaysBeforeMonth(y, 2) == DaysInYear(y) - 306;
    assert DaysBeforeMonth(y, 4) == DaysInYear(y) - 245;
    assert DaysBeforeMonth(y, 6) == DaysInYear(y) - 184;
    assert DaysBeforeMonth(y, 8) == DaysInYear(y) - 122;
    assert DaysBeforeMonth(y, 10) == DaysInYear(y) - 61;
  }

  /** The day of the year on which each month starts in a common year: the table of section 21.4.1.4. */
  const MONTH_STARTS := [0, 31, 59, 90, 120, 151, 181, 212, 243, 273, 304, 334]

  /** The months counted one after the other start where the table says, a day later from March on in a leap year. */
  lemma {:induction false} MonthStartsByTable(y: int, m: Month)
    ensures DaysBeforeMonth(y, m) == MONTH_STARTS[m] + One(m >= 2 && y % 4 == 0 && (y % 100 != 0 || y % 400 == 0))
    decreases m
  {
    if m > 0 {
      MonthStartsByTable(y, m - 1);
    }
  }

  lemma {:induction false} MonthsAscend(y: int, m: Month, n: Month)
    requires m < n
    ensures DaysBeforeMonth(y, m) + DaysInMonth(y, m) <= DaysBeforeMonth(y, n)
    decreases n - m
  {
    if m + 1 < n {
      MonthsAscend(y, m, n - 1);
    }
  }

  lemma {:induction false} YearsAscend(y: int, z: int)
    requires y < z
    ensures DayFromYear(y) + DaysInYear(y) <= DayFromYear(z)
    decreases z - y
  {
    YearLength(y);
    if y + 1 < z {
      YearsAscend(y + 1, z);
    }
  }

  lemma {:induction false} DateInYear(c: Civil)
    requires c.Valid()
    ensures DayFromYear(c.year) <= DayOf(c) < DayFromYear(c.year) + DaysInYear(c.year)
  {
    MonthsFillYear(c.year);
    MonthStartsInYear(c.year, c.month);
    if c.month < 11 {
      MonthsAscend(c.year, c.month, 11);
    }
  }

  lemma {:induction false} MonthStartsInYear(y: int, m: Month)
    ensures 0 <= DaysBeforeMonth(y, m)
  {
    if m > 0 {
      MonthStartsInYear(y, m - 1);
    }
  }

  lemma {:induction false} DatesAscend(c: Civil, e: Civil)
    requires c.Valid() && e.Valid() && c.Before(e)
    ensures DayOf(c) < DayOf(e)
  {
    if c.year < e.year {
      DateInYear(c);
      DateInYear(e);
      YearsAscend(c.year, e.year);
    } else if c.month < e.month {
      MonthsAscend(c.year, c.month, e.month);
    }
  }

  /** Day numbers order real dates as the calendar does, and so no two dates share a day. */
  lemma {:induction false} DaysFollowDates(c: Civil, e: Civil)
    requires c.Valid() && e.Valid()
    ensures DayOf(c) < DayOf(e) <==> c.Before(e)
    ensures DayOf(c) == DayOf(e) <==> c == e
  {
    if c.Before(e) {
      DatesAscend(c, e);
    } else if e.Before(c) {
      DatesAscend(e, c);
    }
  }

  /** YearFromTime: the year that contains the day, found by moving year by year from `y`. */
  function YearOfDay(day: int, y: int): (r: int)
    ensures DayFromYear(r) <= day < DayFromYear(r) + DaysInYear(r)
    decreases if day < DayFromYear(y) then DayFromYear(y) - day else day - DayFromYear(y),
              if day < DayFromYear(y) then 1 else 0
  {
    YearLength(y);
    YearLength(y - 1);
    if day < DayFromYear(y) then YearBack(day, y - 1)
    else if day < DayFromYear(y) + DaysInYear(y) then y
    else YearOfDay(day, y + 1)
  }

  function YearBack(day: int, y: int): (r: int)
    requires day < DayFromYear(y + 1)
    ensures DayFromYear(r) <= day < DayFromYear(r) + DaysInYear(r)
    decreases DayFromYear(y + 1) - day, 0
  {
    YearLength(y);
    if DayFromYear(y) <= day then y else YearBack(day, y - 1)
  }

  function MonthOfDay(y: int, n: int, m: Month): (r: Month)
    requires DaysBeforeMonth(y, m) <= n < DaysInYear(y)
    ensures DaysBeforeMonth(y, r) <= n < DaysBeforeMonth(y, r) + DaysInMonth(y, r)
    decreases 12 - m
  {
    MonthsFillYear(y);
    if m < 11 && DaysBeforeMonth(y, m + 1) <= n then MonthOfDay(y, n, m + 1) else m
  }

  /** The year, month and date that `getUTCFullYear`, `getUTCMonth` and `getUTCDate` report. */
  function CivilOf(day: int): (c: Civil)
    ensures c.Valid() && DayOf(c) == day
  {
    var y := YearOfDay(day, 1970);
    var m := MonthOfDay(y, day - DayFromYear(y), 0);
    Civil(y, m, day - DayFromYear(y) - DaysBeforeMonth(y, m) + 1)
  }

  lemma {:induction false} CivilOfDayOf(c: Civil)
    requires c.Valid()
    ensures CivilOf(DayOf(c)) == c
  {
    DaysFollowDates(CivilOf(DayOf(c)), c);
  }

  function AddDays(t: int, days: int): int {
    t + days * DAY_MS
  }

  /** `setUTCMonth(getUTCMonth() + 1)`. */
  function AddMonth(t: int): int {
    var c := CivilOf(t / DAY_MS);
    MakeDay(c.year, c.month + 1, c.date) * DAY_MS + t % DAY_MS
  }

  /** `setUTCFullYear(getUTCFullYear() + 1)`. */
  function AddYear(t: int): int {
    var c := CivilOf(t / DAY_MS);
    MakeDay(c.year + 1, c.month, c.date) * DAY_MS + t % DAY_MS
  }

  function NextMonth(c: Civil): Civil {
    if c.month == 11 then Civil(c.year + 1, 0, c.date) else c.(month := c.month + 1)
  }

  lemma {:induction false} NextMonthStarts(c: Civil)
    requires 0 <= c.month < 12
    ensures MakeDay(c.year, c.month + 1, c.date) == DayOf(NextMonth(c)) == DayOf(c) + DaysInMonth(c.year, c.month)
  {
    if c.month == 11 {
      YearLength(c.year);
      MonthsFillYear(c.year);
    }
  }

  lemma {:induction false} DayAndTime(t: int, d: int)
    ensures (d * DAY_MS + t % DAY_MS) / DAY_MS == d
    ensures (d * DAY_MS + t % DAY_MS) % DAY_MS == t % DAY_MS
    ensures t == t / DAY_MS * DAY_MS + t % DAY_MS
  {
  }

  /** A month added is exactly the length of the month it starts in. */
  lemma {:induction false} AddMonthSpan(t: int)
    ensures var c := CivilOf(t / DAY_MS); AddMonth(t) == AddDays(t, DaysInMonth(c.year, c.month))
    ensures AddDays(t, 28) <= AddMonth(t) <= AddDays(t, 31)
  {
    NextMonthStarts(CivilOf(t / DAY_MS));
    DayAndTime(t, 0);
  }

  /** Adding a month keeps two instants in order if and only if they are as far apart as the earlier month is longer. */
  lemma {:induction false} AddMonthKeepsOrder(s: int, t: int)
    requires s <= t
    ensures var c, e := CivilOf(s / DAY_MS), CivilOf(t / DAY_MS);
            AddMonth(s) <= AddMonth(t)
            <==> (DaysInMonth(c.year, c.month) - DaysInMonth(e.year, e.month)) * DAY_MS <= t - s
  {
    AddMonthSpan(s);
    AddMonthSpan(t);
  }

  lemma {:induction false} FirstMonths(y: int)
    requires !Leap(y)
    ensures DaysBeforeMonth(y, 0) == 0 && DaysBeforeMonth(y, 1) == 31 && DaysBeforeMonth(y, 2) == 59
    ensures DaysInMonth(y, 0) == 31 && DaysInMonth(y, 1) == 28
  {
  }

  lemma {:induction false} AddMonthToDay(c: Civil)
    requires c.Valid()
    ensures AddMonth(DayOf(c) * DAY_MS) == (DayOf(c) + DaysInMonth(c.year, c.month)) * DAY_MS
  {
    assert DayOf(c) * DAY_MS / DAY_MS == DayOf(c);
    CivilOfDayOf(c);
    AddMonthSpan(DayOf(c) * DAY_MS);
  }

  /** It does not keep them so for the last of January and the first of February of a common year. */
  lemma {:induction false} JanuaryOvertakesFebruary(y: int)
    requires !Leap(y)
    ensures var s, t := DayOf(Civil(y, 0, 31)) * DAY_MS, DayOf(Civil(y, 1, 1)) * DAY_MS;
            && s < t && AddMonth(t) < AddMonth(s)
            && AddMonth(s) == DayOf(Civil(y, 2, 3)) * DAY_MS && AddMonth(t) == DayOf(Civil(y, 2, 1)) * DAY_MS
  {
    FirstMonths(y);
    AddMonthToDay(Civil(y, 0, 31));
    AddMonthToDay(Civil(y, 1, 1));
  }

  /** Where that lands: the same date when the next month has it, else as many days past that month's end. */
  lemma {:induction false} AddMonthLandsOn(t: int)
    ensures AddMonth(t) % DAY_MS == t % DAY_MS
    ensures var n := NextMonth(CivilOf(t / DAY_MS));
            CivilOf(AddMonth(t) / DAY_MS) ==
            if n.Valid() then n else NextMonth(n).(date := n.date - DaysInMonth(n.year, n.month))
  {
    var c := CivilOf(t / DAY_MS);
    NextMonthStarts(c);
    DayAndTime(t, DayOf(NextMonth(c)));
    NextMonthDate(c);
  }

  lemma {:induction false} NextMonthDate(c: Civil)
    requires c.Valid()
    ensures var n := NextMonth(c);
            CivilOf(DayOf(n)) ==
            if n.Valid() then n else NextMonth(n).(date := n.date - DaysInMonth(n.year, n.month))
  {
    var n := NextMonth(c);
    if n.Valid() {
      CivilOfDayOf(n);
    } else {
      NextMonthStarts(n);
      CivilOfDayOf(NextMonth(n).(date := n.date - DaysInMonth(n.year, n.month)));
    }
  }

  lemma {:induction false} MonthsOfTwoYears(y: int, m: Month)
    ensures DaysBeforeMonth(y + 1, m) - DaysBeforeMonth(y, m)
         == if m < 2 then 0 else DaysInYear(y + 1) - DaysInYear(y)
  {
    if m > 0 {
      MonthsOfTwoYears(y, m - 1);
    }
  }

  /** A year added is 366 days exactly when the twelve months from the start of `t`'s month hold a 29 February. */
  lemma {:induction false} AddYearSpan(t: int)
    ensures var c := CivilOf(t / DAY_MS);
            AddYear(t) == AddDays(t, DaysInYear(if c.month < 2 then c.year else c.year + 1))
    ensures AddDays(t, 365) <= AddYear(t) <= AddDays(t, 366)
    ensures t < AddMonth(t) < AddYear(t)
  {
    var c := CivilOf(t / DAY_MS);
    YearLength(c.year);
    MonthsOfTwoYears(c.year, c.month);
    assert MakeDay(c.year + 1, c.month, c.date) == DayOf(Civil(c.year + 1, c.month, c.date));
    DayAndTime(t, 0);
    AddMonthSpan(t);
  }
}
