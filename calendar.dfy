/** Calendar arithmetic behind the period keys: proleptic Gregorian dates,
    day ordinals (day 1 is Monday 0001-01-01) and ISO 8601 week dates. */
module Calendar {

  datatype Date = Date(year: int, month: int, day: int)

  predicate IsLeapYear(y: int) {
    y % 4 == 0 && (y % 100 != 0 || y % 400 == 0)
  }

  function DaysInYear(y: int): int {
    if IsLeapYear(y) then 366 else 365
  }

  function DaysInMonth(y: int, m: int): (n: int)
    requires 1 <= m <= 12
    ensures 28 <= n <= 31
    ensures n == 29 <==> m == 2 && IsLeapYear(y)
  {
    if m == 2 then (if IsLeapYear(y) then 29 else 28)
    else if m == 4 || m == 6 || m == 9 || m == 11 then 30
    else 31
  }

  /** A date the date picker can produce: years 1 to 9999 as in Python's `date`. */
  predicate ValidDate(d: Date) {
    1 <= d.year <= 9999 && 1 <= d.month <= 12 && 1 <= d.day <= DaysInMonth(d.year, d.month)
  }

  type CalendarDate = d: Date | ValidDate(d) witness Date(1970, 1, 1)

  /** Days in the years 1 .. y-1. */
  function DaysBeforeYear(y: int): int {
    var p := y - 1;
    p * 365 + p / 4 - p / 100 + p / 400
  }

  /** Days in the months 1 .. m-1 of year y. */
  function DaysBeforeMonth(y: int, m: int): (n: int)
    requires 1 <= m <= 12
    ensures m == 1 ==> n == 0
    ensures n + DaysInMonth(y, m) <= DaysInYear(y)
  {
    [0, 31, 59, 90, 120, 151, 181, 212, 243, 273, 304, 334][m - 1]
      + (if m > 2 && IsLeapYear(y) then 1 else 0)
  }

  /** Each month adds its own length, and December ends exactly at the end of the year. */
  lemma MonthStep(y: int, m: int)
    requires 1 <= m <= 12
    ensures m < 12 ==> DaysBeforeMonth(y, m + 1) == DaysBeforeMonth(y, m) + DaysInMonth(y, m)
    ensures m == 12 ==> DaysBeforeMonth(y, m) + DaysInMonth(y, m) == DaysInYear(y)
  {
  }

  /** Stepping p to p + 1 passes a multiple of 4, 100 or 400 exactly when p + 1 is one. */
  lemma MultiplesStep(p: int)
    ensures (p + 1) / 4 == p / 4 + (if (p + 1) % 4 == 0 then 1 else 0)
    ensures (p + 1) / 100 == p / 100 + (if (p + 1) % 100 == 0 then 1 else 0)
    ensures (p + 1) / 400 == p / 400 + (if (p + 1) % 400 == 0 then 1 else 0)
  {
    var q4, q100, q400 := p / 4, p / 100, p / 400;
    assert p == 4 * q4 + p % 4;
    assert p == 100 * q100 + p % 100;
    assert p == 400 * q400 + p % 400;
  }

  /** A multiple of 400 is a multiple of 100, and a multiple of 100 one of 4. */
  lemma MultiplesNest(y: int)
    ensures y % 400 == 0 ==> y % 100 == 0
    ensures y % 100 == 0 ==> y % 4 == 0
  {
    var q400, q100, q4 := y / 400, y / 100, y / 4;
    assert y == 400 * q400 + y % 400;
    assert y == 100 * q100 + y % 100;
    assert y == 4 * q4 + y % 4;
    if y % 400 == 0 {
      assert 100 * (4 * q400 - q100) == y % 100;
    }
    if y % 100 == 0 {
      assert 4 * (25 * q100 - q4) == y % 4;
    }
  }

  /** Each year contributes exactly its own length to the day count. */
  lemma YearLength(y: int)
    ensures DaysBeforeYear(y + 1) == DaysBeforeYear(y) + DaysInYear(y)
  {
    var p := y - 1;
    MultiplesStep(p);
    MultiplesNest(y);
    var leaps := (if y % 4 == 0 then 1 else 0) - (if y % 100 == 0 then 1 else 0) + (if y % 400 == 0 then 1 else 0);
    assert DaysInYear(y) == 365 + leaps;
    assert DaysBeforeYear(y + 1) == p * 365 + 365 + (p + 1) / 4 - (p + 1) / 100 + (p + 1) / 400;
  }

  /** The day number of a date; consecutive days have consecutive numbers (OrdinalNextDay). */
  function Ordinal(d: CalendarDate): (n: int)
    ensures DaysBeforeYear(d.year) < n <= DaysBeforeYear(d.year) + DaysInYear(d.year)
    ensures n == DaysBeforeYear(d.year) + d.day <==> d.month == 1
  {
    DaysBeforeYear(d.year) + DaysBeforeMonth(d.year, d.month) + d.day
  }

  /** The calendar day after d; 9999-12-31 is the last day there is. */
  function NextDay(d: CalendarDate): (e: CalendarDate)
    requires d != Date(9999, 12, 31)
    ensures e.year == d.year || e == Date(d.year + 1, 1, 1)
  {
    if d.day < DaysInMonth(d.year, d.month) then Date(d.year, d.month, d.day + 1)
    else if d.month < 12 then Date(d.year, d.month + 1, 1)
    else Date(d.year + 1, 1, 1)
  }

  /** The day after d has the next day number. */
  lemma OrdinalNextDay(d: CalendarDate)
    requires d != Date(9999, 12, 31)
    ensures Ordinal(NextDay(d)) == Ordinal(d) + 1
  {
    MonthStep(d.year, d.month);
    if d.day == DaysInMonth(d.year, d.month) && d.month == 12 {
      YearLength(d.year);
    }
  }

  /** Day of the week of a day number: 0 is Monday, 3 Thursday, 6 Sunday. */
  function Weekday(n: int): (w: int)
    ensures 0 <= w < 7
  {
    (n + 6) % 7
  }

  /** Going back to the start of a week lands on a Monday. */
  lemma MondayOfWeek(n: int)
    ensures Weekday(n - Weekday(n)) == 0
  {
    var q, r := (n + 6) / 7, (n + 6) % 7;
    assert n + 6 == 7 * q + r;
    assert n - r + 6 == 7 * q + 0;
  }

  /** Counting from a Monday, the offset within the week is the weekday. */
  lemma OffsetFromMonday(m: int, n: int)
    requires Weekday(m) == 0
    ensures (n - m) % 7 == Weekday(n)
  {
    var q, r := (m + 6) / 7, (n - m) / 7;
    assert m + 6 == 7 * q;
    assert n - m == 7 * r + (n - m) % 7;
    assert n + 6 == 7 * (q + r) + (n - m) % 7;
  }

  lemma WeekdayShift(n: int)
    ensures Weekday(n + 7) == Weekday(n)
  {
    assert n + 7 + 6 == (n + 6) + 7 * 1;
  }

  /** Day number of the Monday that starts ISO week 1 of year y: the week
      whose Thursday is the first Thursday of January. */
  function Week1Monday(y: int): (r: int)
    ensures Weekday(r) == 0
    ensures DaysBeforeYear(y) + 1 <= r + 3 <= DaysBeforeYear(y) + 7
  {
    var jan1 := DaysBeforeYear(y) + 1;
    var monday := jan1 - Weekday(jan1);
    MondayOfWeek(jan1);
    WeekdayShift(monday);
    if Weekday(jan1) > 3 then monday + 7 else monday
  }

  /** ISO year y has 52 or 53 weeks. */
  lemma WeeksInYear(y: int)
    ensures Week1Monday(y + 1) - Week1Monday(y) == 364 || Week1Monday(y + 1) - Week1Monday(y) == 371
  {
    YearLength(y);
    var a, b := Week1Monday(y), Week1Monday(y + 1);
    OffsetFromMonday(a, b);
    var k := (b - a) / 7;
    assert b - a == 7 * k;
    assert 52 <= k <= 53;
  }

  lemma {:induction false} Week1MondayMonotone(a: int, b: int)
    requires a <= b
    ensures Week1Monday(a) + 364 * (b - a) <= Week1Monday(b)
    decreases b - a
  {
    if a < b {
      Week1MondayMonotone(a, b - 1);
      WeeksInYear(b - 1);
    }
  }

  /** A day at offset n - m >= 0 from a Monday m is weekday Weekday(n) of
      week (n - m) / 7 + 1 counted from m. */
  lemma WeekOfOffset(m: int, n: int)
    requires Weekday(m) == 0 && m <= n
    ensures m + 7 * ((n - m) / 7) + Weekday(n) == n
  {
    OffsetFromMonday(m, n);
  }

  datatype IsoDate = IsoDate(isoYear: int, week: int, weekday: int)

  /** The defining property of an ISO week date of day n: n is the given
      weekday (1 = Monday .. 7 = Sunday) of the given week counted from
      week 1 of its ISO year, and it lies before week 1 of the next ISO year. */
  predicate IsIsoWeekDateOf(r: IsoDate, n: int) {
    && 1 <= r.week && 1 <= r.weekday <= 7
    && Week1Monday(r.isoYear) + 7 * (r.week - 1) + (r.weekday - 1) == n
    && n < Week1Monday(r.isoYear + 1)
  }

  /** A day before week 1 of its year belongs to the last week of the previous ISO year. */
  lemma BeforeWeek1(y: int, n: int)
    requires DaysBeforeYear(y) < n < Week1Monday(y)
    ensures IsIsoWeekDateOf(IsoDate(y - 1, (n - Week1Monday(y - 1)) / 7 + 1, Weekday(n) + 1), n)
  {
    YearLength(y - 1);
    WeekOfOffset(Week1Monday(y - 1), n);
  }

  /** A day on or after week 1 of the next year is in week 1 of the next ISO year. */
  lemma FromNextWeek1(y: int, n: int)
    requires Week1Monday(y + 1) <= n <= DaysBeforeYear(y + 1)
    ensures IsIsoWeekDateOf(IsoDate(y + 1, 1, Weekday(n) + 1), n)
  {
    var m := Week1Monday(y + 1);
    WeeksInYear(y + 1);
    OffsetFromMonday(m, n);
    var k := n - m;
    assert 0 <= k < 7;
    assert Weekday(n) == k;
  }

  /** Any other day is numbered from week 1 of its own year. */
  lemma WithinYear(y: int, n: int)
    requires Week1Monday(y) <= n < Week1Monday(y + 1)
    ensures IsIsoWeekDateOf(IsoDate(y, (n - Week1Monday(y)) / 7 + 1, Weekday(n) + 1), n)
  {
    WeekOfOffset(Week1Monday(y), n);
  }

  /** The ISO week date of day n, which falls in calendar year y. */
  function IsoWeekDate(y: int, n: int): (r: IsoDate)
    requires DaysBeforeYear(y) < n <= DaysBeforeYear(y + 1)
    ensures IsIsoWeekDateOf(r, n)
    ensures y - 1 <= r.isoYear <= y + 1
  {
    if n < Week1Monday(y) then
      BeforeWeek1(y, n);
      IsoDate(y - 1, (n - Week1Monday(y - 1)) / 7 + 1, Weekday(n) + 1)
    else if n >= Week1Monday(y + 1) then
      FromNextWeek1(y, n);
      IsoDate(y + 1, 1, Weekday(n) + 1)
    else
      WithinYear(y, n);
      IsoDate(y, (n - Week1Monday(y)) / 7 + 1, Weekday(n) + 1)
  }

  /** The ISO 8601 week date of a calendar date. */
  function IsoCalendar(d: CalendarDate): (r: IsoDate)
    ensures IsIsoWeekDateOf(r, Ordinal(d))
    ensures d.year - 1 <= r.isoYear <= d.year + 1
  {
    YearLength(d.year);
    IsoWeekDate(d.year, Ordinal(d))
  }

  /** Two week dates of one day with the same ISO year are the same. */
  lemma SameIsoYearSameDate(r: IsoDate, s: IsoDate, n: int)
    requires IsIsoWeekDateOf(r, n) && IsIsoWeekDateOf(s, n) && r.isoYear == s.isoYear
    ensures r == s
  {
    var dw := r.week - s.week;
    assert 7 * dw == s.weekday - r.weekday;
    assert dw == 0;
  }

  /** A day before the end of ISO year a comes before the start of every later ISO year. */
  lemma BeforeLaterIsoYears(a: int, b: int, n: int)
    requires a < b && n < Week1Monday(a + 1)
    ensures n < Week1Monday(b)
  {
    Week1MondayMonotone(a + 1, b);
  }

  /** A day has only one ISO year. */
  lemma OneIsoYear(r: IsoDate, s: IsoDate, n: int)
    requires IsIsoWeekDateOf(r, n) && IsIsoWeekDateOf(s, n)
    ensures r.isoYear == s.isoYear
  {
    if r.isoYear < s.isoYear {
      BeforeLaterIsoYears(r.isoYear, s.isoYear, n);
    } else if s.isoYear < r.isoYear {
      BeforeLaterIsoYears(s.isoYear, r.isoYear, n);
    }
  }

  /** The defining property has one solution only, so IsoCalendar is the ISO week date. */
  lemma IsoCalendarUnique(d: CalendarDate, r: IsoDate)
    requires IsIsoWeekDateOf(r, Ordinal(d))
    ensures r == IsoCalendar(d)
  {
    var s := IsoCalendar(d);
    OneIsoYear(r, s, Ordinal(d));
    SameIsoYearSameDate(r, s, Ordinal(d));
  }

  /** An ISO year has at most 53 weeks. */
  lemma IsoWeekAtMost53(r: IsoDate, n: int)
    requires IsIsoWeekDateOf(r, n)
    ensures r.week <= 53
  {
    WeeksInYear(r.isoYear);
  }

  /** A date on or after week 1 of its own year, and before week 1 of the next,
      is numbered in whole weeks from its year's week 1. */
  lemma IsoWeekWithinYear(d: CalendarDate)
    requires Week1Monday(d.year) <= Ordinal(d) < Week1Monday(d.year + 1)
    ensures IsoWeek(d) == (Ordinal(d) - Week1Monday(d.year)) / 7 + 1
  {
    YearLength(d.year);
    WeeksInYear(d.year);
  }

  /** The ISO week number of a date, the value `isocalendar().week` yields. */
  function IsoWeek(d: CalendarDate): (w: int)
    ensures 1 <= w <= 53
  {
    IsoWeekAtMost53(IsoCalendar(d), Ordinal(d));
    IsoCalendar(d).week
  }
}
