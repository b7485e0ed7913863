/** The schedule calendar: Gregorian date arithmetic, the occurrence rule that
    decides whether a schedule shows on a day, the month grid, the two-badge
    cap of a cell and month navigation. Dates are (year, month 1..12, day)
    triples; the UTC/local-time shifts of the browser are not modelled (every
    date is taken at the same offset). */
module ScheduleCalendar {
  import opened Collections
  import opened Strings

  /** The schedule record the scheduling page, its list and its calendar share. */
  datatype Schedule = Schedule(
    id: int,
    name: string,
    content: string,
    displays: seq<string>,
    startDate: string,
    endDate: string,
    startTime: string,
    endTime: string,
    recurring: string,
    daysOfWeek: Option<seq<string>>,
    status: string)

  datatype Date = Date(year: int, month: int, day: int)

  // ---------------------------------------------------------------------
  // Gregorian calendar

  predicate IsLeapYear(y: int) {
    y % 4 == 0 && (y % 100 != 0 || y % 400 == 0)
  }

  /** The length of month `m` of year `y` (the reference table). */
  function DaysInMonth(y: int, m: int): int
    requires 1 <= m <= 12
  {
    if m == 2 then (if IsLeapYear(y) then 29 else 28)
    else if m == 4 || m == 6 || m == 9 || m == 11 then 30
    else 31
  }

  predicate ValidDate(d: Date) {
    1 <= d.month <= 12 && 1 <= d.day <= DaysInMonth(d.year, d.month)
  }

  /** Chronological order of valid dates. */
  predicate Before(a: Date, b: Date) {
    a.year < b.year ||
    (a.year == b.year && (a.month < b.month || (a.month == b.month && a.day < b.day)))
  }

  function NextDay(d: Date): (n: Date)
    requires ValidDate(d)
    ensures ValidDate(n) && Before(d, n)
  {
    if d.day < DaysInMonth(d.year, d.month) then Date(d.year, d.month, d.day + 1)
    else if d.month < 12 then Date(d.year, d.month + 1, 1)
    else Date(d.year + 1, 1, 1)
  }

  function DayBefore(d: Date): (p: Date)
    requires ValidDate(d)
    ensures ValidDate(p) && Before(p, d)
  {
    if d.day > 1 then Date(d.year, d.month, d.day - 1)
    else if d.month > 1 then Date(d.year, d.month - 1, DaysInMonth(d.year, d.month - 1))
    else Date(d.year - 1, 12, 31)
  }

  /** Stepping a day forward and a day back are inverse. */
  lemma NextDayInverse(d: Date)
    requires ValidDate(d)
    ensures DayBefore(NextDay(d)) == d
    ensures NextDay(DayBefore(d)) == d
  {
  }

  /** `new Date(y, m0, 1)` with a month index `m0` that may run past either
      end of the year: JavaScript carries whole years into the year. */
  function MonthStart(y: int, m0: int): (d: Date)
    ensures ValidDate(d) && d.day == 1
    ensures 0 <= m0 < 12 ==> d == Date(y, m0 + 1, 1)
    ensures m0 == -1 ==> d == Date(y - 1, 12, 1)
    ensures m0 == 12 ==> d == Date(y + 1, 1, 1)
  {
    Date(y + m0 / 12, m0 % 12 + 1, 1)
  }

  /** `getDaysInMonth`: day 0 of the next month, i.e. the day before its first. */
  function GetDaysInMonth(view: Date): (n: int)
    requires ValidDate(view)
    ensures n == DaysInMonth(view.year, view.month)
    ensures 28 <= n <= 31
    ensures view.month == 2 ==> (n == 29 <==> IsLeapYear(view.year))
    ensures view.month != 2 ==> (n == 30 <==> view.month in {4, 6, 9, 11})
  {
    // JavaScript month indexes are 0-based: month index view.month - 1, plus one.
    DayBefore(MonthStart(view.year, view.month)).day
  }

  /** Sakamoto's day-of-week formula; 0 is Sunday. */
  function DayOfWeek(d: Date): (w: int)
    requires 1 <= d.month <= 12
    ensures 0 <= w < 7
  {
    DayNumber(d) % 7
  }

  /** The quantity whose remainder modulo 7 is the weekday: the year term of
      the year (counted from March), a per-month offset and the day. */
  function DayNumber(d: Date): int
    requires 1 <= d.month <= 12
  {
    var t := [0, 3, 2, 5, 0, 3, 5, 1, 4, 6, 2, 4];
    var y := if d.month < 3 then d.year - 1 else d.year;
    YearTerm(y) + t[d.month - 1] + d.day
  }

  function YearTerm(y: int): int {
    y + y / 4 - y / 100 + y / 400
  }

  lemma YearTermStep(y: int)
    ensures YearTerm(y) - YearTerm(y - 1) == if IsLeapYear(y) then 2 else 1
  {
    Div4Step(y);
    Div100Step(y);
    Div400Step(y);
    var a, b, c := y / 4 - (y - 1) / 4, y / 100 - (y - 1) / 100, y / 400 - (y - 1) / 400;
    assert YearTerm(y) - YearTerm(y - 1) == 1 + a - b + c;
    if y % 400 == 0 {
      DivisorChain(y);
    } else if y % 100 == 0 {
      assert y % 4 == 0 by { DivisorChain(y); }
    }
  }

  /** A multiple of 400 is a multiple of 100, and a multiple of 100 a multiple of 4. */
  lemma DivisorChain(y: int)
    ensures y % 400 == 0 ==> y % 100 == 0
    ensures y % 100 == 0 ==> y % 4 == 0
  {
    if y % 400 == 0 {
      MultipleOf400(y / 400);
    }
    if y % 100 == 0 {
      MultipleOf100(y / 100);
    }
  }

  lemma MultipleOf400(k: int)
    ensures (400 * k) % 100 == 0
  {
    var y := 400 * k;
    assert y == 100 * (4 * k);
  }

  lemma MultipleOf100(k: int)
    ensures (100 * k) % 4 == 0
  {
    var y := 100 * k;
    assert y == 4 * (25 * k);
  }

  lemma Div4Step(y: int)
    ensures y / 4 - (y - 1) / 4 == if y % 4 == 0 then 1 else 0
  {
  }

  lemma Div100Step(y: int)
    ensures y / 100 - (y - 1) / 100 == if y % 100 == 0 then 1 else 0
  {
  }

  lemma Div400Step(y: int)
    ensures y / 400 - (y - 1) / 400 == if y % 400 == 0 then 1 else 0
  {
  }

  /** Adding whole weeks does not change a weekday. */
  lemma {:induction false} ModWeeks(x: int, q: int)
    ensures (x + 7 * q) % 7 == x % 7
    decreases if q < 0 then -q else q
  {
    if q > 0 {
      ModWeeks(x, q - 1);
      assert x + 7 * q == (x + 7 * (q - 1)) + 7;
    } else if q < 0 {
      ModWeeks(x, q + 1);
      assert x + 7 * q == (x + 7 * (q + 1)) - 7;
    }
  }

  lemma ModAdd(a: int, b: int)
    ensures (a + b) % 7 == (a % 7 + b) % 7
  {
    ModWeeks(a % 7 + b, a / 7);
    assert a % 7 + b + 7 * (a / 7) == a + b;
  }

  /** Consecutive days have consecutive weekdays, across month and year ends
      and leap days. With `EpochIsThursday` this pins the formula down as the
      calendar's weekday on every date. */
  lemma {:induction false} DayOfWeekNextDay(d: Date)
    requires ValidDate(d)
    ensures DayOfWeek(NextDay(d)) == (DayOfWeek(d) + 1) % 7
  {
    var n := DayNumber(d);
    var weeks;
    if d.day < DaysInMonth(d.year, d.month) {
      weeks := 0;
    } else if d.month == 2 {
      YearTermStep(d.year);
      weeks := -4;
    } else if d.month == 4 || d.month == 7 || d.month == 10 || d.month == 12 {
      weeks := -5;
    } else {
      weeks := -4;
    }
    assert DayNumber(NextDay(d)) == n + 1 + 7 * weeks;
    ModWeeks(n + 1, weeks);
    ModAdd(n, 1);
  }

  /** 1 January 1970, the start of JavaScript time, was a Thursday. */
  lemma EpochIsThursday()
    ensures DayOfWeek(Date(1970, 1, 1)) == 4
  {
  }

  /** Within one month the weekday advances with the day number. */
  lemma DayOfWeekInMonth(y: int, m: int, day: int)
    requires 1 <= m <= 12
    ensures DayOfWeek(Date(y, m, day)) == (DayOfWeek(Date(y, m, 1)) + day - 1) % 7
  {
    var n := DayNumber(Date(y, m, 1));
    assert DayNumber(Date(y, m, day)) == n + (day - 1);
    ModAdd(n, day - 1);
  }

  /** `getFirstDayOfMonth`: the weekday of the first of the shown month. */
  function GetFirstDayOfMonth(view: Date): (w: int)
    requires ValidDate(view)
    ensures 0 <= w < 7
    ensures w == DayOfWeek(Date(view.year, view.month, 1))
  {
    DayOfWeek(MonthStart(view.year, view.month - 1))
  }

  /** `toLocaleDateString("en-US", { weekday: "long" })` for a weekday number. */
  function WeekdayName(w: int): (name: string)
    requires 0 <= w < 7
    ensures 6 <= |name| <= 9 && name[|name| - 3..] == "day"
    ensures w == 0 <==> name == "Sunday"
    ensures w == 6 <==> name == "Saturday"
  {
    ["Sunday", "Monday", "Tuesday", "Wednesday", "Thursday", "Friday", "Saturday"][w]
  }

  /** Different weekdays have different names, so a `daysOfWeek` list names
      each weekday on its own. */
  lemma WeekdayNamesDistinct(v: int, w: int)
    requires 0 <= v < 7 && 0 <= w < 7 && v != w
    ensures WeekdayName(v) != WeekdayName(w)
  {
  }

  // ---------------------------------------------------------------------
  // ISO 8601 calendar dates (YYYY-MM-DD, section 4.1.2.2 of ISO 8601:2004)

  /** The date part of `toISOString()` for a four-digit year. */
  function FormatIsoDate(d: Date): (s: string)
    requires 0 <= d.year <= 9999 && 1 <= d.month <= 12 && 1 <= d.day <= 31
    ensures |s| == 10 && s[4] == '-' && s[7] == '-'
  {
    FixedDigits(d.year, 4) + "-" + FixedDigits(d.month, 2) + "-" + FixedDigits(d.day, 2)
  }

  /** `new Date("YYYY-MM-DD")` on the exact ISO form: `None` stands for an
      invalid date (NaN). Only the ten-character `YYYY-MM-DD` text of a real
      calendar date parses; the engine's fallback parsing of other texts is not
      part of this model. */
  function ParseIsoDate(s: string): (r: Option<Date>)
    ensures r.Some? ==> ValidDate(r.value) && 0 <= r.value.year <= 9999
  {
    if |s| == 10 && s[4] == '-' && s[7] == '-' &&
       AllDigits(s[..4]) && AllDigits(s[5..7]) && AllDigits(s[8..]) then
      FixedDigitsOfValue(s[..4]);
      var y := DigitsValue(s[..4]);
      var m := DigitsValue(s[5..7]);
      var d := DigitsValue(s[8..]);
      if 1 <= m <= 12 && 1 <= d <= DaysInMonth(y, m) then Some(Date(y, m, d)) else None
    else
      None
  }

  /** Printing a date and reading it back gives the date. */
  lemma IsoRoundTrip(d: Date)
    requires ValidDate(d) && 0 <= d.year <= 9999
    ensures ParseIsoDate(FormatIsoDate(d)) == Some(d)
  {
    var s := FormatIsoDate(d);
    assert s[..4] == FixedDigits(d.year, 4);
    assert s[5..7] == FixedDigits(d.month, 2);
    assert s[8..] == FixedDigits(d.day, 2);
    FixedDigitsValue(d.year, 4);
    FixedDigitsValue(d.month, 2);
    FixedDigitsValue(d.day, 2);
  }

  /** Every text the parser accepts is the canonical print of its date. */
  lemma IsoCanonical(s: string)
    requires ParseIsoDate(s).Some?
    ensures FormatIsoDate(ParseIsoDate(s).value) == s
  {
    FixedDigitsOfValue(s[..4]);
    FixedDigitsOfValue(s[5..7]);
    FixedDigitsOfValue(s[8..]);
    assert s == s[..4] + "-" + s[5..7] + "-" + s[8..];
  }

  // ---------------------------------------------------------------------
  // The occurrence rule

  /** The `getSchedulesForDate` filter predicate. A bound that does not parse
      is NaN, and every comparison with NaN is false, so it excludes nothing. */
  function IsActiveOn(s: Schedule, date: Date): (active: bool)
    requires ValidDate(date)
    ensures active ==> ParseIsoDate(s.startDate).None? || !Before(date, ParseIsoDate(s.startDate).value)
    ensures active ==> ParseIsoDate(s.endDate).None? || !Before(ParseIsoDate(s.endDate).value, date)
    ensures active ==> s.recurring == "none" || s.recurring == "daily" || s.recurring == "weekly"
    ensures active && s.recurring == "weekly" ==>
              s.daysOfWeek.Some? && WeekdayName(DayOfWeek(date)) in s.daysOfWeek.value
  {
    var start := ParseIsoDate(s.startDate);
    var end := ParseIsoDate(s.endDate);
    if (start.Some? && Before(date, start.value)) || (end.Some? && Before(end.value, date)) then
      false
    else if s.recurring == "none" then true
    else if s.recurring == "daily" then true
    else if s.recurring == "weekly" then
      s.daysOfWeek.Some? && WeekdayName(DayOfWeek(date)) in s.daysOfWeek.value
    else false
  }

  /** Outside `[startDate, endDate]` a schedule is never active. */
  lemma NeverOutsideRange(s: Schedule, date: Date)
    requires ValidDate(date)
    requires (ParseIsoDate(s.startDate).Some? && Before(date, ParseIsoDate(s.startDate).value)) ||
             (ParseIsoDate(s.endDate).Some? && Before(ParseIsoDate(s.endDate).value, date))
    ensures !IsActiveOn(s, date)
  {
  }

  /** Inside the range (both endpoints included, and a bound that does not
      parse counting as no bound) `none` and `daily` schedules are always
      active; `weekly` ones exactly on their named weekdays, and never without
      a day list; any other recurrence (`monthly` included) never. */
  lemma InsideRange(s: Schedule, date: Date)
    requires ValidDate(date)
    requires ParseIsoDate(s.startDate).Some? ==> !Before(date, ParseIsoDate(s.startDate).value)
    requires ParseIsoDate(s.endDate).Some? ==> !Before(ParseIsoDate(s.endDate).value, date)
    ensures s.recurring in {"none", "daily"} ==> IsActiveOn(s, date)
    ensures s.recurring == "weekly" ==>
              (IsActiveOn(s, date) <==> s.daysOfWeek.Some? && WeekdayName(DayOfWeek(date)) in s.daysOfWeek.value)
    ensures s.recurring !in {"none", "daily", "weekly"} ==> !IsActiveOn(s, date)
  {
  }

  /** `getSchedulesForDate`: the schedules active on `date`, in list order. */
  function SchedulesForDate(schedules: seq<Schedule>, date: Date): (r: seq<Schedule>)
    requires ValidDate(date)
    ensures IsSubsequence(r, schedules)
    ensures forall i :: 0 <= i < |r| ==> IsActiveOn(r[i], date)
    ensures forall i :: 0 <= i < |schedules| && IsActiveOn(schedules[i], date) ==> schedules[i] in r
    ensures forall s :: multiset(r)[s] == if IsActiveOn(s, date) then multiset(schedules)[s] else 0
  {
    FilterIsSubsequence((s: Schedule) => IsActiveOn(s, date), schedules);
    Filter((s: Schedule) => IsActiveOn(s, date), schedules)
  }

  // ---------------------------------------------------------------------
  // The month grid

  /** The grid of the shown month: one empty placeholder per weekday before
      the first, then the days 1..daysInMonth in order. */
  function MonthGrid(view: Date): (cells: seq<Option<Date>>)
    requires ValidDate(view)
    ensures |cells| == GetFirstDayOfMonth(view) + DaysInMonth(view.year, view.month)
    ensures forall i :: 0 <= i < |cells| ==> (cells[i].None? <==> i < GetFirstDayOfMonth(view))
    ensures forall i :: 0 <= i < |cells| && cells[i].Some? ==>
              cells[i].value == Date(view.year, view.month, i - GetFirstDayOfMonth(view) + 1)
  {
    var first := GetFirstDayOfMonth(view);
    seq(first + GetDaysInMonth(view), i =>
      if i < first then None else Some(Date(view.year, view.month, i - first + 1)))
  }

  /** The `days` loop of the calendar. */
  method BuildMonthGrid(view: Date) returns (days: seq<Option<Date>>)
    requires ValidDate(view)
    ensures days == MonthGrid(view)
  {
    var firstDay := GetFirstDayOfMonth(view);
    var daysInMonth := GetDaysInMonth(view);
    ghost var grid := MonthGrid(view);
    days := [];
    for i := 0 to firstDay
      invariant |days| == i && forall k :: 0 <= k < i ==> days[k] == grid[k]
    {
      days := days + [None];
    }
    for i := 1 to daysInMonth + 1
      invariant |days| == firstDay + i - 1 && forall k :: 0 <= k < |days| ==> days[k] == grid[k]
    {
      days := days + [Some(Date(view.year, view.month, i))];
    }
  }

  /** The grid has `firstDay + daysInMonth` cells, each real cell is a valid
      date of the shown month, and every real cell sits in the column of its
      own weekday (column = index mod 7, Sunday first). */
  lemma {:induction false} MonthGridShape(view: Date, i: int)
    requires ValidDate(view) && 0 <= i < |MonthGrid(view)|
    ensures |MonthGrid(view)| == GetFirstDayOfMonth(view) + DaysInMonth(view.year, view.month)
    ensures MonthGrid(view)[i].None? <==> i < GetFirstDayOfMonth(view)
    ensures MonthGrid(view)[i].Some? ==>
              var d := MonthGrid(view)[i].value;
              ValidDate(d) && d.year == view.year && d.month == view.month &&
              DayOfWeek(d) == i % 7
  {
    var first := GetFirstDayOfMonth(view);
    if i >= first {
      DayOfWeekInMonth(view.year, view.month, i - first + 1);
    }
  }

  /** The schedules of one grid cell; placeholders have none. */
  function CellSchedules(cell: Option<Date>, schedules: seq<Schedule>): (r: seq<Schedule>)
    requires cell.Some? ==> ValidDate(cell.value)
    ensures cell.None? ==> r == []
    ensures cell.Some? ==> r == SchedulesForDate(schedules, cell.value)
    ensures IsSubsequence(r, schedules)
  {
    if cell.Some? then SchedulesForDate(schedules, cell.value) else []
  }

  /** A cell shows at most two badges, the first two schedules, and a
      "+n more" line for the rest. */
  function CellBadges(daySchedules: seq<Schedule>): (r: (seq<Schedule>, nat))
    ensures |r.0| == if |daySchedules| < 2 then |daySchedules| else 2
    ensures r.0 == daySchedules[..|r.0|]
    ensures r.1 == |daySchedules| - |r.0|
    ensures r.1 > 0 ==> |r.0| == 2
  {
    var shown := if |daySchedules| < 2 then daySchedules else daySchedules[..2];
    (shown, if |daySchedules| > 2 then |daySchedules| - 2 else 0)
  }

  // ---------------------------------------------------------------------
  // Month navigation

  /** The calendar opens on 29 October 2025. */
  const InitialView := Date(2025, 10, 29)

  /** `handlePrevMonth`: the first of the previous month. */
  function PrevMonth(view: Date): (r: Date)
    requires 1 <= view.month <= 12
    ensures ValidDate(r) && r.day == 1
    ensures view.month == 1 ==> r == Date(view.year - 1, 12, 1)
    ensures view.month > 1 ==> r == Date(view.year, view.month - 1, 1)
  {
    MonthStart(view.year, view.month - 2)
  }

  /** `handleNextMonth`: the first of the next month. */
  function NextMonth(view: Date): (r: Date)
    requires 1 <= view.month <= 12
    ensures ValidDate(r) && r.day == 1
    ensures view.month == 12 ==> r == Date(view.year + 1, 1, 1)
    ensures view.month < 12 ==> r == Date(view.year, view.month + 1, 1)
  {
    MonthStart(view.year, view.month)
  }

  /** Next then Prev, or Prev then Next, returns to the first of the same month. */
  lemma NavigationRoundTrip(view: Date)
    requires 1 <= view.month <= 12
    ensures PrevMonth(NextMonth(view)) == Date(view.year, view.month, 1)
    ensures NextMonth(PrevMonth(view)) == Date(view.year, view.month, 1)
  {
  }

  /** Twelve steps forward move exactly one year forward. */
  lemma {:induction false} TwelveNextMonths(view: Date)
    requires 1 <= view.month <= 12
    ensures NextMonthN(view, 12) == Date(view.year + 1, view.month, 1)
  {
    NextMonthNSteps(view, 12);
  }

  function NextMonthN(view: Date, n: nat): (r: Date)
    requires 1 <= view.month <= 12
    ensures 1 <= r.month <= 12
    decreases n
  {
    if n == 0 then view else NextMonthN(NextMonth(view), n - 1)
  }

  lemma {:induction false} NextMonthNSteps(view: Date, n: nat)
    requires 1 <= view.month <= 12 && n > 0
    ensures var m0 := view.month - 1 + n;
            NextMonthN(view, n) == Date(view.year + m0 / 12, m0 % 12 + 1, 1)
    decreases n
  {
    if n > 1 {
      NextMonthNSteps(NextMonth(view), n - 1);
    }
  }

  // ---------------------------------------------------------------------
  // Worked examples

  /** The weekday of the first of November 2025 and of two days of that month. */
  lemma NovemberWeekdays()
    ensures DayOfWeek(Date(2025, 11, 1)) == 6
    ensures WeekdayName(DayOfWeek(Date(2025, 11, 3))) == "Monday"
    ensures WeekdayName(DayOfWeek(Date(2025, 11, 4))) == "Tuesday"
  {
    assert YearTerm(2025) == 2025 + 506 - 20 + 5;
  }

  /** November 2025 starts on a Saturday and has 30 days, so its grid is six
      placeholders followed by thirty dates. */
  lemma NovemberGrid()
    ensures GetFirstDayOfMonth(Date(2025, 11, 1)) == 6
    ensures |MonthGrid(Date(2025, 11, 1))| == 36
  {
    NovemberWeekdays();
  }

  /** A daily schedule from 2025-10-29 to 2025-12-31 shows on 2025-11-15 and
      not on the days just outside its range. */
  lemma DailyExample()
    ensures var s := Schedule(1, "Morning Welcome", "Welcome Banner.jpg", [], "2025-10-29", "2025-12-31",
                              "08:00", "12:00", "daily", None, "active");
            IsActiveOn(s, Date(2025, 11, 15)) && !IsActiveOn(s, Date(2025, 10, 28)) &&
            !IsActiveOn(s, Date(2026, 1, 1))
  {
    ParseExampleDates();
  }

  lemma ParseExampleDates()
    ensures ParseIsoDate("2025-10-29") == Some(Date(2025, 10, 29))
    ensures ParseIsoDate("2025-12-31") == Some(Date(2025, 12, 31))
  {
    PrintExampleDates();
    IsoRoundTrip(Date(2025, 10, 29));
    IsoRoundTrip(Date(2025, 12, 31));
  }

  lemma PrintExampleDates()
    ensures FormatIsoDate(Date(2025, 10, 29)) == "2025-10-29"
    ensures FormatIsoDate(Date(2025, 12, 31)) == "2025-12-31"
  {
    PrintYear();
    PrintTwoDigits();
  }

  lemma PrintYear()
    ensures FixedDigits(2025, 4) == "2025"
  {
    assert FixedDigits(20, 2) == "20";
  }

  lemma PrintTwoDigits()
    ensures FixedDigits(10, 2) == "10" && FixedDigits(29, 2) == "29"
    ensures FixedDigits(12, 2) == "12" && FixedDigits(31, 2) == "31"
  {
  }
}
