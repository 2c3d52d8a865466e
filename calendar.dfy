/** Proleptic Gregorian dates as Python's `datetime.date` computes them:
    day ordinals (0001-01-01 is ordinal 1, a Monday), `weekday()` with
    Monday = 0, and `isocalendar()` following ISO 8601 week numbering
    (weeks start on Monday; week 1 is the week holding the year's first
    Thursday). */
module Calendar {

  datatype Date = Date(year: int, month: int, day: int)

  /** ISO 8601 (year, week) pair, the key `_week_key` builds. */
  type WeekKey = (int, int)

  predicate IsLeap(y: int) {
    y % 4 == 0 && (y % 100 != 0 || y % 400 == 0)
  }

  function DaysInMonth(y: int, m: int): int {
    if m == 2 then (if IsLeap(y) then 29 else 28)
    else if m == 4 || m == 6 || m == 9 || m == 11 then 30
    else 31
  }

  function DaysInYear(y: int): int {
    if IsLeap(y) then 366 else 365
  }

  function DaysBeforeMonth(y: int, m: int): int
    requires 1 <= m <= 12
  {
    var common :=
      if m == 1 then 0 else if m == 2 then 31 else if m == 3 then 59
      else if m == 4 then 90 else if m == 5 then 120 else if m == 6 then 151
      else if m == 7 then 181 else if m == 8 then 212 else if m == 9 then 243
      else if m == 10 then 273 else if m == 11 then 304 else 334;
    common + (if m > 2 && IsLeap(y) then 1 else 0)
  }

  /** Number of days in the years before `y` (CPython's `_days_before_year`). */
  function DaysBeforeYear(y: int): int {
    var z := y - 1;
    365 * z + z / 4 - z / 100 + z / 400
  }

  /** The dates Python's `date` accepts. */
  predicate ValidDate(d: Date) {
    1 <= d.year <= 9999 && 1 <= d.month <= 12 && 1 <= d.day <= DaysInMonth(d.year, d.month)
  }

  function Ordinal(d: Date): int
    requires ValidDate(d)
  {
    DaysBeforeYear(d.year) + DaysBeforeMonth(d.year, d.month) + d.day
  }

  /** `date.weekday()`: Monday = 0 ... Sunday = 6. */
  function Weekday(d: Date): (r: int)
    requires ValidDate(d)
    ensures 0 <= r <= 6
  {
    WeekdayOfOrdinal(Ordinal(d))
  }

  /** The weekday (Monday = 0) of the day with ordinal `n`; ordinal 1 is a Monday. */
  function WeekdayOfOrdinal(n: int): int {
    (n + 6) % 7
  }

  /** Chronological order, which for valid dates is the order of (year, month, day). */
  predicate Before(a: Date, b: Date) {
    a.year < b.year || (a.year == b.year && (a.month < b.month || (a.month == b.month && a.day < b.day)))
  }

  predicate AtOrBefore(a: Date, b: Date) {
    a == b || Before(a, b)
  }

  predicate StrictlyAscending(ds: seq<Date>) {
    forall i, j :: 0 <= i < j < |ds| ==> Before(ds[i], ds[j])
  }

  /** `giorno + timedelta(days=1)` */
  function NextDay(d: Date): Date
    requires ValidDate(d)
  {
    if d.day < DaysInMonth(d.year, d.month) then Date(d.year, d.month, d.day + 1)
    else if d.month < 12 then Date(d.year, d.month + 1, 1)
    else Date(d.year + 1, 1, 1)
  }

  /** CPython's `_isoweek1monday`: ordinal of the Monday starting ISO week 1 of `y`. */
  function IsoWeek1Monday(y: int): int {
    var firstDay := DaysBeforeYear(y) + 1;
    var firstWeekday := (firstDay + 6) % 7;
    var monday := firstDay - firstWeekday;
    if firstWeekday > 3 then monday + 7 else monday
  }

  /** CPython's `date.isocalendar()`: (ISO year, ISO week, ISO weekday 1..7). */
  function IsoCalendar(d: Date): (int, int, int)
    requires ValidDate(d)
  {
    IsoOf(d.year, Ordinal(d))
  }

  /** The ISO triple of the day with ordinal `today` in calendar year `y`. */
  function IsoOf(y: int, today: int): (int, int, int) {
    IsoFromOrdinal(y, today, IsoWeek1Monday(y - 1), IsoWeek1Monday(y), IsoWeek1Monday(y + 1))
  }

  /** The case analysis of `isocalendar()`, given the day's ordinal `today` and
      the week-1 Mondays of the previous, the current and the next year. */
  function IsoFromOrdinal(y: int, today: int, prev: int, monday: int, next: int): (int, int, int) {
    var week := (today - monday) / 7;
    var day := (today - monday) % 7;
    if week < 0 then (y - 1, (today - prev) / 7 + 1, (today - prev) % 7 + 1)
    else if week >= 52 && today >= next then (y + 1, 1, day + 1)
    else (y, week + 1, day + 1)
  }

  /** `_week_key`: (iso.year, iso.week). */
  function WeekOf(d: Date): WeekKey
    requires ValidDate(d)
  {
    var iso := IsoCalendar(d);
    (iso.0, iso.1)
  }

  /** Python's comparison of `(year, week)` tuples. */
  predicate KeyLt(a: WeekKey, b: WeekKey) {
    a.0 < b.0 || (a.0 == b.0 && a.1 < b.1)
  }

  // ---------------------------------------------------------------------------
  // Lemmas

  lemma DaysBeforeYearStep(y: int)
    ensures DaysBeforeYear(y + 1) == DaysBeforeYear(y) + DaysInYear(y)
  {
    var z := y - 1;
    DivStep4(y);
    DivStep100(y);
    DivStep400(y);
    LeapByDivisors(y);
    assert DaysBeforeYear(y + 1) == 365 * y + y / 4 - y / 100 + y / 400;
    assert DaysBeforeYear(y) == 365 * z + z / 4 - z / 100 + z / 400;
  }

  /** The length of a year from the three divisibility tests. */
  lemma LeapByDivisors(y: int)
    ensures DaysInYear(y) == 365 + (if y % 4 == 0 then 1 else 0) - (if y % 100 == 0 then 1 else 0) + (if y % 400 == 0 then 1 else 0)
  {
    if y % 400 == 0 {
      assert y == 400 * (y / 400);
      assert y == 100 * (4 * (y / 400));
      assert y == 4 * (100 * (y / 400));
    } else if y % 100 == 0 {
      assert y == 100 * (y / 100);
      assert y == 4 * (25 * (y / 100));
    }
  }

  lemma DivStep4(y: int)
    ensures y / 4 - (y - 1) / 4 == if y % 4 == 0 then 1 else 0
  {
  }

  lemma DivStep100(y: int)
    ensures y / 100 - (y - 1) / 100 == if y % 100 == 0 then 1 else 0
  {
  }

  lemma DivStep400(y: int)
    ensures y / 400 - (y - 1) / 400 == if y % 400 == 0 then 1 else 0
  {
  }

  lemma MonthFitsYear(y: int, m: int)
    requires 1 <= m <= 12
    ensures DaysBeforeMonth(y, m) + DaysInMonth(y, m) <= DaysInYear(y)
    ensures m < 12 ==> DaysBeforeMonth(y, m + 1) == DaysBeforeMonth(y, m) + DaysInMonth(y, m)
  {
  }

  /** Within one year, day ordinals and (month, day) pairs correspond one to one. */
  lemma OrdinalInjectiveInYear(a: Date, b: Date)
    requires ValidDate(a) && ValidDate(b) && a.year == b.year
    requires Ordinal(a) == Ordinal(b)
    ensures a == b
  {
    if a.month < b.month {
      MonthGap(a.year, a.month, b.month);
    } else if b.month < a.month {
      MonthGap(a.year, b.month, a.month);
    }
  }

  lemma MonthGap(y: int, m1: int, m2: int)
    requires 1 <= m1 < m2 <= 12
    ensures DaysBeforeMonth(y, m2) >= DaysBeforeMonth(y, m1) + DaysInMonth(y, m1)
  {
  }

  lemma OrdinalWithinYear(d: Date)
    requires ValidDate(d)
    ensures DaysBeforeYear(d.year) + 1 <= Ordinal(d) <= DaysBeforeYear(d.year + 1)
  {
    MonthFitsYear(d.year, d.month);
    DaysBeforeYearStep(d.year);
  }

  lemma MondayShift(a: int, monday: int)
    requires (monday + 6) % 7 == 0
    ensures (a - monday) % 7 == (a + 6) % 7
  {
    var k := (monday + 6) / 7;
    assert monday == 7 * k - 6;
    assert a - monday == (a + 6) - 7 * k;
  }

  lemma IsoWeek1MondayFacts(y: int)
    ensures (IsoWeek1Monday(y) + 6) % 7 == 0
    ensures DaysBeforeYear(y) - 2 <= IsoWeek1Monday(y) <= DaysBeforeYear(y) + 4
  {
    MondayOfWeek(DaysBeforeYear(y) + 1);
  }

  /** The Monday `_isoweek1monday` picks for a year whose first day has ordinal `f`. */
  lemma MondayOfWeek(f: int)
    ensures var w := (f + 6) % 7;
      var m := if w > 3 then f - w + 7 else f - w;
      (m + 6) % 7 == 0 && f - 3 <= m <= f + 3
  {
  }

  /** The ISO (year, week, weekday) triple names the date's ordinal: the Monday
      of ISO week 1 of that ISO year, plus whole weeks, plus the weekday. */
  lemma IsoDecompose(d: Date)
    requires ValidDate(d)
    ensures Ordinal(d) == IsoWeek1Monday(IsoCalendar(d).0) + 7 * (IsoCalendar(d).1 - 1) + (IsoCalendar(d).2 - 1)
    ensures IsoCalendar(d).2 - 1 == Weekday(d)
    ensures 1 <= IsoCalendar(d).1
  {
    IsoWindow(d);
    IsoDecomposeAt(d.year, Ordinal(d));
  }

  lemma IsoDecomposeAt(y: int, today: int)
    requires IsoWeek1Monday(y - 1) <= today < IsoWeek1Monday(y + 1) + 7
    ensures today == IsoWeek1Monday(IsoOf(y, today).0) + 7 * (IsoOf(y, today).1 - 1) + (IsoOf(y, today).2 - 1)
    ensures IsoOf(y, today).2 - 1 == WeekdayOfOrdinal(today)
    ensures 1 <= IsoOf(y, today).1
  {
    IsoWeek1MondayFacts(y);
    IsoWeek1MondayFacts(y - 1);
    IsoWeek1MondayFacts(y + 1);
    IsoDecomposeWith(today, y, IsoWeek1Monday);
  }

  /** `IsoDecompose` over any choice of week-1 Mondays that are Mondays and
      bracket the day. */
  lemma IsoDecomposeWith(today: int, y: int, monday: int -> int)
    requires (monday(y - 1) + 6) % 7 == 0 && (monday(y) + 6) % 7 == 0 && (monday(y + 1) + 6) % 7 == 0
    requires monday(y - 1) <= today < monday(y + 1) + 7
    ensures today == monday(IsoFromOrdinal(y, today, monday(y - 1), monday(y), monday(y + 1)).0)
      + 7 * (IsoFromOrdinal(y, today, monday(y - 1), monday(y), monday(y + 1)).1 - 1)
      + (IsoFromOrdinal(y, today, monday(y - 1), monday(y), monday(y + 1)).2 - 1)
    ensures IsoFromOrdinal(y, today, monday(y - 1), monday(y), monday(y + 1)).2 - 1 == (today + 6) % 7
    ensures 1 <= IsoFromOrdinal(y, today, monday(y - 1), monday(y), monday(y + 1)).1
  {
    IsoArithmetic(today, monday(y - 1), monday(y), monday(y + 1), y);
  }

  /** A date lies between the week-1 Monday of the previous year and the last
      week that starts at the next year's week-1 Monday. */
  lemma IsoWindow(d: Date)
    requires ValidDate(d)
    ensures IsoWeek1Monday(d.year - 1) <= Ordinal(d) < IsoWeek1Monday(d.year + 1) + 7
  {
    IsoWeek1MondayFacts(d.year - 1);
    IsoWeek1MondayFacts(d.year + 1);
    OrdinalWithinYear(d);
    DaysBeforeYearStep(d.year - 1);
  }

  /** The arithmetic behind `IsoDecompose`, over the three candidate week-1 Mondays. */
  lemma IsoArithmetic(today: int, prev: int, monday: int, next: int, y: int)
    requires (prev + 6) % 7 == 0 && (monday + 6) % 7 == 0 && (next + 6) % 7 == 0
    requires prev <= today < next + 7
    ensures IsoFromOrdinal(y, today, prev, monday, next).0 == y - 1 ==>
      today == prev + 7 * (IsoFromOrdinal(y, today, prev, monday, next).1 - 1) + (IsoFromOrdinal(y, today, prev, monday, next).2 - 1)
    ensures IsoFromOrdinal(y, today, prev, monday, next).0 == y ==>
      today == monday + 7 * (IsoFromOrdinal(y, today, prev, monday, next).1 - 1) + (IsoFromOrdinal(y, today, prev, monday, next).2 - 1)
    ensures IsoFromOrdinal(y, today, prev, monday, next).0 == y + 1 ==>
      today == next + 7 * (IsoFromOrdinal(y, today, prev, monday, next).1 - 1) + (IsoFromOrdinal(y, today, prev, monday, next).2 - 1)
    ensures IsoFromOrdinal(y, today, prev, monday, next).0 in {y - 1, y, y + 1}
    ensures IsoFromOrdinal(y, today, prev, monday, next).2 - 1 == (today + 6) % 7
    ensures 1 <= IsoFromOrdinal(y, today, prev, monday, next).1
  {
    var week := (today - monday) / 7;
    if week < 0 {
      MondayShift(today, prev);
    } else if week >= 52 && today >= next {
      MondayShift(today, next);
      MondayShift(today, monday);
    } else {
      MondayShift(today, monday);
    }
  }

  /** Inside one calendar year, an ISO week holds at most one date per weekday. */
  lemma SameWeekSameWeekday(a: Date, b: Date)
    requires ValidDate(a) && ValidDate(b) && a.year == b.year
    requires WeekOf(a) == WeekOf(b) && Weekday(a) == Weekday(b)
    ensures a == b
  {
    IsoDecompose(a);
    IsoDecompose(b);
    OrdinalInjectiveInYear(a, b);
  }

  /** `NextDay` is the immediate successor: no valid date lies strictly between. */
  lemma NextDaySuccessor(g: Date, x: Date)
    requires ValidDate(g) && ValidDate(x)
    ensures Before(x, NextDay(g)) <==> AtOrBefore(x, g)
    ensures Before(g, NextDay(g))
  {
  }

  lemma NextDayValid(g: Date)
    requires ValidDate(g) && g.year < 9999
    ensures ValidDate(NextDay(g))
  {
  }

  lemma BeforeTransitive(a: Date, b: Date, c: Date)
    requires Before(a, b) && Before(b, c)
    ensures Before(a, c)
  {
  }
}
