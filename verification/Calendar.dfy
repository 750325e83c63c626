/**
 The proleptic Gregorian calendar and the week dates of ISO 8601:2004 section
 4.1.4, over day numbers counted from 1970-01-01. This stands for the part of
 chrono that the partition code calls; it has no smallest or largest day (see
 TimePartition.Window for chrono's range).
 */
module Calendar {

  // ---------- Years ----------

  predicate IsLeap(year: int) {
    year % 4 == 0 && (year % 100 != 0 || year % 400 == 0)
  }

  function YearLength(year: int): nat {
    if IsLeap(year) then 366 else 365
  }

  /** Day number of January 1, counting whole years from 1970 in either direction. */
  function YearStart(year: int): int
    decreases if year < 1970 then 1970 - year else year - 1970
  {
    if year == 1970 then 0
    else if year > 1970 then YearStart(year - 1) + YearLength(year - 1)
    else YearStart(year + 1) - YearLength(year)
  }

  lemma NextYearStart(year: int)
    ensures YearStart(year + 1) == YearStart(year) + YearLength(year)
  {
    if year < 1970 {
      assert YearStart(year) == YearStart(year + 1) - YearLength(year);
    }
  }

  lemma {:induction false} YearStartMonotone(a: int, b: int)
    requires a < b
    ensures YearStart(a) + 365 <= YearStart(b)
    decreases b - a
  {
    NextYearStart(b - 1);
    if a < b - 1 {
      YearStartMonotone(a, b - 1);
    }
  }

  /** The calendar year of a day. */
  function YearOf(day: int): (year: int)
    ensures YearStart(year) <= day < YearStart(year + 1)
  {
    SearchYear(1970, day)
  }

  function DaysAway(year: int, day: int): nat {
    NextYearStart(year);
    if day < YearStart(year) then YearStart(year) - day
    else if YearStart(year + 1) <= day then day - YearStart(year + 1) + 1
    else 0
  }

  function SearchYear(year: int, day: int): (r: int)
    ensures YearStart(r) <= day < YearStart(r + 1)
    decreases DaysAway(year, day)
  {
    NextYearStart(year - 1);
    NextYearStart(year);
    NextYearStart(year + 1);
    if day < YearStart(year) then SearchYear(year - 1, day)
    else if YearStart(year + 1) <= day then SearchYear(year + 1, day)
    else year
  }

  lemma YearOfUnique(day: int, year: int)
    requires YearStart(year) <= day < YearStart(year + 1)
    ensures YearOf(day) == year
  {
    var y := YearOf(day);
    if y + 1 < year {
      YearStartMonotone(y + 1, year);
    } else if year + 1 < y {
      YearStartMonotone(year + 1, y);
    }
  }

  // ---------- Months and dates ----------

  function MonthLength(year: int, month: int): nat
    requires 1 <= month <= 12
  {
    if month == 2 then (if IsLeap(year) then 29 else 28)
    else if month in {4, 6, 9, 11} then 30
    else 31
  }

  /** Days of the year before the first of a month; month 13 stands for the end of the year. */
  function DaysBeforeMonth(year: int, month: int): nat
    requires 1 <= month <= 13
  {
    if month == 1 then 0 else DaysBeforeMonth(year, month - 1) + MonthLength(year, month - 1)
  }

  lemma MonthsFillYear(year: int)
    ensures DaysBeforeMonth(year, 13) == YearLength(year)
  {
    assert DaysBeforeMonth(year, 2) == DaysBeforeMonth(year, 1) + MonthLength(year, 1);
    assert DaysBeforeMonth(year, 3) == 31 + MonthLength(year, 2);
    assert DaysBeforeMonth(year, 5) == DaysBeforeMonth(year, 3) + 31 + 30;
    assert DaysBeforeMonth(year, 7) == DaysBeforeMonth(year, 5) + 31 + 30;
    assert DaysBeforeMonth(year, 9) == DaysBeforeMonth(year, 7) + 31 + 31;
    assert DaysBeforeMonth(year, 11) == DaysBeforeMonth(year, 9) + 30 + 31;
    assert DaysBeforeMonth(year, 13) == DaysBeforeMonth(year, 11) + 30 + 31;
  }

  lemma {:induction false} DaysBeforeMonthMonotone(year: int, a: int, b: int)
    requires 1 <= a < b <= 13
    ensures DaysBeforeMonth(year, a) + MonthLength(year, a) <= DaysBeforeMonth(year, b)
    decreases b - a
  {
    if a + 1 < b {
      DaysBeforeMonthMonotone(year, a, b - 1);
    }
  }

  datatype Date = Date(year: int, month: int, day: int)

  /** What `NaiveDate::from_ymd_opt` accepts, apart from chrono's range. */
  predicate ValidDate(date: Date) {
    1 <= date.month <= 12 && 1 <= date.day <= MonthLength(date.year, date.month)
  }

  function DayNumber(date: Date): int
    requires ValidDate(date)
  {
    YearStart(date.year) + DaysBeforeMonth(date.year, date.month) + date.day - 1
  }

  function SearchMonth(year: int, month: int, offset: nat): (r: int)
    requires 1 <= month <= 12
    requires DaysBeforeMonth(year, month) <= offset < DaysBeforeMonth(year, 13)
    ensures 1 <= r <= 12
    ensures DaysBeforeMonth(year, r) <= offset < DaysBeforeMonth(year, r + 1)
    decreases 12 - month
  {
    if offset < DaysBeforeMonth(year, month + 1) then month else SearchMonth(year, month + 1, offset)
  }

  /** The calendar date of a day number. */
  function DateOf(day: int): (date: Date)
    ensures ValidDate(date) && DayNumber(date) == day && date.year == YearOf(day)
  {
    var year := YearOf(day);
    NextYearStart(year);
    MonthsFillYear(year);
    var offset := day - YearStart(year);
    var month := SearchMonth(year, 1, offset);
    assert DaysBeforeMonth(year, month + 1) == DaysBeforeMonth(year, month) + MonthLength(year, month);
    Date(year, month, offset - DaysBeforeMonth(year, month) + 1)
  }

  /** Every valid date is the date of its own day number, so dates and days correspond one to one. */
  lemma DateOfDayNumber(date: Date)
    requires ValidDate(date)
    ensures DateOf(DayNumber(date)) == date
  {
    hide YearStart, YearOf, DateOf, IsLeap;
    var day := DayNumber(date);
    var d := DateOf(day);
    DayWithinYear(date);
    YearOfUnique(day, date.year);
    assert DaysBeforeMonth(d.year, d.month + 1) == DaysBeforeMonth(d.year, d.month) + MonthLength(d.year, d.month);
    if d.month < date.month {
      DaysBeforeMonthMonotone(date.year, d.month, date.month);
    } else if date.month < d.month {
      DaysBeforeMonthMonotone(date.year, date.month, d.month);
    }
  }

  lemma DayWithinYear(date: Date)
    requires ValidDate(date)
    ensures YearStart(date.year) <= DayNumber(date) < YearStart(date.year + 1)
  {
    MonthsFillYear(date.year);
    NextYearStart(date.year);
    DaysBeforeMonthMonotone(date.year, date.month, 13);
  }

  /** The day after a date, by the rules of the calendar. */
  function NextDate(date: Date): Date
    requires ValidDate(date)
  {
    if date.day < MonthLength(date.year, date.month) then Date(date.year, date.month, date.day + 1)
    else FirstOfNextMonth(date)
  }

  function FirstOfNextMonth(date: Date): (first: Date)
    requires ValidDate(date)
    ensures ValidDate(first)
  {
    if date.month < 12 then Date(date.year, date.month + 1, 1) else Date(date.year + 1, 1, 1)
  }

  /** Day numbers count days: the epoch is zero and the next date is one more. */
  lemma DayNumberCounts(date: Date)
    requires ValidDate(date)
    ensures DayNumber(Date(1970, 1, 1)) == 0
    ensures DayNumber(NextDate(date)) == DayNumber(date) + 1
  {
    if date.day == MonthLength(date.year, date.month) && date.month == 12 {
      MonthsFillYear(date.year);
      NextYearStart(date.year);
      assert DaysBeforeMonth(date.year, 13) == DaysBeforeMonth(date.year, 12) + MonthLength(date.year, 12);
    }
  }

  function FirstOfMonth(day: int): int {
    var date := DateOf(day);
    DayNumber(Date(date.year, date.month, 1))
  }

  /** First day of the month after the month of a day. */
  function NextMonthStart(day: int): int {
    DayNumber(FirstOfNextMonth(DateOf(day)))
  }

  lemma MonthContains(day: int)
    ensures FirstOfMonth(day) <= day < NextMonthStart(day)
    ensures NextMonthStart(day) == FirstOfMonth(day) + MonthLength(DateOf(day).year, DateOf(day).month)
  {
    var date := DateOf(day);
    if date.month == 12 {
      MonthsFillYear(date.year);
      NextYearStart(date.year);
      assert DaysBeforeMonth(date.year, 13) == DaysBeforeMonth(date.year, 12) + MonthLength(date.year, 12);
    }
  }

  // ---------- Months in a row ----------

  /** Months numbered consecutively through all years. */
  function MonthIndex(day: int): int {
    12 * DateOf(day).year + DateOf(day).month - 1
  }

  function MonthAt(index: int): (first: Date)
    ensures ValidDate(first)
  {
    Date(index / 12, index % 12 + 1, 1)
  }

  function MonthIndexStart(index: int): int {
    DayNumber(MonthAt(index))
  }

  lemma MonthAtIndex(year: int, month: int)
    requires 1 <= month <= 12
    ensures MonthAt(12 * year + month - 1) == Date(year, month, 1)
    ensures forall day {:trigger Date(year, month, day)} :: ValidDate(Date(year, month, day)) ==>
              MonthAt(12 * year + month) == FirstOfNextMonth(Date(year, month, day))
  {
  }

  lemma OwnMonth(day: int)
    ensures MonthIndexStart(MonthIndex(day)) == FirstOfMonth(day)
    ensures MonthIndexStart(MonthIndex(day) + 1) == NextMonthStart(day)
  {
    hide DateOf, DayNumber, MonthAt;
    MonthAtIndex(DateOf(day).year, DateOf(day).month);
  }

  /** A month index covers exactly the days from its start up to the next start. */
  lemma MonthIndexRange(day: int, index: int)
    ensures MonthIndex(day) == index <==> MonthIndexStart(index) <= day < MonthIndexStart(index + 1)
  {
    hide *;
    OwnMonth(day);
    MonthContains(day);
    var own := MonthIndex(day);
    if own < index {
      MonthIndexMonotone(own + 1, index);
    } else if index < own {
      MonthIndexMonotone(index + 1, own);
    }
  }

  lemma {:induction false} MonthIndexMonotone(a: int, b: int)
    requires a <= b
    ensures MonthIndexStart(a) <= MonthIndexStart(b)
    decreases b - a
  {
    if a < b {
      MonthIndexMonotone(a, b - 1);
      MonthAdvances(b - 1);
    }
  }

  lemma MonthAdvances(index: int)
    ensures MonthIndexStart(index) < MonthIndexStart(index + 1)
    ensures MonthIndex(MonthIndexStart(index)) == index
  {
    hide DateOf, DayNumber, YearStart, DaysBeforeMonth;
    DateOfDayNumber(MonthAt(index));
    MonthAtIndex(index / 12, index % 12 + 1);
    MonthContains(MonthIndexStart(index));
  }

  // ---------- ISO weeks ----------

  /** Days since Monday; 1970-01-01 was a Thursday. */
  function Weekday(day: int): (w: int)
    ensures 0 <= w < 7
  {
    (day + 3) % 7
  }

  function MondayOf(day: int): (monday: int)
    ensures Weekday(monday) == 0 && monday <= day < monday + 7
  {
    day - Weekday(day)
  }

  datatype IsoWeek = IsoWeek(year: int, week: int)

  /** A week belongs to the year that holds its Thursday, and is numbered by Thursdays. */
  function IsoWeekOf(day: int): (iso: IsoWeek)
    ensures 1 <= iso.week <= 53
  {
    var thursday := MondayOf(day) + 3;
    var year := YearOf(thursday);
    NextYearStart(year);
    IsoWeek(year, (thursday - YearStart(year)) / 7 + 1)
  }

  /** Week 1 is the week that holds January 4. */
  function FirstMonday(year: int): int {
    MondayOf(YearStart(year) + 3)
  }

  function WeeksIn(year: int): int {
    (FirstMonday(year + 1) - FirstMonday(year)) / 7
  }

  /** What `NaiveDate::from_isoywd_opt` accepts for a Monday, apart from chrono's range. */
  predicate ValidWeek(iso: IsoWeek) {
    1 <= iso.week <= WeeksIn(iso.year)
  }

  function MondayOfWeek(iso: IsoWeek): int {
    FirstMonday(iso.year) + 7 * (iso.week - 1)
  }

  lemma MondaysApart(a: int, b: int)
    requires Weekday(a) == 0 && Weekday(b) == 0
    ensures (b - a) % 7 == 0 && b - a == 7 * ((b - a) / 7)
  {
  }

  /** The Thursday rule and the January 4 rule agree: the week of a day begins on that day's Monday. */
  lemma WeekOfDay(day: int)
    ensures ValidWeek(IsoWeekOf(day))
    ensures MondayOfWeek(IsoWeekOf(day)) == MondayOf(day)
  {
    var monday := MondayOf(day);
    var iso := IsoWeekOf(day);
    var first, next := FirstMonday(iso.year), FirstMonday(iso.year + 1);
    var start, nextStart := YearStart(iso.year), YearStart(iso.year + 1);
    assert start - 3 <= first <= start + 3;
    assert nextStart - 3 <= next <= nextStart + 3;
    assert start <= monday + 3 < nextStart;
    MondaysApart(first, monday);
    MondaysApart(first, next);
    MondaysApart(monday, next);
    assert first <= monday < next;
    var weeks := (monday - first) / 7;
    assert monday + 3 - start == 7 * weeks + (first + 3 - start);
    assert 0 <= first + 3 - start < 7;
    assert iso.week == weeks + 1;
  }

  /** Every valid week is the week of its Monday. */
  lemma WeekOfMonday(iso: IsoWeek)
    requires ValidWeek(iso)
    ensures Weekday(MondayOfWeek(iso)) == 0
    ensures IsoWeekOf(MondayOfWeek(iso)) == iso
  {
    var first, next := FirstMonday(iso.year), FirstMonday(iso.year + 1);
    var start, nextStart := YearStart(iso.year), YearStart(iso.year + 1);
    var monday := MondayOfWeek(iso);
    MondaysApart(first, next);
    assert monday <= next - 7;
    var thursday := monday + 3;
    YearOfUnique(thursday, iso.year);
    assert thursday - start == 7 * (iso.week - 1) + (first + 3 - start);
  }

  /** A year has 53 weeks exactly when it begins on a Thursday, or is a leap year beginning on a Wednesday. */
  lemma LongYears(year: int)
    ensures WeeksIn(year) ==
            if Weekday(YearStart(year)) == 3 || (IsLeap(year) && Weekday(YearStart(year)) == 2) then 53 else 52
  {
    NextYearStart(year);
    WeeksOver(YearStart(year), YearLength(year));
  }

  lemma WeeksOver(start: int, length: int)
    requires length == 365 || length == 366
    ensures (MondayOf(start + length + 3) - MondayOf(start + 3)) / 7 ==
            if Weekday(start) == 3 || (length == 366 && Weekday(start) == 2) then 53 else 52
  {
    var w, z := Weekday(start), (start + 3) / 7;
    assert start + 3 == 7 * z + w;
    assert Weekday(start + 3) == (w + 3) % 7;
    assert Weekday(start + length + 3) == (w + length + 3) % 7;
  }
}
