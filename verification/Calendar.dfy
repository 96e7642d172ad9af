/** Dates of the Gregorian calendar, and the rebalance dates and budgets of the two strategies
    (src/rqcoresrv/src/robotrader/fast_runner.rs, pqp_ap_calculate_dates_and_pv). */
module Calendar {
  datatype Date = Date(year: int, month: int, day: int)

  predicate IsLeapYear(y: int) {
    y % 4 == 0 && (y % 100 != 0 || y % 400 == 0)
  }

  function DaysInMonth(y: int, m: int): int {
    if m == 2 then (if IsLeapYear(y) then 29 else 28)
    else if m == 4 || m == 6 || m == 9 || m == 11 then 30
    else 31
  }

  predicate ValidDate(d: Date) {
    1 <= d.month <= 12 && 1 <= d.day <= DaysInMonth(d.year, d.month)
  }

  function DaysBeforeYear(y: int): int {
    365 * (y - 1) + (y - 1) / 4 - (y - 1) / 100 + (y - 1) / 400
  }

  function DaysBeforeMonth(y: int, m: int): int
    decreases m
  {
    if m <= 1 then 0 else DaysBeforeMonth(y, m - 1) + DaysInMonth(y, m - 1)
  }

  /** Days counted so that 1 January of year 1, a Monday, is day 1. */
  function DayNumber(d: Date): int {
    DaysBeforeYear(d.year) + DaysBeforeMonth(d.year, d.month) + d.day
  }

  // The day number of 1 January 1970.
  const EPOCH_DAY := 719_163

  /** 0 for Monday to 6 for Sunday. */
  function DaysFromMonday(d: Date): (r: int)
    ensures 0 <= r < 7
  {
    (DayNumber(d) - 1) % 7
  }

  predicate IsWeekday(d: Date) {
    DaysFromMonday(d) < 5
  }

  function NextDay(d: Date): Date {
    if d.day < DaysInMonth(d.year, d.month) then Date(d.year, d.month, d.day + 1)
    else if d.month < 12 then Date(d.year, d.month + 1, 1)
    else Date(d.year + 1, 1, 1)
  }

  function PreviousDay(d: Date): Date {
    if d.day > 1 then Date(d.year, d.month, d.day - 1)
    else if d.month > 1 then Date(d.year, d.month - 1, DaysInMonth(d.year, d.month - 1))
    else Date(d.year - 1, 12, 31)
  }

  function PlusDays(d: Date, n: nat): Date {
    if n == 0 then d else NextDay(PlusDays(d, n - 1))
  }

  function MinusDays(d: Date, n: nat): Date {
    if n == 0 then d else PreviousDay(MinusDays(d, n - 1))
  }

  // ---------- Day numbers and dates correspond one to one ----------

  lemma {:induction false} YearLength(y: int)
    ensures DaysBeforeYear(y + 1) == DaysBeforeYear(y) + (if IsLeapYear(y) then 366 else 365)
  {
    YearsCounted(y, 4);
    YearsCounted(y, 100);
    YearsCounted(y, 400);
  }

  lemma YearsCounted(y: int, cycle: int)
    requires cycle in [4, 100, 400]
    ensures y / cycle == (y - 1) / cycle + (if y % cycle == 0 then 1 else 0)
  {
    if cycle == 4 {
      assert y / 4 == (y - 1) / 4 + (if y % 4 == 0 then 1 else 0);
    } else if cycle == 100 {
      assert y / 100 == (y - 1) / 100 + (if y % 100 == 0 then 1 else 0);
    } else {
      assert y / 400 == (y - 1) / 400 + (if y % 400 == 0 then 1 else 0);
    }
  }

  lemma MonthsOfYear(y: int)
    ensures DaysBeforeMonth(y, 12) + 31 == (if IsLeapYear(y) then 366 else 365)
  {
    assert DaysBeforeMonth(y, 3) == 31 + DaysInMonth(y, 2);
    assert DaysBeforeMonth(y, 6) == DaysBeforeMonth(y, 3) + 92;
    assert DaysBeforeMonth(y, 9) == DaysBeforeMonth(y, 6) + 92;
    assert DaysBeforeMonth(y, 12) == DaysBeforeMonth(y, 9) + 91;
  }

  lemma {:induction false} NextDayIsNext(d: Date)
    requires ValidDate(d)
    ensures ValidDate(NextDay(d)) && DayNumber(NextDay(d)) == DayNumber(d) + 1
  {
    if d.month == 12 { MonthsOfYear(d.year); YearLength(d.year); }
  }

  lemma {:induction false} PreviousDayIsPrevious(d: Date)
    requires ValidDate(d)
    ensures ValidDate(PreviousDay(d)) && DayNumber(PreviousDay(d)) == DayNumber(d) - 1
    ensures NextDay(PreviousDay(d)) == d
  {
    NextDayIsNext(PreviousDay(d));
  }

  lemma {:induction false} PlusDaysAdds(d: Date, n: nat)
    requires ValidDate(d)
    ensures ValidDate(PlusDays(d, n)) && DayNumber(PlusDays(d, n)) == DayNumber(d) + n
  {
    if n > 0 { PlusDaysAdds(d, n - 1); NextDayIsNext(PlusDays(d, n - 1)); }
  }

  lemma {:induction false} MinusDaysSubtracts(d: Date, n: nat)
    requires ValidDate(d)
    ensures ValidDate(MinusDays(d, n)) && DayNumber(MinusDays(d, n)) == DayNumber(d) - n
  {
    if n > 0 { MinusDaysSubtracts(d, n - 1); PreviousDayIsPrevious(MinusDays(d, n - 1)); }
  }

  lemma {:induction false} MonthsIncrease(y: int, m: int, n: int)
    requires 1 <= m < n <= 12
    ensures DaysBeforeMonth(y, m) + DaysInMonth(y, m) <= DaysBeforeMonth(y, n)
    decreases n
  {
    if m < n - 1 { MonthsIncrease(y, m, n - 1); }
  }

  lemma {:induction false} YearsIncrease(y: int, z: int)
    requires y < z
    ensures DaysBeforeYear(y + 1) <= DaysBeforeYear(z)
    decreases z - y
  {
    if y < z - 1 { YearsIncrease(y, z - 1); YearLength(z - 1); }
  }

  lemma DateInYear(d: Date)
    requires ValidDate(d)
    ensures DaysBeforeYear(d.year) < DayNumber(d) <= DaysBeforeYear(d.year + 1)
  {
    if 1 < d.month { MonthsIncrease(d.year, 1, d.month); }
    if d.month < 12 { MonthsIncrease(d.year, d.month, 12); }
    MonthsOfYear(d.year);
    YearLength(d.year);
  }

  /** Different dates have different day numbers. */
  lemma DayNumberInjective(d: Date, e: Date)
    requires ValidDate(d) && ValidDate(e) && DayNumber(d) == DayNumber(e)
    ensures d == e
  {
    DateInYear(d);
    DateInYear(e);
    if d.year < e.year { YearsIncrease(d.year, e.year); }
    if e.year < d.year { YearsIncrease(e.year, d.year); }
    if d.month < e.month { MonthsIncrease(d.year, d.month, e.month); }
    if e.month < d.month { MonthsIncrease(d.year, e.month, d.month); }
  }

  /** Every day number is that of a date. */
  lemma DateOfDayNumber(n: int) returns (d: Date)
    ensures ValidDate(d) && DayNumber(d) == n
  {
    d := Date(1970, 1, 1);
    assert DayNumber(d) == EPOCH_DAY;
    if EPOCH_DAY <= n {
      PlusDaysAdds(d, n - EPOCH_DAY);
      d := PlusDays(d, n - EPOCH_DAY);
    } else {
      MinusDaysSubtracts(d, EPOCH_DAY - n);
      d := MinusDays(d, EPOCH_DAY - n);
    }
  }

  // ---------- Rebalance dates ----------

  function PqpRebalanceDate(today: Date): Date {
    MinusDays(today, DaysFromMonday(today))
  }

  function ApVirtualRebalanceDate(today: Date): Date {
    Date(today.year, today.month, if today.day >= 15 then 15 else 1)
  }

  function ApRebalanceDate(today: Date): Date {
    var virtual := ApVirtualRebalanceDate(today);
    if DaysFromMonday(virtual) == 5 then PlusDays(virtual, 2)
    else if DaysFromMonday(virtual) == 6 then PlusDays(virtual, 1)
    else virtual
  }

  predicate PqpRunsToday(today: Date) {
    today == PqpRebalanceDate(today)
  }

  predicate ApRunsToday(today: Date) {
    today == ApRebalanceDate(today)
  }

  /** The portfolio values to play on a day. */
  datatype Budget = Budget(pqpBuy: real, pqpSell: real, apBuy: real) {
    function Total(): real { pqpBuy + pqpSell + apBuy }
  }

  function BudgetFor(pqpRuns: bool, apRuns: bool): Budget {
    if pqpRuns && apRuns then Budget(70000.0, 60000.0, 70000.0)
    else if pqpRuns then Budget(140000.0, 60000.0, 0.0)
    else if apRuns then Budget(0.0, 0.0, 200000.0)
    else Budget(0.0, 0.0, 0.0)
  }

  function DayBudget(today: Date): Budget {
    BudgetFor(PqpRunsToday(today), ApRunsToday(today))
  }

  /** The PQP date is the one Monday among the last seven days, today included. */
  lemma PqpDateIsTheLastMonday(today: Date, e: Date)
    requires ValidDate(today) && ValidDate(e)
    ensures e == PqpRebalanceDate(today) <==>
      DaysFromMonday(e) == 0 && DayNumber(today) - 6 <= DayNumber(e) <= DayNumber(today)
  {
    MinusDaysSubtracts(today, DaysFromMonday(today));
    MondayIs(today, PqpRebalanceDate(today), e);
  }

  lemma MondayIs(today: Date, monday: Date, e: Date)
    requires ValidDate(monday) && ValidDate(e) && DayNumber(monday) == DayNumber(today) - DaysFromMonday(today)
    ensures e == monday <==> DaysFromMonday(e) == 0 && DayNumber(today) - 6 <= DayNumber(e) <= DayNumber(today)
  {
    OneMonday(DayNumber(today), DayNumber(monday), DayNumber(e));
    if DayNumber(e) == DayNumber(monday) { DayNumberInjective(e, monday); }
  }

  lemma OneMonday(today: int, monday: int, e: int)
    requires monday == today - (today - 1) % 7
    ensures e == monday <==> (e - 1) % 7 == 0 && today - 6 <= e <= today
  {
  }

  /** The numbering of the days of the week is that of the calendar: 1970-01-01 was a Thursday and 2025-01-06 a Monday. */
  lemma WeekdaysAreAnchored()
    ensures DaysFromMonday(Date(1970, 1, 1)) == 3 && DaysFromMonday(Date(2025, 1, 6)) == 0
  {
    AnchorDates();
  }

  /** Consecutive days have consecutive numbers, and Monday follows Sunday. */
  lemma {:induction false} NextWeekday(d: Date)
    requires ValidDate(d)
    ensures DaysFromMonday(NextDay(d)) == if DaysFromMonday(d) == 6 then 0 else DaysFromMonday(d) + 1
  {
    NextDayIsNext(d);
    RemainderNext(DayNumber(d) - 1);
  }

  lemma RemainderNext(x: int)
    ensures (x + 1) % 7 == if x % 7 == 6 then 0 else x % 7 + 1
  {
  }

  lemma AnchorDates()
    ensures DayNumber(Date(1970, 1, 1)) == EPOCH_DAY && DayNumber(Date(2025, 1, 6)) == EPOCH_DAY + 20_094
  {
  }

  /** 2000 and 2024 are leap years, 1900 and 2023 are not. */
  lemma LeapYears()
    ensures ValidDate(Date(2000, 2, 29)) && ValidDate(Date(2024, 2, 29))
    ensures !ValidDate(Date(1900, 2, 29)) && !ValidDate(Date(2023, 2, 29))
  {
  }

  lemma {:induction false} PqpRunsOnMondays(today: Date)
    requires ValidDate(today)
    ensures PqpRunsToday(today) <==> DaysFromMonday(today) == 0
  {
    PqpDateIsTheLastMonday(today, today);
  }

  /** The first weekday on or after a day of the month that is not among its last two. */
  function FirstWeekdayFrom(y: int, m: int, day: int): int {
    var w := DaysFromMonday(Date(y, m, day));
    if w == 5 then day + 2 else if w == 6 then day + 1 else day
  }

  lemma {:induction false} FirstWeekdayFromIsFirst(y: int, m: int, day: int, e: int)
    requires 1 <= m <= 12 && 1 <= day && day + 2 <= DaysInMonth(y, m)
    ensures e == FirstWeekdayFrom(y, m, day) <==>
      day <= e <= day + 2 && IsWeekday(Date(y, m, e)) && forall k :: day <= k < e ==> !IsWeekday(Date(y, m, k))
  {
    var f := FirstWeekdayFrom(y, m, day);
    DaysLater(y, m, day, 1);
    DaysLater(y, m, day, 2);
    assert IsWeekday(Date(y, m, f));
    if e > f && day <= e <= day + 2 { assert IsWeekday(Date(y, m, f)); }
  }

  lemma DaysLater(y: int, m: int, day: int, n: int)
    ensures DaysFromMonday(Date(y, m, day + n)) == (DaysFromMonday(Date(y, m, day)) + n) % 7
  {
    assert DayNumber(Date(y, m, day + n)) == DayNumber(Date(y, m, day)) + n;
    RemainderLater(DayNumber(Date(y, m, day)) - 1, n);
  }

  lemma RemainderLater(x: int, n: int)
    ensures (x + n) % 7 == (x % 7 + n) % 7
  {
    assert x == 7 * (x / 7) + x % 7;
  }

  /** Within a month AP runs exactly on the first weekday from the 1st and the first weekday from the 15th. */
  lemma ApRunsOn(today: Date)
    requires ValidDate(today)
    ensures ApRunsToday(today) <==>
      today.day == FirstWeekdayFrom(today.year, today.month, 1) || today.day == FirstWeekdayFrom(today.year, today.month, 15)
  {
    var virtual := ApVirtualRebalanceDate(today);
    assert PlusDays(virtual, 1) == Date(virtual.year, virtual.month, virtual.day + 1);
    assert PlusDays(virtual, 2) == Date(virtual.year, virtual.month, virtual.day + 2);
    assert ApRebalanceDate(today).day == FirstWeekdayFrom(today.year, today.month, virtual.day);
  }

  /** The AP date of any day is the first weekday from the later of the 1st and the 15th that is not after the day. */
  lemma {:induction false} ApDateIsFirstWeekday(today: Date, e: int)
    requires ValidDate(today)
    ensures ApRebalanceDate(today) == Date(today.year, today.month, e) <==>
      IsFirstWeekdayFrom(Date(today.year, today.month, e), if today.day < 15 then 1 else 15)
  {
    var start := if today.day < 15 then 1 else 15;
    var virtual := ApVirtualRebalanceDate(today);
    assert PlusDays(virtual, 1) == Date(virtual.year, virtual.month, virtual.day + 1);
    assert PlusDays(virtual, 2) == Date(virtual.year, virtual.month, virtual.day + 2);
    FirstWeekdayFromIsFirst(today.year, today.month, start, e);
  }

  /** The date is the first weekday of its month that is not before the given day of the month. */
  ghost predicate IsFirstWeekdayFrom(d: Date, day: int) {
    && day <= d.day <= day + 2 && IsWeekday(d)
    && forall k :: day <= k < d.day ==> !IsWeekday(Date(d.year, d.month, k))
  }

  lemma {:induction false} ApRunsOnFirstWeekdays(today: Date)
    requires ValidDate(today)
    ensures ApRunsToday(today) <==> IsFirstWeekdayFrom(today, 1) || IsFirstWeekdayFrom(today, 15)
  {
    ApRunsOn(today);
    FirstWeekdayFromIsFirst(today.year, today.month, 1, today.day);
    FirstWeekdayFromIsFirst(today.year, today.month, 15, today.day);
  }

  /** In every month AP runs on exactly two days, both weekdays, exactly 14 days apart; and either both are PQP days
      or neither is. */
  lemma {:induction false} ApRunsTwiceAMonth(y: int, m: int) returns (first: int)
    requires 1 <= m <= 12
    ensures 1 <= first <= 3
    ensures forall day :: 1 <= day <= DaysInMonth(y, m) ==>
      (ApRunsToday(Date(y, m, day)) <==> day == first || day == first + 14)
    ensures IsWeekday(Date(y, m, first)) && IsWeekday(Date(y, m, first + 14))
    ensures PqpRunsToday(Date(y, m, first)) <==> PqpRunsToday(Date(y, m, first + 14))
  {
    first := FirstWeekdayFrom(y, m, 1);
    FortnightLater(y, m);
    forall day | 1 <= day <= DaysInMonth(y, m)
      ensures ApRunsToday(Date(y, m, day)) <==> day == first || day == first + 14
    {
      ApRunsOn(Date(y, m, day));
    }
    PqpRunsOnMondays(Date(y, m, first));
    PqpRunsOnMondays(Date(y, m, first + 14));
  }

  /** The 15th falls on the same day of the week as the 1st, so both are moved alike. */
  lemma {:induction false} FortnightLater(y: int, m: int)
    requires 1 <= m <= 12
    ensures var first := FirstWeekdayFrom(y, m, 1);
      && first <= 3
      && FirstWeekdayFrom(y, m, 15) == first + 14
      && IsWeekday(Date(y, m, first))
      && DaysFromMonday(Date(y, m, first + 14)) == DaysFromMonday(Date(y, m, first))
  {
    var first := FirstWeekdayFrom(y, m, 1);
    FirstWeekdayFromIsFirst(y, m, 1, first);
    DaysLater(y, m, 1, 14);
    DaysLater(y, m, first, 14);
  }

  /** On a run day all of 200,000 is handed out, whichever strategies run; on any other day nothing is; and a strategy
      that does not run gets nothing. */
  lemma BudgetIsSplit(today: Date)
    ensures DayBudget(today).Total() == if PqpRunsToday(today) || ApRunsToday(today) then 200000.0 else 0.0
    ensures PqpRunsToday(today) <==> 0.0 < DayBudget(today).pqpBuy
    ensures PqpRunsToday(today) <==> 0.0 < DayBudget(today).pqpSell
    ensures ApRunsToday(today) <==> 0.0 < DayBudget(today).apBuy
    ensures PqpRunsToday(today) ==>
      DayBudget(today).pqpSell == 60000.0 && DayBudget(today).pqpBuy + DayBudget(today).apBuy == 140000.0
    ensures PqpRunsToday(today) && ApRunsToday(today) ==> DayBudget(today).pqpBuy == DayBudget(today).apBuy
  {
  }
}
