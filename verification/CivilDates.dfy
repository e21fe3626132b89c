/**
  The proleptic Gregorian calendar as ECMA-262 defines it: day numbers of dates
  (sections 21.4.1 and 21.4.3.4), and back.
*/
module CivilDates {

  /** Month 0 is January, day 1 is the first. */
  datatype Date = Date(year: int, month: int, day: int)

  predicate IsLeap(y: int) {
    y % 4 == 0 && (y % 100 != 0 || y % 400 == 0)
  }

  function DaysInYear(y: int): int {
    if IsLeap(y) then 366 else 365
  }

  /** Day number of the first of January; 1970 is day 0. */
  function DayFromYear(y: int): int {
    365 * (y - 1970) + (y - 1969) / 4 - (y - 1901) / 100 + (y - 1601) / 400
  }

  /** Days of the year before the month. */
  function MonthStart(leap: bool, m: int): int
    requires 0 <= m <= 12
  {
    if m == 0 then 0
    else if m == 1 then 31
    else (if leap then 1 else 0) + MonthStartPlain(m)
  }

  /** The same, from March on, in a year without a leap day. */
  function MonthStartPlain(m: int): int
    requires 2 <= m <= 12
  {
    match m
    case 2 => 59
    case 3 => 90
    case 4 => 120
    case 5 => 151
    case 6 => 181
    case 7 => 212
    case 8 => 243
    case 9 => 273
    case 10 => 304
    case 11 => 334
    case _ => 365
  }

  function DaysInMonth(y: int, m: int): int
    requires 0 <= m < 12
  {
    MonthStart(IsLeap(y), m + 1) - MonthStart(IsLeap(y), m)
  }

  predicate IsValid(d: Date) {
    0 <= d.month < 12 && 1 <= d.day <= DaysInMonth(d.year, d.month)
  }

  /** MakeDay: months outside 0..11 carry into the year, days outside the month run on. */
  function MakeDay(year: int, month: int, day: int): int {
    var y, m := year + month / 12, month % 12;
    DayFromYear(y) + MonthStart(IsLeap(y), m) + day - 1
  }

  function DayNumber(d: Date): int
    requires 0 <= d.month < 12
  {
    DayFromYear(d.year) + MonthStart(IsLeap(d.year), d.month) + d.day - 1
  }

  lemma MakeDayInRange(d: Date)
    requires 0 <= d.month < 12
    ensures MakeDay(d.year, d.month, d.day) == DayNumber(d)
  {
    assert d.month / 12 == 0 && d.month % 12 == d.month;
  }

  // ---------------------------------------------------------------- from a day number back to its date

  /** Each correction term steps by one exactly at the multiples of its period. */
  lemma StepBy4(y: int)
    ensures (y - 1968) / 4 - (y - 1969) / 4 == if y % 4 == 0 then 1 else 0
  {
    var q, r := y / 4, y % 4;
    assert y == 4 * q + r;
    assert (y - 1968) / 4 == q - 492;
    assert (y - 1969) / 4 == if r == 0 then q - 493 else q - 492;
  }

  lemma StepBy100(y: int)
    ensures (y - 1900) / 100 - (y - 1901) / 100 == if y % 100 == 0 then 1 else 0
  {
    var q, r := y / 100, y % 100;
    assert y == 100 * q + r;
    assert (y - 1900) / 100 == q - 19;
    assert (y - 1901) / 100 == if r == 0 then q - 20 else q - 19;
  }

  lemma StepBy400(y: int)
    ensures (y - 1600) / 400 - (y - 1601) / 400 == if y % 400 == 0 then 1 else 0
  {
    var q, r := y / 400, y % 400;
    assert y == 400 * q + r;
    assert (y - 1600) / 400 == q - 4;
    assert (y - 1601) / 400 == if r == 0 then q - 5 else q - 4;
  }

  lemma PeriodsNest(y: int)
    ensures y % 100 == 0 ==> y % 4 == 0
    ensures y % 400 == 0 ==> y % 100 == 0
  {
    if y % 100 == 0 {
      assert y == 4 * (25 * (y / 100));
    }
    if y % 400 == 0 {
      assert y == 100 * (4 * (y / 400));
    }
  }

  lemma YearLength(y: int)
    ensures DayFromYear(y + 1) == DayFromYear(y) + DaysInYear(y)
  {
    StepBy4(y);
    StepBy100(y);
    StepBy400(y);
    PeriodsNest(y);
  }

  lemma {:induction false} YearsIncrease(a: int, b: int)
    requires a <= b
    ensures DayFromYear(b) >= DayFromYear(a) + 365 * (b - a)
    decreases b - a
  {
    if a < b {
      YearLength(b - 1);
      YearsIncrease(a, b - 1);
    }
  }

  function YearUp(day: int, y: int): (r: int)
    requires DayFromYear(y) <= day
    ensures DayFromYear(r) <= day < DayFromYear(r + 1)
    decreases day - DayFromYear(y)
  {
    YearLength(y);
    if day < DayFromYear(y + 1) then y else YearUp(day, y + 1)
  }

  function YearDown(day: int, y: int): (r: int)
    requires day < DayFromYear(y + 1)
    ensures DayFromYear(r) <= day < DayFromYear(r + 1)
    decreases DayFromYear(y + 1) - day
  {
    YearLength(y);
    if DayFromYear(y) <= day then y else YearDown(day, y - 1)
  }

  /** YearFromTime: the year whose days include this one. */
  function YearOf(day: int): (r: int)
    ensures DayFromYear(r) <= day < DayFromYear(r + 1)
  {
    if day >= 0 then YearUp(day, 1970) else YearDown(day, 1969)
  }

  function MonthOf(leap: bool, dayOfYear: int): (m: int)
    requires 0 <= dayOfYear < (if leap then 366 else 365)
    ensures 0 <= m < 12 && MonthStart(leap, m) <= dayOfYear < MonthStart(leap, m + 1)
  {
    if dayOfYear < MonthStart(leap, 6) then
      if dayOfYear < MonthStart(leap, 1) then 0 else if dayOfYear < MonthStart(leap, 2) then 1
      else if dayOfYear < MonthStart(leap, 3) then 2 else if dayOfYear < MonthStart(leap, 4) then 3
      else if dayOfYear < MonthStart(leap, 5) then 4 else 5
    else
      if dayOfYear < MonthStart(leap, 7) then 6 else if dayOfYear < MonthStart(leap, 8) then 7
      else if dayOfYear < MonthStart(leap, 9) then 8 else if dayOfYear < MonthStart(leap, 10) then 9
      else if dayOfYear < MonthStart(leap, 11) then 10 else 11
  }

  function DateOf(day: int): Date {
    var y := YearOf(day);
    YearLength(y);
    var rest := day - DayFromYear(y);
    var m := MonthOf(IsLeap(y), rest);
    Date(y, m, rest - MonthStart(IsLeap(y), m) + 1)
  }

  /** Every day has a date, and the date's day number is the day. */
  lemma DayNumberOfDate(day: int)
    ensures IsValid(DateOf(day)) && DayNumber(DateOf(day)) == day
  {
    YearLength(YearOf(day));
  }

  // ---------------------------------------------------------------- order

  predicate Before(a: Date, b: Date) {
    a.year < b.year || (a.year == b.year && (a.month < b.month || (a.month == b.month && a.day < b.day)))
  }

  predicate NotAfter(a: Date, b: Date) {
    a == b || Before(a, b)
  }

  lemma WithinYear(d: Date)
    requires IsValid(d)
    ensures DayFromYear(d.year) <= DayNumber(d) < DayFromYear(d.year + 1)
  {
    YearLength(d.year);
    MonthsIncrease(IsLeap(d.year), d.month, 12);
  }

  lemma MonthsIncrease(leap: bool, a: int, b: int)
    requires 0 <= a < b <= 12
    ensures MonthStart(leap, a + 1) <= MonthStart(leap, b)
  {}

  lemma LaterYear(a: Date, b: Date)
    requires IsValid(a) && IsValid(b) && a.year < b.year
    ensures DayNumber(a) < DayNumber(b)
  {
    WithinYear(a);
    WithinYear(b);
    YearsIncrease(a.year + 1, b.year);
  }

  lemma LaterIsGreater(a: Date, b: Date)
    requires IsValid(a) && IsValid(b) && Before(a, b)
    ensures DayNumber(a) < DayNumber(b)
  {
    if a.year < b.year {
      LaterYear(a, b);
    } else if a.month < b.month {
      MonthsIncrease(IsLeap(a.year), a.month, b.month);
    }
  }

  /** Comparing valid dates field by field is comparing their day numbers. */
  lemma OrderIsDayOrder(a: Date, b: Date)
    requires IsValid(a) && IsValid(b)
    ensures NotAfter(a, b) <==> DayNumber(a) <= DayNumber(b)
  {
    if Before(a, b) {
      LaterIsGreater(a, b);
    } else if Before(b, a) {
      LaterIsGreater(b, a);
    }
  }

  /** Each valid date is the date of its day number. */
  lemma DateOfDayNumber(d: Date)
    requires IsValid(d)
    ensures DateOf(DayNumber(d)) == d
  {
    DayNumberOfDate(DayNumber(d));
    OrderIsDayOrder(d, DateOf(DayNumber(d)));
    OrderIsDayOrder(DateOf(DayNumber(d)), d);
  }

  /** The next day by the calendar's own rules. */
  function NextDay(d: Date): Date
    requires IsValid(d)
  {
    if d.day < DaysInMonth(d.year, d.month) then Date(d.year, d.month, d.day + 1)
    else if d.month < 11 then Date(d.year, d.month + 1, 1)
    else Date(d.year + 1, 0, 1)
  }

  lemma NextDayNumber(d: Date)
    requires IsValid(d)
    ensures IsValid(NextDay(d)) && DayNumber(NextDay(d)) == DayNumber(d) + 1
  {
    if d.day == DaysInMonth(d.year, d.month) {
      if d.month < 11 {
        MonthsHaveDays(d.year, d.month + 1);
      } else {
        MonthsHaveDays(d.year + 1, 0);
        YearLength(d.year);
      }
    }
  }

  /** The lengths of the months. */
  lemma MonthLengths(y: int, m: int)
    requires 0 <= m < 12
    ensures m in {0, 2, 4, 6, 7, 9, 11} ==> DaysInMonth(y, m) == 31
    ensures m in {3, 5, 8, 10} ==> DaysInMonth(y, m) == 30
    ensures m == 1 ==> DaysInMonth(y, m) == if IsLeap(y) then 29 else 28
  {}

  /** Day 0 is the first of January 1970. */
  lemma EpochIsDayZero()
    ensures DateOf(0) == Date(1970, 0, 1)
  {
    assert DayNumber(Date(1970, 0, 1)) == 0;
    DateOfDayNumber(Date(1970, 0, 1));
  }

  /** Months and days beyond their range carry on, as in "2024-13-32". */
  lemma MakeDayCarries(year: int, month: int, day: int)
    ensures MakeDay(year, month + 12, day) == MakeDay(year + 1, month, day)
    ensures MakeDay(year, month, day + 1) == MakeDay(year, month, day) + 1
  {
    var q, r := month / 12, month % 12;
    assert month + 12 == 12 * (q + 1) + r;
    assert (month + 12) / 12 == q + 1 && (month + 12) % 12 == r;
  }

  lemma MonthsHaveDays(y: int, m: int)
    requires 0 <= m < 12
    ensures 28 <= DaysInMonth(y, m) <= 31
  {}
}
