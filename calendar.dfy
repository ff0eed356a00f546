/**
 * The proleptic Gregorian calendar as JavaScript's Date sees it (in UTC):
 * civil dates with a 0-based month as getMonth() returns it, the day count
 * since 1970-01-01, and setMonth's month arithmetic with day overflow.
 */
module Calendar {
  const DayMs: int := 86400000

  datatype CivilDate = CivilDate(year: int, month: int, day: int)

  /** A point in time: a civil date and the milliseconds elapsed in that day. */
  datatype Instant = Instant(date: CivilDate, msOfDay: int)

  predicate IsLeap(y: int) {
    y % 4 == 0 && (y % 100 != 0 || y % 400 == 0)
  }

  function DaysInMonth(y: int, m: int): (n: int)
    requires 0 <= m < 12
    ensures 28 <= n <= 31
    ensures n == 29 <==> m == 1 && IsLeap(y)
  {
    if m == 1 then (if IsLeap(y) then 29 else 28)
    else if m == 3 || m == 5 || m == 8 || m == 10 then 30
    else 31
  }

  predicate ValidDate(d: CivilDate) {
    0 <= d.month < 12 && 1 <= d.day <= DaysInMonth(d.year, d.month)
  }

  predicate ValidInstant(t: Instant) {
    ValidDate(t.date) && 0 <= t.msOfDay < DayMs
  }

  /** Months counted from year 0, January: the quantity setMonth works on. */
  function MonthIndex(d: CivilDate): int {
    d.year * 12 + d.month
  }

  function DaysBeforeMonth(y: int, m: int): (n: int)
    requires 0 <= m <= 12
    ensures n >= 0
  {
    if m == 0 then 0 else DaysBeforeMonth(y, m - 1) + DaysInMonth(y, m - 1)
  }

  /** Leap years among the years before y, counted from a fixed origin. */
  function LeapsBefore(y: int): int {
    (y - 1) / 4 - (y - 1) / 100 + (y - 1) / 400
  }

  function DaysBeforeYear(y: int): int {
    365 * (y - 1970) + LeapsBefore(y) - LeapsBefore(1970)
  }

  /** Days from 1970-01-01 to d. */
  function DayNumber(d: CivilDate): int
    requires 0 <= d.month < 12
  {
    DaysBeforeYear(d.year) + DaysBeforeMonth(d.year, d.month) + d.day - 1
  }

  /** Date.prototype.getTime(): milliseconds since the epoch. */
  function EpochMs(t: Instant): int
    requires 0 <= t.date.month < 12
  {
    DayNumber(t.date) * DayMs + t.msOfDay
  }

  /**
   * setMonth(getMonth() + k): the month moves by k (carrying into the year);
   * a day past the end of the target month overflows into the next month.
   */
  function AddMonths(d: CivilDate, k: int): (r: CivilDate)
    requires ValidDate(d)
    ensures ValidDate(r)
    ensures var target := MonthIndex(d) + k;
      if d.day <= DaysInMonth(target / 12, target % 12)
      then MonthIndex(r) == target && r.day == d.day
      else MonthIndex(r) == target + 1 && r.day == d.day - DaysInMonth(target / 12, target % 12)
  {
    var target := MonthIndex(d) + k;
    var dim := DaysInMonth(target / 12, target % 12);
    if d.day <= dim then CivilDate(target / 12, target % 12, d.day)
    else CivilDate((target + 1) / 12, (target + 1) % 12, d.day - dim)
  }

  lemma DivStep(y: int)
    ensures y / 4 - (y - 1) / 4 == if y % 4 == 0 then 1 else 0
    ensures y / 100 - (y - 1) / 100 == if y % 100 == 0 then 1 else 0
    ensures y / 400 - (y - 1) / 400 == if y % 400 == 0 then 1 else 0
  {
  }

  lemma {:induction false} YearLength(y: int)
    ensures DaysBeforeMonth(y, 12) == if IsLeap(y) then 366 else 365
  {
    assert DaysBeforeMonth(y, 1) == 31;
    var n := DaysInMonth(y, 1);
    assert DaysBeforeMonth(y, 2) == 31 + n;
    assert DaysBeforeMonth(y, 3) == 31 + n + 31;
    assert DaysBeforeMonth(y, 4) == 31 + n + 31 + 30;
    assert DaysBeforeMonth(y, 5) == 31 + n + 31 + 30 + 31;
    assert DaysBeforeMonth(y, 6) == 31 + n + 31 + 30 + 31 + 30;
    assert DaysBeforeMonth(y, 7) == 31 + n + 31 + 30 + 31 + 30 + 31;
    assert DaysBeforeMonth(y, 8) == 31 + n + 31 + 30 + 31 + 30 + 31 + 31;
    assert DaysBeforeMonth(y, 9) == 31 + n + 31 + 30 + 31 + 30 + 31 + 31 + 30;
    assert DaysBeforeMonth(y, 10) == 31 + n + 31 + 30 + 31 + 30 + 31 + 31 + 30 + 31;
    assert DaysBeforeMonth(y, 11) == 31 + n + 31 + 30 + 31 + 30 + 31 + 31 + 30 + 31 + 30;
  }

  lemma {:induction false} YearStep(y: int)
    ensures DaysBeforeYear(y + 1) == DaysBeforeYear(y) + DaysBeforeMonth(y, 12)
  {
    DivStep(y);
    YearLength(y);
    assert LeapsBefore(y + 1) - LeapsBefore(y) == if IsLeap(y) then 1 else 0;
  }

  /** The first day of the next month is DaysInMonth days after the first of this one. */
  lemma {:induction false} NextMonthStart(y: int, m: int)
    requires 0 <= m < 12
    ensures var next := y * 12 + m + 1;
      DayNumber(CivilDate(next / 12, next % 12, 1)) == DayNumber(CivilDate(y, m, 1)) + DaysInMonth(y, m)
  {
    var next := y * 12 + m + 1;
    if m < 11 {
      assert next / 12 == y && next % 12 == m + 1;
    } else {
      assert next / 12 == y + 1 && next % 12 == 0;
      YearStep(y);
    }
  }

  /**
   * AddMonths lands on the same day as JavaScript's MakeDay: the first of the
   * target month plus (day - 1) days, overflow included.
   */
  lemma {:induction false} AddMonthsDayNumber(d: CivilDate, k: int)
    requires ValidDate(d)
    ensures var target := MonthIndex(d) + k;
      DayNumber(AddMonths(d, k)) == DayNumber(CivilDate(target / 12, target % 12, 1)) + d.day - 1
  {
    var target := MonthIndex(d) + k;
    var y, m := target / 12, target % 12;
    if d.day > DaysInMonth(y, m) {
      assert target == y * 12 + m;
      NextMonthStart(y, m);
    }
  }

  /** The first day of the month with the given MonthIndex. */
  function FirstOfMonth(index: int): (d: CivilDate)
    ensures ValidDate(d) && MonthIndex(d) == index && d.day == 1
  {
    CivilDate(index / 12, index % 12, 1)
  }

  lemma {:induction false} FirstOfNextMonth(index: int)
    ensures DayNumber(FirstOfMonth(index + 1)) == DayNumber(FirstOfMonth(index)) + DaysInMonth(index / 12, index % 12)
  {
    var y, m := index / 12, index % 12;
    assert index == y * 12 + m;
    NextMonthStart(y, m);
  }

  lemma ThreeMonthLengths(i: int)
    ensures 89 <= DaysInMonth(i / 12, i % 12) + DaysInMonth((i + 1) / 12, (i + 1) % 12) + DaysInMonth((i + 2) / 12, (i + 2) % 12) <= 92
  {
    var r := i % 12;
    assert (i + 1) % 12 == (r + 1) % 12 && (i + 2) % 12 == (r + 2) % 12;
    var m0, m1, m2 := DaysInMonth(i / 12, r), DaysInMonth((i + 1) / 12, (r + 1) % 12), DaysInMonth((i + 2) / 12, (r + 2) % 12);
    if r == 11 || r == 0 || r == 1 {
      assert 89 <= m0 + m1 + m2 <= 91;
    } else {
      assert 91 <= m0 + m1 + m2 <= 92;
    }
  }

  /**
   * setMonth(getMonth() + 3) moves a date 89 to 92 days later: the lengths of
   * the three months it steps over, whether or not the day overflows.
   */
  lemma {:induction false} AddThreeMonthsSpan(d: CivilDate)
    requires ValidDate(d)
    ensures 89 <= DayNumber(AddMonths(d, 3)) - DayNumber(d) <= 92
  {
    var i := MonthIndex(d);
    assert FirstOfMonth(i) == CivilDate(d.year, d.month, 1);
    ThreeMonthStarts(i);
    AddMonthsDayNumber(d, 3);
  }

  /** The first of the month three months on is 89 to 92 days after the first of this one. */
  lemma {:induction false} ThreeMonthStarts(i: int)
    ensures 89 <= DayNumber(FirstOfMonth(i + 3)) - DayNumber(FirstOfMonth(i)) <= 92
  {
    FirstOfNextMonth(i);
    FirstOfNextMonth(i + 1);
    FirstOfNextMonth(i + 2);
    ThreeMonthLengths(i);
  }

  /** A JavaScript Date: a valid instant. */
  type Date = t: Instant | ValidInstant(t) witness Instant(CivilDate(1970, 0, 1), 0)

  /** Date.prototype.getTime(). */
  function Millis(t: Date): int {
    EpochMs(t)
  }

  /** `d.setMonth(d.getMonth() + k)` on a copy of d: the time of day is kept. */
  function AddMonthsTo(t: Date, k: int): (r: Date)
    ensures r.msOfDay == t.msOfDay
  {
    Instant(AddMonths(t.date, k), t.msOfDay)
  }

  /** Three months on is between 89 and 92 whole days later, to the millisecond. */
  lemma AddThreeMonthsMillis(t: Date)
    ensures 89 * DayMs <= Millis(AddMonthsTo(t, 3)) - Millis(t) <= 92 * DayMs
  {
    AddThreeMonthsSpan(t.date);
    var n := DayNumber(AddMonthsTo(t, 3).date) - DayNumber(t.date);
    assert Millis(AddMonthsTo(t, 3)) - Millis(t) == n * DayMs;
  }
}
