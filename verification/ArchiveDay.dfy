/** The UTC+8 calendar day an observation is archived under, and the instant that day begins. */
module ArchiveDay {
  const DAY := 86400
  const OFFSET := 28800

  datatype Date = Date(year: int, month: int, day: int) {
    predicate Valid() {
      1 <= month <= 12 && 1 <= day <= DaysIn(year, month)
    }

    predicate Before(other: Date) {
      || year < other.year
      || (year == other.year && (month < other.month || (month == other.month && day < other.day)))
    }
  }

  predicate Leap(year: int) {
    year % 4 == 0 && (year % 100 != 0 || year % 400 == 0)
  }

  function DaysIn(year: int, month: int): nat {
    if month == 2 then (if Leap(year) then 29 else 28)
    else if month in {4, 6, 9, 11} then 30
    else 31
  }

  function NextDate(d: Date): Date {
    if d.day < DaysIn(d.year, d.month) then d.(day := d.day + 1)
    else if d.month < 12 then Date(d.year, d.month + 1, 1)
    else Date(d.year + 1, 1, 1)
  }

  function PreviousDate(d: Date): Date {
    if d.day > 1 then d.(day := d.day - 1)
    else if d.month > 1 then Date(d.year, d.month - 1, DaysIn(d.year, d.month - 1))
    else Date(d.year - 1, 12, 31)
  }

  const EPOCH := Date(1970, 1, 1)

  /** The Gregorian date `n` days after (or before) the first of January 1970. */
  function DateOfDay(n: int): (d: Date)
    ensures d.Valid()
    decreases if n < 0 then -n else n
  {
    if n == 0 then EPOCH
    else if n > 0 then NextDate(DateOfDay(n - 1))
    else PreviousDate(DateOfDay(n + 1))
  }

  function DayNumber(t: int): int {
    (t + OFFSET) / DAY
  }

  function Boundary(t: int): int {
    DayNumber(t) * DAY - OFFSET
  }

  function DateOf(t: int): Date {
    DateOfDay(DayNumber(t))
  }

  lemma {:induction false} DatesFollow(n: int)
    ensures DateOfDay(n + 1) == NextDate(DateOfDay(n))
    ensures DateOfDay(n).Before(DateOfDay(n + 1))
  {
  }

  lemma {:induction false} DatesIncrease(m: int, n: int)
    requires m < n
    ensures DateOfDay(m).Before(DateOfDay(n))
    decreases n - m
  {
    DatesFollow(n - 1);
    if m < n - 1 {
      DatesIncrease(m, n - 1);
    }
  }

  /** Local midnight is 16:00 UTC: the boundary is the one such instant at or less than a day before. */
  lemma BoundaryIsMidnight(t: int)
    ensures Boundary(t) % 86_400 == 57_600 && Boundary(t) <= t < Boundary(t) + 86_400
  {
  }

  /** The days of the first `years` years. */
  function YearDays(years: int): int {
    365 * years + years / 4 - years / 100 + years / 400
  }

  lemma FourthYears(y: int)
    ensures y / 4 == (y - 1) / 4 + if y % 4 == 0 then 1 else 0
  {
  }

  lemma HundredthYears(y: int)
    ensures y / 100 == (y - 1) / 100 + if y % 100 == 0 then 1 else 0
  {
  }

  lemma FourHundredthYears(y: int)
    ensures y / 400 == (y - 1) / 400 + if y % 400 == 0 then 1 else 0
  {
  }

  lemma Multiples(y: int)
    ensures y % 100 == 0 ==> y % 4 == 0
    ensures y % 400 == 0 ==> y % 100 == 0
  {
    assert y == 100 * (y / 100) + y % 100 && 100 * (y / 100) == 4 * (25 * (y / 100));
    assert y == 400 * (y / 400) + y % 400 && 400 * (y / 400) == 100 * (4 * (y / 400));
  }

  lemma YearLength(y: int)
    ensures YearDays(y) == YearDays(y - 1) + if Leap(y) then 366 else 365
  {
    FourthYears(y);
    HundredthYears(y);
    FourHundredthYears(y);
    Multiples(y);
    var a, b, c := y / 4, y / 100, y / 400;
    var a', b', c' := (y - 1) / 4, (y - 1) / 100, (y - 1) / 400;
    assert YearDays(y) == 365 * y + a - b + c && YearDays(y - 1) == 365 * (y - 1) + a' - b' + c';
  }

  const DAYS_BEFORE := [0, 31, 59, 90, 120, 151, 181, 212, 243, 273, 304, 334]

  /** The days of a year before a month begins. */
  function MonthDays(leap: bool, month: int): int
    requires 1 <= month <= 12
  {
    DAYS_BEFORE[month - 1] + if leap && month > 2 then 1 else 0
  }

  lemma MonthLength(year: int, month: int)
    requires 1 <= month <= 12
    ensures month < 12 ==> MonthDays(Leap(year), month + 1) == MonthDays(Leap(year), month) + DaysIn(year, month)
    ensures month == 12 ==> MonthDays(Leap(year), month) + DaysIn(year, month) == if Leap(year) then 366 else 365
  {
  }

  /** The number of a Gregorian date, counted from the first of January of the year 1. */
  function Ordinal(d: Date): int
    requires 1 <= d.month <= 12
  {
    var leap := if d.year % 100 == 0 then d.year % 400 == 0 else d.year % 4 == 0;
    YearDays(d.year - 1) + MonthDays(leap, d.month) + d.day
  }

  lemma NextOrdinal(d: Date)
    requires d.Valid()
    ensures NextDate(d).Valid() && Ordinal(NextDate(d)) == Ordinal(d) + 1
  {
    LeapIsGregorian(d.year);
    LeapIsGregorian(d.year + 1);
    YearLength(d.year);
    MonthLength(d.year, d.month);
  }

  lemma LeapIsGregorian(year: int)
    ensures Leap(year) == if year % 100 == 0 then year % 400 == 0 else year % 4 == 0
  {
    Multiples(year);
  }

  /** The date of a day has the day's number in the calendar; the first of January 1970 has number 719163. */
  lemma {:induction false} DateHasItsNumber(n: int)
    ensures DateOfDay(n).Valid() && Ordinal(DateOfDay(n)) == n + 719_163
    decreases if n < 0 then -n else n
  {
    if n > 0 {
      DateHasItsNumber(n - 1);
      NextOrdinal(DateOfDay(n - 1));
    } else if n < 0 {
      DateHasItsNumber(n + 1);
      DatesFollow(n);
      NextOrdinal(DateOfDay(n));
    }
  }

  /** So an instant's date is that of its boundary in a clock eight hours ahead. */
  lemma DateIsLocal(t: int)
    ensures Ordinal(DateOf(t)) == (t + 28_800) / 86_400 + 719_163
  {
    DateHasItsNumber(DayNumber(t));
  }

  /** The day's boundary is the last local midnight, and two instants share a date exactly when they share it. */
  lemma SameDateSameBoundary(t: int, u: int)
    ensures Boundary(t) <= t < Boundary(t) + DAY && (Boundary(t) + OFFSET) % DAY == 0
    ensures DateOf(t) == DateOf(u) <==> Boundary(t) == Boundary(u)
    ensures t < Boundary(u) ==> DateOf(t).Before(DateOf(u))
  {
    var m, n := DayNumber(t), DayNumber(u);
    if m < n {
      DatesIncrease(m, n);
    } else if n < m {
      DatesIncrease(n, m);
    }
  }
}
