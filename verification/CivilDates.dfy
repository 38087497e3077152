/** The proleptic Gregorian calendar as Go's time package counts it: months by
    index, days by number, and the normalization of time.Date. */
module CivilDates {
  /** month is 1..12 and day 1..31 in a valid date. */
  datatype Date = Date(year: int, month: int, day: int)

  predicate Leap(year: int) { year % 4 == 0 && (year % 100 != 0 || year % 400 == 0) }

  /** Months since January of the year 0. */
  function MonthIndex(d: Date): int { 12 * d.year + d.month - 1 }

  /** The length of a month, by its index. */
  function MonthLength(index: int): (n: int)
    ensures 28 <= n <= 31
  {
    var m := index % 12 + 1;
    if m == 2 then (if Leap(index / 12) then 29 else 28)
    else if m == 4 || m == 6 || m == 9 || m == 11 then 30
    else 31
  }

  predicate Valid(d: Date) {
    1 <= d.month <= 12 && 1 <= d.day <= MonthLength(MonthIndex(d))
  }

  /** Days before January 1 of a year, from one fixed day on. */
  function YearStart(year: int): int {
    365 * year + (year - 1) / 4 - (year - 1) / 100 + (year - 1) / 400
  }

  const BEFORE: seq<int> := [0, 31, 59, 90, 120, 151, 181, 212, 243, 273, 304, 334]

  /** Days before the first of a month, in closed form. */
  function MonthStart(index: int): int {
    YearStart(index / 12) + BEFORE[index % 12] + if Leap(index / 12) && index % 12 >= 2 then 1 else 0
  }

  function DayNumber(d: Date): int { MonthStart(MonthIndex(d)) + d.day - 1 }

  /** 0 is Sunday. */
  function Weekday(day: int): int { day % 7 }

  /** time.Date for the month with an index and a day that may lie outside it. */
  function DateAt(index: int, day: int): Date
    decreases if day < 1 then 32 - day else day
  {
    if day < 1 then DateAt(index - 1, day + MonthLength(index - 1))
    else if day > MonthLength(index) then DateAt(index + 1, day - MonthLength(index))
    else Date(index / 12, index % 12 + 1, day)
  }

  /** The lengths of the months of a year; February has twenty-nine days every
      fourth year, but of the centuries only every fourth. */
  lemma MonthLengths(year: int, m: nat)
    requires m < 12
    ensures MonthLength(12 * year + m)
         == if m == 1 && year % 4 == 0 && (year % 100 != 0 || year % 400 == 0) then 29
            else [31, 28, 31, 30, 31, 30, 31, 31, 30, 31, 30, 31][m]
  {
    assert (12 * year + m) / 12 == year && (12 * year + m) % 12 == m;
  }

  lemma IndexOf(year: int, month: int)
    requires 1 <= month <= 12
    ensures MonthIndex(Date(year, month, 1)) / 12 == year && MonthIndex(Date(year, month, 1)) % 12 == month - 1
  {}

  /** The days of a date in closed form. */
  lemma DayNumberIs(year: int, month: int, day: int)
    requires 1 <= month <= 12
    ensures DayNumber(Date(year, month, day))
         == YearStart(year) + BEFORE[month - 1] + (if Leap(year) && month > 2 then 1 else 0) + day - 1
  {
    IndexOf(year, month);
    hide Leap, YearStart;
  }

  lemma YearStarts()
    ensures YearStart(1) == 365 && YearStart(1970) == 719527 && YearStart(2024) == 739250
    ensures !Leap(1) && !Leap(1970) && Leap(2024)
  {}

  /** January 1, 1970 was a Thursday, January 1 of the year 1 a Monday, and the
      days of the week follow each other. */
  lemma WeekdayExactly(day: int)
    ensures Weekday(DayNumber(Date(1970, 1, 1))) == 4 && Weekday(DayNumber(Date(1, 1, 1))) == 1
    ensures 0 <= Weekday(day) < 7 && Weekday(day + 1) == (if Weekday(day) == 6 then 0 else Weekday(day) + 1)
  {
    hide DayNumber, YearStart, Leap;
    DayNumberIs(1970, 1, 1);
    DayNumberIs(1, 1, 1);
    YearStarts();
  }

  lemma YearStartStep(year: int)
    ensures YearStart(year + 1) == YearStart(year) + if Leap(year) then 366 else 365
  {
    assert year / 4 == (year - 1) / 4 + if year % 4 == 0 then 1 else 0;
    assert year / 100 == (year - 1) / 100 + if year % 100 == 0 then 1 else 0;
    assert year / 400 == (year - 1) / 400 + if year % 400 == 0 then 1 else 0;
    assert year % 400 == 0 ==> year % 100 == 0;
    assert year % 100 == 0 ==> year % 4 == 0;
  }

  /** The closed form counts exactly the days of each month. */
  lemma MonthStartStep(index: int)
    ensures MonthStart(index + 1) == MonthStart(index) + MonthLength(index)
  {
    var year, m := index / 12, index % 12;
    assert index == 12 * year + m;
    if m == 11 {
      assert (index + 1) / 12 == year + 1 && (index + 1) % 12 == 0;
      YearStartStep(year);
    } else {
      assert (index + 1) / 12 == year && (index + 1) % 12 == m + 1;
    }
  }

  lemma {:induction false} MonthsApart(i: int, j: int)
    requires i <= j
    ensures MonthStart(i) + 28 * (j - i) <= MonthStart(j)
    decreases j - i
  {
    hide MonthStart, MonthLength;
    if i < j {
      MonthsApart(i, j - 1);
      MonthStartStep(j - 1);
    }
  }

  lemma SameMonth(d: Date, e: Date)
    requires 1 <= d.month <= 12 && 1 <= e.month <= 12 && MonthIndex(d) == MonthIndex(e)
    ensures d.year == e.year && d.month == e.month
  {
  }

  /** Dates are ordered by month index and then by day. */
  lemma DayOrder(d: Date, e: Date)
    requires Valid(d) && Valid(e)
    ensures DayNumber(d) < DayNumber(e)
        <==> MonthIndex(d) < MonthIndex(e) || (MonthIndex(d) == MonthIndex(e) && d.day < e.day)
    ensures DayNumber(d) == DayNumber(e) <==> d == e
  {
    hide MonthStart, MonthLength, MonthIndex;
    var i, j := MonthIndex(d), MonthIndex(e);
    if i == j { SameMonth(d, e); }
    if i < j {
      MonthStartStep(i);
      MonthsApart(i + 1, j);
    } else if j < i {
      MonthStartStep(j);
      MonthsApart(j + 1, i);
    }
  }

  lemma IndexBack(index: int, day: int)
    ensures MonthIndex(Date(index / 12, index % 12 + 1, day)) == index
    ensures 1 <= index % 12 + 1 <= 12
  {
  }

  /** Normalization keeps the day count: any day offset from the first of a
      month lands on the one valid date with that number. */
  lemma {:induction false} DateAtCounts(index: int, day: int)
    ensures Valid(DateAt(index, day))
    ensures DayNumber(DateAt(index, day)) == MonthStart(index) + day - 1
    decreases if day < 1 then 32 - day else day
  {
    IndexBack(index, day);
    hide MonthStart, MonthLength, MonthIndex;
    if day < 1 {
      MonthStartStep(index - 1);
      DateAtCounts(index - 1, day + MonthLength(index - 1));
    } else if day > MonthLength(index) {
      MonthStartStep(index);
      DateAtCounts(index + 1, day - MonthLength(index));
    }
  }

  /** The date with a day number. */
  lemma DateAtIsOnly(index: int, day: int, d: Date)
    requires Valid(d) && DayNumber(d) == MonthStart(index) + day - 1
    ensures DateAt(index, day) == d
  {
    DateAtCounts(index, day);
    DayOrder(d, DateAt(index, day));
  }
}
