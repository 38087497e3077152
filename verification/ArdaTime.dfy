/** Adding months to a business date with clamping
    (libs/go/arda-time/arda.go). */
module ArdaTime {
  import opened Common
  import opened CivilDates
  import opened Decimals
  import opened NumberPattern

  function Min(a: int, b: int): int { if a <= b then a else b }

  /** The first of the month is shifted, the last day of the month it lands in
      is found as day 0 of the month after, and the day is cut to it. */
  function AddMonths(d: Date, months: int): Date {
    var target := DateAt(MonthIndex(d) + months, 1);
    var lastDay := DateAt(MonthIndex(target) + 1, 0).day;
    DateAt(MonthIndex(target), if d.day > lastDay then lastDay else d.day)
  }

  /** Day 0 of the next month is the last day of this one, and the shift lands
      in the month `months` away, on the same day or on its last. */
  lemma AddMonthsLands(d: Date, months: int)
    requires Valid(d)
    ensures Valid(AddMonths(d, months))
    ensures MonthIndex(AddMonths(d, months)) == MonthIndex(d) + months
    ensures AddMonths(d, months).day == Min(d.day, MonthLength(MonthIndex(d) + months))
    ensures var r := AddMonths(d, months);
      12 * r.year + r.month == 12 * d.year + d.month + months && 1 <= r.month <= 12
  {
    var index := MonthIndex(d) + months;
    FirstOf(index);
    var last := Date(index / 12, index % 12 + 1, MonthLength(index));
    assert MonthIndex(last) == index && Valid(last);
    MonthStartStep(index);
    hide MonthStart, MonthLength, DateAt;
    DateAtIsOnly(index + 1, 0, last);
    Within(index, if d.day > last.day then last.day else d.day);
  }

  lemma FirstOf(index: int)
    ensures DateAt(index, 1) == Date(index / 12, index % 12 + 1, 1) && MonthIndex(DateAt(index, 1)) == index
  {}

  lemma Within(index: int, day: int)
    requires 1 <= day <= MonthLength(index)
    ensures DateAt(index, day) == Date(index / 12, index % 12 + 1, day)
  {}

  /** A month after January 31 comes the last day of February, leap years
      included. */
  lemma EndOfJanuary(year: int)
    ensures AddMonths(Date(year, 1, 31), 1)
         == Date(year, 2, if year % 4 == 0 && (year % 100 != 0 || year % 400 == 0) then 29 else 28)
  {
    MonthLengths(year, 0);
    MonthLengths(year, 1);
    hide MonthLength, MonthStart;
    AddMonthsLands(Date(year, 1, 31), 1);
    hide AddMonths;
  }

  /** A later date never lands earlier. */
  lemma AddMonthsMonotone(d: Date, e: Date, months: int)
    requires Valid(d) && Valid(e) && DayNumber(d) <= DayNumber(e)
    ensures DayNumber(AddMonths(d, months)) <= DayNumber(AddMonths(e, months))
  {
    AddMonthsLands(d, months);
    AddMonthsLands(e, months);
    hide AddMonths, MonthStart, MonthLength;
    DayOrder(d, e);
    DayOrder(AddMonths(e, months), AddMonths(d, months));
  }

  /** The date moves strictly later, not at all, or strictly earlier, as the
      number of months is positive, zero or negative. */
  lemma AddMonthsMoves(d: Date, months: int)
    requires Valid(d)
    ensures DayNumber(AddMonths(d, months)) > DayNumber(d) <==> months > 0
    ensures AddMonths(d, months) == d <==> months == 0
  {
    AddMonthsLands(d, months);
    hide AddMonths, MonthStart;
    DayOrder(d, AddMonths(d, months));
  }

  /** Two steps never land later than one, and land together exactly when the
      month between is long enough for the day the one step lands on. */
  lemma AddMonthsInSteps(d: Date, a: int, b: int)
    requires Valid(d)
    ensures DayNumber(AddMonths(AddMonths(d, a), b)) <= DayNumber(AddMonths(d, a + b))
    ensures AddMonths(AddMonths(d, a), b) == AddMonths(d, a + b)
        <==> AddMonths(d, a + b).day <= MonthLength(MonthIndex(d) + a)
    ensures d.day <= 28 ==> AddMonths(AddMonths(d, a), b) == AddMonths(d, a + b)
  {
    AddMonthsLands(d, a);
    AddMonthsLands(AddMonths(d, a), b);
    AddMonthsLands(d, a + b);
    hide AddMonths, MonthStart;
    DayOrder(AddMonths(AddMonths(d, a), b), AddMonths(d, a + b));
    DayOrder(AddMonths(d, a + b), AddMonths(AddMonths(d, a), b));
  }

  /** Going back undoes going forth exactly when no day was cut off. */
  lemma AddMonthsUndone(d: Date, months: int)
    requires Valid(d)
    ensures AddMonths(AddMonths(d, months), -months) == d <==> d.day <= MonthLength(MonthIndex(d) + months)
  {
    AddMonthsInSteps(d, months, -months);
    AddMonthsMoves(d, 0);
  }

  // ----- Dates as text

  /** Layout 2006-01-02; a year outside 0..9999 takes more than four places. */
  function FormatDate(d: Date): string
    requires Valid(d)
  {
    (if d.year >= 0 then Padded(d.year, 4) else "-" + Padded(-d.year, 4))
    + "-" + Padded(d.month, 2) + "-" + Padded(d.day, 2)
  }

  function ParseDay(s: string): (d: Option<Date>)
    ensures d.Some? ==> Valid(d.value)
  {
    if |s| != 10 || s[4] != '-' || s[7] != '-' || !AreDigits(s[..4]) || !AreDigits(s[5..7]) || !AreDigits(s[8..]) then None
    else
      var d := Date(Value(s[..4]), Value(s[5..7]), Value(s[8..]));
      if Valid(d) then Some(d) else None
  }

  function AddMonthsClamped(day: string, months: int): Option<string> {
    match ParseDay(day)
    case None => None
    case Some(d) =>
      AddMonthsLands(d, months);
      Some(FormatDate(AddMonths(d, months)))
  }

  /** A text shows a date when it is the year, with a sign before Christ, the
      month and the day, separated by dashes. */
  predicate Shows(s: string, d: Date, y: string, m: string, n: string)
    requires Valid(d)
  {
    && s == (if d.year >= 0 then y else "-" + y) + "-" + m + "-" + n
    && Reads(y, if d.year >= 0 then d.year else -d.year, 4) && Reads(m, d.month, 2) && Reads(n, d.day, 2)
  }

  lemma FormatShows(d: Date)
    requires Valid(d)
    ensures exists y, m, n :: Shows(FormatDate(d), d, y, m, n)
  {
    hide Padded, Reads;
    var y := if d.year >= 0 then d.year else -d.year;
    PaddedReads(y, 4);
    PaddedReads(d.month, 2);
    PaddedReads(d.day, 2);
    assert Shows(FormatDate(d), d, Padded(y, 4), Padded(d.month, 2), Padded(d.day, 2));
  }

  /** Digits read and written back at the same width are the same digits. */
  lemma WrittenBack(s: string)
    requires AreDigits(s) && |s| >= 1
    ensures Padded(Value(s), |s|) == s
  {
    ValueBelow(s, |s|);
    PaddedWidth(Value(s), |s|);
    PaddedValue(Value(s), |s|);
    SameValue(Padded(Value(s), |s|), s);
  }

  /** Every date in a four-digit year reads back; no other date does. */
  lemma FormatReads(d: Date)
    requires Valid(d)
    ensures ParseDay(FormatDate(d)) == if 0 <= d.year <= 9999 then Some(d) else None
  {
    var s := FormatDate(d);
    TwoPlaces(d.month);
    TwoPlaces(d.day);
    if 0 <= d.year <= 9999 {
      FourPlaces(d.year);
      PaddedValue(d.year, 4);
      PaddedValue(d.month, 2);
      PaddedValue(d.day, 2);
      assert s[..4] == Padded(d.year, 4) && s[5..7] == Padded(d.month, 2) && s[8..] == Padded(d.day, 2);
    } else if d.year > 9999 {
      FourPlaces(d.year);
      assert |s| > 10;
    } else {
      FourPlaces(-d.year);
      assert |s| > 10;
    }
  }

  lemma TwoPlaces(n: nat)
    requires n < 100
    ensures |Padded(n, 2)| == 2 && AreDigits(Padded(n, 2))
  {
    assert Pow10(2) == 100;
    PaddedWidth(n, 2);
  }

  lemma FourPlaces(n: nat)
    ensures AreDigits(Padded(n, 4))
    ensures |Padded(n, 4)| == 4 <==> n <= 9999
    ensures |Padded(n, 4)| >= 4
  {
    assert Pow10(4) == 10000;
    DecimalWidth(n, 4);
  }

  /** What reads as a date is written back unchanged. */
  lemma ParseWrites(s: string)
    requires ParseDay(s).Some?
    ensures FormatDate(ParseDay(s).value) == s && 0 <= ParseDay(s).value.year <= 9999
  {
    WrittenBack(s[..4]);
    WrittenBack(s[5..7]);
    WrittenBack(s[8..]);
    ValueBelow(s[..4], 4);
    assert Pow10(4) == 10000;
    assert s == s[..4] + "-" + s[5..7] + "-" + s[8..];
  }

  lemma YearOf(d: Date)
    requires Valid(d)
    ensures d.year == MonthIndex(d) / 12
  {
  }

  lemma SameText(d: Date, e: Date)
    requires Valid(d) && Valid(e) && 0 <= d.year <= 9999
    ensures FormatDate(e) == FormatDate(d) <==> e == d
  {
    FormatReads(d);
    FormatReads(e);
    hide FormatDate, ParseDay;
  }

  lemma ClampedFormatted(d: Date, months: int)
    requires Valid(d)
    ensures Valid(AddMonths(d, months))
    ensures AddMonthsClamped(FormatDate(d), months)
         == if 0 <= d.year <= 9999 then Some(FormatDate(AddMonths(d, months))) else None
  {
    AddMonthsLands(d, months);
    FormatReads(d);
    hide FormatDate, ParseDay, AddMonths;
  }

  /** On text the shift fails exactly on text that is no date, and going back
      restores the text exactly when no day was cut off and the month reached
      is in a four-digit year. */
  lemma ClampedUndone(s: string, months: int)
    ensures AddMonthsClamped(s, months).None? <==> ParseDay(s).None?
    ensures ParseDay(s).Some? ==>
      var index := MonthIndex(ParseDay(s).value) + months;
      AddMonthsClamped(AddMonthsClamped(s, months).value, -months) == Some(s)
      <==> ParseDay(s).value.day <= MonthLength(index) && 0 <= index / 12 <= 9999
  {
    hide ParseDay, AddMonths, FormatDate, MonthLength, MonthIndex, Valid;
    if ParseDay(s).Some? {
      var d := ParseDay(s).value;
      ParseWrites(s);
      ClampedFormatted(d, months);
      var e := AddMonths(d, months);
      ClampedFormatted(e, -months);
      AddMonthsLands(d, months);
      YearOf(e);
      AddMonthsUndone(d, months);
      SameText(d, AddMonths(e, -months));
    }
  }
}
