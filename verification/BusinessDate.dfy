/** Working days of a Platform calendar (libs/go/arda-businessdate/businessdate.go). */
module BusinessDate {
  import opened Common
  import opened CivilDates
  import Text

  datatype ScopeType = System | Org | OtherType

  datatype Scope = Scope(tenant: string, kind: ScopeType, org: string)

  /** What the Platform says of a date; the answers are stable within a call. */
  datatype Answer = Holiday | NoHoliday | Unavailable

  type Calendar = (Scope, int) -> Answer

  datatype Error = NoCalendar | BadScope | NoDate | CalendarFailed | NoStart | NegativeCount | NotFound

  /** A time.Time: a civil day, the nanoseconds since its midnight, and the
      zone's offset from UTC. */
  datatype Moment = Moment(day: int, clock: int, offset: int)

  const DAY := 86_400_000_000_000

  /** The day number of January 1 of the year 1. */
  const FIRST_DAY := 365

  /** The zero time is one instant, in whatever zone it is read. */
  predicate IsZero(t: Moment) { t.day * DAY + t.clock - t.offset == FIRST_DAY * DAY }

  function Midnight(day: int): Moment { Moment(day, 0, 0) }

  function DateOnly(t: Moment): Moment {
    if IsZero(t) then Midnight(FIRST_DAY) else Midnight(t.day)
  }

  predicate ValidScope(scope: Scope) {
    && (|Text.Trim(scope.tenant)| == 0 ==> scope.kind == System)
    && match scope.kind
       case System => |Text.Trim(scope.org)| == 0
       case Org => |Text.Trim(scope.org)| != 0
       case OtherType => false
  }

  function IsWorkingDay(calendar: Option<Calendar>, scope: Scope, date: Moment): Result<bool, Error> {
    if calendar.None? then Err(NoCalendar)
    else if !ValidScope(scope) then Err(BadScope)
    else
      var day := DateOnly(date);
      if IsZero(day) then Err(NoDate)
      else if Weekday(day.day) == 6 || Weekday(day.day) == 0 then Ok(false)
      else match calendar.value(scope, day.day)
        case Unavailable => Err(CalendarFailed)
        case Holiday => Ok(false)
        case NoHoliday => Ok(true)
  }

  /** Which scopes are accepted: the system's without an organisation, or an
      organisation's with its tenant. */
  lemma ScopeExactly(scope: Scope)
    ensures ValidScope(scope) <==>
      || (scope.kind == System && Text.Blank(scope.org))
      || (scope.kind == Org && !Text.Blank(scope.org) && !Text.Blank(scope.tenant))
  {
    TrimBlank(scope.org);
    TrimBlank(scope.tenant);
  }

  lemma TrimBlank(s: string)
    ensures |Text.Trim(s)| == 0 <==> Text.Blank(s)
  {
    Text.TrimExactly(s);
    hide Text.Trim, Text.IsSpace;
    var left, right :| Text.Blank(left) && Text.Blank(right) && s == left + Text.Trim(s) + right;
    if Text.Trim(s) != "" { assert s[|left|] == Text.Trim(s)[0]; }
  }

  /** Which days work: not a Saturday or a Sunday, and no holiday of the
      calendar, which is asked about weekdays only. */
  lemma WorkingExactly(calendar: Calendar, scope: Scope, t: Moment)
    requires ValidScope(scope) && !IsZero(t)
    ensures t.day != FIRST_DAY && Weekday(t.day) in {1, 2, 3, 4, 5} ==>
      && (IsWorkingDay(Some(calendar), scope, t) == Ok(true) <==> calendar(scope, t.day) == NoHoliday)
      && (IsWorkingDay(Some(calendar), scope, t) == Ok(false) <==> calendar(scope, t.day) == Holiday)
      && (IsWorkingDay(Some(calendar), scope, t) == Err(CalendarFailed) <==> calendar(scope, t.day) == Unavailable)
    ensures t.day != FIRST_DAY && Weekday(t.day) in {0, 6} ==> IsWorkingDay(Some(calendar), scope, t) == Ok(false)
  {}

  /** The zero time is midnight UTC of January 1 of the year 1, however far the
      zone's clock is ahead. */
  lemma ZeroExactly(t: Moment)
    ensures IsZero(t) <==> (t.day - DayNumber(Date(1, 1, 1))) * 24 * 60 * 60 * 1_000_000_000 + t.clock == t.offset
    ensures DateOnly(t).clock == 0 && DateOnly(t).offset == 0
    ensures DateOnly(t).day == if IsZero(t) then DayNumber(Date(1, 1, 1)) else t.day
  {}

  /** Which questions are refused before the calendar is asked. */
  lemma RefusedExactly(calendar: Option<Calendar>, scope: Scope, t: Moment)
    ensures IsWorkingDay(calendar, scope, t) == Err(NoCalendar) <==> calendar.None?
    ensures IsWorkingDay(calendar, scope, t) == Err(BadScope) <==> calendar.Some? && !ValidScope(scope)
    ensures IsWorkingDay(calendar, scope, t) == Err(NoDate) <==>
      calendar.Some? && ValidScope(scope) && (IsZero(t) || t.day == DayNumber(Date(1, 1, 1)))
  {}

  // ----- Days as the search sees them

  /** A working day, a day off, or an error, for each civil day. */
  type Days = int -> Result<bool, Error>

  function DaysOf(calendar: Option<Calendar>, scope: Scope): Days {
    day => IsWorkingDay(calendar, scope, Midnight(day))
  }

  predicate Works(s: Days, day: int) { s(day) == Ok(true) }

  predicate Off(s: Days, day: int) { s(day) == Ok(false) }

  const LIMIT := 370

  /** The first working day of [day, end). */
  function FirstWorking(s: Days, day: int, end: int): Result<int, Error>
    decreases end - day
  {
    if day >= end then Err(NotFound)
    else match s(day)
      case Err(e) => Err(e)
      case Ok(working) => if working then Ok(day) else FirstWorking(s, day + 1, end)
  }

  /** The n-th step of repeated searching; the zero time is refused as a start. */
  function Nth(s: Days, day: int, n: nat): Result<int, Error> {
    if n == 0 then Ok(day)
    else match Nth(s, day, n - 1)
      case Err(e) => Err(e)
      case Ok(x) => NextFrom(s, x)
  }

  function NextFrom(s: Days, day: int): Result<int, Error> {
    if day == FIRST_DAY then Err(NoStart) else FirstWorking(s, day + 1, day + 1 + LIMIT)
  }

  function AtMidnight(r: Result<int, Error>): Result<Moment, Error> {
    match r case Ok(day) => Ok(Midnight(day)) case Err(e) => Err(e)
  }

  /** The first working date strictly after a date. */
  method NextWorkingDay(calendar: Option<Calendar>, scope: Scope, date: Moment) returns (r: Result<Moment, Error>)
    ensures r == if IsZero(date) then Err(NoStart)
                 else AtMidnight(FirstWorking(DaysOf(calendar, scope), date.day + 1, date.day + 1 + LIMIT))
  {
    if IsZero(date) {
      return Err(NoStart);
    }
    var candidate := DateOnly(date).day + 1;
    ghost var s := DaysOf(calendar, scope);
    for i := 0 to LIMIT
      invariant candidate == date.day + 1 + i
      invariant FirstWorking(s, date.day + 1, date.day + 1 + LIMIT)
             == FirstWorking(s, candidate, date.day + 1 + LIMIT)
    {
      var working := IsWorkingDay(calendar, scope, Midnight(candidate));
      if working.Err? {
        return Err(working.error);
      }
      if working.value {
        return Ok(Midnight(candidate));
      }
      candidate := candidate + 1;
    }
    return Err(NotFound);
  }

  /** From a date by a count of working days; zero gives the date itself. */
  method AddWorkingDays(calendar: Option<Calendar>, scope: Scope, date: Moment, count: int)
    returns (r: Result<Moment, Error>)
    ensures r == if IsZero(date) then Err(NoStart)
                 else if count < 0 then Err(NegativeCount)
                 else AtMidnight(Nth(DaysOf(calendar, scope), date.day, count))
  {
    hide IsWorkingDay, FirstWorking;
    if IsZero(date) {
      return Err(NoStart);
    }
    if count < 0 {
      return Err(NegativeCount);
    }
    ghost var s := DaysOf(calendar, scope);
    var result := DateOnly(date).day;
    var moved := 0;
    while moved < count
      invariant 0 <= moved <= count
      invariant Nth(s, date.day, moved) == Ok(result)
    {
      assert Nth(s, date.day, moved + 1) == NextFrom(s, result);
      var next := NextWorkingDay(calendar, scope, Midnight(result));
      if next.Err? {
        NthStops(s, date.day, moved + 1, count);
        return Err(next.error);
      }
      result := next.value.day;
      moved := moved + 1;
    }
    return Ok(Midnight(result));
  }

  lemma {:induction false} NthStops(s: Days, day: int, k: nat, n: nat)
    requires k <= n && Nth(s, day, k).Err?
    ensures Nth(s, day, n) == Nth(s, day, k)
    decreases n
  {
    if k < n { NthStops(s, day, k, n - 1); }
  }

  // ----- What the n-th step is

  /** Working days in (a, b]. */
  function Count(s: Days, a: int, b: int): (n: nat)
    decreases b - a
  {
    if b <= a then 0 else Count(s, a, b - 1) + if Works(s, b) then 1 else 0
  }

  /** Some day of the LIMIT days after `day` works. */
  ghost predicate Relieved(s: Days, day: int) {
    exists w :: day < w <= day + 370 && Works(s, w)
  }

  /** `r` is the n-th working day after `day`, every day up to it is known, and
      no LIMIT days in a row up to it are off. */
  ghost predicate IsNth(s: Days, day: int, n: nat, r: int) {
    && day <= r
    && Count(s, day, r) == n
    && (if n == 0 then r == day else Works(s, r))
    && (forall x :: day < x <= r ==> s(x).Ok?)
    && (forall x :: day <= x && x + 370 <= r ==> Relieved(s, x))
  }

  ghost predicate OffBetween(s: Days, a: int, b: int) {
    forall x :: a <= x < b ==> Off(s, x)
  }

  /** A search succeeds with the first working day of its range, after days off
      only. */
  lemma {:induction false} FirstWorkingExactly(s: Days, day: int, end: int, r: int)
    ensures FirstWorking(s, day, end) == Ok(r) <==> day <= r < end && Works(s, r) && OffBetween(s, day, r)
    decreases end - day
  {
    if day < end && s(day) == Ok(false) {
      FirstWorkingExactly(s, day + 1, end, r);
      assert Off(s, day);
    } else if day < end && r > day {
      assert !Off(s, day);
    }
  }

  /** A search fails with an error met after days off only, or when all its
      days are off. */
  lemma {:induction false} FirstWorkingFails(s: Days, day: int, end: int, e: Error)
    ensures FirstWorking(s, day, end) == Err(e)
        <==> || (exists x :: day <= x < end && s(x) == Err(e) && OffBetween(s, day, x))
             || (e == NotFound && OffBetween(s, day, end))
    decreases end - day
  {
    if day < end && s(day) == Ok(false) {
      FirstWorkingFails(s, day + 1, end, e);
      assert Off(s, day);
      forall x | day < x ensures OffBetween(s, day, x) <==> OffBetween(s, day + 1, x) {}
    } else if day < end {
      assert !Off(s, day);
      assert OffBetween(s, day, day);
    }
  }

  /** The next working day is the first of the 370 days after a date that works,
      if the days before it are off; there is none if all of them are off. */
  lemma NextExactly(calendar: Option<Calendar>, scope: Scope, day: int, r: int)
    ensures NextFrom(DaysOf(calendar, scope), day) == Ok(r) <==>
      && day != FIRST_DAY && day < r <= day + 370
      && IsWorkingDay(calendar, scope, Moment(r, 0, 0)) == Ok(true)
      && forall x :: day < x < r ==> IsWorkingDay(calendar, scope, Moment(x, 0, 0)) == Ok(false)
    ensures NextFrom(DaysOf(calendar, scope), day) == Err(NotFound) <==>
      day != FIRST_DAY && forall x :: day < x <= day + 370 ==> IsWorkingDay(calendar, scope, Moment(x, 0, 0)) == Ok(false)
  {
    hide IsWorkingDay, NextFrom;
    forall x ensures DaysOf(calendar, scope)(x) == IsWorkingDay(calendar, scope, Moment(x, 0, 0)) {}
    forall x ensures DaysOf(calendar, scope)(x) != Err(NotFound) { NeverNotFound(calendar, scope, Moment(x, 0, 0)); }
    NextOf(DaysOf(calendar, scope), day, r);
  }

  lemma NeverNotFound(calendar: Option<Calendar>, scope: Scope, t: Moment)
    ensures IsWorkingDay(calendar, scope, t) != Err(NotFound)
  {}

  lemma NextOf(s: Days, day: int, r: int)
    requires forall x :: s(x) != Err(NotFound)
    ensures NextFrom(s, day) == Ok(r) <==>
      day != FIRST_DAY && day < r <= day + 370 && s(r) == Ok(true) && forall x :: day < x < r ==> s(x) == Ok(false)
    ensures NextFrom(s, day) == Err(NotFound) <==>
      day != FIRST_DAY && forall x :: day < x <= day + 370 ==> s(x) == Ok(false)
  {
    hide FirstWorking;
    FirstWorkingExactly(s, day + 1, day + 371, r);
    FirstWorkingFails(s, day + 1, day + 371, NotFound);
    forall x ensures Off(s, x) <==> s(x) == Ok(false) {}
    OffAll(s, day + 1, r);
    OffAll(s, day + 1, day + 371);
  }

  lemma OffAll(s: Days, a: int, b: int)
    ensures OffBetween(s, a, b) <==> forall x :: a <= x < b ==> s(x) == Ok(false)
  {
    if OffBetween(s, a, b) {
      forall x | a <= x < b ensures s(x) == Ok(false) { assert Off(s, x); }
    }
  }

  /** After a Friday comes Monday when nothing is a holiday. */
  lemma FridayToMonday(scope: Scope)
    requires ValidScope(scope)
    ensures var calendar: Calendar := (_, _) => NoHoliday;
      Nth(DaysOf(Some(calendar), scope), DayNumber(Date(2024, 3, 15)), 1) == Ok(DayNumber(Date(2024, 3, 18)))
  {
    var calendar: Calendar := (_, _) => NoHoliday;
    hide DayNumber, YearStart, Leap, ValidScope, NextFrom, Nth, DaysOf;
    DayNumberIs(2024, 3, 15);
    DayNumberIs(2024, 3, 18);
    YearStarts();
    NextExactly(Some(calendar), scope, 739324, 739327);
    NthOne(DaysOf(Some(calendar), scope), 739324);
  }

  /** The n-th step splits anywhere: n steps and then m are n + m. */
  lemma {:induction false} NthAdds(s: Days, day: int, n: nat, m: nat)
    ensures Nth(s, day, n + m) == match Nth(s, day, n) case Ok(x) => Nth(s, x, m) case Err(e) => Err(e)
    decreases m
  {
    if m > 0 {
      NthAdds(s, day, n, m - 1);
    }
  }

  /** It fails exactly when the search from some day it reached fails, with that
      search's error. */
  lemma {:induction false} NthFails(s: Days, day: int, n: nat, e: Error)
    ensures Nth(s, day, n) == Err(e)
        <==> exists k: nat :: k < n && Nth(s, day, k).Ok? && NextFrom(s, Nth(s, day, k).value) == Err(e)
    decreases n
  {
    hide NextFrom;
    if n > 0 {
      NthFails(s, day, n - 1, e);
      if Nth(s, day, n - 1).Ok? {
        forall k: nat | k < n - 1 ensures Nth(s, day, k).Ok? && NextFrom(s, Nth(s, day, k).value).Ok? {
          if Nth(s, day, k).Err? { NthStops(s, day, k, n - 1); }
          if Nth(s, day, k + 1).Err? { NthStops(s, day, k + 1, n - 1); }
        }
      } else {
        var f := Nth(s, day, n - 1).error;
        if Nth(s, day, n) == Err(e) { assert f == e; }
        if k: nat :| k < n && Nth(s, day, k).Ok? && NextFrom(s, Nth(s, day, k).value) == Err(e) {
          assert Nth(s, day, k + 1) == Err(e);
          NthStops(s, day, k + 1, n);
        }
      }
    }
  }

  lemma {:induction false} CountAdds(s: Days, a: int, b: int, c: int)
    requires a <= b <= c
    ensures Count(s, a, c) == Count(s, a, b) + Count(s, b, c)
    decreases c - b
  {
    if b < c { CountAdds(s, a, b, c - 1); }
  }

  lemma {:induction false} CountOff(s: Days, a: int, b: int)
    requires OffBetween(s, a + 1, b + 1)
    ensures Count(s, a, b) == 0
    decreases b - a
  {
    if a < b {
      assert Off(s, b);
      CountOff(s, a, b - 1);
    }
  }

  /** One search adds one working day. */
  lemma NextCounts(s: Days, day: int, r: int)
    requires FirstWorking(s, day + 1, day + 1 + LIMIT) == Ok(r)
    ensures day < r <= day + LIMIT && Works(s, r) && Count(s, day, r) == 1
    ensures forall x :: day < x <= r ==> s(x).Ok?
  {
    FirstWorkingExactly(s, day + 1, day + 1 + LIMIT, r);
    CountOff(s, day, r - 1);
    forall x | day < x < r ensures s(x).Ok? { assert Off(s, x); }
  }

  /** What repeated searching finds is the n-th working day. */
  lemma {:induction false} NthIsNth(s: Days, day: int, n: nat)
    requires Nth(s, day, n).Ok?
    ensures IsNth(s, day, n, Nth(s, day, n).value)
    decreases n
  {
    if n > 0 {
      var x := Nth(s, day, n - 1).value;
      var r := Nth(s, day, n).value;
      NthIsNth(s, day, n - 1);
      NextCounts(s, x, r);
      CountAdds(s, day, x, r);
      forall y | day <= y && y + LIMIT <= r ensures Relieved(s, y) {
        if y + LIMIT > x {
          assert Works(s, if y < x then x else r);
        }
      }
    }
  }

  /** The search from a day finds the first working day when there is one in
      reach and nothing before it is unknown. */
  lemma {:induction false} SearchFinds(s: Days, day: int, end: int, w: int)
    requires day <= w < end && Works(s, w)
    requires forall x :: day <= x <= w ==> s(x).Ok?
    ensures FirstWorking(s, day, end).Ok? && day <= FirstWorking(s, day, end).value <= w
    decreases end - day
  {
    if s(day) == Ok(false) { SearchFinds(s, day + 1, end, w); }
  }

  /** A range that ends in a working day and counts none is empty. */
  lemma NoneLeft(s: Days, a: int, b: int)
    requires a <= b && Works(s, b) && Count(s, a, b) == 0
    ensures a == b
  {
  }

  /** The first search of the way to the n-th working day. */
  lemma WayStarts(s: Days, day: int, n: nat, r: int) returns (first: int)
    requires n > 0 && IsNth(s, day, n, r)
    ensures FirstWorking(s, day + 1, day + 1 + LIMIT) == Ok(first) && day < first <= r
  {
    var w := r;
    if day + LIMIT < r {
      assert Relieved(s, day);
      w :| day < w <= day + LIMIT && Works(s, w);
    }
    hide FirstWorking;
    SearchFinds(s, day + 1, day + 1 + LIMIT, w);
    first := FirstWorking(s, day + 1, day + 1 + LIMIT).value;
  }

  lemma WayGoesOn(s: Days, day: int, n: nat, r: int, first: int)
    requires n > 0 && IsNth(s, day, n, r) && FirstWorking(s, day + 1, day + 1 + LIMIT) == Ok(first) && day < first <= r
    ensures IsNth(s, first, n - 1, r)
  {
    hide FirstWorking;
    NextCounts(s, day, first);
    CountAdds(s, day, first, r);
    if n == 1 { NoneLeft(s, first, r); }
  }

  /** Repeated searching finds every n-th working day there is. */
  lemma {:induction false} NthFinds(s: Days, day: int, n: nat, r: int)
    requires s(FIRST_DAY).Err? && (n > 0 ==> day != FIRST_DAY) && IsNth(s, day, n, r)
    ensures Nth(s, day, n) == Ok(r)
    decreases n
  {
    if n > 0 {
      var first := WayStarts(s, day, n, r);
      WayGoesOn(s, day, n, r, first);
      assert Works(s, first) by { NextCounts(s, day, first); }
      NthFinds(s, first, n - 1, r);
      NthBegins(s, day, n, first);
    }
  }

  lemma NthBegins(s: Days, day: int, n: nat, first: int)
    requires n > 0 && day != FIRST_DAY && FirstWorking(s, day + 1, day + 1 + LIMIT) == Ok(first)
    ensures Nth(s, day, n) == Nth(s, first, n - 1)
  {
    NthOne(s, day);
    NthAdds(s, day, 1, n - 1);
  }

  lemma NthOne(s: Days, day: int)
    ensures Nth(s, day, 1) == NextFrom(s, day)
  {
    assert Nth(s, day, 0) == Ok(day);
  }

  /** For the days of any calendar and scope: adding n working days gives r
      exactly when r is the n-th working day and no search meets an error or
      LIMIT days off in a row. */
  lemma NthExactly(calendar: Option<Calendar>, scope: Scope, day: int, n: nat, r: int)
    ensures Nth(DaysOf(calendar, scope), day, n) == Ok(r)
        <==> IsNth(DaysOf(calendar, scope), day, n, r) && (n > 0 ==> day != FIRST_DAY)
  {
    var s := DaysOf(calendar, scope);
    assert s(FIRST_DAY).Err?;
    hide IsWorkingDay, IsNth;
    if Nth(s, day, n) == Ok(r) {
      NthIsNth(s, day, n);
      if n > 0 { NthFromFirst(s, day, n); }
    } else if IsNth(s, day, n, r) && (n > 0 ==> day != FIRST_DAY) {
      NthFinds(s, day, n, r);
    }
  }

  lemma NthFromFirst(s: Days, day: int, n: nat)
    requires n > 0 && Nth(s, day, n).Ok?
    ensures day != FIRST_DAY
  {
    NthAdds(s, day, 1, n - 1);
  }

  lemma NthIsLater(s: Days, day: int, n: nat, r: int)
    requires n > 0 && IsNth(s, day, n, r)
    ensures day < r
  {
  }

  /** More working days lead strictly later. */
  lemma NthIncreases(s: Days, day: int, n: nat, m: nat)
    requires n < m && Nth(s, day, m).Ok?
    ensures Nth(s, day, n).Ok? && Nth(s, day, n).value < Nth(s, day, m).value
  {
    hide Nth, IsNth;
    if Nth(s, day, n).Err? { NthStops(s, day, n, m); }
    var x := Nth(s, day, n).value;
    NthAdds(s, day, n, m - n);
    NthIsNth(s, x, m - n);
    NthIsLater(s, x, m - n, Nth(s, x, m - n).value);
  }
}
