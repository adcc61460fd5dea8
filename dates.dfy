/** The calendar arithmetic of src/utils/date.ts on the proleptic Gregorian calendar, and
    the parts of JavaScript's `Date` it relies on: the constructor and the `setDate` and
    `setMonth` setters, which carry a day or month that is out of range into the
    neighbouring months and years. A `Date` is read in local time, as a calendar date and
    the milliseconds since that date's midnight; every day is taken to be 24 hours long. */
module Dates {
  import opened Wrappers
  import opened Text

  /** A calendar date; `month` is 1-based. */
  datatype Civil = Civil(year: int, month: int, day: int)

  /** A local `Date`: its calendar date and the milliseconds elapsed since its midnight. */
  datatype Instant = Instant(date: Civil, ms: int)

  const DayMs: int := 86400000

  /** The Gregorian leap rule. */
  predicate Leap(y: int)
  {
    y % 4 == 0 && (y % 100 != 0 || y % 400 == 0)
  }

  function DaysInMonth(y: int, m: int): (n: int)
    ensures 28 <= n <= 31
  {
    if m == 2 then (if Leap(y) then 29 else 28)
    else if m == 4 || m == 6 || m == 9 || m == 11 then 30
    else 31
  }

  predicate ValidDate(c: Civil)
  {
    1 <= c.month <= 12 && 1 <= c.day <= DaysInMonth(c.year, c.month)
  }

  predicate ValidInstant(t: Instant)
  {
    ValidDate(t.date) && 0 <= t.ms < DayMs
  }

  /** Months are numbered consecutively: January of year 0 is month 0. */
  function MonthIndex(c: Civil): int
  {
    12 * c.year + c.month - 1
  }

  /** Day `day` of the month with index `i`. */
  function CivilAt(i: int, day: int): Civil
  {
    Civil(i / 12, i % 12 + 1, day)
  }

  function MonthLength(i: int): (n: int)
    ensures 28 <= n <= 31
  {
    DaysInMonth(i / 12, i % 12 + 1)
  }

  /** The day number of the first of the month with index `i`; day 0 is 1 January of
      year 0. */
  function MonthStartAt(i: int): int
    decreases if i >= 0 then i else -i
  {
    if i == 0 then 0
    else if i > 0 then MonthStartAt(i - 1) + MonthLength(i - 1)
    else MonthStartAt(i + 1) - MonthLength(i)
  }

  /** Consecutive days have consecutive day numbers. */
  function DayNumber(c: Civil): int
  {
    MonthStartAt(MonthIndex(c)) + c.day - 1
  }

  /** The value `getTime()` compares, up to a fixed offset. */
  function Time(t: Instant): int
  {
    DayNumber(t.date) * DayMs + t.ms
  }

  /** The month index of a date names its year and month. */
  lemma IndexOf(c: Civil)
    requires 1 <= c.month <= 12
    ensures MonthIndex(c) / 12 == c.year && MonthIndex(c) % 12 + 1 == c.month
    ensures CivilAt(MonthIndex(c), c.day) == c
    ensures MonthLength(MonthIndex(c)) == DaysInMonth(c.year, c.month)
  {
  }

  /** The first of the next month comes a month's length after the first of this one. */
  lemma MonthStartStep(i: int)
    ensures MonthStartAt(i + 1) == MonthStartAt(i) + MonthLength(i)
  {
  }

  /** Later months start later. */
  lemma {:induction false} MonthStartMonotone(i: int, j: int)
    requires i <= j
    ensures MonthStartAt(i) + 28 * (j - i) <= MonthStartAt(j)
    decreases j - i
  {
    if i < j {
      MonthStartMonotone(i, j - 1);
      MonthStartStep(j - 1);
    }
  }

  /** Distinct valid dates have distinct day numbers, so day numbers name dates. */
  lemma DayNumberInjective(a: Civil, b: Civil)
    requires ValidDate(a) && ValidDate(b)
    requires DayNumber(a) == DayNumber(b)
    ensures a == b
  {
    var i, j := MonthIndex(a), MonthIndex(b);
    IndexOf(a);
    IndexOf(b);
    MonthStartStep(i);
    MonthStartStep(j);
    if i < j {
      MonthStartMonotone(i + 1, j);
    } else if j < i {
      MonthStartMonotone(j + 1, i);
    }
  }

  /** Day `day` of month `i`, carried into later months while it exceeds the month's
      length. */
  function Forward(i: int, day: int): Civil
    requires 1 <= day
    decreases day
  {
    if day <= MonthLength(i) then CivilAt(i, day)
    else Forward(i + 1, day - MonthLength(i))
  }

  /** Day `day` of month `i` for any integer `day`: a day below 1 is carried into earlier
      months. */
  function Settle(i: int, day: int): Civil
    decreases if day >= 1 then 0 else 1 - day
  {
    if day >= 1 then Forward(i, day)
    else Settle(i - 1, day + MonthLength(i - 1))
  }

  /** ECMAScript's MakeDay on calendar fields: `monthIndex` counts months from January of
      `year` (0 is January) and may lie outside 0..11, so it carries into other years, and
      `day` may lie outside the month, so it carries into other months. */
  function MakeDate(year: int, monthIndex: int, day: int): Civil
  {
    Settle(12 * year + monthIndex, day)
  }

  lemma {:induction false} ForwardNumber(i: int, day: int)
    requires 1 <= day
    ensures ValidDate(Forward(i, day))
    ensures DayNumber(Forward(i, day)) == MonthStartAt(i) + day - 1
    decreases day
  {
    if day <= MonthLength(i) {
      assert MonthIndex(CivilAt(i, day)) == i;
    } else {
      ForwardNumber(i + 1, day - MonthLength(i));
      MonthStartStep(i);
    }
  }

  lemma {:induction false} SettleNumber(i: int, day: int)
    ensures ValidDate(Settle(i, day))
    ensures DayNumber(Settle(i, day)) == MonthStartAt(i) + day - 1
    decreases if day >= 1 then 0 else 1 - day
  {
    if day >= 1 {
      ForwardNumber(i, day);
    } else {
      SettleNumber(i - 1, day + MonthLength(i - 1));
      MonthStartStep(i - 1);
    }
  }

  /** MakeDate yields a valid date whose day number is the first of the month reached by
      counting `monthIndex` months from January of `year`, plus `day - 1`, as ECMAScript
      defines MakeDay. */
  lemma MakeDateNumber(year: int, monthIndex: int, day: int)
    ensures ValidDate(MakeDate(year, monthIndex, day))
    ensures DayNumber(MakeDate(year, monthIndex, day)) == MonthStartAt(12 * year + monthIndex) + day - 1
  {
    SettleNumber(12 * year + monthIndex, day);
  }

  /** `d.setDate(d.getDate() + 1)`. */
  function NextDay(c: Civil): Civil
  {
    MakeDate(c.year, c.month - 1, c.day + 1)
  }

  /** The next day of a valid date is the valid date whose day number is one more. */
  lemma NextDayNumber(c: Civil)
    requires ValidDate(c)
    ensures ValidDate(NextDay(c))
    ensures DayNumber(NextDay(c)) == DayNumber(c) + 1
  {
    var i := MonthIndex(c);
    assert NextDay(c) == Settle(i, c.day + 1);
    SettleNumber(i, c.day + 1);
  }

  /** `d.setMonth(d.getMonth() + months)`: the day of the month is kept and carried into the
      following month when the target month is shorter. */
  function AddMonths(c: Civil, months: int): Civil
  {
    MakeDate(c.year, c.month - 1 + months, c.day)
  }

  /** Adding months lands on day `c.day - 1` after the first of the month `months` later,
      and adding a non-negative number of months moves a date forward by at least 28 days
      a month. */
  lemma AddMonthsNumber(c: Civil, months: int)
    requires ValidDate(c)
    ensures ValidDate(AddMonths(c, months))
    ensures DayNumber(AddMonths(c, months)) == MonthStartAt(MonthIndex(c) + months) + c.day - 1
    ensures months >= 0 ==> DayNumber(AddMonths(c, months)) >= DayNumber(c) + 28 * months
  {
    var i := MonthIndex(c);
    assert AddMonths(c, months) == Settle(i + months, c.day);
    SettleNumber(i + months, c.day);
    if months >= 0 {
      MonthStartMonotone(i, i + months);
      assert DayNumber(c) == MonthStartAt(i) + c.day - 1;
    }
  }

  /** `c` followed by the `n` days after it. */
  function DaysAfter(c: Civil, n: nat): Civil
  {
    if n == 0 then c else NextDay(DaysAfter(c, n - 1))
  }

  lemma {:induction false} DaysAfterNumber(c: Civil, n: nat)
    requires ValidDate(c)
    ensures ValidDate(DaysAfter(c, n))
    ensures DayNumber(DaysAfter(c, n)) == DayNumber(c) + n
  {
    if n > 0 {
      DaysAfterNumber(c, n - 1);
      NextDayNumber(DaysAfter(c, n - 1));
    }
  }

  /** `date.toLocaleDateString("en-US")`: month/day/year, none of them zero-padded. */
  function FormatDate(c: Civil): string
  {
    Join([IntToString(c.month), IntToString(c.day), IntToString(c.year)], "/")
  }

  predicate AllDigits(s: string)
  {
    forall i :: 0 <= i < |s| ==> IsDigit(s[i])
  }

  /** Reads a month/day/year string back. */
  function ParseDate(s: string): Option<Civil>
  {
    var parts := Split(s, '/');
    if |parts| == 3 && AllDigits(parts[0]) && AllDigits(parts[1]) && AllDigits(parts[2]) then
      Some(Civil(ParseNat(parts[2]), ParseNat(parts[0]), ParseNat(parts[1])))
    else None
  }

  /** The rendering of a date of the common era reads back as that date, so distinct dates
      render differently. */
  lemma FormatDateRoundTrip(c: Civil)
    requires ValidDate(c) && c.year >= 0
    ensures ParseDate(FormatDate(c)) == Some(c)
  {
    var parts := [NatToString(c.month), NatToString(c.day), NatToString(c.year)];
    assert [IntToString(c.month), IntToString(c.day), IntToString(c.year)] == parts;
    forall i | 0 <= i < 3
      ensures '/' !in parts[i]
    {
      if '/' in parts[i] {
        var k :| 0 <= k < |parts[i]| && parts[i][k] == '/';
      }
    }
    SplitJoin(parts, '/');
    ParseNatToString(c.month);
    ParseNatToString(c.day);
    ParseNatToString(c.year);
  }

  /** How many dates `generateDates(from, to)` lists: the days from `from` on, at `from`'s
      time of day, that are not later than `to`. */
  function DayCount(from: Instant, to: Instant): nat
  {
    if Time(from) > Time(to) then 0
    else
      var n := DayNumber(to.date) - DayNumber(from.date) + (if from.ms <= to.ms then 1 else 0);
      if n < 0 then 0 else n
  }

  /** The `i`-th day after `from` is a valid date `i` days later, and it is among the
      first `DayCount(from, to)` days exactly when, at `from`'s time of day, it is not
      later than `to`. */
  lemma ListedDays(from: Instant, to: Instant, i: nat)
    requires ValidInstant(from) && ValidInstant(to)
    ensures ValidDate(DaysAfter(from.date, i))
    ensures DayNumber(DaysAfter(from.date, i)) == DayNumber(from.date) + i
    ensures i < DayCount(from, to) <==> Time(Instant(DaysAfter(from.date, i), from.ms)) <= Time(to)
  {
    DaysAfterNumber(from.date, i);
  }

  /** `c` and the `n - 1` days after it. */
  function Days(c: Civil, n: nat): seq<Civil>
  {
    if n == 0 then [] else Days(c, n - 1) + [DaysAfter(c, n - 1)]
  }

  /** The rendering of each date. */
  function Formats(ds: seq<Civil>): (r: seq<string>)
    ensures |r| == |ds|
  {
    if ds == [] then [] else Formats(ds[..|ds| - 1]) + [FormatDate(ds[|ds| - 1])]
  }

  lemma {:induction false} DaysAt(c: Civil, n: nat, i: nat)
    requires i < n
    ensures |Days(c, n)| == n
    ensures Days(c, n)[i] == DaysAfter(c, i)
  {
    var prev, last := Days(c, n - 1), DaysAfter(c, n - 1);
    if i < n - 1 {
      DaysAt(c, n - 1, i);
      assert (prev + [last])[i] == prev[i];
    } else if n > 1 {
      DaysAt(c, n - 1, 0);
    }
  }

  lemma {:induction false} FormatsAt(ds: seq<Civil>, i: nat)
    requires i < |ds|
    ensures Formats(ds)[i] == FormatDate(ds[i])
    decreases |ds|
  {
    var init := ds[..|ds| - 1];
    if i < |ds| - 1 {
      FormatsAt(init, i);
      assert (Formats(init) + [FormatDate(ds[|ds| - 1])])[i] == Formats(init)[i];
    }
  }

  lemma FormatsSnoc(ds: seq<Civil>, d: Civil)
    ensures Formats(ds + [d]) == Formats(ds) + [FormatDate(d)]
  {
    assert (ds + [d])[..|ds|] == ds;
  }

  /** `generateDates(from, to)`: the rendering of `from` and of each following day, at
      `from`'s time of day, for as long as it is not later than `to`. */
  method GenerateDates(from: Instant, to: Instant) returns (dates: seq<string>)
    requires ValidInstant(from) && ValidInstant(to)
    ensures dates == Formats(Days(from.date, DayCount(from, to)))
  {
    dates := [];
    var current := from;
    ghost var n := 0;
    while Time(current) <= Time(to)
      invariant n <= DayCount(from, to)
      invariant current.date == DaysAfter(from.date, n) && current.ms == from.ms
      invariant dates == Formats(Days(from.date, n))
      decreases DayCount(from, to) - n
    {
      ListedDays(from, to, n);
      FormatsSnoc(Days(from.date, n), current.date);
      dates := dates + [FormatDate(current.date)];
      current := Instant(NextDay(current.date), current.ms);
      n := n + 1;
    }
    ListedDays(from, to, n);
  }

  /** What `generateDates` lists: nothing when `from` is later than `to`; otherwise the
      rendering of `from` first and then of each next day; and, when both have the same
      time of day, one date per day of the inclusive range. */
  lemma GeneratedDates(from: Instant, to: Instant)
    requires ValidInstant(from) && ValidInstant(to)
    ensures var dates := Formats(Days(from.date, DayCount(from, to)));
      && (Time(from) > Time(to) ==> dates == [])
      && (Time(from) <= Time(to) ==> |dates| > 0 && dates[0] == FormatDate(from.date))
      && (from.ms == to.ms && DayNumber(from.date) <= DayNumber(to.date) ==>
           |dates| == DayNumber(to.date) - DayNumber(from.date) + 1)
      && forall i :: 0 <= i < |dates| ==>
           dates[i] == FormatDate(DaysAfter(from.date, i))
           && DayNumber(DaysAfter(from.date, i)) == DayNumber(from.date) + i
           && Time(Instant(DaysAfter(from.date, i), from.ms)) <= Time(to)
  {
    var n := DayCount(from, to);
    var ds := Days(from.date, n);
    if n > 0 {
      DaysAt(from.date, n, 0);
      FormatsAt(ds, 0);
    }
    forall i | 0 <= i < n
      ensures Formats(ds)[i] == FormatDate(DaysAfter(from.date, i))
      ensures DayNumber(DaysAfter(from.date, i)) == DayNumber(from.date) + i
      ensures Time(Instant(DaysAfter(from.date, i), from.ms)) <= Time(to)
    {
      DaysAt(from.date, n, i);
      FormatsAt(ds, i);
      ListedDays(from, to, i);
    }
  }

  /** `new Date(year, ...)`: a year from 0 to 99 means 1900 to 1999. */
  function ConstructorYear(year: int): int
  {
    if 0 <= year <= 99 then 1900 + year else year
  }

  /** `new Date(year, monthIndex, day)` at local midnight. */
  function NewDate(year: int, monthIndex: int, day: int): Instant
  {
    Instant(MakeDate(ConstructorYear(year), monthIndex, day), 0)
  }

  datatype MonthBounds = MonthBounds(start: Instant, end: Instant)

  /** `getStartAndEndOfMonth(year, month)` with a 1-based month. */
  function StartAndEndOfMonth(year: int, month: int): MonthBounds
  {
    MonthBounds(NewDate(year, month - 1, 1), NewDate(year, month, 0))
  }

  /** For a month from 1 to 12, `start` is its first day and `end` its last, at midnight;
      the month has 28 to 31 days and February has 29 exactly in leap years. */
  lemma MonthBoundsMeaning(year: int, month: int)
    requires 1 <= month <= 12
    ensures var b := StartAndEndOfMonth(year, month);
      var y := ConstructorYear(year);
      && b.start == Instant(Civil(y, month, 1), 0)
      && b.end == Instant(Civil(y, month, DaysInMonth(y, month)), 0)
      && 28 <= DaysInMonth(y, month) <= 31
      && (month == 2 ==> (DaysInMonth(y, month) == 29 <==> Leap(y)))
  {
    var y := ConstructorYear(year);
    var i := MonthIndex(Civil(y, month, 1));
    IndexOf(Civil(y, month, 1));
    assert StartAndEndOfMonth(year, month).end.date == Settle(i, MonthLength(i));
  }

  /** For any month number, even one outside 1..12 that JavaScript carries into another
      year, `end` is the day before the first of the following month and `end - start + 1`
      is the length of the month `start` lies in. */
  lemma MonthBoundsSpan(year: int, month: int)
    ensures var b := StartAndEndOfMonth(year, month);
      && ValidInstant(b.start) && ValidInstant(b.end)
      && b.start.date.day == 1
      && DayNumber(b.end.date) + 1 == DayNumber(NewDate(year, month, 1).date)
      && DayNumber(b.end.date) - DayNumber(b.start.date) + 1
         == DaysInMonth(b.start.date.year, b.start.date.month)
  {
    var y := ConstructorYear(year);
    var i := 12 * y + month - 1;
    MakeDateNumber(y, month - 1, 1);
    MakeDateNumber(y, month, 0);
    MakeDateNumber(y, month, 1);
    assert MakeDate(y, month - 1, 1) == CivilAt(i, 1);
    MonthStartStep(i);
  }
}
