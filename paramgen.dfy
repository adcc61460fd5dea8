/** The report parameters of src/utils/paramGenerator.ts: general-ledger windows that step
    through a date range a fixed number of months at a time, and the single aged-receivables
    parameter dated at the end of the current month. The parsed start and end dates and
    today's date are parameters. */
module ParamGenerator {
  import opened Dates

  /** A `GeneralLedgerParam`. */
  datatype LedgerParam = LedgerParam(
    propertyVisibility: string,
    projectVisibility: string,
    accountingBasis: string,
    postedOnFrom: string,
    postedOnTo: string)

  /** An `AgedReceivablesParam`. */
  datatype ReceivablesParam = ReceivablesParam(
    paginateResults: bool,
    propertyVisibility: string,
    tenantStatuses: seq<string>,
    occurredOnTo: string)

  /** The instants one ledger window spans, both ends included. */
  datatype Window = Window(from: Instant, to: Instant)

  /** `currentEnd`: `months` months after `from`, or `end` when that is later. */
  function WindowEnd(from: Instant, end: Instant, months: nat): Instant
  {
    var stepped := Instant(AddMonths(from.date, months), from.ms);
    if Time(stepped) > Time(end) then end else stepped
  }

  /** The next `currentStart`: the day after `to`, at `to`'s time of day. */
  function After(to: Instant): Instant
  {
    Instant(NextDay(to.date), to.ms)
  }

  /** The loop guard: `currentStart < end`, or with `inclusive`, `currentStart <= end`. */
  predicate Continues(from: Instant, end: Instant, inclusive: bool)
  {
    if inclusive then Time(from) <= Time(end) else Time(from) < Time(end)
  }

  /** A window that starts no later than `end` ends between its start and `end`, and the
      next one starts a day after it ends. */
  lemma WindowStep(from: Instant, end: Instant, months: nat)
    requires ValidInstant(from) && ValidInstant(end) && Time(from) <= Time(end)
    ensures var to := WindowEnd(from, end, months);
      && ValidInstant(to) && Time(from) <= Time(to) <= Time(end)
      && ValidInstant(After(to)) && Time(After(to)) == Time(to) + DayMs
  {
    var to := WindowEnd(from, end, months);
    AddMonthsNumber(from.date, months);
    NextDayNumber(to.date);
  }

  /** The windows the loop visits from `from` on. */
  function Windows(from: Instant, end: Instant, months: nat, inclusive: bool): seq<Window>
    requires ValidInstant(from) && ValidInstant(end)
    decreases Time(end) - Time(from) + 1
  {
    if Continues(from, end, inclusive) then
      var to := WindowEnd(from, end, months);
      WindowStep(from, end, months);
      [Window(from, to)] + Windows(After(to), end, months, inclusive)
    else []
  }

  /** The parameter pushed for one window. */
  function LedgerParamOf(w: Window): LedgerParam
  {
    LedgerParam("all", "all", "accrual", FormatDate(w.from.date), FormatDate(w.to.date))
  }

  function LedgerParams(ws: seq<Window>): (ps: seq<LedgerParam>)
    ensures |ps| == |ws|
  {
    if ws == [] then [] else [LedgerParamOf(ws[0])] + LedgerParams(ws[1..])
  }

  /** One turn of the loop: a window that starts no later than `end`, followed by the
      windows from the day after it ends. */
  lemma WindowsUnfold(from: Instant, end: Instant, months: nat, inclusive: bool)
    requires ValidInstant(from) && ValidInstant(end) && Continues(from, end, inclusive)
    ensures var to := WindowEnd(from, end, months);
      && ValidInstant(After(to))
      && Windows(from, end, months, inclusive)
         == [Window(from, to)] + Windows(After(to), end, months, inclusive)
  {
    WindowStep(from, end, months);
  }

  lemma ParamsStep(done: seq<LedgerParam>, w: Window, rest: seq<Window>, all: seq<LedgerParam>)
    requires done + LedgerParams([w] + rest) == all
    ensures (done + [LedgerParamOf(w)]) + LedgerParams(rest) == all
  {
    assert ([w] + rest)[1..] == rest;
  }

  /** `generateGeneralLedgerParams(startDate, endDate, intervalInMonths)`. */
  method GenerateGeneralLedgerParams(start: Instant, end: Instant, months: nat)
    returns (params: seq<LedgerParam>)
    requires ValidInstant(start) && ValidInstant(end)
    ensures params == LedgerParams(Windows(start, end, months, false))
  {
    params := [];
    var currentStart := start;
    while Time(currentStart) < Time(end)
      invariant ValidInstant(currentStart)
      invariant params + LedgerParams(Windows(currentStart, end, months, false))
        == LedgerParams(Windows(start, end, months, false))
      decreases Time(end) - Time(currentStart)
    {
      var currentEnd := Instant(AddMonths(currentStart.date, months), currentStart.ms);
      if Time(currentEnd) > Time(end) {
        currentEnd := end;
      }
      WindowStep(currentStart, end, months);
      WindowsUnfold(currentStart, end, months, false);
      ParamsStep(params, Window(currentStart, currentEnd), Windows(After(currentEnd), end, months, false),
        LedgerParams(Windows(start, end, months, false)));
      params := params + [LedgerParamOf(Window(currentStart, currentEnd))];
      currentStart := After(currentEnd);
    }
  }

  /** Window `i` of the loop from `from`: it starts no earlier than `from` and before `end`
      (at `end` too when `inclusive`), ends `months` months after its start or at `end`
      when that comes first, and the next window starts the day after it ends; after the
      last window the next start has passed the guard. */
  lemma {:induction false} WindowAt(from: Instant, end: Instant, months: nat, inclusive: bool, i: nat)
    requires ValidInstant(from) && ValidInstant(end)
    requires i < |Windows(from, end, months, inclusive)|
    ensures var ws := Windows(from, end, months, inclusive);
      && ValidInstant(ws[i].from) && ValidInstant(ws[i].to)
      && Continues(ws[i].from, end, inclusive)
      && Time(from) <= Time(ws[i].from) <= Time(ws[i].to) <= Time(end)
      && ws[i].to == WindowEnd(ws[i].from, end, months)
      && (i + 1 < |ws| ==> ws[i + 1].from == After(ws[i].to))
      && (i + 1 == |ws| ==> !Continues(After(ws[i].to), end, inclusive))
    decreases Time(end) - Time(from) + 1
  {
    var to := WindowEnd(from, end, months);
    WindowStep(from, end, months);
    WindowsUnfold(from, end, months, inclusive);
    var rest := Windows(After(to), end, months, inclusive);
    var ws := [Window(from, to)] + rest;
    if i == 0 {
      if |rest| > 0 {
        WindowAt(After(to), end, months, inclusive, 0);
        assert ws[1] == rest[0];
      }
    } else {
      WindowAt(After(to), end, months, inclusive, i - 1);
      assert ws[i] == rest[i - 1];
      if i < |rest| {
        WindowAt(After(to), end, months, inclusive, i);
        assert ws[i + 1] == rest[i];
      }
    }
  }

  /** There are windows exactly when the range is not empty, and the first one starts at
      the start of the range. */
  lemma FirstWindow(start: Instant, end: Instant, months: nat, inclusive: bool)
    requires ValidInstant(start) && ValidInstant(end)
    ensures var ws := Windows(start, end, months, inclusive);
      && (|ws| > 0 <==> Continues(start, end, inclusive))
      && (|ws| > 0 ==> ws[0].from == start)
  {
  }

  /** Every window start and end keeps the time of day of `start`, unless it is `end`. */
  lemma {:induction false} WindowsKeepTime(from: Instant, end: Instant, months: nat, inclusive: bool, i: nat)
    requires ValidInstant(from) && ValidInstant(end) && from.ms == end.ms
    requires i < |Windows(from, end, months, inclusive)|
    ensures Windows(from, end, months, inclusive)[i].from.ms == end.ms
    ensures Windows(from, end, months, inclusive)[i].to.ms == end.ms
    decreases Time(end) - Time(from) + 1
  {
    var to := WindowEnd(from, end, months);
    WindowStep(from, end, months);
    if i > 0 {
      WindowsKeepTime(After(to), end, months, inclusive, i - 1);
    }
  }

  /** With the corrected guard `currentStart <= end` and a start and end at the same time
      of day, as two dates parsed the same way are, the windows cover the range without
      gap or overlap and the last one ends exactly at `end`. */
  lemma InclusiveWindowsCover(start: Instant, end: Instant, months: nat)
    requires ValidInstant(start) && ValidInstant(end) && start.ms == end.ms
    requires Time(start) <= Time(end)
    ensures var ws := Windows(start, end, months, true);
      && |ws| > 0 && ws[0].from == start
      && ws[|ws| - 1].to == end
      && forall i :: 0 <= i < |ws| - 1 ==> ws[i + 1].from == After(ws[i].to)
  {
    var ws := Windows(start, end, months, true);
    var last := |ws| - 1;
    WindowAt(start, end, months, true, last);
    WindowsKeepTime(start, end, months, true, last);
    var to := ws[last].to;
    NextDayNumber(to.date);
    assert DayNumber(to.date) == DayNumber(end.date);
    DayNumberInjective(to.date, end.date);
    forall i | 0 <= i < |ws| - 1
      ensures ws[i + 1].from == After(ws[i].to)
    {
      WindowAt(start, end, months, true, i);
    }
  }

  /** The calendar facts behind the example below: one month after 1 January 2024 is
      1 February, the day after that is 2 February, and they are one and 31 days apart. */
  lemma January2024()
    ensures AddMonths(Civil(2024, 1, 1), 1) == Civil(2024, 2, 1)
    ensures NextDay(Civil(2024, 2, 1)) == Civil(2024, 2, 2)
    ensures DayNumber(Civil(2024, 2, 1)) == DayNumber(Civil(2024, 1, 1)) + 31
    ensures DayNumber(Civil(2024, 2, 2)) == DayNumber(Civil(2024, 2, 1)) + 1
  {
    var i := MonthIndex(Civil(2024, 1, 1));
    assert i == 24288;
    MonthStartStep(i);
    assert AddMonths(Civil(2024, 1, 1), 1) == Settle(i + 1, 1) == CivilAt(i + 1, 1);
    assert NextDay(Civil(2024, 2, 1)) == Settle(i + 1, 2) == CivilAt(i + 1, 2);
  }

  /** As written, the guard `currentStart < end` drops the last day of the range when a
      window ends the day before `end`: from 1 January 2024 to 2 February 2024 in steps of
      one month there is one window, 1 January to 1 February, and 2 February is never
      requested. */
  lemma ExclusiveGuardDropsLastDay()
    ensures var start := Instant(Civil(2024, 1, 1), 0);
      var end := Instant(Civil(2024, 2, 2), 0);
      Windows(start, end, 1, false) == [Window(start, Instant(Civil(2024, 2, 1), 0))]
  {
    var start := Instant(Civil(2024, 1, 1), 0);
    var end := Instant(Civil(2024, 2, 2), 0);
    var feb1 := Instant(Civil(2024, 2, 1), 0);
    January2024();
    assert WindowEnd(start, end, 1) == feb1;
    assert After(feb1) == end;
    WindowsUnfold(start, end, 1, false);
  }

  /** `generateAgedReceivablesParams()` on the day `today`. */
  function AgedReceivablesParams(today: Instant): seq<ReceivablesParam>
  {
    var endOfMonth := NewDate(today.date.year, today.date.month - 1 + 1, 0);
    [ReceivablesParam(false, "all", [], FormatDate(endOfMonth.date))]
  }

  /** One parameter, not paginated, dated at the last day of today's month (of the year
      the constructor reads, which is today's year from year 100 on). */
  lemma AgedReceivablesMeaning(today: Instant)
    requires ValidInstant(today)
    ensures var ps := AgedReceivablesParams(today);
      var y := ConstructorYear(today.date.year);
      && |ps| == 1
      && !ps[0].paginateResults
      && ps[0].propertyVisibility == "all" && ps[0].tenantStatuses == []
      && ps[0].occurredOnTo == FormatDate(Civil(y, today.date.month, DaysInMonth(y, today.date.month)))
      && (today.date.year >= 100 ==> y == today.date.year)
  {
    MonthBoundsMeaning(today.date.year, today.date.month);
  }
}
