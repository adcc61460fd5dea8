/** The clock rules of src/utils/time.ts. The current time is a parameter: for the two
    Mountain Time rules, the milliseconds elapsed since local midnight; for the next hour
    mark, the local `Date` now. Days are taken to be 24 hours long. */
module Schedule {
  import opened Dates

  const HourMs: int := 3600000

  /** 07:00:00.000 as milliseconds since midnight. */
  const SevenAM: int := 7 * HourMs

  /** `now.hour` for the time of day `tod`. */
  function Hour(tod: int): int
  {
    tod / HourMs
  }

  /** `isWithinAllowedTime()`: from 7 AM up to, not including, 10 PM. */
  function IsWithinAllowedTime(tod: int): bool
  {
    Hour(tod) >= 7 && Hour(tod) < 22
  }

  /** The allowed window is the half-open interval from 07:00:00.000 to 22:00:00.000. */
  lemma AllowedWindow(tod: int)
    requires 0 <= tod < DayMs
    ensures IsWithinAllowedTime(tod) <==> SevenAM <= tod < 22 * HourMs
  {
  }

  /** `getTimeUntilNext7AM()`: milliseconds to 07:00:00.000 today when it is not yet
      7 AM, and to 07:00:00.000 tomorrow otherwise. */
  function TimeUntilNext7AM(tod: int): int
  {
    var next := if Hour(tod) < 7 then SevenAM else DayMs + SevenAM;
    next - tod
  }

  predicate AtSevenAM(t: int)
  {
    t % DayMs == SevenAM
  }

  /** The wait is more than nothing and at most a day, a whole day exactly at 7 AM; it ends
      at 7 AM, and no earlier moment of the wait is 7 AM. */
  lemma NextSevenAM(tod: int)
    requires 0 <= tod < DayMs
    ensures var w := TimeUntilNext7AM(tod);
      && 0 < w <= DayMs
      && (w == DayMs <==> tod == SevenAM)
      && (Hour(tod) < 7 ==> tod + w == SevenAM)
      && (Hour(tod) >= 7 ==> tod + w == DayMs + SevenAM)
      && AtSevenAM(tod + w)
      && forall t :: tod < t < tod + w ==> !AtSevenAM(t)
  {
    var w := TimeUntilNext7AM(tod);
    forall t | tod < t < tod + w
      ensures !AtSevenAM(t)
    {
      if t >= DayMs {
        assert t % DayMs == t - DayMs;
      } else {
        assert t % DayMs == t;
      }
    }
  }

  /** `nextHour.setHours(nextHour.getHours() + 1)`: an hour later, carried into the next
      day after 23:00; minutes, seconds and milliseconds are kept. */
  function GetNextHourMark(now: Instant): Instant
  {
    var ms := now.ms + HourMs;
    if ms < DayMs then Instant(now.date, ms) else Instant(NextDay(now.date), ms - DayMs)
  }

  predicate OnTheHour(t: int)
  {
    t % HourMs == 0
  }

  /** Shifting by whole hours keeps the minutes, seconds and milliseconds. */
  lemma ShiftHours(x: int, k: int)
    ensures (x + k * HourMs) % HourMs == x % HourMs
  {
    var q := x / HourMs;
    assert x + k * HourMs == (q + k) * HourMs + x % HourMs;
  }

  /** Whole days are whole hours, so an instant is on the hour when its time of day is. */
  lemma TimeOfDay(t: Instant)
    ensures Time(t) % HourMs == t.ms % HourMs
  {
    var d := DayNumber(t.date);
    assert Time(t) == t.ms + (24 * d) * HourMs;
    ShiftHours(t.ms, 24 * d);
  }

  /** As written, `getNextHourMark()` is exactly one hour after `now` and keeps its
      minutes, seconds and milliseconds, so it is on the hour only when `now` already was;
      at 10:30 it returns 11:30. */
  lemma NextHourMarkKeepsMinutes(now: Instant)
    requires ValidInstant(now)
    ensures var r := GetNextHourMark(now);
      && ValidInstant(r)
      && Time(r) == Time(now) + HourMs
      && r.ms % HourMs == now.ms % HourMs
      && (OnTheHour(Time(r)) <==> OnTheHour(Time(now)))
      && (now.ms == 10 * HourMs + 30 * 60000 ==> r.ms == 11 * HourMs + 30 * 60000)
  {
    var r := GetNextHourMark(now);
    var d := DayNumber(now.date);
    if now.ms + HourMs >= DayMs {
      NextDayNumber(now.date);
      assert r == Instant(NextDay(now.date), now.ms - 23 * HourMs);
      assert Time(r) == (d + 1) * DayMs + now.ms - 23 * HourMs;
      ShiftHours(now.ms, -23);
    } else {
      assert r == Instant(now.date, now.ms + HourMs);
      ShiftHours(now.ms, 1);
    }
    TimeOfDay(now);
    TimeOfDay(r);
  }

  /** The next hour mark as its documentation describes it: the first instant after `now`
      whose minutes, seconds and milliseconds are zero. */
  function NextHourMark(now: Instant): Instant
  {
    var ms := (now.ms / HourMs + 1) * HourMs;
    if ms < DayMs then Instant(now.date, ms) else Instant(NextDay(now.date), ms - DayMs)
  }

  /** The hour of a time of day, and the hour marks around it. */
  lemma HourOf(x: int)
    requires 0 <= x < DayMs
    ensures 0 <= x / HourMs < 24
    ensures (x / HourMs) * HourMs <= x < (x / HourMs + 1) * HourMs
  {
  }

  /** A whole number of hours is on the hour. */
  lemma WholeHours(k: int)
    ensures OnTheHour(k * HourMs)
  {
    assert k * HourMs == HourMs * k + 0;
  }

  /** No instant strictly between two consecutive hour marks is on the hour. */
  lemma BetweenHours(k: int, t: int)
    requires k * HourMs < t < (k + 1) * HourMs
    ensures !OnTheHour(t)
  {
    assert t - k * HourMs == t % HourMs;
  }

  /** The corrected mark falls on hour `h + 1` of the day of `now`, where `h` is the hour
      of `now`, counted in whole hours since the epoch day. */
  lemma NextHourMarkTime(now: Instant)
    requires ValidInstant(now)
    ensures var r := NextHourMark(now);
      var k := 24 * DayNumber(now.date) + now.ms / HourMs;
      && ValidInstant(r)
      && r.ms % HourMs == 0
      && Time(r) == (k + 1) * HourMs
      && k * HourMs <= Time(now) < (k + 1) * HourMs
  {
    var r := NextHourMark(now);
    var h := now.ms / HourMs;
    HourOf(now.ms);
    if h == 23 {
      NextDayNumber(now.date);
      assert r == Instant(NextDay(now.date), 0);
    } else {
      assert r == Instant(now.date, h * HourMs + HourMs);
    }
    WholeHours(h + 1);
  }

  /** The corrected mark is on the hour, later than `now` by at most an hour, and no
      instant between them is on the hour. */
  lemma NextHourMarkIsNext(now: Instant)
    requires ValidInstant(now)
    ensures var r := NextHourMark(now);
      && ValidInstant(r)
      && r.ms % HourMs == 0
      && OnTheHour(Time(r))
      && Time(now) < Time(r) <= Time(now) + HourMs
      && forall t :: Time(now) < t < Time(r) ==> !OnTheHour(t)
  {
    var r := NextHourMark(now);
    var k := 24 * DayNumber(now.date) + now.ms / HourMs;
    NextHourMarkTime(now);
    WholeHours(k + 1);
    forall t | Time(now) < t < Time(r)
      ensures !OnTheHour(t)
    {
      BetweenHours(k, t);
    }
  }
}
