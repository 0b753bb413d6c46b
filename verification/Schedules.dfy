// Armed windows on a site's wall clock. A moment is the local time in microseconds since the
// midnight that began some Monday; the timezone conversion happens before it gets here.
module Schedules {
  import opened Clock
  import opened Counting

  const ALL_DAYS: set<int> := {0, 1, 2, 3, 4, 5, 6}

  datatype Schedule = Schedule(start: int, end: int, days: set<int>)

  // What the constructor lets through.
  predicate Valid(s: Schedule) {
    0 <= s.start < DAY && 0 <= s.end < DAY && s.days != {} && s.days <= ALL_DAYS
  }

  function Weekday(t: int): int { (t / DAY) % 7 }

  function TimeOfDay(t: int): int { t % DAY }

  predicate IsAlwaysOn(s: Schedule) { s.start == s.end && s.days == ALL_DAYS }

  predicate CrossesMidnight(s: Schedule) { s.end < s.start }

  predicate IsActive(s: Schedule, t: int) {
    if IsAlwaysOn(s) then true
    else if !CrossesMidnight(s) then
      Weekday(t) in s.days && s.start <= TimeOfDay(t) < s.end
    else if TimeOfDay(t) >= s.start && Weekday(t) in s.days then true
    else if TimeOfDay(t) < s.end then Weekday(t - DAY) in s.days
    else false
  }

  // How long a window that opens stays open.
  function Length(s: Schedule): int {
    if s.start < s.end then s.end - s.start else s.end - s.start + DAY
  }

  // t lies in the half-open window that opened on day d.
  predicate InWindowOf(s: Schedule, d: int, t: int) {
    d % 7 in s.days && d * DAY + s.start <= t < d * DAY + s.start + Length(s)
  }

  lemma DayOf(t: int, d: int)
    requires d * DAY <= t < (d + 1) * DAY
    ensures t / DAY == d && t % DAY == t - d * DAY
    ensures Weekday(t) == d % 7 && Weekday(t - DAY) == (d - 1) % 7
  {
  }

  // WINDOW REFINEMENT. With distinct bounds, the schedule is active exactly inside the windows
  // opened on its days, those that run past midnight included.
  lemma ActiveIffInWindow(s: Schedule, t: int)
    requires Valid(s) && s.start != s.end
    ensures IsActive(s, t) <==> exists d :: InWindowOf(s, d, t)
  {
    hide Weekday;
    var today := t / DAY;
    DayOf(t, today);
    assert IsActive(s, t) ==> InWindowOf(s, today, t) || InWindowOf(s, today - 1, t);
    forall d | InWindowOf(s, d, t)
      ensures IsActive(s, t)
    {
      assert d == today || d == today - 1;
    }
  }

  // With equal bounds the window is all week or nothing: a subset of the days never opens.
  lemma EqualBounds(s: Schedule, t: int)
    requires Valid(s) && s.start == s.end
    ensures IsActive(s, t) <==> s.days == ALL_DAYS
  {
  }

  // ---- How much of a week is armed ---------------------------------------------------------------

  // The number of microseconds of [from, from + n) at which the schedule is active.
  function ActiveTime(s: Schedule, from: int, n: nat): nat {
    if n == 0 then 0 else ActiveTime(s, from, n - 1) + if IsActive(s, from + n - 1) then 1 else 0
  }

  lemma {:induction false} ActiveTimeSplits(s: Schedule, from: int, n: nat, m: nat)
    ensures ActiveTime(s, from, n + m) == ActiveTime(s, from, n) + ActiveTime(s, from + n, m)
    decreases m
  {
    hide IsActive;
    if m > 0 { ActiveTimeSplits(s, from, n, m - 1); }
  }

  lemma {:induction false} ActiveTimeConstant(s: Schedule, from: int, n: nat, on: bool)
    requires forall t :: from <= t < from + n ==> IsActive(s, t) == on
    ensures ActiveTime(s, from, n) == if on then n else 0
    decreases n
  {
    hide IsActive;
    if n > 0 { ActiveTimeConstant(s, from, n - 1, on); }
  }

  // One day: what is left of yesterday's window, and what opens today.
  lemma ActiveTimeOfDay(s: Schedule, d: int)
    requires Valid(s) && s.start != s.end
    ensures !CrossesMidnight(s) ==>
              ActiveTime(s, d * DAY, DAY) == Bit(d % 7 in s.days) * (s.end - s.start)
    ensures CrossesMidnight(s) ==>
              ActiveTime(s, d * DAY, DAY) == Bit((d - 1) % 7 in s.days) * s.end + Bit(d % 7 in s.days) * (DAY - s.start)
  {
    hide IsActive, Weekday, ActiveTime;
    var from := d * DAY;
    forall t | from <= t < from + DAY
      ensures IsActive(s, t) == if CrossesMidnight(s)
                                then (t - from >= s.start && d % 7 in s.days) || (t - from < s.end && (d - 1) % 7 in s.days)
                                else d % 7 in s.days && s.start <= t - from < s.end
    {
      DayOf(t, d);
      ActiveByDay(s, t);
    }
    var lo, hi := if CrossesMidnight(s) then s.end else s.start, if CrossesMidnight(s) then s.start else s.end;
    ActiveTimeSplits(s, from, lo, DAY - lo);
    ActiveTimeSplits(s, from + lo, hi - lo, DAY - hi);
    ActiveTimeConstant(s, from, lo, CrossesMidnight(s) && (d - 1) % 7 in s.days);
    ActiveTimeConstant(s, from + lo, hi - lo, !CrossesMidnight(s) && d % 7 in s.days);
    ActiveTimeConstant(s, from + hi, DAY - hi, CrossesMidnight(s) && d % 7 in s.days);
  }

  lemma ActiveByDay(s: Schedule, t: int)
    requires s.start != s.end
    ensures IsActive(s, t) == if CrossesMidnight(s)
                              then (t % DAY >= s.start && Weekday(t) in s.days) || (t % DAY < s.end && Weekday(t - DAY) in s.days)
                              else Weekday(t) in s.days && s.start <= t % DAY < s.end
  {
  }

  lemma Periodic(s: Schedule, t: int)
    ensures IsActive(s, t + 7 * DAY) == IsActive(s, t)
  {
    DayOf(t, t / DAY);
    DayOf(t + 7 * DAY, t / DAY + 7);
  }

  // A week has the same active time wherever it starts.
  lemma {:induction false} AnyWeek(s: Schedule, from: int)
    ensures ActiveTime(s, from, 7 * DAY) == ActiveTime(s, 0, 7 * DAY)
    decreases if from < 0 then -from else from
  {
    if from > 0 {
      NextWeekStart(s, from - 1);
      AnyWeek(s, from - 1);
    } else if from < 0 {
      NextWeekStart(s, from);
      AnyWeek(s, from + 1);
    }
  }

  lemma NextWeekStart(s: Schedule, from: int)
    ensures ActiveTime(s, from + 1, 7 * DAY) == ActiveTime(s, from, 7 * DAY)
  {
    hide IsActive, ActiveTime;
    ActiveTimeSplits(s, from, 1, 7 * DAY);
    ActiveTimeSplits(s, from, 7 * DAY, 1);
    Periodic(s, from);
    OneInstant(s, from);
    OneInstant(s, from + 7 * DAY);
  }

  lemma OneInstant(s: Schedule, t: int)
    ensures ActiveTime(s, t, 1) == Bit(IsActive(s, t))
  {
    hide IsActive;
    assert ActiveTime(s, t, 0) == 0;
  }

  // The number of listed days among the first n.
  function ListedBefore(days: set<int>, n: nat): nat {
    if n == 0 then 0 else ListedBefore(days, n - 1) + Bit(n - 1 in days)
  }

  lemma {:induction false} CountListed(days: set<int>, n: nat)
    requires forall d :: d in days ==> 0 <= d < n
    ensures ListedBefore(days, n) == |days|
  {
    if n == 0 {
      assert forall d :: d !in days;
      assert days == {};
    } else {
      SameListed(days, days - {n - 1}, n - 1);
      CountListed(days - {n - 1}, n - 1);
      if n - 1 in days { assert days == (days - {n - 1}) + {n - 1}; } else { assert days - {n - 1} == days; }
    }
  }

  lemma {:induction false} SameListed(a: set<int>, b: set<int>, n: nat)
    requires forall d :: 0 <= d < n ==> (d in a <==> d in b)
    ensures ListedBefore(a, n) == ListedBefore(b, n)
  {
    if n > 0 { SameListed(a, b, n - 1); }
  }

  // The first n days of a week: the days listed so far, less the window cut off at their end and
  // with the one reaching in from the Sunday before.
  lemma {:induction false} ActiveTimeOfDays(s: Schedule, n: nat)
    requires Valid(s) && s.start != s.end && n <= 7
    ensures !CrossesMidnight(s) ==> ActiveTime(s, 0, n * DAY) == ListedBefore(s.days, n) * Length(s)
    ensures CrossesMidnight(s) ==> ActiveTime(s, 0, n * DAY) + Bit((n - 1) % 7 in s.days) * s.end
                                   == ListedBefore(s.days, n) * Length(s) + Bit(6 in s.days) * s.end
  {
    hide IsActive, ActiveTime;
    if n == 0 {
      NoTime(s);
    } else {
      ActiveTimeOfDays(s, n - 1);
      ActiveTimeSplits(s, 0, (n - 1) * DAY, DAY);
      ActiveTimeOfDay(s, n - 1);
      Distribute(ListedBefore(s.days, n - 1), Bit(n - 1 in s.days), Length(s));
    }
  }

  lemma NoTime(s: Schedule)
    ensures ActiveTime(s, 0, 0) == 0
  {
  }

  lemma Distribute(a: int, b: int, x: int)
    ensures (a + b) * x == a * x + b * x
  {
  }

  // EXACT COVERAGE. In every week, wherever it starts, the schedule is active for exactly the
  // number of listed days times the window length.
  lemma WeeklyCoverage(s: Schedule, from: int)
    requires Valid(s) && s.start != s.end
    ensures ActiveTime(s, from, 7 * DAY) == |s.days| * Length(s)
  {
    hide IsActive, ActiveTime;
    AnyWeek(s, from);
    ActiveTimeOfDays(s, 7);
    CountListed(s.days, 7);
  }

  const WORKING_DAYS: set<int> := {0, 1, 2, 3, 4, 5}

  // Risk-engine input: Sunday, or outside 07:00-19:00.
  predicate IsOutsideBusinessHours(t: int) {
    Weekday(t) !in WORKING_DAYS || !(7 * HOUR <= TimeOfDay(t) < 19 * HOUR)
  }

  // Business hours are the 07:00-19:00 schedule of the working days: 72 hours of every week.
  lemma BusinessHoursAreASchedule(t: int, from: int)
    ensures var hours := Schedule(7 * HOUR, 19 * HOUR, WORKING_DAYS);
            && (IsOutsideBusinessHours(t) <==> !IsActive(hours, t))
            && ActiveTime(hours, from, 7 * DAY) == 72 * HOUR
  {
    hide ActiveTime;
    WeeklyCoverage(Schedule(7 * HOUR, 19 * HOUR, WORKING_DAYS), from);
    assert |WORKING_DAYS| == 6;
  }
}
