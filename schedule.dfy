/** The scheduling rules around the push, identical in both ingesters: the
    backfill date sequence, the 00:05 UTC trigger and the daily "yesterday".

    Time is the microsecond count since 1970-01-01 00:00 UTC, the resolution of
    Python's `datetime`. Every reading of the clock is an input: one per loop
    iteration. Sleeping is not modelled; the readings after a sleep are inputs
    like the others. */
module Schedule {
  import opened Base
  import opened Wire
  import opened Calendar

  /** A reading of the clock: an instant of a representable `datetime`. */
  predicate ValidInstant(t: int)
  {
    MinDay * MicrosPerDay <= t < (MaxDay + 1) * MicrosPerDay
  }

  lemma DayOfBounds(t: int)
    requires ValidInstant(t)
    ensures MinDay <= DayOf(t) <= MaxDay
  {
  }

  lemma DayOfMonotone(t1: int, t2: int)
    requires t1 <= t2
    ensures DayOf(t1) <= DayOf(t2)
  {
  }

  /** `(now - timedelta(days=i))` as a date: the day `i` days before the day of
      the reading, or an `OverflowError` before 0001-01-01. */
  function DaysBefore(t: int, i: nat): (r: Result<Date, PyError>)
    requires ValidInstant(t)
    ensures r.Ok? <==> DayOf(t) - i >= MinDay
    ensures r.Ok? ==> ValidDate(r.value) && DaysFromCivil(r.value) == DayOf(t) - i
    ensures r.Err? ==> r.error == DateOverflow
  {
    DayOfBounds(t);
    if DayOf(t) - i < MinDay then Err(DateOverflow) else Ok(CivilFromDays(DayOf(t) - i))
  }

  /** The dates a backfill run pushed, each as its day number (days since
      1970-01-01, which `CivilFromDays` turns back into the date), and the
      exception that ended the run early, if any. */
  datatype Run = Run(pushed: seq<int>, raised: Option<PyError>)

  function Prepend(days: seq<int>, r: Run): Run
  {
    Run(days + r.pushed, r.raised)
  }

  lemma PrependPrepend(a: seq<int>, b: seq<int>, r: Run)
    ensures Prepend(a, Prepend(b, r)) == Prepend(a + b, r)
  {
    assert a + (b + r.pushed) == (a + b) + r.pushed;
  }

  predicate ValidClock(clock: seq<int>)
  {
    forall k :: 0 <= k < |clock| ==> ValidInstant(clock[k])
  }

  /** `backfill(days)`: for i = days down to 1, the day i days before the clock
      reading of that iteration. The date is computed outside any `try`, so an
      overflow ends the loop and propagates. */
  function Backfilled(days: nat, clock: seq<int>): (run: Run)
    requires |clock| == days
    ensures |run.pushed| <= days
    decreases days
  {
    if days == 0 then Run([], None)
    else if DayOf(clock[0]) - days < MinDay then Run([], Some(DateOverflow))
    else Prepend([DayOf(clock[0]) - days], Backfilled(days - 1, clock[1..]))
  }

  /** One step of `Backfilled`: the first day, then the others. */
  lemma BackfilledUnfold(days: nat, clock: seq<int>)
    requires |clock| == days > 0
    ensures DayOf(clock[0]) - days < MinDay ==> Backfilled(days, clock) == Run([], Some(DateOverflow))
    ensures DayOf(clock[0]) - days >= MinDay ==>
      Backfilled(days, clock) == Prepend([DayOf(clock[0]) - days], Backfilled(days - 1, clock[1..]))
  {
  }

  /** The backfill loop, pushing the date of each iteration. What each push did
      is not part of its result: the multi-canister ingester catches push
      exceptions inside the loop and the single-canister one has none to
      catch. */
  method Backfill(days: nat, clock: seq<int>) returns (run: Run)
    requires |clock| == days
    ensures run == Backfilled(days, clock)
  {
    var pushed: seq<int> := [];
    var i := days;
    assert clock[days - i..] == clock;
    while i > 0
      invariant 0 <= i <= days
      invariant Backfilled(days, clock) == Prepend(pushed, Backfilled(i, clock[days - i..]))
    {
      var k := days - i;
      assert clock[k..][0] == clock[k] && clock[k..][1..] == clock[k + 1..];
      BackfilledUnfold(i, clock[k..]);
      var day := DayOf(clock[k]) - i;
      if day < MinDay {
        return Run(pushed, Some(DateOverflow));
      }
      PrependPrepend(pushed, [day], Backfilled(i - 1, clock[k + 1..]));
      pushed := pushed + [day];
      i := i - 1;
    }
    assert pushed + [] == pushed;
    return Run(pushed, None);
  }

  /** The k-th pushed day is `days - k` days before the day of the k-th
      reading. */
  lemma {:induction false} BackfilledDayAt(days: nat, clock: seq<int>, k: nat)
    requires |clock| == days
    requires k < |Backfilled(days, clock).pushed|
    ensures Backfilled(days, clock).pushed[k] == DayOf(clock[k]) - (days - k) >= MinDay
  {
    if k > 0 {
      BackfilledDayAt(days - 1, clock[1..], k - 1);
      assert clock[1..][k - 1] == clock[k];
    }
  }

  /** The loop reaches every day unless the first day it cannot compute raises
      an overflow. */
  lemma {:induction false} BackfilledRaised(days: nat, clock: seq<int>)
    requires |clock| == days
    ensures var run := Backfilled(days, clock);
      (run.raised.None? <==> |run.pushed| == days)
      && (run.raised.Some? ==>
            run.raised.value == DateOverflow && DayOf(clock[|run.pushed|]) - (days - |run.pushed|) < MinDay)
  {
    if days > 0 && DayOf(clock[0]) - days >= MinDay {
      var rest := Backfilled(days - 1, clock[1..]);
      BackfilledRaised(days - 1, clock[1..]);
      if rest.raised.Some? {
        assert clock[1..][|rest.pushed|] == clock[|rest.pushed| + 1];
      }
    }
  }

  /** Each pushed day is the date `timedelta` arithmetic gives for its
      iteration, and the run stops exactly where that arithmetic overflows. */
  lemma BackfilledDates(days: nat, clock: seq<int>)
    requires |clock| == days && ValidClock(clock)
    ensures var run := Backfilled(days, clock);
      (forall k :: 0 <= k < |run.pushed| ==>
        DaysBefore(clock[k], days - k).Ok? && DaysFromCivil(DaysBefore(clock[k], days - k).value) == run.pushed[k])
      && (run.raised.None? <==> |run.pushed| == days)
      && (run.raised.Some? ==>
            |run.pushed| < days && DaysBefore(clock[|run.pushed|], days - |run.pushed|) == Err(DateOverflow))
  {
    var run := Backfilled(days, clock);
    forall k | 0 <= k < |run.pushed|
      ensures DaysBefore(clock[k], days - k).Ok? && DaysFromCivil(DaysBefore(clock[k], days - k).value) == run.pushed[k]
    {
      BackfilledDateAt(days, clock, k);
    }
    BackfilledRaised(days, clock);
  }

  lemma BackfilledDateAt(days: nat, clock: seq<int>, k: nat)
    requires |clock| == days && ValidClock(clock)
    requires k < |Backfilled(days, clock).pushed|
    ensures DaysBefore(clock[k], days - k).Ok?
    ensures DaysFromCivil(DaysBefore(clock[k], days - k).value) == Backfilled(days, clock).pushed[k]
  {
    BackfilledDayAt(days, clock, k);
  }

  /** With a clock that does not run backwards, the pushed days are strictly
      increasing: oldest first, none twice. */
  lemma BackfillOldestFirst(days: nat, clock: seq<int>)
    requires |clock| == days
    requires forall j, k :: 0 <= j <= k < days ==> clock[j] <= clock[k]
    ensures var pushed := Backfilled(days, clock).pushed;
      forall j, k :: 0 <= j < k < |pushed| ==> pushed[j] < pushed[k]
  {
    var pushed := Backfilled(days, clock).pushed;
    forall j, k | 0 <= j < k < |pushed|
      ensures pushed[j] < pushed[k]
    {
      BackfilledDayAt(days, clock, j);
      BackfilledDayAt(days, clock, k);
      DayOfMonotone(clock[j], clock[k]);
    }
  }

  /** When every reading falls on day `today` and the first date does not
      overflow, the backfill pushes exactly the `days` days before `today`, in
      order. */
  lemma BackfillWithinOneDay(days: nat, clock: seq<int>, today: int)
    requires |clock| == days
    requires forall k :: 0 <= k < days ==> DayOf(clock[k]) == today
    requires today - days >= MinDay
    ensures var run := Backfilled(days, clock);
      run.raised.None? && |run.pushed| == days
      && forall k :: 0 <= k < days ==> run.pushed[k] == today - days + k
  {
    BackfilledRaised(days, clock);
    var run := Backfilled(days, clock);
    forall k | 0 <= k < days
      ensures run.pushed[k] == today - days + k
    {
      BackfilledDayAt(days, clock, k);
    }
  }

  /** `wait_until_next_run` up to its sleep: the next 00:05 UTC after the
      reading, or the `OverflowError` that `next_run += timedelta(days=1)`
      raises when the reading is at or after 00:05 on 9999-12-31. */
  function WaitUntilNextRun(now: int): (r: Result<int, PyError>)
    requires ValidInstant(now)
    ensures r.Err? <==> DayOf(now) == MaxDay && now % MicrosPerDay >= RunOffsetMicros
    ensures r.Ok? ==> r.value == NextRun(now) && ValidInstant(r.value)
    ensures r.Err? ==> r.error == DateOverflow
  {
    var next := NextRun(now);
    if DayOf(next) > MaxDay then Err(DateOverflow) else Ok(next)
  }

  /** One pass of the daily loop: the reading `wait_until_next_run` takes, and
      the reading taken after the sleep to compute yesterday's date. */
  datatype Wake = Wake(before: int, after: int)

  predicate ValidWakes(wakes: seq<Wake>)
  {
    forall k :: 0 <= k < |wakes| ==> ValidInstant(wakes[k].before) && ValidInstant(wakes[k].after)
  }

  /** `run_daily_scheduler`, one pass per wake until the inputs run out: the
      trigger instant waited for and the date pushed. An exception (the trigger
      or the date overflowing, or the push raising) is caught and the loop goes
      on; a pass whose wait raised pushes nothing. */
  method RunDailyScheduler(wakes: seq<Wake>)
      returns (triggers: seq<Result<int, PyError>>, pushed: seq<Result<Date, PyError>>)
    requires ValidWakes(wakes)
    ensures |triggers| == |wakes| && |pushed| == |wakes|
    ensures forall k :: 0 <= k < |wakes| ==> triggers[k] == WaitUntilNextRun(wakes[k].before)
    ensures forall k :: 0 <= k < |wakes| ==>
      pushed[k] == if triggers[k].Err? then Err(triggers[k].error) else DaysBefore(wakes[k].after, 1)
  {
    triggers := [];
    pushed := [];
    var k := 0;
    while k < |wakes|
      invariant 0 <= k <= |wakes|
      invariant |triggers| == k && |pushed| == k
      invariant forall j :: 0 <= j < k ==> triggers[j] == WaitUntilNextRun(wakes[j].before)
      invariant forall j :: 0 <= j < k ==>
        pushed[j] == if triggers[j].Err? then Err(triggers[j].error) else DaysBefore(wakes[j].after, 1)
    {
      var next := WaitUntilNextRun(wakes[k].before);
      triggers := triggers + [next];
      if next.Err? {
        pushed := pushed + [Err(next.error)];
      } else {
        pushed := pushed + [DaysBefore(wakes[k].after, 1)];
      }
      k := k + 1;
    }
  }

  /** From 00:05 on the last representable day every pass raises before it
      sleeps, so the loop never pushes again: it retries every minute. */
  lemma LastDayNeverPushes(wakes: seq<Wake>, triggers: seq<Result<int, PyError>>, pushed: seq<Result<Date, PyError>>)
    requires ValidWakes(wakes)
    requires |triggers| == |wakes| && |pushed| == |wakes|
    requires forall k :: 0 <= k < |wakes| ==> triggers[k] == WaitUntilNextRun(wakes[k].before)
    requires forall k :: 0 <= k < |wakes| ==>
      pushed[k] == if triggers[k].Err? then Err(triggers[k].error) else DaysBefore(wakes[k].after, 1)
    requires forall k :: 0 <= k < |wakes| ==>
      DayOf(wakes[k].before) == MaxDay && wakes[k].before % MicrosPerDay >= RunOffsetMicros
    ensures forall k :: 0 <= k < |wakes| ==> pushed[k] == Err(DateOverflow)
  {
  }

  /** The wait is strictly positive and at most one day, and the trigger falls
      on the day of the reading or the next one. */
  lemma NextRunDay(now: int)
    ensures 0 < NextRun(now) - now <= MicrosPerDay
    ensures DayOf(NextRun(now)) == DayOf(now) || DayOf(NextRun(now)) == DayOf(now) + 1
    ensures NextRun(now) % MicrosPerDay == RunOffsetMicros
  {
  }

  /** A wake on time, later on the day of its trigger, pushes the day before the
      trigger. */
  lemma YesterdayOfTrigger(w: Wake)
    requires ValidInstant(w.before) && ValidInstant(w.after)
    requires NextRun(w.before) <= w.after && DayOf(w.after) == DayOf(NextRun(w.before))
    requires DayOf(w.after) - 1 >= MinDay
    ensures DaysBefore(w.after, 1).Ok?
    ensures DaysFromCivil(DaysBefore(w.after, 1).value) == DayOf(NextRun(w.before)) - 1
  {
  }

  /** Two on-time passes, the second starting after the first woke, push
      strictly later days. */
  lemma ScheduledDaysIncrease(w1: Wake, w2: Wake)
    requires ValidInstant(w1.before) && ValidInstant(w1.after)
    requires ValidInstant(w2.before) && ValidInstant(w2.after)
    requires NextRun(w1.before) <= w1.after && DayOf(w1.after) == DayOf(NextRun(w1.before))
    requires NextRun(w2.before) <= w2.after && DayOf(w2.after) == DayOf(NextRun(w2.before))
    requires w1.after <= w2.before
    ensures DayOf(w1.after) - 1 < DayOf(w2.after) - 1
  {
    var n1 := NextRun(w1.before);
    var n2 := NextRun(w2.before);
    assert n1 < n2;
    assert n1 % MicrosPerDay == RunOffsetMicros && n2 % MicrosPerDay == RunOffsetMicros;
    assert DayOf(n1) * MicrosPerDay + RunOffsetMicros == n1;
    assert DayOf(n2) * MicrosPerDay + RunOffsetMicros == n2;
  }
}
