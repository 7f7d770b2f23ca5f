/** The decision `start` makes about the first run of a chat's countdown:
    today's 20:04:40 slot, and whether to queue a one-shot job for
    tomorrow's slot or a daily job from today's. */
module Scheduling {
  import opened Clock

  /** The daily fire time, 20:04:40, as an offset from midnight. */
  const FIRE_TIME: Instant := TimeOfDay(20, 4, 40)

  /** Instants whose wall-clock time is 20:04:40. */
  predicate IsSlot(t: Instant) {
    t % DAY == FIRE_TIME
  }

  /** Today's target: the fire time on `now`'s date. */
  function TodaySlot(now: Instant): (slot: Instant)
    ensures IsSlot(slot)
    ensures now - DAY < slot - FIRE_TIME <= now
  {
    Midnight(now) + FIRE_TIME
  }

  /** The last slot a `datetime` can hold: 9999-12-31 20:04:40. */
  const LAST_SLOT: Instant := (MAX_ORDINAL - 1) * DAY + FIRE_TIME

  /** What `start` queues: `run_once` with a delay, `run_daily` at a time
      of day, or nothing because adding a day to today's target left the
      range of `datetime` and raised `OverflowError`. */
  datatype Plan = RunOnce(delay: Instant) | RunDaily(timeOfDay: Instant) | DateOverflow

  /** The scheduling branch of `start` at `now`. The slot instant itself
      counts as already passed. */
  function PlanFirstRun(now: Instant): (p: Plan)
    requires InRange(now)
    ensures p.RunDaily? <==> now < TodaySlot(now)
    ensures p.DateOverflow? <==> now >= LAST_SLOT
    ensures p.RunOnce? ==> 0 < p.delay <= DAY && now + p.delay == TodaySlot(now) + DAY
    ensures p.RunDaily? ==> p.timeOfDay == FIRE_TIME
  {
    var todaySlot := TodaySlot(now);
    if now >= todaySlot then
      var nextDaySlot := todaySlot + DAY;
      if nextDaySlot > MAX_INSTANT then DateOverflow else RunOnce(nextDaySlot - now)
    else
      RunDaily(FIRE_TIME)
  }

  /** When the job `start` queues at `now` first runs. */
  function FirstRun(now: Instant): Instant
    requires InRange(now) && !PlanFirstRun(now).DateOverflow?
  {
    match PlanFirstRun(now)
    case RunOnce(delay) => now + delay
    case RunDaily(timeOfDay) => NextAtTimeOfDay(now, timeOfDay)
  }

  /** Whichever branch is taken, the first run is the earliest 20:04:40
      strictly after `now`: today's slot before it has come, tomorrow's from
      the slot instant on. */
  lemma FirstRunIsNextSlot(now: Instant)
    requires InRange(now) && !PlanFirstRun(now).DateOverflow?
    ensures var t := FirstRun(now);
      IsSlot(t) && now < t <= now + DAY &&
      (forall s :: IsSlot(s) && now < s ==> t <= s)
  {
    var t := FirstRun(now);
    forall s | IsSlot(s) && now < s
      ensures t <= s
    {
      SlotsAreDaysApart(t, s);
    }
  }

  /** Two slots differ by a whole number of days. */
  lemma SlotsAreDaysApart(t: Instant, s: Instant)
    requires IsSlot(t) && IsSlot(s)
    ensures (s - t) % DAY == 0
  {
    assert s - t == (s / DAY - t / DAY) * DAY;
  }

  /** Started before 20:04:40, the first run is today's slot. */
  lemma DailyRunsToday(now: Instant)
    requires InRange(now) && now < TodaySlot(now)
    ensures PlanFirstRun(now) == RunDaily(FIRE_TIME)
    ensures FirstRun(now) == TodaySlot(now)
  {
  }

  /** Started exactly at 20:04:40, the run is queued a full day ahead. */
  lemma SlotInstantWaitsADay(now: Instant)
    requires InRange(now) && IsSlot(now) && now < LAST_SLOT
    ensures PlanFirstRun(now) == RunOnce(DAY)
  {
  }

  /** The two situations of a start on 2027-03-01. */
  lemma StartsOnFirstOfMarch()
    ensures PlanFirstRun(DateTime(2027, 3, 1, 10, 0, 0)) == RunDaily(FIRE_TIME)
    ensures FirstRun(DateTime(2027, 3, 1, 10, 0, 0)) == DateTime(2027, 3, 1, 20, 4, 40)
    ensures PlanFirstRun(DateTime(2027, 3, 1, 21, 0, 0)) == RunOnce(DateTime(2027, 3, 2, 20, 4, 40) - DateTime(2027, 3, 1, 21, 0, 0))
  {
    assert Ordinal(2027, 3, 1) == 740041 && Ordinal(2027, 3, 2) == 740042;
    var morning, evening := DateTime(2027, 3, 1, 10, 0, 0), DateTime(2027, 3, 1, 21, 0, 0);
    var midnight := 740040 * DAY;
    assert morning == midnight + TimeOfDay(10, 0, 0) && Midnight(morning) == midnight;
    assert evening == midnight + TimeOfDay(21, 0, 0) && Midnight(evening) == midnight;
    assert DateTime(2027, 3, 1, 20, 4, 40) == midnight + FIRE_TIME;
    assert DateTime(2027, 3, 2, 20, 4, 40) == midnight + DAY + FIRE_TIME;
  }
}
