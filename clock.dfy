/** Naive local date-times as Python's `datetime` represents them, counted as
    whole microseconds since 0001-01-01 00:00:00 (`datetime.min`). Every
    midnight is then a multiple of `DAY`, and "midnight of now's date" is
    `now - now % DAY`. */
module Clock {

  /** A naive `datetime`, or the signed length of a `timedelta`, in microseconds. */
  type Instant = int

  const SECOND: int := 1_000_000
  const DAY: int := 86_400 * SECOND

  /** Proleptic Gregorian leap years, as the `calendar` module defines them. */
  predicate IsLeap(year: int) {
    year % 4 == 0 && (year % 100 != 0 || year % 400 == 0)
  }

  function DaysInMonth(year: int, month: int): (n: int)
    requires 1 <= month <= 12
    ensures 28 <= n <= 31
  {
    if month == 2 then (if IsLeap(year) then 29 else 28)
    else if month in {4, 6, 9, 11} then 30
    else 31
  }

  /** Days in the years before `year`, counting from year 1. */
  function DaysBeforeYear(year: int): (n: int)
    requires year >= 1
    ensures n >= 0
  {
    var y := year - 1;
    y * 365 + y / 4 - y / 100 + y / 400
  }

  /** Days in the months of `year` before `month`. */
  function DaysBeforeMonth(year: int, month: int): (n: int)
    requires 1 <= month <= 12
    ensures n >= 0
  {
    var before := [0, 31, 59, 90, 120, 151, 181, 212, 243, 273, 304, 334][month - 1];
    before + (if month > 2 && IsLeap(year) then 1 else 0)
  }

  /** The proleptic Gregorian ordinal of a date; 0001-01-01 is day 1. */
  function Ordinal(year: int, month: int, day: int): (n: int)
    requires 1 <= year && 1 <= month <= 12 && 1 <= day <= DaysInMonth(year, month)
    ensures n >= 1
  {
    DaysBeforeYear(year) + DaysBeforeMonth(year, month) + day
  }

  /** The offset of a wall-clock `time(hour, minute, second)` from midnight. */
  function TimeOfDay(hour: int, minute: int, second: int): (t: Instant)
    requires 0 <= hour < 24 && 0 <= minute < 60 && 0 <= second < 60
    ensures 0 <= t < DAY && t % SECOND == 0
    ensures t / SECOND / 3600 == hour && t / SECOND / 60 % 60 == minute && t / SECOND % 60 == second
  {
    ((hour * 60 + minute) * 60 + second) * SECOND
  }

  /** `datetime(year, month, day, hour, minute, second)`: midnight of the
      date plus the time of day. */
  function DateTime(year: int, month: int, day: int, hour: int, minute: int, second: int): (t: Instant)
    requires 1 <= year && 1 <= month <= 12 && 1 <= day <= DaysInMonth(year, month)
    requires 0 <= hour < 24 && 0 <= minute < 60 && 0 <= second < 60
    ensures t >= 0
    ensures t / DAY == Ordinal(year, month, day) - 1
    ensures t % DAY == TimeOfDay(hour, minute, second)
  {
    (Ordinal(year, month, day) - 1) * DAY + TimeOfDay(hour, minute, second)
  }

  /** The ordinal of 9999-12-31, the last date a `datetime` can hold. */
  const MAX_ORDINAL: int := 3_652_059

  /** `datetime.max`, 9999-12-31 23:59:59.999999. */
  const MAX_INSTANT: Instant := MAX_ORDINAL * DAY - 1

  /** The instants a `datetime` can represent; `datetime.now()` is one of them. */
  predicate InRange(t: Instant) {
    0 <= t <= MAX_INSTANT
  }

  /** `datetime.combine(t.date(), time())`: the midnight that starts `t`'s day. */
  function Midnight(t: Instant): (m: Instant)
    ensures m % DAY == 0
    ensures m <= t < m + DAY
  {
    t - t % DAY
  }

  /** The first instant at or after `now` whose time of day is `timeOfDay`;
      this is when a daily job created at `now` first runs. */
  function NextAtTimeOfDay(now: Instant, timeOfDay: Instant): (t: Instant)
    requires 0 <= timeOfDay < DAY
    ensures t % DAY == timeOfDay
    ensures now <= t < now + DAY
  {
    if now % DAY <= timeOfDay then Midnight(now) + timeOfDay else Midnight(now) + DAY + timeOfDay
  }

  lemma MaxOrdinalIsLastDate()
    ensures Ordinal(9999, 12, 31) == MAX_ORDINAL
    ensures DateTime(9999, 12, 31, 23, 59, 59) + SECOND - 1 == MAX_INSTANT
  {
  }
}
