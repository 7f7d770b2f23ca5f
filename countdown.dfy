/** The countdown that every scheduled run sends (`send_message`): the
    number of whole days left until the event, and the message chosen from
    its sign. */
module Countdown {
  import opened Clock
  import opened Decimal

  datatype Option<+T> = None | Some(value: T)

  /** The event: midnight starting 2027-03-28. */
  const EVENT_DATE: Instant := DateTime(2027, 3, 28, 0, 0, 0)

  /** The days field of the duration from `now` to the event. A `timedelta` keeps it as the
      floor of the signed duration in whole days; it is not a difference of
      calendar dates. */
  function DaysLeft(now: Instant): (d: int)
    ensures d * DAY <= EVENT_DATE - now < (d + 1) * DAY
  {
    (EVENT_DATE - now) / DAY
  }

  const REMAINING_PREFIX: string := "До события осталось "
  const REMAINING_SUFFIX: string := " дней!"
  const TODAY_TEXT: string := "Сегодня событие!"
  const PASSED_TEXT: string := "Событие уже прошло!"

  /** The "days remain" message, with the count written as `str` writes it. */
  function RemainingText(days: int): (msg: string)
    ensures |msg| > |REMAINING_PREFIX| + |REMAINING_SUFFIX|
    ensures REMAINING_PREFIX <= msg && msg[|msg| - |REMAINING_SUFFIX|..] == REMAINING_SUFFIX
    ensures msg[0] == 'Д'
  {
    REMAINING_PREFIX + Show(days) + REMAINING_SUFFIX
  }

  /** Reads the day count back out of a "days remain" message; `None` for
      any other text. */
  function ReadRemaining(msg: string): Option<int> {
    var lo, hi := |REMAINING_PREFIX|, |msg| - |REMAINING_SUFFIX|;
    if lo <= hi && msg[..lo] == REMAINING_PREFIX && msg[hi..] == REMAINING_SUFFIX && IsNumeral(msg[lo..hi])
    then Some(Parse(msg[lo..hi]))
    else None
  }

  lemma ReadRemainingText(days: int)
    ensures ReadRemaining(RemainingText(days)) == Some(days)
  {
    var msg := RemainingText(days);
    var lo, hi := |REMAINING_PREFIX|, |msg| - |REMAINING_SUFFIX|;
    assert msg[..lo] == REMAINING_PREFIX;
    assert msg[hi..] == REMAINING_SUFFIX;
    assert msg[lo..hi] == Show(days);
  }

  /** The message `send_message` sends at `now`. */
  function CountdownMessage(now: Instant): (msg: string)
    ensures msg == RemainingText(DaysLeft(now)) || msg == TODAY_TEXT || msg == PASSED_TEXT
    ensures msg[0] == 'Д' <==> DaysLeft(now) > 0
  {
    var days := DaysLeft(now);
    if days > 0 then RemainingText(days)
    else if days == 0 then TODAY_TEXT
    else PASSED_TEXT
  }

  /** The three messages are told apart by the sign of `days_left`, and a
      "days remain" message carries `days_left` itself. */
  lemma CountdownMessageMeaning(now: Instant)
    ensures CountdownMessage(now) == TODAY_TEXT <==> DaysLeft(now) == 0
    ensures CountdownMessage(now) == PASSED_TEXT <==> DaysLeft(now) < 0
    ensures ReadRemaining(CountdownMessage(now)) == Some(DaysLeft(now)) <==> DaysLeft(now) > 0
  {
    var days := DaysLeft(now);
    assert TODAY_TEXT[0] == 'С' && PASSED_TEXT[0] == 'С' && TODAY_TEXT != PASSED_TEXT;
    assert ReadRemaining(TODAY_TEXT) == None;
    assert ReadRemaining(PASSED_TEXT) == None;
    if days > 0 {
      ReadRemainingText(days);
    }
  }

  /** "Today is the event" holds exactly while `now` lies within the day
      that ends at `EVENT_DATE`. */
  lemma DaysLeftZeroIff(now: Instant)
    ensures DaysLeft(now) == 0 <==> EVENT_DATE - DAY < now <= EVENT_DATE
  {
  }

  /** The event has passed from the first microsecond after `EVENT_DATE`. */
  lemma DaysLeftNegativeIff(now: Instant)
    ensures DaysLeft(now) < 0 <==> now > EVENT_DATE
  {
  }

  /** Moving `now` back by whole days adds exactly that many days. */
  lemma {:induction false} DaysLeftShift(now: Instant, k: int)
    ensures DaysLeft(now - k * DAY) == DaysLeft(now) + k
  {
    var d := DaysLeft(now);
    assert (d + k) * DAY <= EVENT_DATE - (now - k * DAY) < (d + k + 1) * DAY;
    FloorUnique(EVENT_DATE - (now - k * DAY), d + k);
  }

  lemma FloorUnique(x: int, q: int)
    requires q * DAY <= x < (q + 1) * DAY
    ensures x / DAY == q
  {
  }

  /** At the event's midnight, five days before it and one day after it. */
  lemma DayCountAtWholeDays()
    ensures DaysLeft(EVENT_DATE - 5 * DAY) == 5 && CountdownMessage(EVENT_DATE - 5 * DAY) == RemainingText(5)
    ensures DaysLeft(EVENT_DATE) == 0 && CountdownMessage(EVENT_DATE) == TODAY_TEXT
    ensures DaysLeft(EVENT_DATE + DAY) == -1 && CountdownMessage(EVENT_DATE + DAY) == PASSED_TEXT
  {
    DaysLeftShift(EVENT_DATE, 5);
    DaysLeftShift(EVENT_DATE, -1);
  }

  /** At 2027-03-01 20:04:40, 26 days 3:55:20 remain, so 26 is sent (not
      the 27 a difference of calendar dates would give); the afternoon of
      2027-03-27 is already "today", and 2027-03-28 00:00:00.000001 has
      passed. */
  lemma DayCountNearEvent()
    ensures DaysLeft(DateTime(2027, 3, 1, 20, 4, 40)) == 26
    ensures CountdownMessage(DateTime(2027, 3, 27, 15, 0, 0)) == TODAY_TEXT
    ensures CountdownMessage(EVENT_DATE + 1) == PASSED_TEXT
  {
    assert Ordinal(2027, 3, 28) == 740068 && Ordinal(2027, 3, 1) == 740041 && Ordinal(2027, 3, 27) == 740067;
    var firstOfMarch := DateTime(2027, 3, 1, 20, 4, 40);
    assert EVENT_DATE - firstOfMarch == 27 * DAY - TimeOfDay(20, 4, 40);
    FloorUnique(EVENT_DATE - firstOfMarch, 26);
    var afternoon := DateTime(2027, 3, 27, 15, 0, 0);
    assert EVENT_DATE - afternoon == DAY - TimeOfDay(15, 0, 0);
    FloorUnique(EVENT_DATE - afternoon, 0);
    FloorUnique(-1, -1);
  }
}
