# Countdown bot: scheduling core

A Telegram bot (`main.py`) sends each subscribed chat, every day at 20:04:40,
the number of days left until 2027-03-28. This project models in Dafny the
three pieces of logic inside its Telegram glue, and proves properties about them:

- **The countdown** (`send_message`): `days_left = (EVENT_DATE - now).days`
  and the message chosen from its sign.
- **The first-run decision** (`start`): today's 20:04:40 slot, and the choice
  between a one-shot job for tomorrow's slot (from the slot instant on) and a
  daily job (before it).
- **The per-chat job registry** (`remove_job_if_exists`, `start`, `stop`):
  jobs named `str(chat_id)` in the queue, and the replies that depend on
  whether a job was removed.

Time is a whole number of microseconds since 0001-01-01 00:00:00, the epoch
of Python's naive `datetime`. Every midnight is then a multiple of a day.
`timedelta.days` is the floor of a signed duration in whole days. Dafny's `/`
on `int` is Euclidean, which is the floor for a positive divisor.

Modules, one per component, leaves first:

- `Decimal` (`decimal.dfy`): `str` on integers. Its parse inverse shows that
  distinct chats get distinct job names.
- `Clock` (`clock.dfy`): calendar ordinals, `datetime(...)`, `time(...)`,
  midnight of a date, the range of `datetime`.
- `Countdown` (`countdown.dfy`): `EVENT_DATE`, `days_left`, the three messages.
- `Scheduling` (`scheduling.dfy`): the slot and the `run_once`/`run_daily`
  branch of `start`.
- `Jobs` (`jobs.dfy`): the job queue as a class whose `jobs: seq<Job>` its
  methods update. A removed job stays in the list with `live` cleared.
- `Bot` (`bot.dfy`): `remove_job_if_exists`, `start` and `stop` as methods
  on the queue, with the functions and lemmas that specify them.

Boundary behaviour of the code:

- The count is a floored duration, not a difference of calendar dates.
  A run at 2027-03-01 20:04:40 sends 26, not 27. "Сегодня событие!" is sent
  from 2027-03-27 00:00:00.000001 through 2027-03-28 00:00:00. After that,
  "Событие уже прошло!" is sent (`DayCountNearEvent`, `DaysLeftZeroIff`).
- A start at or after 20:04:40 queues a one-shot job. Nothing re-arms the
  one-shot job: the chat gets one message the next evening and then none
  (`LateStartRunsOnce`). A start before 20:04:40 queues a daily job, which
  stays scheduled after each run (`EarlyStartRunsDaily`).
- `today_target_time + timedelta(days=1)` raises `OverflowError` on
  9999-12-31 from 20:04:40 on. By then the chat's old job has already been
  removed. `Start` returns `None` there and leaves the chat with no job
  (`OverflowedStartLeavesNone`).

## Model

| member | source | states |
|---|---|---|
| `Decimal.Show` | main.py:43 | `str(chat_id)` is a numeral that parses back to `chat_id`, with a minus sign exactly for negative ids |
| `Decimal.ShowInjective` | main.py:43 | two chat ids give the same job name only when they are equal |
| `Decimal.NatDigits` | main.py:27 | the digits of a natural number are non-empty and start with `0` only for zero |
| `Clock.DateTime` | main.py:17 | `datetime(y, m, d, h, mi, s)` lies on day `ordinal - 1` at the given time of day |
| `Clock.TimeOfDay` | main.py:46 | `time(h, m, s)` is a whole-second offset within one day whose hour, minute and second read back as `h`, `m` and `s`, so the fire time is 20:04:40 |
| `Clock.Midnight` | main.py:48 | `now.date()` at midnight is the multiple of a day that starts `now`'s day |
| `Clock.NextAtTimeOfDay` | main.py:57 | a daily job's first run is at its time of day, at or after `now` and within one day of it |
| `Clock.MaxOrdinalIsLastDate` | main.py:52 | the range bound used for overflow is `datetime.max`, 9999-12-31 23:59:59.999999 |
| `Countdown.DaysLeft` | main.py:24 | `days_left` is the floor of `EVENT_DATE - now` in whole days |
| `Countdown.RemainingText` | main.py:27 | the "days remain" message starts with "До события осталось ", ends with " дней!", has text between them and starts with 'Д' |
| `Countdown.CountdownMessage` | main.py:26-31 | the message is one of the three texts, the "days remain" one carrying `days_left`; it is the "days remain" text exactly when `days_left > 0` |
| `Countdown.ReadRemainingText` | main.py:27 | the number in "До события осталось N дней!" reads back as N |
| `Countdown.CountdownMessageMeaning` | main.py:24-31 | "Сегодня событие!" is sent iff `days_left == 0`, "Событие уже прошло!" iff `days_left < 0`, and a message carrying `days_left` iff `days_left > 0` |
| `Countdown.DaysLeftZeroIff` | main.py:24-29 | `days_left == 0` exactly when `EVENT_DATE - 1 day < now <= EVENT_DATE` |
| `Countdown.DaysLeftNegativeIff` | main.py:24-31 | `days_left < 0` exactly when `now > EVENT_DATE` |
| `Countdown.DaysLeftShift` | main.py:24 | moving `now` back by k whole days adds exactly k to `days_left` |
| `Countdown.DayCountAtWholeDays` | main.py:24-31 | five days before the event gives 5 with "days remain", the event instant gives 0 with "today", a day after gives -1 with "passed" |
| `Countdown.DayCountNearEvent` | main.py:17-31 | 2027-03-01 20:04:40 gives 26; 2027-03-27 15:00 gives "today"; one microsecond after the event gives "passed" |
| `Scheduling.TodaySlot` | main.py:46-48 | today's target is the 20:04:40 instant of `now`'s date |
| `Scheduling.PlanFirstRun` | main.py:48-57 | `run_daily` iff `now` is before today's slot; overflow iff `now` is at or after the last slot `datetime` can hold; otherwise a one-shot delay in (0, 1 day] that ends at tomorrow's slot |
| `Scheduling.FirstRunIsNextSlot` | main.py:48-57 | in both branches the first run is the earliest 20:04:40 strictly after `now`, at most one day ahead |
| `Scheduling.DailyRunsToday` | main.py:55-57 | before 20:04:40 the job is daily at 20:04:40 and first runs at today's slot |
| `Scheduling.SlotInstantWaitsADay` | main.py:50-53 | a start exactly at 20:04:40 queues a one-shot job with a delay of a full day |
| `Scheduling.StartsOnFirstOfMarch` | main.py:46-57 | a start at 2027-03-01 10:00 runs daily from 20:04:40 that day; one at 21:00 runs once at 2027-03-02 20:04:40 |
| `Jobs.RemoveNamed` | main.py:103-104 | removing a name clears `live` on every job of that name and leaves every other job and the length as they were |
| `Jobs.AfterRun` | main.py:53-57 | after a run a job keeps its name, chat and trigger; it stays scheduled exactly when it is daily, and a daily job is next due one day later |
| `Jobs.HasLiveIffCount` | main.py:100-101 | `get_jobs_by_name` is non-empty exactly when the count of scheduled jobs of that name is positive |
| `Jobs.LiveCountAppend` | main.py:53 | queuing one job raises its name's count by one and no other count |
| `Jobs.LiveCountRemoveNamed` | main.py:103-104 | after removal no job of that name is scheduled, and other names' counts are unchanged |
| `Jobs.RunNeverAddsLive` | main.py:20-31 | a run never adds a scheduled job, and a one-shot job's run ends it |
| `Jobs.JobQueue.GetJobsByName` | main.py:100 | returns, in queue order and without repeats, exactly the positions of the scheduled jobs with that name |
| `Jobs.JobQueue.ScheduleRemoval` | main.py:104 | the job at that position is no longer scheduled; nothing else changes |
| `Jobs.JobQueue.RunOnce` | main.py:53 | appends one scheduled one-shot job that runs `delay` after `now` |
| `Jobs.JobQueue.RunDaily` | main.py:57 | appends one scheduled daily job whose first run is the next instant at its time of day |
| `Jobs.JobQueue.Run` | main.py:20-38 | running a due job sends its chat the countdown for the clock reading `now`, taken at or after the due instant; a one-shot job ends, a daily one moves on a day; delivery does not change the queue; the one-job-per-name invariant is kept |
| `Bot.StartReply` | main.py:60-62 | the `/start` reply starts with the base text; it is the base text alone when no job was removed, and the base text followed by " Старая задача была удалена." when one was |
| `Bot.StopReply` | main.py:77 | the `/stop` reply is "Рассылка остановлена." exactly when a job was removed, else "Рассылка не запущена." |
| `Bot.JobName` | main.py:43 | a chat's job name is its id as a numeral that parses back to the id |
| `Bot.PlannedJobs` | main.py:50-57 | `start` queues exactly one scheduled job named `str(chat_id)` for the chat, first running at the plan's first run, unless the date arithmetic overflowed, when it queues none; the job is daily at 20:04:40 exactly when `now` is before today's slot, and one-shot exactly when it is not |
| `Bot.StartQueue` | main.py:43-57 | the queue after `start` keeps every old job in place, with the chat's jobs removed, and then holds exactly `PlannedJobs(chatId, now)` after them |
| `Bot.LiveCountAfterStart` | main.py:43-57 | after a start, the chat's name has as many scheduled jobs as were queued, and every other name keeps its count |
| `Bot.RemoveJobIfExists` | main.py:99-106 | returns whether a scheduled job had that name; every such job is removed and all others untouched; with none, the queue is unchanged |
| `Bot.Start` | main.py:41-62 | removes the chat's jobs, then queues the planned job; replies with the removal note as appropriate, or raises on overflow; keeps one job per name |
| `Bot.Stop` | main.py:74-77 | removes the chat's jobs and replies whether one was running; keeps one job per name |
| `Bot.StartLeavesOneLive` | main.py:43-57 | after a start, exactly one job named `str(chat_id)` is scheduled, whatever existed before; it runs first at the plan's first run |
| `Bot.OverflowedStartLeavesNone` | main.py:43-53 | a start that overflows leaves the chat with no scheduled job |
| `Bot.StartLeavesOtherChats` | main.py:43-57 | a start for one chat changes no job of any other chat |
| `Bot.StartKeepsAtMostOneLive` | main.py:43-57 | a start preserves "at most one scheduled job per name" |
| `Bot.StopKeepsAtMostOneLive` | main.py:76 | a stop preserves "at most one scheduled job per name" |
| `Bot.RestartAndStopAfterStart` | main.py:43-62 | a second start reports the old job removed; a stop right after a start reports "stopped" and leaves nothing scheduled |
| `Bot.StopIsIdempotent` | main.py:76-77 | a second stop changes nothing, finds no job and replies "Рассылка не запущена." |
| `Bot.LateStartRunsOnce` | main.py:50-53 | a start at or after today's slot queues a one-shot job for tomorrow's slot; after it has run, the chat has no scheduled job |
| `Bot.EarlyStartRunsDaily` | main.py:55-57 | a start before today's slot queues a daily 20:04:40 job due at today's slot; after it has run it is still scheduled, due a day later, and is still the chat's only job |
| `Bot.StartStopSession` | main.py:41-77 | on a fresh queue, start, start, stop, stop reply "started", "started, old job removed", "stopped", "not running" |

## Left out

- Telegram I/O is not modelled. This covers `context.bot.send_message`, `reply_text` and the inline keyboard (main.py:35, 65-71, 80-86). The handlers return the reply text instead of sending it.
- The `button` callback router (main.py:89-96) is UI dispatch only.
- `main`, `ApplicationBuilder`, `run_polling` and the token read from the environment (main.py:14, 108-123) are process bootstrapping.
- Logging is not modelled. A failed delivery is logged and swallowed (main.py:34-38). In `Jobs.JobQueue.Run` the queue's new state does not depend on delivery.
- `datetime.now()` is a parameter `now`. In `Jobs.JobQueue.Run` it is the clock reading inside `send_message`, at or after the job's due instant. `start` reads the clock after removing the old job. The model uses the same `now` for the whole handler, and `run_once`'s own clock reading is taken to be that same `now`.
- Timezones and DST are not modelled. Every instant is naive local time. `Jobs.JobQueue.RunDaily` takes the job queue's time zone to be the local clock. The library's rounding of a daily job's start to whole seconds is not modelled; it never changes the first run here, because 20:04:40 is a whole second.
- Python-telegram-bot's `JobQueue` and APScheduler are reduced to the abstract operations of `Jobs.JobQueue`. Their timers, background execution and the concurrency between a running job and a handler are not modelled. `Jobs.JobQueue.Run` is the queue running one due job, atomically.
