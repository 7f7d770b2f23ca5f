/** The `/start` and `/stop` handlers and `remove_job_if_exists`: every chat
    has at most one scheduled countdown job, named `str(chat_id)`; starting
    replaces it, stopping removes it, and the replies say which happened. */
module Bot {
  import opened Clock
  import opened Decimal
  import opened Countdown
  import opened Scheduling
  import opened Jobs

  const START_TEXT: string := "Рассылка запущена! Каждый день в 20:04:40 я буду сообщать о количестве дней до события."
  const REPLACED_NOTE: string := " Старая задача была удалена."
  const STOPPED_TEXT: string := "Рассылка остановлена."
  const NOT_RUNNING_TEXT: string := "Рассылка не запущена."

  /** The reply to `/start`: the note about the old job is appended exactly
      when one was removed. */
  function StartReply(jobRemoved: bool): (text: string)
    ensures START_TEXT <= text
    ensures text == START_TEXT <==> !jobRemoved
    ensures jobRemoved ==> text == START_TEXT + REPLACED_NOTE
  {
    if jobRemoved then START_TEXT + REPLACED_NOTE else START_TEXT
  }

  /** The reply to `/stop`. */
  function StopReply(jobRemoved: bool): (text: string)
    ensures text == STOPPED_TEXT || text == NOT_RUNNING_TEXT
    ensures text == STOPPED_TEXT <==> jobRemoved
  {
    if jobRemoved then STOPPED_TEXT else NOT_RUNNING_TEXT
  }

  /** The name a chat's job is registered under: `str(chat_id)`. */
  function JobName(chatId: int): (name: string)
    ensures IsNumeral(name) && Parse(name) == chatId
  {
    Show(chatId)
  }

  /** The job `start` queues for `chatId` at `now`: one scheduled job named
      after the chat, or none when the date arithmetic overflowed. */
  function PlannedJobs(chatId: int, now: Instant): (added: seq<Job>)
    requires InRange(now)
    ensures |added| == if PlanFirstRun(now).DateOverflow? then 0 else 1
    ensures forall j :: 0 <= j < |added| ==>
      LiveNamed(added[j], JobName(chatId)) && added[j].chatId == chatId &&
      added[j].nextRun == FirstRun(now)
    ensures |added| == 1 ==> (added[0].trigger == Daily(FIRE_TIME) <==> now < TodaySlot(now))
    ensures |added| == 1 ==> (added[0].trigger.Once? <==> TodaySlot(now) <= now)
  {
    var name := JobName(chatId);
    match PlanFirstRun(now)
    case RunOnce(delay) => [Job(name, chatId, Once(delay), now + delay, true)]
    case RunDaily(timeOfDay) => [Job(name, chatId, Daily(timeOfDay), NextAtTimeOfDay(now, timeOfDay), true)]
    case DateOverflow => []
  }

  /** The queue after `start` for `chatId` at `now`: the chat's old jobs
      removed, then the planned job appended. */
  function StartQueue(jobs: seq<Job>, chatId: int, now: Instant): (after: seq<Job>)
    requires InRange(now)
    ensures |after| == |jobs| + |PlannedJobs(chatId, now)|
    ensures forall i :: 0 <= i < |jobs| ==> after[i] == Retired(jobs[i], JobName(chatId))
    ensures after[|jobs|..] == PlannedJobs(chatId, now)
  {
    RemoveNamed(jobs, JobName(chatId)) + PlannedJobs(chatId, now)
  }

  /** Appending at most one job named `name` changes no other name's count
      and raises `name`'s by the number appended. */
  lemma LiveCountAfterStart(jobs: seq<Job>, chatId: int, now: Instant, other: string)
    requires InRange(now)
    ensures LiveCount(StartQueue(jobs, chatId, now), other) ==
      if other == JobName(chatId) then |PlannedJobs(chatId, now)| else LiveCount(jobs, other)
  {
    var name := JobName(chatId);
    var kept := RemoveNamed(jobs, name);
    var added := PlannedJobs(chatId, now);
    LiveCountRemoveNamed(jobs, name, other);
    if added == [] {
      assert StartQueue(jobs, chatId, now) == kept;
    } else {
      LiveCountAppend(kept, added[0], other);
    }
  }

  /** `remove_job_if_exists(name, context)`: calls `schedule_removal` on
      every scheduled job named `name` and reports whether there was one. */
  method RemoveJobIfExists(name: string, queue: JobQueue) returns (removed: bool)
    modifies queue
    ensures removed == HasLive(old(queue.jobs), name)
    ensures queue.jobs == RemoveNamed(old(queue.jobs), name)
    ensures !removed ==> queue.jobs == old(queue.jobs)
  {
    var currentJobs := queue.GetJobsByName(name);
    if |currentJobs| == 0 {
      assert queue.jobs == RemoveNamed(old(queue.jobs), name);
      return false;
    }
    assert LiveNamed(queue.jobs[currentJobs[0]], name);
    var k := 0;
    while k < |currentJobs|
      invariant 0 <= k <= |currentJobs|
      invariant |queue.jobs| == |old(queue.jobs)|
      invariant forall i :: 0 <= i < |queue.jobs| ==>
        queue.jobs[i] == if i in currentJobs[..k] then old(queue.jobs[i]).(live := false) else old(queue.jobs[i])
    {
      assert currentJobs[..k + 1] == currentJobs[..k] + [currentJobs[k]];
      queue.ScheduleRemoval(currentJobs[k]);
      k := k + 1;
    }
    assert currentJobs[..k] == currentJobs;
    removed := true;
  }

  /** `/start` in chat `chatId` at `now`. The reply is `None` when the
      handler raised `OverflowError` (a start on 9999-12-31 from 20:04:40 on),
      after the old job had already been removed. */
  method Start(queue: JobQueue, chatId: int, now: Instant) returns (reply: Option<string>)
    requires InRange(now)
    modifies queue
    ensures queue.jobs == StartQueue(old(queue.jobs), chatId, now)
    ensures reply == if PlanFirstRun(now).DateOverflow? then None
                     else Some(StartReply(HasLive(old(queue.jobs), JobName(chatId))))
    ensures AtMostOneLive(old(queue.jobs)) ==> AtMostOneLive(queue.jobs)
  {
    var name := JobName(chatId);
    var jobRemoved := RemoveJobIfExists(name, queue);
    if AtMostOneLive(old(queue.jobs)) {
      StartKeepsAtMostOneLive(old(queue.jobs), chatId, now);
    }
    match PlanFirstRun(now) {
      case RunOnce(delay) =>
        queue.RunOnce(chatId, delay, name, now);
      case RunDaily(timeOfDay) =>
        queue.RunDaily(chatId, timeOfDay, name, now);
      case DateOverflow =>
        return None;
    }
    reply := Some(StartReply(jobRemoved));
  }

  /** `/stop` in chat `chatId`. */
  method Stop(queue: JobQueue, chatId: int) returns (reply: string)
    modifies queue
    ensures queue.jobs == RemoveNamed(old(queue.jobs), JobName(chatId))
    ensures reply == StopReply(HasLive(old(queue.jobs), JobName(chatId)))
    ensures AtMostOneLive(old(queue.jobs)) ==> AtMostOneLive(queue.jobs)
  {
    var jobRemoved := RemoveJobIfExists(JobName(chatId), queue);
    reply := StopReply(jobRemoved);
    if AtMostOneLive(old(queue.jobs)) {
      StopKeepsAtMostOneLive(old(queue.jobs), JobName(chatId));
    }
  }

  /** After a start that did not overflow, the chat has exactly one scheduled
      job, the last in the queue, running first at the earliest 20:04:40
      strictly after `now`; whatever jobs of that name existed before. */
  lemma StartLeavesOneLive(jobs: seq<Job>, chatId: int, now: Instant)
    requires InRange(now) && now < LAST_SLOT
    ensures var after := StartQueue(jobs, chatId, now);
      |after| == |jobs| + 1 &&
      LiveCount(after, JobName(chatId)) == 1 &&
      LiveNamed(after[|jobs|], JobName(chatId)) &&
      after[|jobs|].chatId == chatId &&
      after[|jobs|].nextRun == FirstRun(now)
  {
    LiveCountAfterStart(jobs, chatId, now, JobName(chatId));
    assert StartQueue(jobs, chatId, now)[|jobs|] == PlannedJobs(chatId, now)[0];
  }

  /** A start whose date arithmetic overflowed leaves the chat with no job. */
  lemma OverflowedStartLeavesNone(jobs: seq<Job>, chatId: int, now: Instant)
    requires InRange(now) && now >= LAST_SLOT
    ensures LiveCount(StartQueue(jobs, chatId, now), JobName(chatId)) == 0
  {
    LiveCountAfterStart(jobs, chatId, now, JobName(chatId));
  }

  /** A start in one chat leaves every job of every other chat as it was. */
  lemma StartLeavesOtherChats(jobs: seq<Job>, chatId: int, otherId: int, now: Instant)
    requires InRange(now) && otherId != chatId
    ensures var after := StartQueue(jobs, chatId, now);
      LiveCount(after, JobName(otherId)) == LiveCount(jobs, JobName(otherId)) &&
      forall i :: 0 <= i < |jobs| && jobs[i].name == JobName(otherId) ==> after[i] == jobs[i]
  {
    ShowInjective(chatId, otherId);
    LiveCountAfterStart(jobs, chatId, now, JobName(otherId));
  }

  /** Starting keeps the registry invariant: at most one job per name. */
  lemma StartKeepsAtMostOneLive(jobs: seq<Job>, chatId: int, now: Instant)
    requires InRange(now) && AtMostOneLive(jobs)
    ensures AtMostOneLive(StartQueue(jobs, chatId, now))
  {
    forall other
      ensures LiveCount(StartQueue(jobs, chatId, now), other) <= 1
    {
      LiveCountAfterStart(jobs, chatId, now, other);
    }
  }

  /** Stopping keeps the registry invariant. */
  lemma StopKeepsAtMostOneLive(jobs: seq<Job>, name: string)
    requires AtMostOneLive(jobs)
    ensures AtMostOneLive(RemoveNamed(jobs, name))
  {
    forall other
      ensures LiveCount(RemoveNamed(jobs, name), other) <= 1
    {
      LiveCountRemoveNamed(jobs, name, other);
    }
  }

  /** A second start reports the first start's job as replaced, and a stop
      right after a start reports a removal and leaves nothing scheduled. */
  lemma RestartAndStopAfterStart(jobs: seq<Job>, chatId: int, now: Instant)
    requires InRange(now) && now < LAST_SLOT
    ensures HasLive(StartQueue(jobs, chatId, now), JobName(chatId))
    ensures StartReply(HasLive(StartQueue(jobs, chatId, now), JobName(chatId))) == START_TEXT + REPLACED_NOTE
    ensures StopReply(HasLive(StartQueue(jobs, chatId, now), JobName(chatId))) == STOPPED_TEXT
    ensures !HasLive(RemoveNamed(StartQueue(jobs, chatId, now), JobName(chatId)), JobName(chatId))
  {
    var after := StartQueue(jobs, chatId, now);
    StartLeavesOneLive(jobs, chatId, now);
    HasLiveIffCount(after, JobName(chatId));
    LiveCountRemoveNamed(after, JobName(chatId), JobName(chatId));
    HasLiveIffCount(RemoveNamed(after, JobName(chatId)), JobName(chatId));
  }

  /** Stop is idempotent: a second stop changes nothing and reports that no
      job was running. */
  lemma StopIsIdempotent(jobs: seq<Job>, name: string)
    ensures RemoveNamed(RemoveNamed(jobs, name), name) == RemoveNamed(jobs, name)
    ensures !HasLive(RemoveNamed(jobs, name), name)
    ensures StopReply(HasLive(RemoveNamed(jobs, name), name)) == NOT_RUNNING_TEXT
  {
    LiveCountRemoveNamed(jobs, name, name);
    HasLiveIffCount(RemoveNamed(jobs, name), name);
  }

  /** A start at or after today's 20:04:40 queues a one-shot job; once the
      queue has run it, the chat has no scheduled job left: the one-shot
      path runs a single time and is not re-armed as a daily job. */
  lemma LateStartRunsOnce(jobs: seq<Job>, chatId: int, now: Instant)
    requires InRange(now) && TodaySlot(now) <= now < LAST_SLOT
    ensures var after := StartQueue(jobs, chatId, now);
      |after| == |jobs| + 1 && after[|jobs|].trigger.Once? &&
      after[|jobs|].nextRun == TodaySlot(now) + DAY &&
      LiveCount(after[|jobs| := AfterRun(after[|jobs|])], JobName(chatId)) == 0
  {
    var after := StartQueue(jobs, chatId, now);
    StartLeavesOneLive(jobs, chatId, now);
    RunNeverAddsLive(after, |jobs|, JobName(chatId));
  }

  /** A start before today's 20:04:40 queues a daily job due at today's
      slot; after the queue has run it, the job is still scheduled, due at
      the same time next day, and it is still the chat's only job. */
  lemma EarlyStartRunsDaily(jobs: seq<Job>, chatId: int, now: Instant)
    requires InRange(now) && now < TodaySlot(now)
    ensures var after := StartQueue(jobs, chatId, now);
      |after| == |jobs| + 1 && after[|jobs|].trigger == Daily(FIRE_TIME) &&
      after[|jobs|].nextRun == TodaySlot(now) &&
      var ran := AfterRun(after[|jobs|]);
      LiveNamed(ran, JobName(chatId)) && ran.nextRun == TodaySlot(now) + DAY &&
      LiveCount(after[|jobs| := ran], JobName(chatId)) == 1
  {
    var after := StartQueue(jobs, chatId, now);
    StartLeavesOneLive(jobs, chatId, now);
    LiveCountUpdate(after, |jobs|, AfterRun(after[|jobs|]), JobName(chatId));
  }

  /** One chat's session on a fresh queue: `/start`, `/start`, `/stop`,
      `/stop`, all at `now`. Only the handlers' contracts are used. */
  method StartStopSession(chatId: int, now: Instant) returns (first: Option<string>, second: Option<string>, third: string, fourth: string)
    requires InRange(now) && now < LAST_SLOT
    ensures first == Some(START_TEXT)
    ensures second == Some(START_TEXT + REPLACED_NOTE)
    ensures third == STOPPED_TEXT
    ensures fourth == NOT_RUNNING_TEXT
  {
    var queue := new JobQueue();
    first := Start(queue, chatId, now);
    RestartAndStopAfterStart([], chatId, now);
    var started := queue.jobs;
    second := Start(queue, chatId, now);
    RestartAndStopAfterStart(started, chatId, now);
    third := Stop(queue, chatId);
    StopIsIdempotent(queue.jobs, JobName(chatId));
    fourth := Stop(queue, chatId);
  }
}
