/** The job queue `start` and `stop` work on, reduced to the four operations
    the bot uses (`get_jobs_by_name`, `schedule_removal`, `run_once`,
    `run_daily`) and to what the queue does when a job runs. A removed job
    stays in the list with `live` cleared, so the history of removals is
    visible to the proofs. */
module Jobs {
  import opened Clock
  import Countdown

  /** How a job repeats: once after a delay, or every day at a time of day. */
  datatype Trigger = Once(delay: Instant) | Daily(timeOfDay: Instant)

  /** A queued job: its name, the chat in its data, its trigger, when it runs
      next, and whether it is still scheduled. */
  datatype Job = Job(name: string, chatId: int, trigger: Trigger, nextRun: Instant, live: bool)

  predicate LiveNamed(job: Job, name: string) {
    job.live && job.name == name
  }

  /** `get_jobs_by_name(name)` is not empty. */
  predicate HasLive(jobs: seq<Job>, name: string) {
    exists i :: 0 <= i < |jobs| && LiveNamed(jobs[i], name)
  }

  /** How many scheduled jobs carry `name`. */
  function LiveCount(jobs: seq<Job>, name: string): nat {
    if jobs == [] then 0
    else LiveCount(jobs[..|jobs| - 1], name) + (if LiveNamed(jobs[|jobs| - 1], name) then 1 else 0)
  }

  /** The registry invariant: at most one scheduled job per name. */
  ghost predicate AtMostOneLive(jobs: seq<Job>) {
    forall name :: LiveCount(jobs, name) <= 1
  }

  /** A job after every job named `name` had `schedule_removal` called. */
  function Retired(job: Job, name: string): Job {
    if job.name == name then job.(live := false) else job
  }

  /** The queue after every job named `name` was removed; nothing else changes. */
  function RemoveNamed(jobs: seq<Job>, name: string): (r: seq<Job>)
    ensures |r| == |jobs|
    ensures forall i :: 0 <= i < |jobs| ==> r[i] == Retired(jobs[i], name)
  {
    seq(|jobs|, i requires 0 <= i < |jobs| => Retired(jobs[i], name))
  }

  /** A job after the queue has run it: a one-shot job is finished, a daily
      job moves on to the same time next day. */
  function AfterRun(job: Job): (ran: Job)
    ensures ran.name == job.name && ran.chatId == job.chatId && ran.trigger == job.trigger
    ensures ran.live <==> job.live && job.trigger.Daily?
    ensures ran.trigger.Daily? ==> ran.nextRun == job.nextRun + DAY
  {
    match job.trigger
    case Once(_) => job.(live := false)
    case Daily(_) => job.(nextRun := job.nextRun + DAY)
  }

  lemma {:induction false} HasLiveIffCount(jobs: seq<Job>, name: string)
    ensures HasLive(jobs, name) <==> LiveCount(jobs, name) > 0
  {
    if jobs != [] {
      var init := jobs[..|jobs| - 1];
      HasLiveIffCount(init, name);
      if HasLive(init, name) {
        var i :| 0 <= i < |init| && LiveNamed(init[i], name);
        assert LiveNamed(jobs[i], name);
      }
      if HasLive(jobs, name) && !LiveNamed(jobs[|jobs| - 1], name) {
        var i :| 0 <= i < |jobs| && LiveNamed(jobs[i], name);
        assert LiveNamed(init[i], name);
      }
    }
  }

  lemma {:induction false} LiveCountAppend(jobs: seq<Job>, job: Job, name: string)
    ensures LiveCount(jobs + [job], name) == LiveCount(jobs, name) + (if LiveNamed(job, name) then 1 else 0)
  {
    assert (jobs + [job])[..|jobs + [job]| - 1] == jobs;
  }

  /** Removing `name` leaves no scheduled job of that name and every other
      name's count as it was. */
  lemma {:induction false} LiveCountRemoveNamed(jobs: seq<Job>, name: string, other: string)
    ensures LiveCount(RemoveNamed(jobs, name), name) == 0
    ensures other != name ==> LiveCount(RemoveNamed(jobs, name), other) == LiveCount(jobs, other)
  {
    if jobs != [] {
      var init := jobs[..|jobs| - 1];
      assert RemoveNamed(jobs, name)[..|jobs| - 1] == RemoveNamed(init, name);
      LiveCountRemoveNamed(init, name, other);
    }
  }

  /** Replacing one job by another moves the counts by the difference. */
  lemma {:induction false} LiveCountUpdate(jobs: seq<Job>, i: nat, job: Job, name: string)
    requires i < |jobs|
    ensures LiveCount(jobs[i := job], name) + (if LiveNamed(jobs[i], name) then 1 else 0)
         == LiveCount(jobs, name) + (if LiveNamed(job, name) then 1 else 0)
  {
    var init := jobs[..|jobs| - 1];
    if i < |jobs| - 1 {
      assert jobs[i := job][..|jobs| - 1] == init[i := job];
      LiveCountUpdate(init, i, job, name);
    } else {
      assert jobs[i := job][..|jobs| - 1] == init;
    }
  }

  /** A run never adds a scheduled job; a one-shot job's run ends it. */
  lemma RunNeverAddsLive(jobs: seq<Job>, i: nat, name: string)
    requires i < |jobs| && jobs[i].live
    ensures LiveCount(jobs[i := AfterRun(jobs[i])], name) <= LiveCount(jobs, name)
    ensures jobs[i].trigger.Once? && jobs[i].name == name ==>
      LiveCount(jobs[i := AfterRun(jobs[i])], name) == LiveCount(jobs, name) - 1
  {
    LiveCountUpdate(jobs, i, AfterRun(jobs[i]), name);
  }

  /** Python-telegram-bot's `JobQueue`, as far as the bot uses it. */
  class JobQueue {
    var jobs: seq<Job>

    constructor ()
      ensures jobs == []
      ensures AtMostOneLive(jobs)
    {
      jobs := [];
    }

    /** `get_jobs_by_name(name)`: the positions of the scheduled jobs that
        carry `name`, in queue order. */
    method GetJobsByName(name: string) returns (found: seq<nat>)
      ensures forall k :: 0 <= k < |found| ==> found[k] < |jobs| && LiveNamed(jobs[found[k]], name)
      ensures forall i :: 0 <= i < |jobs| && LiveNamed(jobs[i], name) ==> i in found
      ensures forall k, l :: 0 <= k < l < |found| ==> found[k] < found[l]
      ensures |found| == LiveCount(jobs, name)
    {
      found := [];
      var i := 0;
      while i < |jobs|
        invariant 0 <= i <= |jobs|
        invariant forall k :: 0 <= k < |found| ==> found[k] < i && LiveNamed(jobs[found[k]], name)
        invariant forall j :: 0 <= j < i && LiveNamed(jobs[j], name) ==> j in found
        invariant forall k, l :: 0 <= k < l < |found| ==> found[k] < found[l]
        invariant |found| == LiveCount(jobs[..i], name)
      {
        assert jobs[..i + 1][..i] == jobs[..i];
        if LiveNamed(jobs[i], name) {
          found := found + [i];
        }
        i := i + 1;
      }
      assert jobs[..i] == jobs;
    }

    /** `job.schedule_removal()` on the job at position `i`. */
    method ScheduleRemoval(i: nat)
      requires i < |jobs|
      modifies this
      ensures jobs == old(jobs)[i := old(jobs)[i].(live := false)]
    {
      jobs := jobs[i := jobs[i].(live := false)];
    }

    /** `run_once` at `now`: the countdown for chat `chatId`, once, `delay` from now. */
    method RunOnce(chatId: int, delay: Instant, name: string, now: Instant)
      modifies this
      ensures jobs == old(jobs) + [Job(name, chatId, Once(delay), now + delay, true)]
    {
      jobs := jobs + [Job(name, chatId, Once(delay), now + delay, true)];
    }

    /** `run_daily` at `now`: the countdown for chat `chatId` every day at
        `timeOfDay`; the first run is the next instant at that time of day. */
    method RunDaily(chatId: int, timeOfDay: Instant, name: string, now: Instant)
      requires 0 <= timeOfDay < DAY
      modifies this
      ensures jobs == old(jobs) + [Job(name, chatId, Daily(timeOfDay), NextAtTimeOfDay(now, timeOfDay), true)]
    {
      jobs := jobs + [Job(name, chatId, Daily(timeOfDay), NextAtTimeOfDay(now, timeOfDay), true)];
    }

    /** The queue runs the scheduled job at position `i` once it is due, and
        `send_message` reads the clock as `now`: it sends the countdown for
        `now` to the job's chat. Whether or not the delivery succeeds, the
        queue only does its own bookkeeping, and a one-shot job is not
        queued again. */
    method Run(i: nat, now: Instant) returns (chatId: int, text: string)
      requires i < |jobs| && jobs[i].live && jobs[i].nextRun <= now
      modifies this
      ensures chatId == old(jobs[i].chatId)
      ensures text == Countdown.CountdownMessage(now)
      ensures jobs == old(jobs)[i := AfterRun(old(jobs[i]))]
      ensures AtMostOneLive(old(jobs)) ==> AtMostOneLive(jobs)
    {
      var job := jobs[i];
      chatId, text := job.chatId, Countdown.CountdownMessage(now);
      jobs := jobs[i := AfterRun(job)];
      forall name
        ensures LiveCount(jobs, name) <= LiveCount(old(jobs), name)
      {
        RunNeverAddsLive(old(jobs), i, name);
      }
    }
  }
}
