/** The scheduler in a caller's terms: when a task runs next, which tasks a tick hands on, what the store holds. */
module SchedulePromises {
  import opened Options
  import opened ScheduledTasks
  import opened ScheduleProperties

  // ---------- the calendar ----------

  /** Known Mondays and Saturdays: 1 January 2024, 5 January 1970; 1 January 2000. */
  lemma CalendarIsRight(days: int, seconds: int)
    requires 0 <= seconds < 86400
    ensures Weekday(1704067200) == 0 && Weekday(345600) == 0 && Weekday(946684800) == 5
    ensures 0 <= Weekday(86400 * days + seconds) < 7
    ensures Weekday(86400 * days + seconds) == Weekday(86400 * days)
    ensures Weekday(86400 * (days + 1)) == if Weekday(86400 * days) == 6 then 0 else Weekday(86400 * days) + 1
  {
    DayOf(days, seconds);
    DayOf(days, 0);
    DayOf(days + 1, 0);
    hide DateOf;
    DayOf(19723, 0);
    DayOf(4, 0);
    DayOf(10957, 0);
  }

  lemma DayOf(days: int, seconds: int)
    requires 0 <= seconds < 86400
    ensures DateOf(86400 * days + seconds) == days
  {
  }

  /** Seconds between two instants of the task's rhythm. */
  function Period(task: Task): int {
    if task.repeatRule == "weekly" then 604800
    else if task.repeatRule == "daily" || task.repeatRule == "weekdays" then 86400
    else if task.repeatRule == "hourly" then 3600
    else task.repeatSeconds
  }

  /** Day 2 was a Saturday. */
  predicate IsWeekend(t: int) {
    (t / 86400) % 7 == 2 || (t / 86400) % 7 == 3
  }

  /** The task may run at this instant. */
  predicate MayRun(task: Task, t: int, now: int) {
    && t > now && t / 86400 !in task.exceptDates
    && (task.repeatRule == "weekdays" || (task.repeatRule == "daily" && Contains(task.scheduleExpr, "평일")) ==>
          !IsWeekend(t))
  }

  lemma MayRunIsGood(task: Task, t: int, now: int)
    ensures MayRun(task, t, now) <==> Good(task, t, now)
  {
    hide Contains;
    assert Weekday(t) >= 5 <==> IsWeekend(t);
  }

  /**
   The next run of a periodic task in seconds: the due time and a least number of whole periods, such
   that it lies after now, on no exception date and, if asked for, on no weekend.
   */
  lemma NextRunInSeconds(task: Task, lastDue: int, now: int) returns (k: nat)
    requires IsPeriodic(task)
    ensures k >= 1 && NextRun(task, lastDue, now) == lastDue + k * Period(task)
    ensures MayRun(task, NextRun(task, lastDue, now), now)
    ensures forall j: nat :: 1 <= j < k ==> !MayRun(task, Tick(lastDue, Period(task), j), now)
  {
    assert Stride(task) == Period(task) by {
      hide Contains;
    }
    hide NextRun, MayRun, Good, IsPeriodic, Stride, Period;
    k := NextRunIsLeast(task, lastDue, now);
    MayRunIsGood(task, NextRun(task, lastDue, now), now);
    forall j: nat | 1 <= j < k
      ensures !MayRun(task, Tick(lastDue, Period(task), j), now)
    {
      MayRunIsGood(task, Tick(lastDue, Period(task), j), now);
    }
  }

  // ---------- one tick ----------

  /** Switched on, its time has come, and the day is no exception. */
  predicate IsDue(task: Task, now: int) {
    task.enabled && task.nextRun.Some? && task.nextRun.value <= now && task.nextRun.value / 86400 !in task.exceptDates
  }

  /** One claim for every due task, in order, and no other. */
  lemma {:induction false} ClaimsExactly(tasks: seq<Task>, now: int)
    ensures |ClaimsOf(tasks, now)| == |DueTasks(tasks, now)|
    ensures forall i :: 0 <= i < |ClaimsOf(tasks, now)| ==>
              var c, t := ClaimsOf(tasks, now)[i], DueTasks(tasks, now)[i];
              && c.task == ClaimOne(t, now) && c.startedAt == now && t.nextRun == Some(c.nextRunBefore)
              && c.nextRunAfter == if t.repeat then ClaimOne(t, now).nextRun else None
  {
    if tasks != [] {
      var rest, last := tasks[..|tasks| - 1], tasks[|tasks| - 1];
      ClaimsExactly(rest, now);
      assert IsClaimed(last, now) <==> IsDue(last, now);
      hide NextRun, IsClaimed, IsDue, ClaimOne;
      DueSplits(tasks, now);
    }
  }

  function DueTasks(tasks: seq<Task>, now: int): seq<Task> {
    if tasks == [] then [] else (if IsDue(tasks[0], now) then [tasks[0]] else []) + DueTasks(tasks[1..], now)
  }

  lemma {:induction false} DueSplits(tasks: seq<Task>, now: int)
    requires tasks != []
    ensures var rest, last := tasks[..|tasks| - 1], tasks[|tasks| - 1];
            DueTasks(tasks, now) == DueTasks(rest, now) + if IsDue(last, now) then [last] else []
  {
    hide IsDue;
    if |tasks| > 1 {
      DueSplits(tasks[1..], now);
      assert tasks[1..][..|tasks[1..]| - 1] == tasks[..|tasks| - 1][1..];
    }
  }

  /**
   After a tick nothing is due any more. A claimed task was run now, and then waits for its next run or is
   switched off as completed; a task on an exception date moves on or is switched off without being run;
   all others are as before.
   */
  lemma TickExactly(task: Task, now: int)
    ensures var after := ClaimOne(task, now);
            && !IsDue(after, now)
            && after == task.(nextRun := after.nextRun, enabled := after.enabled, completed := after.completed,
                              lastRun := after.lastRun)
            && (after.lastRun != task.lastRun ==> IsDue(task, now))
            && (IsDue(task, now) ==> after.lastRun == Some(now))
            && (after.completed <==> task.completed || (IsDue(task, now) && !task.repeat))
            && (after.enabled <==> task.enabled && (task.repeat || after == task))
            && (task.repeat && after != task ==>
                  task.nextRun.Some? && after.nextRun == Some(NextRun(task, task.nextRun.value, now)))
            && (!task.repeat ==> after.nextRun == task.nextRun)
            && (after == task <== !task.enabled || task.nextRun.None?)
            && (after == task <== task.enabled && task.nextRun.Some? && task.nextRun.value > now &&
                                  task.nextRun.value / 86400 !in task.exceptDates)
  {
    if task.nextRun.Some? {
      NextRunIsLater(task, task.nextRun.value, now);
    }
    hide NextRun;
  }

  // ---------- the store ----------

  function Except(tasks: seq<Task>, id: string): seq<Task> {
    if tasks == [] then [] else (if tasks[0].id == id then [] else [tasks[0]]) + Except(tasks[1..], id)
  }

  lemma {:induction false} NothingToExcept(tasks: seq<Task>, id: string)
    requires forall t :: t in tasks ==> t.id != id
    ensures Except(tasks, id) == tasks
  {
    if tasks != [] {
      assert tasks[0] in tasks && forall t :: t in tasks[1..] ==> t in tasks;
      NothingToExcept(tasks[1..], id);
    }
  }

  lemma {:induction false} ExceptAt(tasks: seq<Task>, k: nat, id: string)
    requires DistinctIds(tasks) && k < |tasks| && tasks[k].id == id
    ensures Except(tasks, id) == tasks[..k] + tasks[k + 1..]
  {
    if k == 0 {
      NothingToExcept(tasks[1..], id);
      assert tasks[..0] + tasks[1..] == tasks[1..];
    } else {
      ExceptAt(tasks[1..], k - 1, id);
      assert [tasks[0]] + (tasks[1..][..k - 1] + tasks[1..][k..]) == tasks[..k] + tasks[k + 1..];
    }
  }

  /** Removing takes that task out of the store and leaves the others in order. */
  lemma RemoveExactly(tasks: seq<Task>, id: string)
    requires DistinctIds(tasks)
    ensures Remove(tasks, id) == Except(tasks, id) && Lookup(Remove(tasks, id), id) == None
  {
    var k := Position(tasks, id);
    if k < |tasks| {
      ExceptAt(tasks, k, id);
    } else {
      NothingToExcept(tasks, id);
    }
    ExceptHasNone(tasks, id);
  }

  lemma {:induction false} ExceptHasNone(tasks: seq<Task>, id: string)
    ensures forall t :: t in Except(tasks, id) ==> t.id != id
  {
    if tasks != [] {
      ExceptHasNone(tasks[1..], id);
    }
  }

  /** The task with this id is replaced in its place, or stored last; the others stay in order. */
  lemma PutExactly(tasks: seq<Task>, task: Task)
    requires DistinctIds(tasks)
    ensures var k, after := Position(tasks, task.id), Put(tasks, task);
            && k < |after| && after[k] == task && Position(after, task.id) == k
            && |after| == (if k < |tasks| then |tasks| else |tasks| + 1)
            && Except(after, task.id) == Except(tasks, task.id)
            && Lookup(after, task.id) == Some(task)
  {
    var k, after := Position(tasks, task.id), Put(tasks, task);
    if k < |tasks| {
      ExceptAt(tasks, k, task.id);
      ExceptAt(after, k, task.id);
      assert after[..k] == tasks[..k] && after[k + 1..] == tasks[k + 1..];
    } else {
      NothingToExcept(tasks, task.id);
      assert DistinctIds(after);
      ExceptAt(after, k, task.id);
      assert after[..k] + after[k + 1..] == tasks;
    }
    PositionIs(after, k, task.id);
  }

  lemma PositionIs(tasks: seq<Task>, k: nat, id: string)
    requires DistinctIds(tasks) && k < |tasks| && tasks[k].id == id
    ensures Position(tasks, id) == k
  {
  }

  /** The task is switched on or off where it stands and no longer counts as completed. */
  lemma ToggleExactly(tasks: seq<Task>, id: string)
    requires DistinctIds(tasks)
    ensures Lookup(tasks, id).None? ==> Toggled(tasks, id) == tasks
    ensures Lookup(tasks, id).Some? ==>
              var t := Lookup(tasks, id).value;
              Toggled(tasks, id) == Put(tasks, t.(enabled := !t.enabled, completed := false))
  {
    hide Position;
  }

  /** A one-shot task of the user's that ran and is switched off; anything else is never dropped. */
  predicate MayBeDropped(task: Task) {
    task.completed && !task.enabled && task.taskType != "maintenance" && task.taskType != "weekly_report"
  }

  lemma {:induction false} EvictDropsFinished(tasks: seq<Task>, n: nat, t: Task)
    requires t in tasks && t !in Evict(tasks, n)
    ensures MayBeDropped(t)
  {
    if n > 0 && t != tasks[0] {
      EvictDropsFinished(tasks[1..], if IsFinished(tasks[0]) then n - 1 else n, t);
    }
  }

  /**
   Storing a user's task drops none but finished tasks, and none at all while fewer than fifty user tasks
   are stored; the application's own tasks are stored without dropping any.
   */
  lemma RoomExactly(tasks: seq<Task>, task: Task)
    ensures forall t :: t in tasks && t !in MakeRoom(tasks, task) ==> MayBeDropped(t)
    ensures UserCount(tasks) < 50 ==> MakeRoom(tasks, task) == tasks
    ensures task.taskType in {"maintenance", "weekly_report"} ==> Scheduled(tasks, task) == Put(tasks, task)
    ensures task.taskType !in {"maintenance", "weekly_report"} ==>
              Scheduled(tasks, task) == if UserCount(MakeRoom(tasks, task)) < 50 then Put(MakeRoom(tasks, task), task)
                                        else MakeRoom(tasks, task)
  {
    forall t | t in tasks && t !in MakeRoom(tasks, task)
      ensures MayBeDropped(t)
    {
      EvictDropsFinished(tasks, Excess(tasks), t);
    }
  }
}
