/** `proactive_scheduler`: scheduled tasks as values, and what one scheduler step makes of them. */
module ScheduledTasks {
  import opened Options

  /** Instants are whole seconds since the epoch, and a date is the number of its day. */
  const HOUR: int := 3600
  const DAY: int := 86400
  const WEEK: int := 604800
  const MAX_TASKS: int := 50
  const INTERNAL_TASK_TYPES: set<string> := {"maintenance", "weekly_report"}

  /** `nextRun` is `None` when it is empty or cannot be read as a time. */
  datatype Task = Task(
    id: string, taskType: string, scheduleExpr: string,
    repeat: bool, repeatSeconds: int, repeatRule: string, exceptDates: seq<int>,
    nextRun: Option<int>, enabled: bool, completed: bool, lastRun: Option<int>)

  function DateOf(t: int): int {
    t / DAY
  }

  /** Monday is 0; day 0 was a Thursday. */
  function Weekday(t: int): int {
    (DateOf(t) + 3) % 7
  }

  function ToMonday(t: int): (days: nat) {
    (7 - Weekday(t)) % 7
  }

  lemma NextDay(t: int)
    ensures DateOf(t + DAY) == DateOf(t) + 1
    ensures Weekday(t + DAY) == if Weekday(t) == 6 then 0 else Weekday(t) + 1
    ensures 0 <= Weekday(t) < 7
    ensures Weekday(t) >= 5 ==> ToMonday(t + DAY) < ToMonday(t)
  {
  }

  predicate OccursAt(text: string, part: string, i: int) {
    0 <= i <= |text| - |part| && text[i..i + |part|] == part
  }

  predicate Contains(text: string, part: string) {
    exists i :: 0 <= i <= |text| - |part| && OccursAt(text, part, i)
  }

  // ---------- the next occurrence ----------

  predicate WeekdaysOnly(task: Task) {
    task.repeatRule == "weekdays" || (task.repeatRule == "daily" && Contains(task.scheduleExpr, "평일"))
  }

  predicate IsExceptDate(task: Task, t: int) {
    DateOf(t) in task.exceptDates
  }

  function FirstCandidate(task: Task, lastDue: int, now: int): int {
    if task.repeatRule == "daily" || WeekdaysOnly(task) then lastDue + DAY
    else if task.repeatRule == "weekly" then lastDue + WEEK
    else if task.repeatRule == "hourly" then lastDue + HOUR
    else if task.repeatSeconds > 0 then lastDue + task.repeatSeconds
    else now + DAY
  }

  /** How far the loop moves on from a candidate it cannot use. */
  function Stride(task: Task): (step: int)
    ensures step > 0
  {
    if task.repeatRule == "weekly" then WEEK
    else if task.repeatRule == "hourly" then HOUR
    else if task.repeatSeconds > 0 then task.repeatSeconds
    else DAY
  }

  function SkipWeekend(t: int): (r: int)
    ensures t <= r && Weekday(r) < 5
    decreases ToMonday(t)
  {
    NextDay(t);
    if Weekday(t) >= 5 then SkipWeekend(t + DAY) else t
  }

  lemma SkipOne(t: int)
    ensures SkipWeekend(t) == if Weekday(t) >= 5 then SkipWeekend(t + DAY) else t
  {
  }

  /** An instant that lies after `now` and on no exception date. */
  ghost function Horizon(dates: seq<int>, now: int): (h: int)
    ensures now < h && forall d :: d in dates ==> (d + 1) * DAY <= h
  {
    if dates == [] then now + 1
    else
      var h := Horizon(dates[1..], now);
      assert forall d :: d in dates ==> d == dates[0] || d in dates[1..];
      if (dates[0] + 1) * DAY <= h then h else (dates[0] + 1) * DAY
  }

  function Adjusted(task: Task, t: int): (r: int)
    ensures t <= r
  {
    if WeekdaysOnly(task) then SkipWeekend(t) else t
  }

  predicate Usable(task: Task, t: int, now: int) {
    t > now && !IsExceptDate(task, t)
  }

  lemma UnusableIsEarly(task: Task, t: int, now: int)
    requires !Usable(task, t, now)
    ensures t < Horizon(task.exceptDates, now)
  {
    if t > now {
      assert t < (DateOf(t) + 1) * DAY;
    }
  }

  /** The search from candidate `t` on. */
  function Seek(task: Task, t: int, now: int): int
    decreases Horizon(task.exceptDates, now) - t
  {
    var u := Adjusted(task, t);
    if Usable(task, u, now) then u
    else
      assert u < Horizon(task.exceptDates, now) by { UnusableIsEarly(task, u, now); }
      Seek(task, u + Stride(task), now)
  }

  lemma SeekUnfolds(task: Task, t: int, now: int)
    ensures var u := Adjusted(task, t);
            Seek(task, t, now) == if Usable(task, u, now) then u else Seek(task, u + Stride(task), now)
  {
  }

  function NextRun(task: Task, lastDue: int, now: int): int {
    Seek(task, FirstCandidate(task, lastDue, now), now)
  }

  method ComputeNextRun(task: Task, lastDue: int, now: int) returns (next: int)
    ensures next == NextRun(task, lastDue, now)
  {
    hide Seek, SkipWeekend, Horizon, Weekday, DateOf, ToMonday, IsExceptDate, Contains;
    var weekdayRepeat := WeekdaysOnly(task);
    if task.repeatRule == "daily" || weekdayRepeat {
      next := lastDue + DAY;
    } else if task.repeatRule == "weekly" {
      next := lastDue + WEEK;
    } else if task.repeatRule == "hourly" {
      next := lastDue + HOUR;
    } else if task.repeatSeconds > 0 {
      next := lastDue + task.repeatSeconds;
    } else {
      next := now + DAY;
    }
    while true
      invariant Seek(task, next, now) == NextRun(task, lastDue, now)
      decreases Horizon(task.exceptDates, now) - next
    {
      ghost var t := next;
      SeekUnfolds(task, t, now);
      if weekdayRepeat {
        while Weekday(next) >= 5
          invariant t <= next && SkipWeekend(next) == SkipWeekend(t)
          decreases ToMonday(next)
        {
          NextDay(next);
          SkipOne(next);
          next := next + DAY;
        }
      }
      SkipOne(next);
      assert next == Adjusted(task, t);
      if next > now && !IsExceptDate(task, next) {
        return;
      }
      UnusableIsEarly(task, next, now);
      if task.repeatRule == "weekly" {
        next := next + WEEK;
      } else if task.repeatRule == "hourly" {
        next := next + HOUR;
      } else if task.repeatSeconds > 0 {
        next := next + task.repeatSeconds;
      } else {
        next := next + DAY;
      }
    }
  }

  // ---------- claiming ----------

  predicate OnExceptDate(task: Task) {
    task.enabled && task.nextRun.Some? && IsExceptDate(task, task.nextRun.value)
  }

  /** The task is handed to an executor at `now`. */
  predicate IsClaimed(task: Task, now: int) {
    task.enabled && task.nextRun.Some? && !IsExceptDate(task, task.nextRun.value) && task.nextRun.value <= now
  }

  function ClaimOne(task: Task, now: int): Task {
    if OnExceptDate(task) then
      if task.repeat then task.(nextRun := Some(NextRun(task, task.nextRun.value, now)))
      else task.(enabled := false)
    else if IsClaimed(task, now) then
      if task.repeat then task.(lastRun := Some(now), nextRun := Some(NextRun(task, task.nextRun.value, now)))
      else task.(lastRun := Some(now), enabled := false, completed := true)
    else task
  }

  /** A claimed task as handed on, with the times for the run log. */
  datatype Claim = Claim(task: Task, startedAt: int, nextRunBefore: int, nextRunAfter: Option<int>)

  function ClaimFor(task: Task, now: int): Claim
    requires IsClaimed(task, now)
  {
    var after := ClaimOne(task, now);
    Claim(after, now, task.nextRun.value, if task.repeat then after.nextRun else None)
  }

  function ClaimAll(tasks: seq<Task>, now: int): (r: seq<Task>)
    ensures |r| == |tasks|
  {
    seq(|tasks|, i requires 0 <= i < |tasks| => ClaimOne(tasks[i], now))
  }

  function ClaimsOf(tasks: seq<Task>, now: int): seq<Claim> {
    if tasks == [] then []
    else
      var rest, last := tasks[..|tasks| - 1], tasks[|tasks| - 1];
      ClaimsOf(rest, now) + if IsClaimed(last, now) then [ClaimFor(last, now)] else []
  }

  // ---------- storing, removing and toggling ----------

  predicate IsUser(task: Task) {
    task.taskType !in INTERNAL_TASK_TYPES
  }

  /** A user's one-shot task that ran as planned and was not switched on again. */
  predicate IsFinished(task: Task) {
    task.completed && !task.enabled && IsUser(task)
  }

  function UserCount(tasks: seq<Task>): (n: nat)
    ensures n <= |tasks|
  {
    if tasks == [] then 0 else (if IsUser(tasks[0]) then 1 else 0) + UserCount(tasks[1..])
  }

  function Finished(tasks: seq<Task>): seq<Task> {
    if tasks == [] then [] else (if IsFinished(tasks[0]) then [tasks[0]] else []) + Finished(tasks[1..])
  }

  /** The first `n` finished tasks are dropped. */
  function Evict(tasks: seq<Task>, n: nat): seq<Task> {
    if n == 0 || tasks == [] then tasks
    else if IsFinished(tasks[0]) then Evict(tasks[1..], n - 1)
    else [tasks[0]] + Evict(tasks[1..], n)
  }

  function Excess(tasks: seq<Task>): nat {
    if UserCount(tasks) >= MAX_TASKS then UserCount(tasks) - MAX_TASKS + 1 else 0
  }

  /** The stored tasks after the room for `task` was made. */
  function MakeRoom(tasks: seq<Task>, task: Task): seq<Task> {
    if IsUser(task) then Evict(tasks, Excess(tasks)) else tasks
  }

  predicate IsFull(tasks: seq<Task>, task: Task) {
    IsUser(task) && UserCount(tasks) >= MAX_TASKS
  }

  function Position(tasks: seq<Task>, id: string): (k: nat)
    ensures k <= |tasks| && (k < |tasks| ==> tasks[k].id == id)
    ensures forall i :: 0 <= i < k ==> tasks[i].id != id
  {
    if tasks == [] || tasks[0].id == id then 0 else 1 + Position(tasks[1..], id)
  }

  function Lookup(tasks: seq<Task>, id: string): Option<Task> {
    var k := Position(tasks, id);
    if k < |tasks| then Some(tasks[k]) else None
  }

  /** Assigning to a dictionary key keeps the key's place. */
  function Put(tasks: seq<Task>, task: Task): seq<Task> {
    var k := Position(tasks, task.id);
    if k < |tasks| then tasks[k := task] else tasks + [task]
  }

  function Remove(tasks: seq<Task>, id: string): seq<Task> {
    var k := Position(tasks, id);
    if k < |tasks| then tasks[..k] + tasks[k + 1..] else tasks
  }

  /** `schedule`: when it fails, room was made all the same. */
  function Scheduled(tasks: seq<Task>, task: Task): seq<Task> {
    var room := MakeRoom(tasks, task);
    if IsFull(room, task) then room else Put(room, task)
  }

  function Toggled(tasks: seq<Task>, id: string): seq<Task> {
    var k := Position(tasks, id);
    if k < |tasks| then tasks[k := tasks[k].(enabled := !tasks[k].enabled, completed := false)] else tasks
  }

  /** A task as `schedule` creates it. */
  function AsNew(task: Task): Task {
    task.(completed := false, lastRun := None)
  }

  predicate DistinctIds(tasks: seq<Task>) {
    forall i, j :: 0 <= i < j < |tasks| ==> tasks[i].id != tasks[j].id
  }
}
