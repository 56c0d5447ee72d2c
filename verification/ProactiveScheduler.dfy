/** `ProactiveScheduler`: the stored tasks, updated in place. */
module ProactiveScheduling {
  import opened Options
  import opened ScheduledTasks
  import opened ScheduleProperties

  class ScheduledTask {
    const id: string
    const taskType: string
    const scheduleExpr: string
    const repeat: bool
    const repeatSeconds: int
    const repeatRule: string
    const exceptDates: seq<int>
    var nextRun: Option<int>
    var enabled: bool
    var completed: bool
    var lastRun: Option<int>

    constructor (task: Task)
      ensures View() == AsNew(task)
    {
      id, taskType, scheduleExpr := task.id, task.taskType, task.scheduleExpr;
      repeat, repeatSeconds, repeatRule := task.repeat, task.repeatSeconds, task.repeatRule;
      exceptDates, nextRun, enabled := task.exceptDates, task.nextRun, task.enabled;
      completed, lastRun := false, None;
    }

    function View(): Task
      reads this
    {
      Task(id, taskType, scheduleExpr, repeat, repeatSeconds, repeatRule, exceptDates,
           nextRun, enabled, completed, lastRun)
    }

    /** The loop body of `_claim_due_tasks`. */
    method Claim(now: int) returns (claim: Option<Claim>)
      modifies this
      ensures View() == ClaimOne(old(View()), now)
      ensures claim == if IsClaimed(old(View()), now) then Some(ClaimFor(old(View()), now)) else None
    {
      claim := None;
      if !enabled || nextRun.None? {
        return;
      }
      var dueAt := nextRun.value;
      if DateOf(dueAt) in exceptDates {
        if repeat {
          var next := ComputeNextRun(View(), dueAt, now);
          nextRun := Some(next);
        } else {
          enabled := false;
        }
        return;
      }
      if dueAt > now {
        return;
      }
      NextRunIgnoresLastRun(View(), now, dueAt, now);
      lastRun := Some(now);
      var nextRunAfter := None;
      if repeat {
        var next := ComputeNextRun(View(), dueAt, now);
        nextRun := Some(next);
        nextRunAfter := nextRun;
      } else {
        enabled := false;
        completed := true;
      }
      claim := Some(ScheduledTasks.Claim(View(), now, dueAt, nextRunAfter));
    }
  }

  lemma SearchIgnoresLastRun(task: Task, ranAt: int, t: int, now: int)
    ensures var other := task.(lastRun := Some(ranAt));
            && Adjusted(other, t) == Adjusted(task, t) && Stride(other) == Stride(task)
            && (Usable(other, Adjusted(task, t), now) <==> Usable(task, Adjusted(task, t), now))
  {
    hide SkipWeekend;
  }

  lemma {:induction false} SeekIgnoresLastRun(task: Task, ranAt: int, t: int, now: int)
    ensures Seek(task.(lastRun := Some(ranAt)), t, now) == Seek(task, t, now)
    decreases Horizon(task.exceptDates, now) - t
  {
    hide *;
    var u := Adjusted(task, t);
    SearchIgnoresLastRun(task, ranAt, t, now);
    SeekUnfolds(task, t, now);
    SeekUnfolds(task.(lastRun := Some(ranAt)), t, now);
    if !Usable(task, u, now) {
      UnusableIsEarly(task, u, now);
      SeekIgnoresLastRun(task, ranAt, u + Stride(task), now);
    }
  }

  lemma NextRunIgnoresLastRun(task: Task, ranAt: int, lastDue: int, now: int)
    ensures NextRun(task.(lastRun := Some(ranAt)), lastDue, now) == NextRun(task, lastDue, now)
  {
    SeekIgnoresLastRun(task, ranAt, FirstCandidate(task, lastDue, now), now);
  }

  lemma NoClaims(now: int)
    ensures ClaimsOf([], now) == []
  {
  }

  lemma OneMoreClaim(tasks: seq<Task>, i: nat, now: int)
    requires i < |tasks|
    ensures ClaimsOf(tasks[..i + 1], now) ==
            ClaimsOf(tasks[..i], now) + if IsClaimed(tasks[i], now) then [ClaimFor(tasks[i], now)] else []
  {
    assert tasks[..i + 1][..i] == tasks[..i];
  }

  function Views(tasks: seq<ScheduledTask>): (r: seq<Task>)
    reads tasks
    ensures |r| == |tasks|
  {
    seq(|tasks|, i requires 0 <= i < |tasks| reads tasks => tasks[i].View())
  }

  class ProactiveScheduler {
    /** The dictionary of tasks by id, in insertion order. */
    var tasks: seq<ScheduledTask>

    ghost predicate Valid()
      reads this, tasks
    {
      && (forall i, j :: 0 <= i < j < |tasks| ==> tasks[i] != tasks[j])
      && DistinctIds(Contents())
    }

    function Contents(): (r: seq<Task>)
      reads this, tasks
      ensures |r| == |tasks|
    {
      Views(tasks)
    }

    constructor ()
      ensures Valid() && Contents() == []
    {
      tasks := [];
    }

    /** `_claim_due_tasks` */
    method ClaimDueTasks(now: int) returns (claimed: seq<Claim>)
      requires Valid()
      modifies tasks
      ensures Valid()
      ensures Contents() == ClaimAll(old(Contents()), now)
      ensures claimed == ClaimsOf(old(Contents()), now)
    {
      hide ClaimOne, IsClaimed, ClaimFor, DistinctIds, ClaimsOf;
      ghost var was := Contents();
      ClaimKeepsDistinct(was, now);
      NoClaims(now);
      claimed := [];
      assert was[..0] == [];
      for i := 0 to |tasks|
        invariant forall k :: 0 <= k < i ==> tasks[k].View() == ClaimOne(was[k], now)
        invariant forall k :: i <= k < |tasks| ==> tasks[k].View() == was[k]
        invariant claimed == ClaimsOf(was[..i], now)
      {
        OneMoreClaim(was, i, now);
        var claim := tasks[i].Claim(now);
        if claim.Some? {
          claimed := claimed + [claim.value];
        }
      }
      assert was[..|tasks|] == was;
      assert Contents() == ClaimAll(was, now);
    }

    /** Deleting a key of the dictionary. */
    method Delete(id: string)
      requires Valid()
      modifies this
      ensures Valid() && Contents() == Remove(old(Contents()), id)
      ensures forall t :: t in tasks ==> t in old(tasks)
    {
      RemoveKeepsDistinct(Contents(), id);
      ghost var was := Contents();
      var k := Position(Contents(), id);
      if k < |tasks| {
        tasks := tasks[..k] + tasks[k + 1..];
        hide Position, DistinctIds;
        assert Contents() == was[..k] + was[k + 1..];
      }
    }

    /** `schedule`: false when the store is full of tasks that may not be dropped. */
    method Schedule(draft: Task) returns (stored: bool)
      requires Valid()
      modifies this
      ensures Valid()
      ensures Contents() == Scheduled(old(Contents()), AsNew(draft))
      ensures stored == !IsFull(MakeRoom(old(Contents()), AsNew(draft)), AsNew(draft))
    {
      ghost var was := Contents();
      var task := new ScheduledTask(draft);
      assert Contents() == was;
      var userCount := UserCount(Contents());
      if draft.taskType !in INTERNAL_TASK_TYPES {
        if userCount >= MAX_TASKS {
          userCount := DropFinished();
        }
        if userCount >= MAX_TASKS {
          return false;
        }
      }
      Store(task);
      stored := true;
    }

    method Store(task: ScheduledTask)
      requires Valid() && task !in tasks
      modifies this
      ensures Valid() && Contents() == Put(old(Contents()), task.View())
    {
      PutKeepsDistinct(Contents(), task.View());
      ghost var was := Contents();
      var k := Position(Contents(), task.id);
      tasks := if k < |tasks| then tasks[k := task] else tasks + [task];
      hide Position, DistinctIds;
      assert Contents() == if k < |was| then was[k := task.View()] else was + [task.View()];
    }

    /** The cleaning loop of `schedule`. */
    method DropFinished() returns (userCount: nat)
      requires Valid() && UserCount(Contents()) >= MAX_TASKS
      modifies this
      ensures Valid() && forall t :: t in tasks ==> t in old(tasks)
      ensures Contents() == Evict(old(Contents()), Excess(old(Contents())))
      ensures userCount == UserCount(Contents())
    {
      assert DistinctIds(Contents());
      hide *;
      ghost var was := Contents();
      userCount := UserCount(Contents());
      var finished := Finished(Contents());
      EvictIsWhole(was);
      ExcessIsNeeded(was);
      var n := 0;
      while n < |finished|
        invariant finished == Finished(was)
        invariant Valid() && forall t :: t in tasks ==> t in old(tasks)
        invariant n <= |finished| && n < Excess(was)
        invariant Contents() == Evict(was, n) && userCount == UserCount(was) - n
      {
        EvictOneMore(was, n);
        EvictTakesOldest(was, n + 1);
        Delete(finished[n].id);
        userCount := userCount - 1;
        n := n + 1;
        if userCount < MAX_TASKS {
          break;
        }
      }
      EvictTakesOldest(was, n);
      EvictStops(was, n);
    }

    /** `cancel` */
    method Cancel(id: string) returns (found: bool)
      requires Valid()
      modifies this
      ensures Valid() && Contents() == Remove(old(Contents()), id)
      ensures found == Lookup(old(Contents()), id).Some?
    {
      found := Position(Contents(), id) < |tasks|;
      if found {
        Delete(id);
      }
    }

    /** `toggle_task` */
    method ToggleTask(id: string) returns (found: bool)
      requires Valid()
      modifies tasks
      ensures Valid() && Contents() == Toggled(old(Contents()), id)
      ensures found == Lookup(old(Contents()), id).Some?
    {
      ghost var was := Contents();
      ToggleKeepsDistinct(was, id);
      hide DistinctIds, Position;
      var k := Position(Contents(), id);
      if k >= |tasks| {
        return false;
      }
      tasks[k].enabled := !tasks[k].enabled;
      tasks[k].completed := false;
      assert Contents() == Toggled(was, id);
      found := true;
    }
  }
}
