/** Whole runs of the scheduler: which occurrences are claimed, and how often. */
module ScheduleRuns {
  import opened Options
  import opened ScheduledTasks
  import opened ScheduleProperties

  /** One locked section of the scheduler. */
  datatype Event = ClaimDue(now: int) | Add(task: Task) | Drop(id: string) | Switch(id: string)

  function Apply(tasks: seq<Task>, e: Event): seq<Task> {
    match e
    case ClaimDue(now) => ClaimAll(tasks, now)
    case Add(task) => Scheduled(tasks, AsNew(task))
    case Drop(id) => Remove(tasks, id)
    case Switch(id) => Toggled(tasks, id)
  }

  ghost predicate IsRun(states: seq<seq<Task>>, events: seq<Event>) {
    && |states| == |events| + 1 && DistinctIds(states[0])
    && forall i :: 0 <= i < |events| ==> states[i + 1] == Apply(states[i], events[i])
  }

  /** The clock of the ticks never goes back. */
  ghost predicate ClockAdvances(events: seq<Event>) {
    forall i, j :: 0 <= i < j < |events| && events[i].ClaimDue? && events[j].ClaimDue? ==>
      events[i].now <= events[j].now
  }

  type TaskFact = Task -> bool

  /** The fact holds of every stored task with this id. */
  ghost predicate Holds(tasks: seq<Task>, id: string, fact: TaskFact) {
    forall t :: t in tasks && t.id == id ==> fact(t)
  }

  /** No event of this kind makes the fact false for the task with this id. */
  ghost predicate Keeps(e: Event, id: string, fact: TaskFact) {
    match e
    case ClaimDue(now) => forall t: Task :: t.id == id && fact(t) ==> fact(ClaimOne(t, now))
    case Add(task) => task.id != id
    case Drop(_) => true
    case Switch(other) =>
      other == id ==> forall t: Task :: t.id == id && fact(t) ==> fact(t.(enabled := !t.enabled, completed := false))
  }

  lemma ClaimKeepsId(task: Task, now: int)
    ensures ClaimOne(task, now).id == task.id && ClaimOne(task, now).repeat == task.repeat
  {
    hide NextRun;
  }

  lemma StepKeepsDistinct(tasks: seq<Task>, e: Event)
    requires DistinctIds(tasks)
    ensures DistinctIds(Apply(tasks, e))
  {
    hide DistinctIds, ClaimOne, Evict, Put, Remove, Position, Toggled;
    match e {
      case ClaimDue(now) => ClaimKeepsDistinct(tasks, now);
      case Add(task) =>
        EvictIsSubsequence(tasks, Excess(tasks));
        PutKeepsDistinct(MakeRoom(tasks, AsNew(task)), AsNew(task));
      case Drop(id) => RemoveKeepsDistinct(tasks, id);
      case Switch(id) => ToggleKeepsDistinct(tasks, id);
    }
  }

  lemma StepKeepsFact(tasks: seq<Task>, e: Event, id: string, fact: TaskFact)
    requires DistinctIds(tasks) && Holds(tasks, id, fact) && Keeps(e, id, fact)
    ensures Holds(Apply(tasks, e), id, fact)
  {
    hide ClaimOne, Evict, Position;
    forall t | t in Apply(tasks, e) && t.id == id
      ensures fact(t)
    {
      match e {
        case ClaimDue(now) =>
          var i :| 0 <= i < |tasks| && t == ClaimOne(tasks[i], now);
          ClaimKeepsId(tasks[i], now);
          assert tasks[i] in tasks;
        case Add(task) =>
          EvictIsSubsequence(tasks, Excess(tasks));
          assert t in tasks;
        case Drop(_) =>
          assert t in tasks;
        case Switch(other) =>
          var k := Position(tasks, other);
          assert t in tasks ||
                 (&& k < |tasks| && tasks[k] in tasks
                  && t == tasks[k].(enabled := !tasks[k].enabled, completed := false));
      }
    }
  }

  lemma {:induction false} RunKeepsDistinct(states: seq<seq<Task>>, events: seq<Event>, i: nat)
    requires IsRun(states, events) && i <= |events|
    ensures DistinctIds(states[i])
  {
    if i > 0 {
      RunKeepsDistinct(states, events, i - 1);
      StepKeepsDistinct(states[i - 1], events[i - 1]);
    }
  }

  lemma {:induction false} RunKeepsFact(
    states: seq<seq<Task>>, events: seq<Event>, i: nat, j: nat, id: string, fact: TaskFact)
    requires IsRun(states, events) && i <= j <= |events| && Holds(states[i], id, fact)
    requires forall k :: i <= k < j ==> Keeps(events[k], id, fact)
    ensures Holds(states[j], id, fact)
    decreases j
  {
    if i < j {
      RunKeepsFact(states, events, i, j - 1, id, fact);
      RunKeepsDistinct(states, events, j - 1);
      StepKeepsFact(states[j - 1], events[j - 1], id, fact);
    }
  }

  /** Right after a tick the claimed task is the only one with its id. */
  lemma HoldsAfterTick(tasks: seq<Task>, now: int, task: Task, fact: TaskFact)
    requires DistinctIds(tasks) && task in tasks && fact(ClaimOne(task, now))
    ensures Holds(ClaimAll(tasks, now), task.id, fact)
  {
    hide ClaimOne;
    var after := ClaimAll(tasks, now);
    forall t | t in after && t.id == task.id
      ensures fact(t)
    {
      var i :| 0 <= i < |after| && t == after[i];
      ClaimKeepsId(tasks[i], now);
    }
  }

  /** The next run lies after `c`. */
  function LaterThan(c: int): TaskFact {
    (t: Task) => t.nextRun.Some? && t.nextRun.value > c
  }

  function SwitchedOff(): TaskFact {
    (t: Task) => !t.enabled
  }

  lemma LaterIsKept(e: Event, id: string, c: int)
    requires e.ClaimDue? ==> c <= e.now
    requires e.Add? ==> e.task.id != id
    ensures Keeps(e, id, LaterThan(c))
  {
    hide NextRun;
    if e.ClaimDue? {
      forall t: Task | t.id == id && LaterThan(c)(t)
        ensures LaterThan(c)(ClaimOne(t, e.now))
      {
        NextRunIsLater(t, t.nextRun.value, e.now);
      }
    }
  }

  lemma OffIsKept(e: Event, id: string)
    requires e.Add? ==> e.task.id != id
    requires e.Switch? ==> e.id != id
    ensures Keeps(e, id, SwitchedOff())
  {
  }

  /**
   No occurrence is claimed twice. When a task that was claimed at event `i` is claimed again at
   event `j`, without having been scheduled anew in between, then either it repeats and its due time
   lies after the first claim, or it is a one-shot task that was switched in between.
   */
  lemma ClaimedOnce(states: seq<seq<Task>>, events: seq<Event>, i: nat, j: nat, first: Task, again: Task)
    requires IsRun(states, events) && ClockAdvances(events) && i < j < |events|
    requires events[i].ClaimDue? && first in states[i] && IsClaimed(first, events[i].now)
    requires events[j].ClaimDue? && again in states[j] && IsClaimed(again, events[j].now) && again.id == first.id
    requires forall k :: i < k < j && events[k].Add? ==> events[k].task.id != first.id
    ensures first.repeat ==> first.nextRun.value <= events[i].now < again.nextRun.value
    ensures !first.repeat ==> exists k :: i < k < j && events[k] == Switch(first.id)
  {
    var c, id := events[i].now, first.id;
    RunKeepsDistinct(states, events, i);
    hide DistinctIds, NextRun, Apply;
    assert states[i + 1] == ClaimAll(states[i], c) by { ApplyTick(states[i], c); }
    if first.repeat {
      NextRunIsLater(first, first.nextRun.value, c);
      HoldsAfterTick(states[i], c, first, LaterThan(c));
      forall k | i + 1 <= k < j
        ensures Keeps(events[k], id, LaterThan(c))
      {
        LaterIsKept(events[k], id, c);
      }
      RunKeepsFact(states, events, i + 1, j, id, LaterThan(c));
    } else if forall k :: i < k < j ==> events[k] != Switch(id) {
      HoldsAfterTick(states[i], c, first, SwitchedOff());
      forall k | i + 1 <= k < j
        ensures Keeps(events[k], id, SwitchedOff())
      {
        assert events[k] != Switch(id);
        OffIsKept(events[k], id);
      }
      RunKeepsFact(states, events, i + 1, j, id, SwitchedOff());
    }
  }

  lemma ApplyTick(tasks: seq<Task>, now: int)
    ensures Apply(tasks, ClaimDue(now)) == ClaimAll(tasks, now)
  {
  }

  /** A repeating task with a rhythm whose next run is at least `least`. */
  function AtLeast(least: int): TaskFact {
    (t: Task) => t.repeat && HasRhythm(t) && t.nextRun.Some? && t.nextRun.value >= least
  }

  lemma ClaimKeepsRhythm(task: Task, now: int)
    ensures HasRhythm(ClaimOne(task, now)) == HasRhythm(task)
  {
    hide NextRun;
  }

  lemma AtLeastIsKept(e: Event, id: string, least: int)
    requires e.Add? ==> e.task.id != id
    ensures Keeps(e, id, AtLeast(least))
  {
    hide NextRun, Contains;
    if e.ClaimDue? {
      forall t: Task | t.id == id && AtLeast(least)(t)
        ensures AtLeast(least)(ClaimOne(t, e.now))
      {
        ClaimKeepsRhythm(t, e.now);
        if IsTouched(t, e.now) {
          TouchMovesForward(t, e.now);
        }
      }
    }
  }

  /** The next run of a repeating task with a rhythm never goes back, and goes on when a claim touches it. */
  lemma NextRunOnlyIncreases(
    states: seq<seq<Task>>, events: seq<Event>, i: nat, j: nat, before: Task, after: Task)
    requires IsRun(states, events) && i < j <= |events|
    requires before in states[i] && after in states[j] && before.id == after.id
    requires before.repeat && HasRhythm(before) && before.nextRun.Some?
    requires forall k :: i <= k < j && events[k].Add? ==> events[k].task.id != before.id
    ensures after.nextRun.Some? && before.nextRun.value <= after.nextRun.value
    ensures events[i].ClaimDue? && IsTouched(before, events[i].now) ==> before.nextRun.value < after.nextRun.value
  {
    var id, due := before.id, before.nextRun.value;
    RunKeepsDistinct(states, events, i);
    HoldsAtFirst(states[i], before, AtLeast(due));
    forall k | i <= k < j
      ensures Keeps(events[k], id, AtLeast(due)) && Keeps(events[k], id, AtLeast(due + 1))
    {
      AtLeastIsKept(events[k], id, due);
      AtLeastIsKept(events[k], id, due + 1);
    }
    hide DistinctIds, NextRun, Apply, Keeps, HasRhythm;
    RunKeepsFact(states, events, i, j, id, AtLeast(due));
    if events[i].ClaimDue? && IsTouched(before, events[i].now) {
      TouchMovesForward(before, events[i].now);
      ClaimKeepsRhythm(before, events[i].now);
      ClaimKeepsId(before, events[i].now);
      ApplyTick(states[i], events[i].now);
      HoldsAfterTick(states[i], events[i].now, before, AtLeast(due + 1));
      RunKeepsFact(states, events, i + 1, j, id, AtLeast(due + 1));
    }
  }

  lemma HoldsAtFirst(tasks: seq<Task>, task: Task, fact: TaskFact)
    requires DistinctIds(tasks) && task in tasks && fact(task)
    ensures Holds(tasks, task.id, fact)
  {
  }

  // ---------- what may be dropped ----------

  /** A one-shot task that this event hands to its executor. */
  predicate RunsOnce(e: Event, u: Task) {
    e.ClaimDue? && IsClaimed(u, e.now) && !u.repeat
  }

  lemma ClaimedFrom(tasks: seq<Task>, now: int, t: Task) returns (u: Task)
    requires t in ClaimAll(tasks, now) && t.completed
    ensures u in tasks && u.id == t.id && (u.completed || RunsOnce(ClaimDue(now), u))
  {
    hide NextRun;
    var i :| 0 <= i < |tasks| && t == ClaimOne(tasks[i], now);
    u := tasks[i];
  }

  lemma CompletedStep(tasks: seq<Task>, e: Event, t: Task) returns (u: Task)
    requires DistinctIds(tasks) && t in Apply(tasks, e) && t.completed
    ensures u in tasks && u.id == t.id && (u.completed || RunsOnce(e, u))
  {
    hide NextRun, Evict, Position, IsExceptDate, ClaimAll;
    match e {
      case ClaimDue(now) => u := ClaimedFrom(tasks, now, t);
      case Add(task) =>
        EvictIsSubsequence(tasks, Excess(tasks));
        u := t;
      case Drop(_) =>
        u := t;
      case Switch(other) =>
        u := t;
    }
  }

  /** A task counts as completed, and may be dropped to make room, only after it was handed on once. */
  lemma {:induction false} CompletedWasClaimed(states: seq<seq<Task>>, events: seq<Event>, j: nat, t: Task)
    returns (i: nat, u: Task)
    requires IsRun(states, events) && states[0] == [] && j <= |events| && t in states[j] && t.completed
    ensures i < j && u in states[i] && u.id == t.id && RunsOnce(events[i], u)
  {
    assert j > 0;
    RunKeepsDistinct(states, events, j - 1);
    u := CompletedStep(states[j - 1], events[j - 1], t);
    if RunsOnce(events[j - 1], u) {
      i := j - 1;
    } else {
      i, u := CompletedWasClaimed(states, events, j - 1, u);
    }
  }

  // ---------- the limit over whole runs ----------

  /** At most as many user tasks as before, after any event that stores none. */
  lemma {:induction false} CountsOfRemove(tasks: seq<Task>, id: string)
    ensures UserCount(Remove(tasks, id)) <= UserCount(tasks)
  {
    if tasks != [] {
      if tasks[0].id == id {
        RemoveFirst(tasks);
      } else {
        CountsOfRemove(tasks[1..], id);
        RemoveBehind(tasks[0], tasks[1..], id);
        assert [tasks[0]] + tasks[1..] == tasks;
        assert ([tasks[0]] + Remove(tasks[1..], id))[1..] == Remove(tasks[1..], id);
      }
    }
  }

  lemma {:induction false} SameTypesCount(a: seq<Task>, b: seq<Task>)
    requires |a| == |b| && forall i :: 0 <= i < |a| ==> a[i].taskType == b[i].taskType
    ensures UserCount(a) == UserCount(b)
  {
    if a != [] {
      SameTypesCount(a[1..], b[1..]);
    }
  }

  /** Storing one of the application's own tasks adds no user task. */
  lemma {:induction false} CountsOfInternal(tasks: seq<Task>, task: Task)
    requires !IsUser(task)
    ensures UserCount(Put(tasks, task)) <= UserCount(tasks)
  {
    if tasks != [] && tasks[0].id != task.id {
      CountsOfInternal(tasks[1..], task);
      assert Put(tasks, task)[1..] == Put(tasks[1..], task);
    } else if tasks != [] {
      assert Put(tasks, task)[1..] == tasks[1..];
    }
  }

  lemma StepKeepsLimit(tasks: seq<Task>, e: Event)
    requires UserCount(tasks) <= MAX_TASKS
    ensures UserCount(Apply(tasks, e)) <= MAX_TASKS
  {
    hide UserCount, Position, NextRun, Evict, Put, Remove, MakeRoom;
    match e {
      case ClaimDue(now) =>
        forall i | 0 <= i < |tasks|
          ensures ClaimAll(tasks, now)[i].taskType == tasks[i].taskType
        {
        }
        SameTypesCount(ClaimAll(tasks, now), tasks);
      case Add(task) => AddKeepsLimit(tasks, AsNew(task));
      case Drop(id) => CountsOfRemove(tasks, id);
      case Switch(id) => SameTypesCount(Toggled(tasks, id), tasks);
    }
  }

  lemma AddKeepsLimit(tasks: seq<Task>, task: Task)
    requires UserCount(tasks) <= MAX_TASKS
    ensures UserCount(Scheduled(tasks, task)) <= MAX_TASKS
  {
    if !IsUser(task) {
      CountsOfInternal(tasks, task);
    } else if IsFull(MakeRoom(tasks, task), task) {
      FailureWithinLimit(tasks, task);
    } else {
      var dropped := ScheduleKeepsLimit(tasks, task);
    }
  }

  /** A store that started empty never holds more user tasks than the limit. */
  lemma {:induction false} RunKeepsLimit(states: seq<seq<Task>>, events: seq<Event>, i: nat)
    requires IsRun(states, events) && states[0] == [] && i <= |events|
    ensures UserCount(states[i]) <= MAX_TASKS
  {
    if i > 0 {
      RunKeepsLimit(states, events, i - 1);
      StepKeepsLimit(states[i - 1], events[i - 1]);
    }
  }

  /** So in such a run a call of `schedule` that fails changes nothing. */
  lemma FailedAddChangesNothing(states: seq<seq<Task>>, events: seq<Event>, i: nat)
    requires IsRun(states, events) && states[0] == [] && i < |events| && events[i].Add?
    requires var task := AsNew(events[i].task); IsFull(MakeRoom(states[i], task), task)
    ensures states[i + 1] == states[i]
  {
    RunKeepsLimit(states, events, i);
    FailureWithinLimit(states[i], AsNew(events[i].task));
  }
}
