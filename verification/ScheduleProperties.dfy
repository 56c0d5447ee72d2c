/** What the scheduler's steps promise: the next occurrence, single claims, the task limit. */
module ScheduleProperties {
  import opened Options
  import opened ScheduledTasks

  // ---------- the next occurrence ----------

  /** An instant at which the task may run: after `now`, on no exception date, on a weekday if required. */
  predicate Good(task: Task, t: int, now: int) {
    Usable(task, t, now) && (WeekdaysOnly(task) ==> Weekday(t) < 5)
  }

  /** The `k`-th instant of the task's rhythm after `t`. */
  function Tick(t: int, step: int, k: nat): int {
    t + k * step
  }

  lemma TickShifts(t: int, step: int, k: nat)
    ensures Tick(t + step, step, k) == Tick(t, step, k + 1)
    ensures Tick(t, step, 0) == t && Tick(t, step, 1) == t + step
  {
  }

  lemma TickGrows(t: int, step: int, j: nat, k: nat)
    requires step > 0 && j < k
    ensures Tick(t, step, j) < Tick(t, step, k)
  {
    assert (k - j) * step > 0;
  }

  lemma TickReflects(t: int, step: int, j: nat, k: nat)
    requires step > 0 && Tick(t, step, j) < Tick(t, step, k)
    ensures j < k
  {
    if k < j {
      TickGrows(t, step, k, j);
    }
  }

  ghost function ToHorizon(task: Task, t: int, now: int): (d: nat) {
    var h := Horizon(task.exceptDates, now);
    if t < h then h - t else 0
  }

  lemma HorizonNears(task: Task, t: int, now: int)
    ensures t < Horizon(task.exceptDates, now) ==> ToHorizon(task, t + Stride(task), now) < ToHorizon(task, t, now)
    ensures t >= Horizon(task.exceptDates, now) ==> ToHorizon(task, t + Stride(task), now) == ToHorizon(task, t, now)
  {
  }

  /** Candidate `t` itself, or whatever the search finds one stride later. */
  lemma SeekSteps(task: Task, t: int, now: int)
    requires WeekdaysOnly(task) ==> Stride(task) == DAY
    ensures Seek(task, t, now) == if Good(task, t, now) then t else Seek(task, t + Stride(task), now)
    ensures !Good(task, t, now) && t >= Horizon(task.exceptDates, now) ==> ToMonday(t + Stride(task)) < ToMonday(t)
  {
    hide Horizon, IsExceptDate, Contains;
    NextDay(t);
    if !Usable(task, t, now) {
      UnusableIsEarly(task, t, now);
    }
    if WeekdaysOnly(task) && Weekday(t) >= 5 {
      assert SkipWeekend(t) == SkipWeekend(t + DAY);
    }
  }

  lemma {:induction false} SeekIsLeast(task: Task, t: int, now: int) returns (k: nat)
    requires WeekdaysOnly(task) ==> Stride(task) == DAY
    ensures Seek(task, t, now) == Tick(t, Stride(task), k) && Good(task, Seek(task, t, now), now)
    ensures forall j: nat :: j < k ==> !Good(task, Tick(t, Stride(task), j), now)
    decreases ToHorizon(task, t, now), ToMonday(t)
  {
    hide *;
    SeekSteps(task, t, now);
    HorizonNears(task, t, now);
    var step := Stride(task);
    TickShifts(t, step, 0);
    if Good(task, t, now) {
      k := 0;
    } else {
      var rest := SeekIsLeast(task, t + step, now);
      TickShifts(t, step, rest);
      k := rest + 1;
      forall j: nat | j < k
        ensures !Good(task, Tick(t, step, j), now)
      {
        if j > 0 {
          TickShifts(t, step, j - 1);
        }
      }
    }
  }

  /** Daily and weekday tasks that keep whole days, weekly, hourly and fixed-interval tasks. */
  predicate IsPeriodic(task: Task) {
    if task.repeatRule == "daily" || WeekdaysOnly(task) then task.repeatSeconds <= 0 || task.repeatSeconds == DAY
    else task.repeatRule == "weekly" || task.repeatRule == "hourly" || task.repeatSeconds > 0
  }

  /**
   The next run of a periodic task is the earliest instant of its rhythm, counted from the last due
   time, that lies after now, on no exception date and on a weekday if the task asks for that.
   */
  lemma NextRunIsLeast(task: Task, lastDue: int, now: int) returns (k: nat)
    requires IsPeriodic(task)
    ensures k >= 1 && NextRun(task, lastDue, now) == Tick(lastDue, Stride(task), k)
    ensures Good(task, NextRun(task, lastDue, now), now)
    ensures forall j: nat :: 1 <= j < k ==> !Good(task, Tick(lastDue, Stride(task), j), now)
  {
    var step := Stride(task);
    assert FirstCandidate(task, lastDue, now) == lastDue + step;
    hide Contains, Usable, Seek;
    var rest := SeekIsLeast(task, lastDue + step, now);
    TickShifts(lastDue, step, rest);
    k := rest + 1;
    forall j: nat | 1 <= j < k
      ensures !Good(task, Tick(lastDue, step, j), now)
    {
      TickShifts(lastDue, step, j - 1);
    }
  }

  /** Whatever the task looks like, its next run is a usable instant after now, on a weekday if asked. */
  lemma {:induction false} SeekIsGood(task: Task, t: int, now: int)
    ensures Good(task, Seek(task, t, now), now) && t <= Seek(task, t, now)
    decreases Horizon(task.exceptDates, now) - t
  {
    hide Horizon, Contains, IsExceptDate, Weekday, DateOf;
    var u := Adjusted(task, t);
    if !Usable(task, u, now) {
      UnusableIsEarly(task, u, now);
      SeekIsGood(task, u + Stride(task), now);
    }
  }

  lemma NextRunIsLater(task: Task, lastDue: int, now: int)
    ensures Good(task, NextRun(task, lastDue, now), now) && NextRun(task, lastDue, now) > now
    ensures NextRun(task, lastDue, now) >= FirstCandidate(task, lastDue, now)
  {
    SeekIsGood(task, FirstCandidate(task, lastDue, now), now);
  }

  // ---------- claiming ----------

  predicate IsTouched(task: Task, now: int) {
    OnExceptDate(task) || IsClaimed(task, now)
  }

  /** A task without any rhythm is moved on from now instead of from its due time. */
  predicate HasRhythm(task: Task) {
    || task.repeatRule == "daily" || WeekdaysOnly(task) || task.repeatRule == "weekly"
    || task.repeatRule == "hourly" || task.repeatSeconds > 0
  }

  /**
   Touching a repeating task moves its next run forward, always when it has a rhythm and otherwise
   exactly when every day from now up to the due time is an exception date.
   */
  lemma TouchMovesForward(task: Task, now: int)
    requires task.repeat && IsTouched(task, now)
    ensures ClaimOne(task, now).nextRun.Some?
    ensures var due, next := task.nextRun.value, ClaimOne(task, now).nextRun.value;
            && (HasRhythm(task) ==> next > due)
            && (!HasRhythm(task) ==>
                  (next > due <==>
                   forall k: nat :: k >= 1 && Tick(now, DAY, k) <= due ==> IsExceptDate(task, Tick(now, DAY, k))))
  {
    var due := task.nextRun.value;
    var next := ClaimOne(task, now).nextRun.value;
    assert next == NextRun(task, due, now);
    NextRunIsLater(task, due, now);
    if !HasRhythm(task) {
      RhythmlessNextRun(task, due, now);
    }
  }

  lemma RhythmlessNextRun(task: Task, due: int, now: int)
    requires !HasRhythm(task)
    ensures NextRun(task, due, now) > due <==>
            forall k: nat :: k >= 1 && Tick(now, DAY, k) <= due ==> IsExceptDate(task, Tick(now, DAY, k))
  {
    assert FirstCandidate(task, due, now) == now + DAY && Stride(task) == DAY && !WeekdaysOnly(task);
    var rest := SeekIsLeast(task, now + DAY, now);
    var next := NextRun(task, due, now);
    assert !IsExceptDate(task, next);
    hide HasRhythm, NextRun, Seek, IsExceptDate, Stride, FirstCandidate, WeekdaysOnly, Tick;
    TickShifts(now, DAY, rest);
    if next <= due {
      assert Tick(now, DAY, rest + 1) <= due;
    } else {
      forall k: nat | k >= 1 && Tick(now, DAY, k) <= due
        ensures IsExceptDate(task, Tick(now, DAY, k))
      {
        TickReflects(now, DAY, k, rest + 1);
        TickShifts(now, DAY, k - 1);
        TickShifts(now, DAY, 0);
        TickGrows(now, DAY, 0, k);
        assert !Good(task, Tick(now + DAY, DAY, k - 1), now);
      }
    }
  }

  /** A task without rhythm can step back: due on an exception date in three days, it runs tomorrow. */
  lemma RhythmlessCanStepBack()
    ensures exists task: Task, now: int :: task.repeat && IsTouched(task, now)
              && ClaimOne(task, now).nextRun.Some? && ClaimOne(task, now).nextRun.value < task.nextRun.value
  {
    var task := Task("t", "agent", "", true, 0, "", [3], Some(3 * DAY), true, false, None);
    assert Seek(task, DAY, 0) == DAY;
    assert IsTouched(task, 0) && ClaimOne(task, 0).nextRun == Some(DAY);
  }

  lemma ClaimOneTwice(task: Task, now: int)
    ensures var after := ClaimOne(task, now);
            && !IsTouched(after, now) && ClaimOne(after, now) == after
            && after.id == task.id && after.repeat == task.repeat
  {
    if IsTouched(task, now) && task.repeat {
      NextRunIsLater(task, task.nextRun.value, now);
    }
    hide NextRun;
  }

  /** Claiming again at the same instant claims nothing and changes nothing. */
  lemma ClaimIsIdempotent(tasks: seq<Task>, now: int)
    ensures ClaimAll(ClaimAll(tasks, now), now) == ClaimAll(tasks, now)
    ensures ClaimsOf(ClaimAll(tasks, now), now) == []
  {
    var after := ClaimAll(tasks, now);
    forall i | 0 <= i < |tasks|
      ensures !IsClaimed(after[i], now) && ClaimOne(after[i], now) == after[i]
    {
      ClaimOneTwice(tasks[i], now);
    }
    hide ClaimOne, IsClaimed;
    NothingClaimed(after, now);
  }

  lemma {:induction false} NothingClaimed(tasks: seq<Task>, now: int)
    requires forall i :: 0 <= i < |tasks| ==> !IsClaimed(tasks[i], now)
    ensures ClaimsOf(tasks, now) == []
  {
    hide IsClaimed;
    if tasks != [] {
      NothingClaimed(tasks[..|tasks| - 1], now);
    }
  }

  // ---------- storing tasks ----------

  function Others(tasks: seq<Task>): seq<Task> {
    if tasks == [] then [] else (if IsFinished(tasks[0]) then [] else [tasks[0]]) + Others(tasks[1..])
  }

  /** Evicting takes finished tasks only, the oldest first, and leaves the rest in order. */
  lemma {:induction false} EvictTakesOldest(tasks: seq<Task>, n: nat)
    requires n <= |Finished(tasks)|
    ensures Finished(Evict(tasks, n)) == Finished(tasks)[n..]
    ensures Others(Evict(tasks, n)) == Others(tasks)
    ensures UserCount(Evict(tasks, n)) == UserCount(tasks) - n
    decreases |tasks|
  {
    if n > 0 && tasks != [] {
      if IsFinished(tasks[0]) {
        EvictTakesOldest(tasks[1..], n - 1);
      } else {
        EvictTakesOldest(tasks[1..], n);
        assert ([tasks[0]] + Evict(tasks[1..], n))[1..] == Evict(tasks[1..], n);
      }
    }
  }

  lemma {:induction false} EvictAll(tasks: seq<Task>, n: nat)
    requires n >= |Finished(tasks)|
    ensures Evict(tasks, n) == Evict(tasks, |Finished(tasks)|) && Finished(Evict(tasks, n)) == []
    decreases |tasks|
  {
    if tasks != [] {
      if IsFinished(tasks[0]) {
        EvictAll(tasks[1..], n - 1);
      } else {
        EvictAll(tasks[1..], n);
        assert ([tasks[0]] + Evict(tasks[1..], n))[1..] == Evict(tasks[1..], n);
      }
    }
  }

  /** The loop may stop when it has dropped enough or has nothing left to drop. */
  lemma EvictStops(tasks: seq<Task>, n: nat)
    requires n <= Excess(tasks) && n <= |Finished(tasks)|
    requires n == Excess(tasks) || n == |Finished(tasks)|
    ensures Evict(tasks, n) == Evict(tasks, Excess(tasks))
  {
    if n == |Finished(tasks)| {
      EvictAll(tasks, Excess(tasks));
    }
  }

  lemma ExcessIsNeeded(tasks: seq<Task>)
    requires UserCount(tasks) >= MAX_TASKS
    ensures Excess(tasks) == UserCount(tasks) - MAX_TASKS + 1
  {
  }

  lemma {:induction false} CountSplits(tasks: seq<Task>)
    ensures UserCount(tasks) == UserCount(Others(tasks)) + |Finished(tasks)|
  {
    if tasks != [] {
      CountSplits(tasks[1..]);
      if IsFinished(tasks[0]) {
        assert Others(tasks) == Others(tasks[1..]);
      } else {
        assert ([tasks[0]] + Others(tasks[1..]))[1..] == Others(tasks[1..]);
      }
    }
  }

  lemma {:induction false} CountsOfPut(tasks: seq<Task>, task: Task)
    ensures UserCount(Put(tasks, task)) <= UserCount(tasks) + 1
  {
    if tasks != [] && tasks[0].id != task.id {
      CountsOfPut(tasks[1..], task);
      assert Put(tasks, task)[1..] == Put(tasks[1..], task);
    } else if tasks != [] {
      assert Put(tasks, task)[1..] == tasks[1..];
    }
  }

  /**
   Storing a user's task drops the oldest finished tasks, no more of them than needed and nothing
   else; it fails exactly when the unfinished user tasks alone reach the limit, and otherwise leaves
   no more user tasks than the limit.
   */
  lemma ScheduleKeepsLimit(tasks: seq<Task>, task: Task) returns (dropped: nat)
    requires IsUser(task)
    ensures var room := MakeRoom(tasks, task);
            && dropped <= |Finished(tasks)| && Finished(room) == Finished(tasks)[dropped..]
            && Others(room) == Others(tasks)
            && (dropped > 0 ==> UserCount(tasks) - (dropped - 1) >= MAX_TASKS)
            && (IsFull(room, task) <==> UserCount(Others(tasks)) >= MAX_TASKS)
            && (!IsFull(room, task) ==> UserCount(Scheduled(tasks, task)) <= MAX_TASKS)
            && (IsFull(room, task) ==> Scheduled(tasks, task) == Others(tasks))
  {
    dropped := if Excess(tasks) <= |Finished(tasks)| then Excess(tasks) else |Finished(tasks)|;
    if Excess(tasks) > |Finished(tasks)| {
      EvictAll(tasks, Excess(tasks));
    }
    EvictTakesOldest(tasks, dropped);
    CountSplits(tasks);
    var room := MakeRoom(tasks, task);
    CountSplits(room);
    CountsOfPut(room, task);
    if IsFull(room, task) {
      NoneFinished(room);
    }
  }

  lemma {:induction false} NoneFinished(tasks: seq<Task>)
    requires Finished(tasks) == []
    ensures Others(tasks) == tasks
  {
    if tasks != [] {
      NoneFinished(tasks[1..]);
    }
  }

  /** A call that fails has dropped tasks exactly when there were finished ones. */
  lemma FailedScheduleDrops(tasks: seq<Task>, task: Task)
    requires IsUser(task) && IsFull(MakeRoom(tasks, task), task)
    ensures Scheduled(tasks, task) == Others(tasks)
    ensures Scheduled(tasks, task) == tasks <==> Finished(tasks) == []
    ensures Finished(tasks) != [] ==> UserCount(tasks) > MAX_TASKS
  {
    var dropped := ScheduleKeepsLimit(tasks, task);
    CountSplits(tasks);
    if Finished(tasks) == [] {
      NoneFinished(tasks);
    } else {
      OthersAreFewer(tasks);
    }
  }

  lemma {:induction false} OthersAreFewer(tasks: seq<Task>)
    ensures |Others(tasks)| == |tasks| - |Finished(tasks)|
  {
    if tasks != [] {
      OthersAreFewer(tasks[1..]);
    }
  }

  /** A failing call changes nothing in a store within the limit. */
  lemma FailureWithinLimit(tasks: seq<Task>, task: Task)
    requires IsUser(task) && IsFull(MakeRoom(tasks, task), task) && UserCount(tasks) <= MAX_TASKS
    ensures Scheduled(tasks, task) == tasks
  {
    FailedScheduleDrops(tasks, task);
  }

  /** A user's task with this number. */
  function UserTask(n: nat, finished: bool): Task {
    Task(seq(n, _ => 'x'), "agent", "", false, 0, "", [], None, !finished, finished, None)
  }

  /** A store with one finished task in front of `n` others. */
  function OverFull(n: nat): seq<Task> {
    [UserTask(0, true)] + seq(n, i requires 0 <= i < n => UserTask(i + 1, false))
  }

  lemma {:induction false} AllUnfinished(tasks: seq<Task>)
    requires forall t :: t in tasks ==> IsUser(t) && !IsFinished(t)
    ensures Finished(tasks) == [] && UserCount(tasks) == |tasks|
  {
    if tasks != [] {
      assert tasks[0] in tasks && forall t :: t in tasks[1..] ==> t in tasks;
      AllUnfinished(tasks[1..]);
    }
  }

  lemma OverFullIsDistinct(n: nat)
    ensures DistinctIds(OverFull(n))
  {
    var tasks := OverFull(n);
    forall i, j | 0 <= i < j < |tasks|
      ensures tasks[i].id != tasks[j].id
    {
      assert |tasks[i].id| == i && |tasks[j].id| == j;
    }
  }

  lemma OverFullParts(n: nat)
    ensures Others(OverFull(n)) == OverFull(n)[1..] && Finished(OverFull(n)) == [UserTask(0, true)]
    ensures UserCount(OverFull(n)[1..]) == n
  {
    var rest := OverFull(n)[1..];
    assert forall i :: 0 <= i < n ==> rest[i] == UserTask(i + 1, false);
    hide OverFull;
    AllUnfinished(rest);
    NoneFinished(rest);
  }

  /** There, with fifty others or more, the call fails and the finished task is gone all the same. */
  lemma FailedScheduleCanDrop(n: nat, task: Task)
    requires n >= MAX_TASKS && IsUser(task)
    ensures DistinctIds(OverFull(n)) && IsFull(MakeRoom(OverFull(n), task), task)
    ensures Scheduled(OverFull(n), task) == OverFull(n)[1..] && IsFinished(OverFull(n)[0])
  {
    assert OverFull(n)[0] == UserTask(0, true) && IsFinished(UserTask(0, true));
    hide *;
    OverFullIsDistinct(n);
    OverFullParts(n);
    var dropped := ScheduleKeepsLimit(OverFull(n), task);
    FailedScheduleDrops(OverFull(n), task);
  }

  // ---------- one change at a time ----------

  lemma {:induction false} EvictIsSubsequence(tasks: seq<Task>, n: nat)
    requires DistinctIds(tasks)
    ensures DistinctIds(Evict(tasks, n))
    ensures forall t :: t in Evict(tasks, n) ==> t in tasks
    decreases |tasks|
  {
    if n > 0 && tasks != [] {
      if IsFinished(tasks[0]) {
        EvictIsSubsequence(tasks[1..], n - 1);
      } else {
        EvictIsSubsequence(tasks[1..], n);
        forall t | t in Evict(tasks[1..], n)
          ensures t.id != tasks[0].id
        {
          assert t in tasks[1..];
        }
      }
    }
  }

  lemma EvictUnfolds(tasks: seq<Task>, n: nat)
    requires tasks != []
    ensures Evict(tasks, 0) == tasks
    ensures IsFinished(tasks[0]) ==>
            Finished(tasks) == [tasks[0]] + Finished(tasks[1..]) && Evict(tasks, n + 1) == Evict(tasks[1..], n)
    ensures !IsFinished(tasks[0]) ==>
            Finished(tasks) == Finished(tasks[1..]) && Evict(tasks, n) == [tasks[0]] + Evict(tasks[1..], n)
  {
  }

  /** What `EvictOneMore` says of one list. */
  predicate OneMore(tasks: seq<Task>, n: nat)
    requires n < |Finished(tasks)|
  {
    && Remove(Evict(tasks, n), Finished(tasks)[n].id) == Evict(tasks, n + 1)
    && Finished(tasks)[n] in Evict(tasks, n)
  }

  lemma OneMoreBehindFinished(tasks: seq<Task>, n: nat)
    requires tasks != [] && IsFinished(tasks[0]) && n < |Finished(tasks[1..])| && OneMore(tasks[1..], n)
    ensures n + 1 < |Finished(tasks)| && OneMore(tasks, n + 1)
  {
    EvictUnfolds(tasks, n);
    EvictUnfolds(tasks, n + 1);
    hide Evict, Finished, Remove, IsFinished;
    assert Finished(tasks)[n + 1] == Finished(tasks[1..])[n];
  }

  lemma OneMoreAtFront(tasks: seq<Task>)
    requires tasks != [] && IsFinished(tasks[0])
    ensures 0 < |Finished(tasks)| && OneMore(tasks, 0)
  {
    EvictUnfolds(tasks, 0);
    RemoveFirst(tasks);
    EvictIsWhole(tasks[1..]);
    hide Evict, Finished, Remove, IsFinished;
    assert Finished(tasks)[0] == tasks[0];
  }

  lemma OneMoreBehindOther(tasks: seq<Task>, n: nat)
    requires tasks != [] && !IsFinished(tasks[0]) && DistinctIds(tasks)
    requires n < |Finished(tasks[1..])| && OneMore(tasks[1..], n)
    ensures n < |Finished(tasks)| && OneMore(tasks, n)
  {
    var rest := tasks[1..];
    DistinctTail(tasks);
    EvictUnfolds(tasks, n);
    EvictUnfolds(tasks, n + 1);
    EvictIsSubsequence(rest, n);
    hide Evict, Finished, Remove, IsFinished, DistinctIds;
    var gone := Finished(rest)[n];
    assert gone in rest;
    RemoveBehind(tasks[0], Evict(rest, n), gone.id);
    StillIn(tasks[0], Evict(rest, n), gone);
  }

  /** Deleting the next finished task by its id evicts one more. */
  lemma {:induction false} EvictOneMore(tasks: seq<Task>, n: nat)
    requires DistinctIds(tasks) && n < |Finished(tasks)|
    ensures Remove(Evict(tasks, n), Finished(tasks)[n].id) == Evict(tasks, n + 1)
    ensures Finished(tasks)[n] in Evict(tasks, n)
    ensures OneMore(tasks, n)
    decreases |tasks|
  {
    assert tasks != [];
    DistinctTail(tasks);
    EvictUnfolds(tasks, n);
    hide Evict, Finished, Remove, IsFinished, DistinctIds;
    if IsFinished(tasks[0]) {
      if n > 0 {
        EvictOneMore(tasks[1..], n - 1);
        OneMoreBehindFinished(tasks, n - 1);
      } else {
        OneMoreAtFront(tasks);
      }
    } else {
      EvictOneMore(tasks[1..], n);
      OneMoreBehindOther(tasks, n);
    }
  }

  lemma StillIn(first: Task, rest: seq<Task>, t: Task)
    requires t in rest
    ensures t in [first] + rest
  {
  }

  lemma DistinctTail(tasks: seq<Task>)
    requires DistinctIds(tasks) && tasks != []
    ensures DistinctIds(tasks[1..])
    ensures forall t :: t in tasks[1..] ==> t.id != tasks[0].id
  {
  }

  lemma EvictIsWhole(tasks: seq<Task>)
    ensures Evict(tasks, 0) == tasks
  {
  }

  lemma RemoveFirst(tasks: seq<Task>)
    requires tasks != []
    ensures Remove(tasks, tasks[0].id) == tasks[1..]
  {
  }

  lemma RemoveBehind(first: Task, rest: seq<Task>, id: string)
    requires first.id != id
    ensures Remove([first] + rest, id) == [first] + Remove(rest, id)
  {
    assert ([first] + rest)[1..] == rest;
    var k := Position(rest, id);
    assert Position([first] + rest, id) == k + 1;
    if k < |rest| {
      assert ([first] + rest)[..k + 1] == [first] + rest[..k];
      assert ([first] + rest)[k + 2..] == rest[k + 1..];
    }
  }

  lemma PutKeepsDistinct(tasks: seq<Task>, task: Task)
    requires DistinctIds(tasks)
    ensures DistinctIds(Put(tasks, task))
  {
  }

  lemma RemoveKeepsDistinct(tasks: seq<Task>, id: string)
    requires DistinctIds(tasks)
    ensures DistinctIds(Remove(tasks, id))
  {
  }

  lemma ToggleKeepsDistinct(tasks: seq<Task>, id: string)
    requires DistinctIds(tasks)
    ensures DistinctIds(Toggled(tasks, id))
  {
  }

  lemma ClaimKeepsDistinct(tasks: seq<Task>, now: int)
    requires DistinctIds(tasks)
    ensures DistinctIds(ClaimAll(tasks, now))
  {
    hide NextRun;
    assert forall i :: 0 <= i < |tasks| ==> ClaimAll(tasks, now)[i].id == tasks[i].id;
  }
}
