/** `AgentTaskQueue`: one method for each section that runs under the lock. */
module AgentTaskQueues {
  import opened Options
  import opened TaskQueueSteps

  class AgentTaskQueue {
    const maxWorkers: nat
    const maxResults: nat
    var queue: seq<Entry>
    var counter: nat
    var pending: map<string, Task>
    var running: map<string, Task>
    var results: seq<Result>
    var cancelled: set<nat>
    var shutdown: bool
    /** The worker threads' local state. */
    var workers: seq<Worker>

    function Now(): State
      reads this
    {
      State(queue, counter, pending, running, results, cancelled, shutdown, workers)
    }

    constructor (maxWorkers: int, maxResults: int)
      ensures Now() == Initial(this.maxWorkers)
      ensures this.maxWorkers >= 1 && this.maxResults >= 1
      ensures maxWorkers >= 1 ==> this.maxWorkers == maxWorkers
      ensures maxResults >= 1 ==> this.maxResults == maxResults
    {
      this.maxWorkers := if maxWorkers >= 1 then maxWorkers else 1;
      this.maxResults := if maxResults >= 1 then maxResults else 1;
      queue, counter, pending, running := [], 0, map[], map[];
      results, cancelled, shutdown := [], {}, false;
      new;
      workers := seq(this.maxWorkers, _ => Idle);
    }

    /** `submit`, after the id was chosen. */
    method Submit(id: string, priority: int) returns (accepted: bool)
      requires id != ""
      modifies this
      ensures Now() == Submitted(old(Now()), id, priority) && accepted == !old(shutdown)
    {
      if shutdown {
        return false;
      }
      var task := Task(id, counter);
      pending := pending[id := task];
      queue := Insert(queue, Entry(priority, task));
      counter := counter + 1;
      accepted := true;
    }

    method Cancel(id: string) returns (found: bool)
      modifies this`cancelled
      ensures Now() == CancelledBy(old(Now()), id)
      ensures found == (id in pending || id in running)
    {
      var task: Option<Task> := if id in pending then Some(pending[id]) else None;
      if task.None? && id in running {
        task := Some(running[id]);
      }
      found := task.Some?;
      if found {
        cancelled := cancelled + {task.value.number};
      }
    }

    method CancelCurrent(who: Option<string>) returns (count: nat)
      modifies this`cancelled
      ensures Now() == CurrentCancelled(old(Now()), who)
      ensures count == |Selected(running, who)|
    {
      var chosen := Selected(running, who);
      cancelled := cancelled + NumbersOf(chosen);
      count := |chosen|;
    }

    method GetStatus(id: string) returns (status: Status)
      ensures status == StatusOf(Now(), id)
    {
      if id in pending {
        return Pending;
      }
      if id in running {
        return Running;
      }
      var k := ResultPosition(results, id);
      status := if k < |results| then Finished(results[k].outcome) else Unknown;
    }

    /** The locked section of `shutdown`; the sentinels follow one by one. */
    method BeginShutdown(cancelPending: bool)
      modifies this`shutdown, this`cancelled
      ensures Now() == ShutDown(old(Now()), cancelPending)
    {
      shutdown := true;
      if cancelPending {
        cancelled := cancelled + NumbersOf(pending) + NumbersOf(running);
      }
    }

    method PutSentinel()
      modifies this`queue, this`counter
      ensures Now() == SentinelPut(old(Now()))
    {
      queue := Insert(queue, Entry(SENTINEL_PRIORITY, Task("", counter)));
      counter := counter + 1;
    }

    method CheckShutdown(w: nat)
      requires w < |workers| && workers[w].Idle?
      modifies this`workers
      ensures Now() == Checked(old(Now()), w)
    {
      workers := workers[w := if shutdown then Stopped else Polling];
    }

    /** `PriorityQueue.get`, and dropping a sentinel. */
    method Fetch(w: nat)
      requires w < |workers| && workers[w].Polling?
      modifies this`workers, this`queue
      ensures Now() == Fetched(old(Now()), w)
    {
      if queue == [] {
        workers := workers[w := Idle];
        return;
      }
      var task := queue[0].task;
      queue := queue[1..];
      workers := workers[w := if task.id == "" then Idle else Holding(task)];
    }

    method Begin(w: nat)
      requires w < |workers| && workers[w].Holding?
      modifies this
      ensures Now() == Begun(old(Now()), w, maxResults)
    {
      var task := workers[w].task;
      if task.id !in pending {
        workers := workers[w := Idle];
        return;
      }
      pending := pending - {task.id};
      if task.number in cancelled {
        StoreResult(Result(task.id, Cancelled));
        workers := workers[w := Idle];
        return;
      }
      running := running[task.id := task];
      workers := workers[w := Executing(task)];
    }

    method RunnerReturned(w: nat, raised: bool)
      requires w < |workers| && workers[w].Executing?
      modifies this`workers
      ensures Now() == RunnerDone(old(Now()), w, raised)
    {
      var task := workers[w].task;
      var outcome := if raised then Failed else if task.number in cancelled then Cancelled else Completed;
      workers := workers[w := Returned(task, outcome)];
    }

    method Record(w: nat)
      requires w < |workers| && workers[w].Returned?
      modifies this
      ensures Now() == Recorded(old(Now()), w, maxResults)
    {
      var worker := workers[w];
      running := running - {worker.task.id};
      StoreResult(Result(worker.task.id, worker.outcome));
      workers := workers[w := Idle];
    }

    /** `_store_result_locked` */
    method StoreResult(r: Result)
      modifies this`results
      ensures results == Stored(old(results), r, maxResults)
    {
      var k := ResultPosition(results, r.id);
      results := if k < |results| then results[k := r] else results + [r];
      ghost var all := results;
      while |results| > maxResults
        invariant |results| <= |all| && results == all[|all| - |results|..]
        invariant |all| <= maxResults ==> results == all
        invariant |all| > maxResults ==> |results| >= maxResults
      {
        results := results[1..];
      }
    }
  }
}
