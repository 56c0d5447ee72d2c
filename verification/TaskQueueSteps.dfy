/** `task_queue`: the state of the queue and its workers, and what each atomic step makes of it. */
module TaskQueueSteps {
  import opened Options

  /** A queued task; `number` is the submission counter's value, which tells tasks apart. */
  datatype Task = Task(id: string, number: nat)

  datatype Entry = Entry(priority: int, task: Task)

  datatype Outcome = Completed | Cancelled | Failed

  datatype Status = Pending | Running | Finished(outcome: Outcome) | Unknown

  datatype Result = Result(id: string, outcome: Outcome)

  /** Where a worker thread is between two locked sections. */
  datatype Worker =
    | Idle
    | Polling
    | Holding(task: Task)
    | Executing(task: Task)
    | Returned(task: Task, outcome: Outcome)
    | Stopped
  {
    predicate Busy() {
      Executing? || Returned?
    }
  }

  /** `results` is the dictionary of results in insertion order; `cancelled` holds the set cancel events. */
  datatype State = State(
    queue: seq<Entry>, counter: nat, pending: map<string, Task>, running: map<string, Task>,
    results: seq<Result>, cancelled: set<nat>, shutdown: bool, workers: seq<Worker>)

  const SENTINEL_PRIORITY: int := 1_000_000_000

  // ---------- the priority queue and the results ----------

  /** Tuples are compared by priority first and submission number second. */
  predicate Before(a: Entry, b: Entry) {
    a.priority < b.priority || (a.priority == b.priority && a.task.number < b.task.number)
  }

  function Insert(queue: seq<Entry>, e: Entry): (r: seq<Entry>)
    ensures |r| == |queue| + 1
  {
    if queue == [] || Before(e, queue[0]) then [e] + queue else [queue[0]] + Insert(queue[1..], e)
  }

  function ResultPosition(results: seq<Result>, id: string): (k: nat)
    ensures k <= |results| && (k < |results| ==> results[k].id == id)
    ensures forall i :: 0 <= i < k ==> results[i].id != id
  {
    if results == [] || results[0].id == id then 0 else 1 + ResultPosition(results[1..], id)
  }

  predicate HasResult(results: seq<Result>, id: string) {
    ResultPosition(results, id) < |results|
  }

  function Assigned(results: seq<Result>, r: Result): seq<Result> {
    var k := ResultPosition(results, r.id);
    if k < |results| then results[k := r] else results + [r]
  }

  function Newest(results: seq<Result>, cap: nat): (r: seq<Result>)
    ensures |r| <= cap
  {
    if |results| > cap then results[|results| - cap..] else results
  }

  /** `_store_result_locked` */
  function Stored(results: seq<Result>, r: Result, cap: nat): seq<Result> {
    Newest(Assigned(results, r), cap)
  }

  function StatusOf(s: State, id: string): Status {
    if id in s.pending then Pending
    else if id in s.running then Running
    else if HasResult(s.results, id) then Finished(s.results[ResultPosition(s.results, id)].outcome)
    else Unknown
  }

  // ---------- the callers' locked sections ----------

  function Submitted(s: State, id: string, priority: int): State {
    if s.shutdown then s
    else
      var task := Task(id, s.counter);
      s.(pending := s.pending[id := task], queue := Insert(s.queue, Entry(priority, task)), counter := s.counter + 1)
  }

  function CancelledBy(s: State, id: string): State {
    if id in s.pending then s.(cancelled := s.cancelled + {s.pending[id].number})
    else if id in s.running then s.(cancelled := s.cancelled + {s.running[id].number})
    else s
  }

  function NumbersOf(tasks: map<string, Task>): set<nat> {
    set id | id in tasks :: tasks[id].number
  }

  function Selected(tasks: map<string, Task>, who: Option<string>): map<string, Task> {
    map id | id in tasks && (who.None? || id == who.value) :: tasks[id]
  }

  function CurrentCancelled(s: State, who: Option<string>): State {
    s.(cancelled := s.cancelled + NumbersOf(Selected(s.running, who)))
  }

  function ShutDown(s: State, cancelPending: bool): State {
    s.(shutdown := true,
       cancelled := if cancelPending then s.cancelled + NumbersOf(s.pending) + NumbersOf(s.running) else s.cancelled)
  }

  function SentinelPut(s: State): State {
    s.(queue := Insert(s.queue, Entry(SENTINEL_PRIORITY, Task("", s.counter))), counter := s.counter + 1)
  }

  // ---------- the workers ----------

  function SetWorker(s: State, w: nat, phase: Worker): State
    requires w < |s.workers|
  {
    s.(workers := s.workers[w := phase])
  }

  /** The loop condition of `_worker_loop`. */
  function Checked(s: State, w: nat): State
    requires w < |s.workers| && s.workers[w].Idle?
  {
    SetWorker(s, w, if s.shutdown then Stopped else Polling)
  }

  /** Taking the first entry off the queue, or giving up on an empty one. */
  function Fetched(s: State, w: nat): State
    requires w < |s.workers| && s.workers[w].Polling?
  {
    if s.queue == [] then SetWorker(s, w, Idle)
    else
      var task := s.queue[0].task;
      SetWorker(s, w, if task.id == "" then Idle else Holding(task)).(queue := s.queue[1..])
  }

  /** The first locked section of `_run_task`. */
  function Begun(s: State, w: nat, cap: nat): State
    requires w < |s.workers| && s.workers[w].Holding?
  {
    var task := s.workers[w].task;
    if task.id !in s.pending then SetWorker(s, w, Idle)
    else
      var popped := s.(pending := s.pending - {task.id});
      if task.number in s.cancelled then
        SetWorker(popped, w, Idle).(results := Stored(s.results, Result(task.id, Cancelled), cap))
      else
        SetWorker(popped, w, Executing(task)).(running := s.running[task.id := task])
  }

  /** The runner returned or raised, and the worker looked at the cancel event. */
  function RunnerDone(s: State, w: nat, raised: bool): State
    requires w < |s.workers| && s.workers[w].Executing?
  {
    var task := s.workers[w].task;
    var outcome := if raised then Failed else if task.number in s.cancelled then Cancelled else Completed;
    SetWorker(s, w, Returned(task, outcome))
  }

  /** The second locked section of `_run_task`. */
  function Recorded(s: State, w: nat, cap: nat): State
    requires w < |s.workers| && s.workers[w].Returned?
  {
    var worker := s.workers[w];
    SetWorker(s, w, Idle).(running := s.running - {worker.task.id},
                           results := Stored(s.results, Result(worker.task.id, worker.outcome), cap))
  }

  // ---------- one step of any thread ----------

  datatype Event =
    | Submit(id: string, priority: int)
    | Cancel(id: string)
    | CancelCurrent(who: Option<string>)
    | StartShutdown(cancelPending: bool)
    | PutSentinel
    | Check(w: nat)
    | Fetch(w: nat)
    | Begin(w: nat)
    | Finish(w: nat, raised: bool)
    | Record(w: nat)

  predicate Enabled(s: State, e: Event) {
    match e
    case Submit(id, _) => id != ""
    case Check(w) => w < |s.workers| && s.workers[w].Idle?
    case Fetch(w) => w < |s.workers| && s.workers[w].Polling?
    case Begin(w) => w < |s.workers| && s.workers[w].Holding?
    case Finish(w, _) => w < |s.workers| && s.workers[w].Executing?
    case Record(w) => w < |s.workers| && s.workers[w].Returned?
    case _ => true
  }

  function Next(s: State, e: Event, cap: nat): State
    requires Enabled(s, e)
  {
    match e
    case Submit(id, priority) => Submitted(s, id, priority)
    case Cancel(id) => CancelledBy(s, id)
    case CancelCurrent(who) => CurrentCancelled(s, who)
    case StartShutdown(cancelPending) => ShutDown(s, cancelPending)
    case PutSentinel => SentinelPut(s)
    case Check(w) => Checked(s, w)
    case Fetch(w) => Fetched(s, w)
    case Begin(w) => Begun(s, w, cap)
    case Finish(w, raised) => RunnerDone(s, w, raised)
    case Record(w) => Recorded(s, w, cap)
  }

  /** This step starts the task's runner. */
  predicate Starts(s: State, e: Event, task: Task) {
    && e.Begin? && Enabled(s, e) && s.workers[e.w].task == task
    && task.id in s.pending && task.number !in s.cancelled
  }

  function Initial(workers: nat): State {
    State([], 0, map[], map[], [], {}, false, seq(workers, _ => Idle))
  }
}
