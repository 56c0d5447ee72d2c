/** Every interleaving of callers and workers: what the queue keeps, when submitted ids are distinct. */
module TaskQueueRuns {
  import opened Options
  import opened TaskQueueSteps

  // ---------- the priority queue ----------

  ghost predicate Sorted(queue: seq<Entry>) {
    forall i, j :: 0 <= i < j < |queue| ==> Before(queue[i], queue[j])
  }

  lemma {:induction false} InsertKeeps(queue: seq<Entry>, e: Entry)
    ensures forall x :: x in Insert(queue, e) <==> x == e || x in queue
    ensures Sorted(queue) && (forall x :: x in queue ==> x.task.number != e.task.number) ==> Sorted(Insert(queue, e))
  {
    if queue != [] && !Before(e, queue[0]) {
      var rest := Insert(queue[1..], e);
      InsertKeeps(queue[1..], e);
      assert forall x :: x in queue <==> x == queue[0] || x in queue[1..];
      assert Insert(queue, e) == [queue[0]] + rest;
      if Sorted(queue) && forall x :: x in queue ==> x.task.number != e.task.number {
        assert Sorted(queue[1..]);
        SortedFront(queue[0], rest);
      }
    } else if Sorted(queue) && queue != [] {
      assert forall x :: x in queue ==> x == queue[0] || Before(queue[0], x);
      SortedFront(e, queue);
    }
  }

  lemma SortedFront(first: Entry, rest: seq<Entry>)
    requires Sorted(rest) && forall x :: x in rest ==> Before(first, x)
    ensures Sorted([first] + rest)
  {
  }

  // ---------- the results ----------

  lemma HasResultMeans(results: seq<Result>, id: string)
    ensures HasResult(results, id) <==> exists r :: r in results && r.id == id
  {
  }

  ghost predicate DistinctResults(results: seq<Result>) {
    forall i, j :: 0 <= i < j < |results| ==> results[i].id != results[j].id
  }

  lemma StoredIs(results: seq<Result>, r: Result, cap: nat)
    requires cap >= 1 && |results| <= cap && !HasResult(results, r.id)
    ensures Stored(results, r, cap) == if |results| < cap then results + [r] else results[1..] + [r]
  {
  }

  /** Storing the result of a new id keeps the others, except the oldest when the dictionary was full. */
  lemma StoredKeeps(results: seq<Result>, r: Result, cap: nat)
    requires cap >= 1 && |results| <= cap && DistinctResults(results) && !HasResult(results, r.id)
    ensures var after := Stored(results, r, cap);
            && |after| <= cap && DistinctResults(after) && HasResult(after, r.id)
            && (forall id :: HasResult(after, id) ==> id == r.id || HasResult(results, id))
            && (forall id :: HasResult(results, id) && !HasResult(after, id) ==>
                  |results| == cap && results[0].id == id)
  {
    hide HasResult, Stored;
    var after := Stored(results, r, cap);
    StoredIs(results, r, cap);
    assert r in after;
    assert forall x :: x in results ==> x in after || (|results| == cap && x == results[0]);
    forall id
      ensures HasResult(after, id) <==> exists x :: x in after && x.id == id
      ensures HasResult(results, id) <==> exists x :: x in results && x.id == id
    {
      HasResultMeans(after, id);
      HasResultMeans(results, id);
    }
  }

  // ---------- what every interleaving keeps ----------

  /** An id is known in one place only, and only if it was submitted. */
  ghost predicate OnePlace(s: State, known: set<string>) {
    && "" !in known
    && (forall id :: id in s.pending ==> id in known && id !in s.running && !HasResult(s.results, id))
    && (forall id :: id in s.running ==> id in known && !HasResult(s.results, id))
    && (forall id :: HasResult(s.results, id) ==> id in known)
  }

  ghost predicate ResultsFit(s: State, cap: nat) {
    |s.results| <= cap && DistinctResults(s.results)
  }

  /** Some worker is busy with this id. */
  ghost predicate BusyWith(workers: seq<Worker>, id: string) {
    exists w :: 0 <= w < |workers| && workers[w].Busy() && workers[w].task.id == id
  }

  /** A running task is in the hands of exactly one worker. */
  ghost predicate WorkersRun(s: State) {
    && (forall w :: 0 <= w < |s.workers| && s.workers[w].Busy() ==>
          var task := s.workers[w].task; task.id in s.running && s.running[task.id] == task)
    && (forall v, w :: 0 <= v < w < |s.workers| && s.workers[v].Busy() && s.workers[w].Busy() ==>
          s.workers[v].task.id != s.workers[w].task.id)
    && (forall id :: id in s.running ==> BusyWith(s.workers, id))
  }

  /** The task waits in the queue or was just taken off it. */
  ghost predicate Carried(s: State, task: Task) {
    || (exists e :: e in s.queue && e.task == task)
    || (exists w :: 0 <= w < |s.workers| && s.workers[w] == Holding(task))
  }

  /** Whatever waits is a submitted task, and no pending task is lost. */
  ghost predicate PendingCarried(s: State, known: set<string>) {
    && (forall task :: Carried(s, task) && task.id != "" ==>
          task.id in known && (task.id in s.pending ==> s.pending[task.id] == task))
    && (forall id :: id in s.pending ==> s.pending[id].id == id && Carried(s, s.pending[id]))
    && (forall w :: 0 <= w < |s.workers| && s.workers[w].Holding? ==> s.workers[w].task.id != "")
  }

  ghost predicate QueueOrdered(s: State) {
    Sorted(s.queue) && forall e :: e in s.queue ==> e.task.number < s.counter
  }

  ghost predicate Inv(s: State, known: set<string>, cap: nat) {
    OnePlace(s, known) && ResultsFit(s, cap) && WorkersRun(s) && PendingCarried(s, known) && QueueOrdered(s)
  }

  function KnownAfter(known: set<string>, e: Event): set<string> {
    if e.Submit? then known + {e.id} else known
  }

  /** A submitted id is a new one. */
  predicate IsNew(known: set<string>, e: Event) {
    e.Submit? ==> e.id !in known
  }

  lemma StepKeepsQueueOrder(s: State, e: Event, cap: nat)
    requires Enabled(s, e) && QueueOrdered(s)
    ensures QueueOrdered(Next(s, e, cap))
  {
    hide HasResult, Stored;
    match e {
      case Submit(id, priority) => InsertKeeps(s.queue, Entry(priority, Task(id, s.counter)));
      case PutSentinel => InsertKeeps(s.queue, Entry(SENTINEL_PRIORITY, Task("", s.counter)));
      case _ =>
    }
  }

  lemma StoringStep(s: State, e: Event, known: set<string>, cap: nat)
    requires cap >= 1 && Enabled(s, e) && Inv(s, known, cap)
    ensures e.Begin? && s.workers[e.w].task.id in s.pending ==> !HasResult(s.results, s.workers[e.w].task.id)
    ensures e.Record? ==> s.workers[e.w].task.id in s.running && !HasResult(s.results, s.workers[e.w].task.id)
  {
    hide HasResult;
  }

  lemma BeginKeepsResults(s: State, w: nat, cap: nat)
    requires cap >= 1 && Enabled(s, Begin(w)) && ResultsFit(s, cap)
    requires s.workers[w].task.id in s.pending ==> !HasResult(s.results, s.workers[w].task.id)
    ensures ResultsFit(Begun(s, w, cap), cap)
  {
    hide HasResult, Stored, DistinctResults;
    var task := s.workers[w].task;
    if task.id in s.pending {
      StoredKeeps(s.results, Result(task.id, Cancelled), cap);
    }
  }

  lemma RecordKeepsResults(s: State, w: nat, cap: nat)
    requires cap >= 1 && Enabled(s, Record(w)) && ResultsFit(s, cap)
    requires !HasResult(s.results, s.workers[w].task.id)
    ensures ResultsFit(Recorded(s, w, cap), cap)
  {
    hide HasResult, Stored, DistinctResults;
    StoredKeeps(s.results, Result(s.workers[w].task.id, s.workers[w].outcome), cap);
  }

  lemma StepKeepsResults(s: State, e: Event, known: set<string>, cap: nat)
    requires cap >= 1 && Enabled(s, e) && Inv(s, known, cap)
    ensures ResultsFit(Next(s, e, cap), cap)
  {
    StoringStep(s, e, known, cap);
    hide Begun, Recorded, HasResult, DistinctResults, Insert, OnePlace, WorkersRun, PendingCarried, QueueOrdered;
    match e {
      case Begin(w) => BeginKeepsResults(s, w, cap);
      case Record(w) => RecordKeepsResults(s, w, cap);
      case _ =>
    }
  }

  lemma BeginKeepsPlaces(s: State, w: nat, known: set<string>, cap: nat)
    requires cap >= 1 && Enabled(s, Begin(w)) && OnePlace(s, known) && ResultsFit(s, cap)
    ensures OnePlace(Begun(s, w, cap), known)
  {
    hide HasResult, Stored, DistinctResults;
    var task := s.workers[w].task;
    if task.id in s.pending {
      StoredKeeps(s.results, Result(task.id, Cancelled), cap);
    }
  }

  lemma RecordKeepsPlaces(s: State, w: nat, known: set<string>, cap: nat)
    requires cap >= 1 && Enabled(s, Record(w)) && OnePlace(s, known) && ResultsFit(s, cap)
    requires s.workers[w].task.id in s.running
    ensures OnePlace(Recorded(s, w, cap), known)
  {
    hide HasResult, Stored, DistinctResults;
    StoredKeeps(s.results, Result(s.workers[w].task.id, s.workers[w].outcome), cap);
  }

  lemma StepKeepsPlaces(s: State, e: Event, known: set<string>, cap: nat)
    requires cap >= 1 && Enabled(s, e) && OnePlace(s, known) && ResultsFit(s, cap) && IsNew(known, e)
    requires e.Record? ==> s.workers[e.w].task.id in s.running
    ensures OnePlace(Next(s, e, cap), KnownAfter(known, e))
  {
    hide Begun, Recorded, HasResult, DistinctResults, Insert;
    match e {
      case Begin(w) => BeginKeepsPlaces(s, w, known, cap);
      case Record(w) => RecordKeepsPlaces(s, w, known, cap);
      case _ =>
    }
  }

  // ---------- workers ----------

  lemma IsBusyWith(workers: seq<Worker>, w: nat)
    requires w < |workers| && workers[w].Busy()
    ensures BusyWith(workers, workers[w].task.id)
  {
  }

  lemma OthersStayBusy(workers: seq<Worker>, w: nat, phase: Worker, id: string)
    requires w < |workers| && BusyWith(workers, id)
    requires !workers[w].Busy() || workers[w].task.id != id || (phase.Busy() && phase.task.id == id)
    ensures BusyWith(workers[w := phase], id)
  {
    var v :| 0 <= v < |workers| && workers[v].Busy() && workers[v].task.id == id;
    assert workers[w := phase][v] == if v == w then phase else workers[v];
    if v == w {
      assert workers[w := phase][w].Busy();
    }
  }

  /** A worker that was busy with nothing takes up a task that nobody runs. */
  lemma TakesUp(s: State, w: nat, task: Task)
    requires WorkersRun(s) && w < |s.workers| && !s.workers[w].Busy() && task.id !in s.running
    ensures WorkersRun(SetWorker(s, w, Executing(task)).(running := s.running[task.id := task]))
  {
    var t := SetWorker(s, w, Executing(task)).(running := s.running[task.id := task]);
    hide BusyWith;
    forall id | id in t.running
      ensures BusyWith(t.workers, id)
    {
      if id == task.id {
        IsBusyWith(t.workers, w);
      } else {
        OthersStayBusy(s.workers, w, Executing(task), id);
      }
    }
  }

  lemma GivesUp(s: State, w: nat)
    requires WorkersRun(s) && w < |s.workers| && s.workers[w].Busy()
    ensures WorkersRun(SetWorker(s, w, Idle).(running := s.running - {s.workers[w].task.id}))
  {
    var t := SetWorker(s, w, Idle).(running := s.running - {s.workers[w].task.id});
    hide BusyWith;
    forall id | id in t.running
      ensures BusyWith(t.workers, id)
    {
      OthersStayBusy(s.workers, w, Idle, id);
    }
  }

  /** A worker that stays with its task, or stays without one. */
  lemma StaysPut(s: State, w: nat, phase: Worker)
    requires WorkersRun(s) && w < |s.workers| && s.workers[w].Busy() == phase.Busy()
    requires phase.Busy() ==> phase.task == s.workers[w].task
    ensures WorkersRun(SetWorker(s, w, phase))
  {
    var t := SetWorker(s, w, phase);
    hide BusyWith;
    forall id | id in t.running
      ensures BusyWith(t.workers, id)
    {
      OthersStayBusy(s.workers, w, phase, id);
    }
  }

  /** Only the workers and the running tasks matter. */
  lemma SameWorkers(s: State, t: State)
    requires WorkersRun(s) && s.workers == t.workers && s.running == t.running
    ensures WorkersRun(t)
  {
  }

  lemma BeginKeepsWorkers(s: State, w: nat, known: set<string>, cap: nat)
    requires Enabled(s, Begin(w)) && WorkersRun(s) && OnePlace(s, known)
    ensures WorkersRun(Begun(s, w, cap))
  {
    hide WorkersRun, HasResult, Stored;
    var task, next := s.workers[w].task, Begun(s, w, cap);
    if next.workers[w].Executing? {
      TakesUp(s, w, task);
      SameWorkers(SetWorker(s, w, Executing(task)).(running := s.running[task.id := task]), next);
    } else {
      StaysPut(s, w, Idle);
      SameWorkers(SetWorker(s, w, Idle), next);
    }
  }

  lemma RecordKeepsWorkers(s: State, w: nat, cap: nat)
    requires Enabled(s, Record(w)) && WorkersRun(s)
    ensures WorkersRun(Recorded(s, w, cap))
  {
    hide WorkersRun, Stored;
    GivesUp(s, w);
    SameWorkers(SetWorker(s, w, Idle).(running := s.running - {s.workers[w].task.id}), Recorded(s, w, cap));
  }

  lemma StepKeepsWorkers(s: State, e: Event, known: set<string>, cap: nat)
    requires Enabled(s, e) && WorkersRun(s) && OnePlace(s, known)
    ensures WorkersRun(Next(s, e, cap))
  {
    hide WorkersRun, Begun, Recorded, OnePlace, Insert;
    var next := Next(s, e, cap);
    match e {
      case Check(w) => StaysPut(s, w, if s.shutdown then Stopped else Polling);
      case Fetch(w) =>
        StaysPut(s, w, next.workers[w]);
        SameWorkers(SetWorker(s, w, next.workers[w]), next);
      case Begin(w) => BeginKeepsWorkers(s, w, known, cap);
      case Finish(w, _) => StaysPut(s, w, next.workers[w]);
      case Record(w) => RecordKeepsWorkers(s, w, cap);
      case _ => SameWorkers(s, next);
    }
  }

  function BusyIds(workers: seq<Worker>): (ids: set<string>)
    ensures |ids| <= |workers|
  {
    if workers == [] then {}
    else (if workers[0].Busy() then {workers[0].task.id} else {}) + BusyIds(workers[1..])
  }

  lemma {:induction false} BusyIdsComplete(workers: seq<Worker>, w: nat)
    requires w < |workers| && workers[w].Busy()
    ensures workers[w].task.id in BusyIds(workers)
  {
    if w > 0 {
      BusyIdsComplete(workers[1..], w - 1);
    }
  }

  /** There are never more running tasks than workers. */
  lemma RunningFits(s: State)
    requires WorkersRun(s)
    ensures |s.running| <= |s.workers|
  {
    forall id | id in s.running
      ensures id in BusyIds(s.workers)
    {
      var w :| 0 <= w < |s.workers| && s.workers[w].Busy() && s.workers[w].task.id == id;
      BusyIdsComplete(s.workers, w);
    }
    Subset(s.running.Keys, BusyIds(s.workers));
  }

  lemma {:induction false} Subset(a: set<string>, b: set<string>)
    requires a <= b
    ensures |a| <= |b|
    decreases |a|
  {
    if a != {} {
      var x :| x in a;
      Subset(a - {x}, b - {x});
    }
  }

  // ---------- pending tasks ----------

  lemma CarriedByQueue(s: State, queue: seq<Entry>, e: Entry, task: Task)
    requires queue == Insert(s.queue, e)
    ensures Carried(s.(queue := queue), task) <==> Carried(s, task) || task == e.task
  {
    InsertKeeps(s.queue, e);
    assert e in queue;
    hide Insert;
  }

  /** A worker that holds no task before or after carries nothing. */
  lemma CarriedByOthers(s: State, w: nat, phase: Worker, task: Task)
    requires w < |s.workers| && !phase.Holding?
    ensures Carried(SetWorker(s, w, phase), task) ==> Carried(s, task)
    ensures Carried(s, task) && s.workers[w] != Holding(task) ==> Carried(SetWorker(s, w, phase), task)
  {
    var t := SetWorker(s, w, phase);
    assert forall v :: 0 <= v < |s.workers| && v != w ==> t.workers[v] == s.workers[v];
    if Carried(s, task) && s.workers[w] != Holding(task) && !exists e :: e in s.queue && e.task == task {
      var v :| 0 <= v < |s.workers| && s.workers[v] == Holding(task);
      assert t.workers[v] == Holding(task);
    }
  }

  lemma CarriedAway(s: State, w: nat, task: Task)
    requires Enabled(s, Fetch(w)) && s.queue != []
    ensures Carried(Fetched(s, w), task) ==> Carried(s, task)
    ensures Carried(s, task) && task.id != "" ==> Carried(Fetched(s, w), task)
  {
    var t := Fetched(s, w);
    assert forall v :: 0 <= v < |s.workers| && v != w ==> t.workers[v] == s.workers[v];
    assert forall e :: e in s.queue <==> e == s.queue[0] || e in s.queue[1..];
    if Carried(s, task) && task.id != "" {
      if s.queue[0].task == task {
        assert t.workers[w] == Holding(task);
      } else if v :| 0 <= v < |s.workers| && s.workers[v] == Holding(task) {
        assert t.workers[v] == Holding(task);
      }
    }
  }

  lemma OnlyQueueAndWorkersCarry(s: State, t: State, task: Task)
    requires s.queue == t.queue && s.workers == t.workers
    ensures Carried(s, task) <==> Carried(t, task)
  {
  }

  /** Which tasks a step takes up, and that it loses none but the one it begins. */
  lemma CarriesOn(s: State, e: Event, cap: nat, task: Task)
    requires Enabled(s, e)
    ensures var next := Next(s, e, cap);
            var submitted := e.Submit? && !s.shutdown && task == Task(e.id, s.counter);
            && (Carried(next, task) && task.id != "" ==> Carried(s, task) || submitted)
            && (submitted ==> Carried(next, task))
            && (Carried(s, task) && task.id != "" && !(e.Begin? && s.workers[e.w].task == task) ==> Carried(next, task))
  {
    hide Carried, HasResult, Stored, Insert;
    var next := Next(s, e, cap);
    match e {
      case Submit(id, priority) =>
        if !s.shutdown {
          CarriedByQueue(s, next.queue, Entry(priority, Task(id, s.counter)), task);
          OnlyQueueAndWorkersCarry(s.(queue := next.queue), next, task);
        }
      case PutSentinel =>
        CarriedByQueue(s, next.queue, Entry(SENTINEL_PRIORITY, Task("", s.counter)), task);
        OnlyQueueAndWorkersCarry(s.(queue := next.queue), next, task);
      case Check(w) => CarriedByOthers(s, w, next.workers[w], task);
      case Fetch(w) =>
        if s.queue == [] {
          CarriedByOthers(s, w, next.workers[w], task);
        } else {
          CarriedAway(s, w, task);
        }
      case Begin(w) =>
        CarriedByOthers(s, w, next.workers[w], task);
        OnlyQueueAndWorkersCarry(SetWorker(s, w, next.workers[w]), next, task);
      case Finish(w, _) => CarriedByOthers(s, w, next.workers[w], task);
      case Record(w) =>
        CarriedByOthers(s, w, next.workers[w], task);
        OnlyQueueAndWorkersCarry(SetWorker(s, w, next.workers[w]), next, task);
      case _ => OnlyQueueAndWorkersCarry(s, next, task);
    }
  }

  /** How a step changes what is pending. */
  lemma PendingChanges(s: State, e: Event, cap: nat)
    requires Enabled(s, e)
    ensures Next(s, e, cap).pending ==
            if e.Submit? && !s.shutdown then s.pending[e.id := Task(e.id, s.counter)]
            else if e.Begin? then s.pending - {s.workers[e.w].task.id}
            else s.pending
  {
    hide HasResult, Stored, Insert;
  }

  lemma HeldTasksHaveIds(s: State, e: Event, cap: nat)
    requires Enabled(s, e)
    requires forall w :: 0 <= w < |s.workers| && s.workers[w].Holding? ==> s.workers[w].task.id != ""
    ensures var next := Next(s, e, cap);
            forall w :: 0 <= w < |next.workers| && next.workers[w].Holding? ==> next.workers[w].task.id != ""
  {
    hide HasResult, Stored, Insert;
  }

  lemma StepKeepsPending(s: State, e: Event, known: set<string>, cap: nat)
    requires Enabled(s, e) && PendingCarried(s, known) && OnePlace(s, known) && IsNew(known, e)
    ensures PendingCarried(Next(s, e, cap), KnownAfter(known, e))
  {
    hide Carried, Next, HasResult;
    var next, after := Next(s, e, cap), KnownAfter(known, e);
    HeldTasksHaveIds(s, e, cap);
    PendingChanges(s, e, cap);
    assert forall id :: id in s.pending ==> id != "";
    forall task | Carried(next, task) && task.id != ""
      ensures task.id in after && (task.id in next.pending ==> next.pending[task.id] == task)
    {
      CarriesOn(s, e, cap, task);
    }
    forall id | id in next.pending
      ensures next.pending[id].id == id && Carried(next, next.pending[id])
    {
      CarriesOn(s, e, cap, next.pending[id]);
    }
  }

  lemma StepKeepsInv(s: State, e: Event, known: set<string>, cap: nat)
    requires cap >= 1 && Enabled(s, e) && Inv(s, known, cap) && IsNew(known, e)
    ensures Inv(Next(s, e, cap), KnownAfter(known, e), cap)
  {
    StoringStep(s, e, known, cap);
    hide Enabled, OnePlace, ResultsFit, WorkersRun, PendingCarried, QueueOrdered, Next, KnownAfter;
    StepKeepsPlaces(s, e, known, cap);
    StepKeepsResults(s, e, known, cap);
    StepKeepsWorkers(s, e, known, cap);
    StepKeepsPending(s, e, known, cap);
    StepKeepsQueueOrder(s, e, cap);
  }

  // ---------- whole runs ----------

  ghost predicate IsRun(states: seq<State>, events: seq<Event>, cap: nat) {
    && |states| == |events| + 1 && cap >= 1
    && (exists workers :: states[0] == Initial(workers))
    && forall i :: 0 <= i < |events| ==>
         Enabled(states[i], events[i]) && states[i + 1] == Next(states[i], events[i], cap)
  }

  ghost predicate DistinctSubmissions(events: seq<Event>) {
    forall i, j :: 0 <= i < j < |events| && events[i].Submit? && events[j].Submit? ==> events[i].id != events[j].id
  }

  function Known(events: seq<Event>): set<string> {
    if events == [] then {} else KnownAfter(Known(events[..|events| - 1]), events[|events| - 1])
  }

  lemma {:induction false} KnownMeans(events: seq<Event>, id: string)
    ensures id in Known(events) <==> exists i :: 0 <= i < |events| && events[i].Submit? && events[i].id == id
  {
    if events != [] {
      var front := events[..|events| - 1];
      KnownMeans(front, id);
      assert forall i :: 0 <= i < |front| ==> front[i] == events[i];
    }
  }

  lemma InitialInv(workers: nat, cap: nat)
    ensures Inv(Initial(workers), {}, cap)
  {
  }

  lemma WorkersStay(s: State, e: Event, cap: nat)
    requires Enabled(s, e)
    ensures |Next(s, e, cap).workers| == |s.workers|
  {
    hide HasResult, Stored, Insert;
  }

  lemma {:induction false} RunKeepsInv(states: seq<State>, events: seq<Event>, cap: nat, i: nat)
    requires IsRun(states, events, cap) && DistinctSubmissions(events) && i <= |events|
    ensures Inv(states[i], Known(events[..i]), cap) && |states[i].workers| == |states[0].workers|
  {
    hide Inv, Next, Initial, Enabled;
    if i == 0 {
      var workers :| states[0] == Initial(workers);
      InitialInv(workers, cap);
    } else {
      RunKeepsInv(states, events, cap, i - 1);
      var e := events[i - 1];
      assert events[..i][..i - 1] == events[..i - 1];
      SubmitsNew(events, i - 1);
      StepKeepsInv(states[i - 1], e, Known(events[..i - 1]), cap);
      WorkersStay(states[i - 1], e, cap);
    }
  }

  lemma SubmitsNew(events: seq<Event>, i: nat)
    requires DistinctSubmissions(events) && i < |events|
    ensures IsNew(Known(events[..i]), events[i])
  {
    if events[i].Submit? {
      KnownMeans(events[..i], events[i].id);
    }
  }

  /**
   In every interleaving a known id is pending, running or finished and never two of these; there are
   never more running tasks than workers nor more results than the cap; no pending task is lost.
   */
  lemma QueueInvariant(states: seq<State>, events: seq<Event>, cap: nat, i: nat)
    requires IsRun(states, events, cap) && DistinctSubmissions(events) && i <= |events|
    ensures var s := states[i];
            && (forall id :: id in s.pending ==> id !in s.running && !HasResult(s.results, id))
            && (forall id :: id in s.running ==> !HasResult(s.results, id))
            && |s.running| <= |states[0].workers| && |s.results| <= cap
            && (forall id :: id in s.pending ==> Carried(s, s.pending[id]))
  {
    RunKeepsInv(states, events, cap, i);
    RunningFits(states[i]);
  }

  /** A worker that takes a task off the queue takes the least by priority and submission number. */
  lemma FetchTakesLeast(states: seq<State>, events: seq<Event>, cap: nat, i: nat, e: Entry)
    requires IsRun(states, events, cap) && DistinctSubmissions(events) && i < |events|
    requires events[i].Fetch? && e in states[i].queue
    ensures e !in states[i + 1].queue <==> states[i].queue[0] == e
    ensures var first := states[i].queue[0];
            e in states[i + 1].queue ==>
              first.priority < e.priority || (first.priority == e.priority && first.task.number < e.task.number)
    ensures states[i].queue[0].task.id != "" ==> states[i + 1].workers[events[i].w] == Holding(states[i].queue[0].task)
  {
    RunKeepsInv(states, events, cap, i);
    var queue := states[i].queue;
    var k :| 0 <= k < |queue| && queue[k] == e;
    assert forall j :: 0 < j < |queue| ==> Before(queue[0], queue[j]);
    assert k > 0 ==> queue[1..][k - 1] == e;
  }

  predicate IsPending(s: State, id: string) {
    id in s.pending
  }

  /** Once an id has left the pending tasks it does not come back, unless it is submitted again. */
  lemma {:induction false} LeftForGood(states: seq<State>, events: seq<Event>, cap: nat, i: nat, j: nat, id: string)
    requires IsRun(states, events, cap) && i <= j <= |events| && !IsPending(states[i], id)
    requires forall k :: i <= k < j ==> events[k].Submit? ==> events[k].id != id
    ensures !IsPending(states[j], id)
    decreases j
  {
    hide Next, Enabled;
    if i < j {
      LeftForGood(states, events, cap, i, j - 1, id);
      PendingChanges(states[j - 1], events[j - 1], cap);
    }
  }

  /** Each task's runner is started at most once. */
  lemma StartsOnce(states: seq<State>, events: seq<Event>, cap: nat, i: nat, j: nat, first: Task, second: Task)
    requires IsRun(states, events, cap) && DistinctSubmissions(events) && i < j < |events|
    requires Starts(states[i], events[i], first) && Starts(states[j], events[j], second)
    ensures first.id != second.id
  {
    if first.id == second.id {
      RunKeepsInv(states, events, cap, i);
      PendingIsKnown(states, events, cap, i, first.id);
      PendingChanges(states[i], events[i], cap);
      hide Next, Known, Inv;
      assert !IsPending(states[i + 1], first.id);
      LeftForGood(states, events, cap, i + 1, j, first.id);
    }
  }

  /** A pending id was submitted, and is not submitted again. */
  lemma PendingIsKnown(states: seq<State>, events: seq<Event>, cap: nat, i: nat, id: string)
    requires IsRun(states, events, cap) && DistinctSubmissions(events) && i <= |events|
    requires IsPending(states[i], id)
    ensures forall k :: i <= k < |events| ==> events[k].Submit? ==> events[k].id != id
  {
    RunKeepsInv(states, events, cap, i);
    KnownMeans(events[..i], id);
    var m :| 0 <= m < i && events[..i][m].Submit? && events[..i][m].id == id;
    assert events[m].Submit? && events[m].id == id;
  }

  /** The task with this id was cancelled, or is not pending. */
  predicate Doomed(s: State, id: string) {
    id in s.pending ==> s.pending[id].number in s.cancelled
  }

  lemma {:induction false} DoomedForGood(states: seq<State>, events: seq<Event>, cap: nat, i: nat, j: nat, id: string)
    requires IsRun(states, events, cap) && i <= j <= |events| && Doomed(states[i], id)
    requires forall k :: i <= k < j ==> events[k].Submit? ==> events[k].id != id
    ensures Doomed(states[j], id)
    decreases j
  {
    hide Next, Enabled;
    if i < j {
      DoomedForGood(states, events, cap, i, j - 1, id);
      PendingChanges(states[j - 1], events[j - 1], cap);
      CancelledGrows(states[j - 1], events[j - 1], cap);
    }
  }

  lemma CancelledGrows(s: State, e: Event, cap: nat)
    requires Enabled(s, e)
    ensures s.cancelled <= Next(s, e, cap).cancelled
  {
    hide HasResult, Stored, Insert;
  }

  lemma HeldIsPending(s: State, w: nat, known: set<string>)
    requires PendingCarried(s, known) && w < |s.workers| && s.workers[w].Holding?
    ensures var task := s.workers[w].task; task.id in s.pending ==> s.pending[task.id] == task
  {
    assert Carried(s, s.workers[w].task);
  }

  /** This event sets the cancel event of the pending task: by its id, or of all tasks at a shutdown. */
  predicate CancelsPending(s: State, e: Event, id: string) {
    IsPending(s, id) && (e == Cancel(id) || e == StartShutdown(true))
  }

  lemma CancelDooms(s: State, e: Event, cap: nat, id: string)
    requires CancelsPending(s, e, id)
    ensures Enabled(s, e) && Doomed(Next(s, e, cap), id)
  {
  }

  /** A task that is cancelled while it is pending, alone or by a shutdown, never starts. */
  lemma CancelledNeverStarts(states: seq<State>, events: seq<Event>, cap: nat, i: nat, j: nat, id: string, task: Task)
    requires IsRun(states, events, cap) && DistinctSubmissions(events) && i < j < |events|
    requires CancelsPending(states[i], events[i], id) && task.id == id
    ensures !Starts(states[j], events[j], task)
  {
    CancelDooms(states[i], events[i], cap, id);
    PendingIsKnown(states, events, cap, i, id);
    hide Next;
    DoomedForGood(states, events, cap, i + 1, j, id);
    RunKeepsInv(states, events, cap, j);
    if events[j].Begin? && Enabled(states[j], events[j]) {
      HeldIsPending(states[j], events[j].w, Known(events[..j]));
    }
  }

  /** The id's result was the oldest of a full dictionary, and the step pushed it out. */
  predicate Evicts(before: State, after: State, cap: nat, id: string) {
    && |before.results| == cap && before.results != [] && before.results[0].id == id
    && HasResult(before.results, id) && !HasResult(after.results, id)
  }

  lemma KnownSomewhere(s: State, id: string)
    ensures StatusOf(s, id) != Unknown <==> id in s.pending || id in s.running || HasResult(s.results, id)
  {
  }

  /** An id only ever moves on: from outside to pending, from there to running or finished. */
  lemma MovesOn(s: State, e: Event, known: set<string>, cap: nat, id: string)
    requires cap >= 1 && Enabled(s, e) && Inv(s, known, cap)
    ensures var next := Next(s, e, cap);
            && (id in next.pending ==> id in s.pending || (e.Submit? && e.id == id))
            && (id in next.running ==> id in s.running || id in s.pending)
            && (HasResult(next.results, id) ==> HasResult(s.results, id) || id in s.running || id in s.pending)
  {
    hide Stored, HasResult, DistinctResults, Insert, OnePlace, WorkersRun, PendingCarried, QueueOrdered;
    StoringStep(s, e, known, cap);
    match e {
      case Begin(w) =>
        var task := s.workers[w].task;
        if task.id in s.pending {
          StoredKeeps(s.results, Result(task.id, Cancelled), cap);
        }
      case Record(w) =>
        StoredKeeps(s.results, Result(s.workers[w].task.id, s.workers[w].outcome), cap);
      case _ =>
    }
  }

  lemma StepKeepsKnown(s: State, e: Event, known: set<string>, cap: nat, id: string)
    requires cap >= 1 && Enabled(s, e) && Inv(s, known, cap) && StatusOf(s, id) != Unknown
    ensures StatusOf(Next(s, e, cap), id) != Unknown || Evicts(s, Next(s, e, cap), cap, id)
  {
    hide StatusOf, Stored, HasResult, DistinctResults, Insert, OnePlace, WorkersRun, PendingCarried, QueueOrdered;
    StoringStep(s, e, known, cap);
    KnownSomewhere(s, id);
    KnownSomewhere(Next(s, e, cap), id);
    match e {
      case Begin(w) =>
        var task := s.workers[w].task;
        if task.id in s.pending {
          StoredKeeps(s.results, Result(task.id, Cancelled), cap);
        }
      case Record(w) =>
        StoredKeeps(s.results, Result(s.workers[w].task.id, s.workers[w].outcome), cap);
      case _ =>
    }
  }

  /** What is unknown stays so, and what is pushed out becomes so, unless it is submitted. */
  lemma StepKeepsUnknown(s: State, e: Event, known: set<string>, cap: nat, id: string)
    requires cap >= 1 && Enabled(s, e) && Inv(s, known, cap) && !(e.Submit? && e.id == id)
    ensures StatusOf(s, id) == Unknown || Evicts(s, Next(s, e, cap), cap, id) ==>
              StatusOf(Next(s, e, cap), id) == Unknown
  {
    assert HasResult(s.results, id) ==> id !in s.pending && id !in s.running;
    hide *;
    MovesOn(s, e, known, cap, id);
    KnownSomewhere(s, id);
    KnownSomewhere(Next(s, e, cap), id);
    EvictsMeans(s, Next(s, e, cap), cap, id);
  }

  lemma EvictsMeans(before: State, after: State, cap: nat, id: string)
    ensures Evicts(before, after, cap, id) ==> HasResult(before.results, id) && !HasResult(after.results, id)
  {
  }

  /** An accepted id is unknown afterwards exactly when some step has pushed its result out. */
  lemma {:induction false} KnownUntilEvicted(
    states: seq<State>, events: seq<Event>, cap: nat, i: nat, j: nat, id: string)
    requires IsRun(states, events, cap) && DistinctSubmissions(events) && i < j <= |events|
    requires events[i].Submit? && events[i].id == id && !states[i].shutdown
    ensures StatusOf(states[j], id) == Unknown <==>
            exists k :: i < k < j && Evicts(states[k], states[k + 1], cap, id)
    decreases j
  {
    hide Next, Inv, StatusOf, Evicts, Enabled, Known;
    if j == i + 1 {
      PendingChanges(states[i], events[i], cap);
      KnownSomewhere(states[j], id);
    } else {
      KnownUntilEvicted(states, events, cap, i, j - 1, id);
      RunKeepsInv(states, events, cap, j - 1);
      assert states[j] == Next(states[j - 1], events[j - 1], cap) && states[j - 1 + 1] == states[j];
      StepKeepsUnknown(states[j - 1], events[j - 1], Known(events[..j - 1]), cap, id);
      if StatusOf(states[j - 1], id) != Unknown {
        StepKeepsKnown(states[j - 1], events[j - 1], Known(events[..j - 1]), cap, id);
      }
    }
  }
}
