/** What a finished task's status says about its run: who cancelled it, and how its runner ended. */
module TaskOutcomes {
  import opened Options
  import opened TaskQueueSteps
  import opened TaskQueueRuns

  /** Submitted and not finished. */
  predicate Alive(s: State, id: string) {
    id in s.pending || id in s.running
  }

  function NumberOf(s: State, id: string): nat
    requires Alive(s, id)
  {
    if id in s.pending then s.pending[id].number else s.running[id].number
  }

  /** This event tells the task to stop: by its id, with the other running ones, or at a shutdown. */
  predicate Signals(s: State, e: Event, id: string) {
    || (e == Cancel(id) && Alive(s, id))
    || (e.CancelCurrent? && id in s.running && (e.who == None || e.who == Some(id)))
    || (e == StartShutdown(true) && Alive(s, id))
  }

  // ---------- cancel events belong to one task each ----------

  ghost predicate Numbered(s: State) {
    && (forall id :: Alive(s, id) ==> NumberOf(s, id) < s.counter)
    && (forall n :: n in s.cancelled ==> n < s.counter)
    && (forall a, b :: Alive(s, a) && Alive(s, b) && NumberOf(s, a) == NumberOf(s, b) ==> a == b)
  }

  /** Where an unfinished task's number comes from. */
  lemma NumberStays(s: State, e: Event, known: set<string>, cap: nat, id: string)
    requires cap >= 1 && Enabled(s, e) && Inv(s, known, cap) && Alive(Next(s, e, cap), id)
    ensures if e.Submit? && !s.shutdown && e.id == id then
              IsNew(known, e) ==> NumberOf(Next(s, e, cap), id) == s.counter
            else Alive(s, id) && NumberOf(Next(s, e, cap), id) == NumberOf(s, id)
  {
    hide Stored, HasResult, Insert, WorkersRun, QueueOrdered, ResultsFit, Carried;
    if e.Begin? {
      HeldIsPending(s, e.w, known);
    }
  }

  lemma CounterGrows(s: State, e: Event, cap: nat)
    requires Enabled(s, e)
    ensures Next(s, e, cap).counter >= s.counter
    ensures e.Submit? && !s.shutdown ==> Next(s, e, cap).counter == s.counter + 1
  {
    hide Stored, HasResult, Insert;
  }

  lemma SignalsAll(s: State, known: set<string>, n: nat)
    requires OnePlace(s, known)
    ensures n in NumbersOf(s.pending) + NumbersOf(s.running) <==>
            exists id :: Signals(s, StartShutdown(true), id) && NumberOf(s, id) == n
  {
    if n in NumbersOf(s.pending) {
      var id :| id in s.pending && s.pending[id].number == n;
      assert Signals(s, StartShutdown(true), id) && NumberOf(s, id) == n;
    }
    if n in NumbersOf(s.running) {
      var id :| id in s.running && s.running[id].number == n;
      assert Signals(s, StartShutdown(true), id) && NumberOf(s, id) == n;
    }
  }

  /** A cancel event is set by a step exactly when the step signals its task. */
  lemma StepCancels(s: State, e: Event, known: set<string>, cap: nat, n: nat)
    requires Enabled(s, e) && OnePlace(s, known)
    ensures n in Next(s, e, cap).cancelled <==>
            n in s.cancelled || exists id :: Signals(s, e, id) && NumberOf(s, id) == n
  {
    hide Stored, HasResult, Insert;
    match e {
      case Cancel(id) => assert Alive(s, id) ==> Signals(s, e, id);
      case CancelCurrent(who) =>
        forall id | id in Selected(s.running, who)
          ensures Signals(s, e, id) && NumberOf(s, id) == s.running[id].number
        {
        }
        assert forall id :: Signals(s, e, id) ==> id in Selected(s.running, who);
      case StartShutdown(cancelPending) =>
        if cancelPending {
          SignalsAll(s, known, n);
        }
      case _ =>
    }
  }

  lemma StepKeepsNumbered(s: State, e: Event, known: set<string>, cap: nat)
    requires cap >= 1 && Enabled(s, e) && Inv(s, known, cap) && IsNew(known, e) && Numbered(s)
    ensures Numbered(Next(s, e, cap))
  {
    var next := Next(s, e, cap);
    hide Inv, Next, Signals, Enabled, NumberOf, Alive;
    CounterGrows(s, e, cap);
    forall id | Alive(next, id)
      ensures NumberOf(next, id) < next.counter
    {
      NumberStays(s, e, known, cap, id);
    }
    forall a, b | Alive(next, a) && Alive(next, b) && NumberOf(next, a) == NumberOf(next, b)
      ensures a == b
    {
      NumberStays(s, e, known, cap, a);
      NumberStays(s, e, known, cap, b);
    }
    forall n | n in next.cancelled
      ensures n < next.counter
    {
      InvMeans(s, known, cap);
      StepCancels(s, e, known, cap, n);
      if n !in s.cancelled {
        var id :| Signals(s, e, id) && NumberOf(s, id) == n;
        SignalsAlive(s, e, id);
      }
    }
  }

  lemma InvMeans(s: State, known: set<string>, cap: nat)
    requires Inv(s, known, cap)
    ensures OnePlace(s, known) && WorkersRun(s)
    ensures forall id :: Alive(s, id) ==> id in known
  {
  }

  lemma SignalsAlive(s: State, e: Event, id: string)
    requires Signals(s, e, id)
    ensures Alive(s, id)
  {
  }

  lemma {:induction false} RunKeepsNumbered(states: seq<State>, events: seq<Event>, cap: nat, j: nat)
    requires IsRun(states, events, cap) && DistinctSubmissions(events) && j <= |events|
    ensures Numbered(states[j])
  {
    if j > 0 {
      RunKeepsNumbered(states, events, cap, j - 1);
      RunKeepsInv(states, events, cap, j - 1);
      SubmitsNew(events, j - 1);
      hide Numbered, Inv, IsNew, Known, DistinctSubmissions, Next, Enabled;
      StepKeepsNumbered(states[j - 1], events[j - 1], Known(events[..j - 1]), cap);
    }
  }

  // ---------- who was told to stop ----------

  /** Some event before step `j` told the task to stop. */
  ghost predicate WasSignalled(states: seq<State>, events: seq<Event>, j: nat, id: string)
    requires j <= |events| < |states|
  {
    exists m :: 0 <= m < j && Signals(states[m], events[m], id)
  }

  lemma SignalledUnfolds(states: seq<State>, events: seq<Event>, j: nat, id: string)
    requires 0 < j <= |events| < |states|
    ensures WasSignalled(states, events, j, id) <==>
            WasSignalled(states, events, j - 1, id) || Signals(states[j - 1], events[j - 1], id)
  {
    hide Signals;
    if WasSignalled(states, events, j, id) {
      var m :| 0 <= m < j && Signals(states[m], events[m], id);
      assert m == j - 1 || m < j - 1;
    }
  }

  /** A task is signalled only after it was submitted. */
  lemma NotBeforeSubmission(states: seq<State>, events: seq<Event>, cap: nat, i: nat)
    requires IsRun(states, events, cap) && DistinctSubmissions(events) && i < |events| && events[i].Submit?
    ensures !WasSignalled(states, events, i + 1, events[i].id)
  {
    hide Next, Enabled, Known, Inv;
    forall m | 0 <= m <= i
      ensures !Signals(states[m], events[m], events[i].id)
    {
      RunKeepsInv(states, events, cap, m);
      InvMeans(states[m], Known(events[..m]), cap);
      KnownMeans(events[..m], events[i].id);
      assert forall k :: 0 <= k < m ==> events[..m][k] == events[k];
    }
  }

  /** An unfinished task's cancel event is set exactly when it was told to stop. */
  lemma {:induction false} CancelledExactly(states: seq<State>, events: seq<Event>, cap: nat, j: nat, id: string)
    requires IsRun(states, events, cap) && DistinctSubmissions(events) && j <= |events| && Alive(states[j], id)
    ensures NumberOf(states[j], id) in states[j].cancelled <==> WasSignalled(states, events, j, id)
  {
    hide Next, Enabled, Known, Inv, Signals, Numbered, WasSignalled, DistinctSubmissions, OnePlace, NumberOf, Alive;
    if j == 0 {
      NothingAlive(states, events, cap, id);
    } else {
      var s, e, known := states[j - 1], events[j - 1], Known(events[..j - 1]);
      RunKeepsInv(states, events, cap, j - 1);
      RunKeepsNumbered(states, events, cap, j - 1);
      InvMeans(s, known, cap);
      SubmitsNew(events, j - 1);
      NumberStays(s, e, known, cap, id);
      var n := NumberOf(states[j], id);
      StepCancels(s, e, known, cap, n);
      if e.Submit? && !s.shutdown && e.id == id {
        NotBeforeSubmission(states, events, cap, j - 1);
        FreshNumber(s, e, n);
      } else {
        CancelledExactly(states, events, cap, j - 1, id);
        SignalledUnfolds(states, events, j, id);
        OwnNumber(s, e, id);
      }
    }
  }

  lemma NothingAlive(states: seq<State>, events: seq<Event>, cap: nat, id: string)
    requires IsRun(states, events, cap)
    ensures !Alive(states[0], id)
  {
  }

  lemma FreshNumber(s: State, e: Event, n: nat)
    requires Numbered(s) && n == s.counter && e.Submit?
    ensures n !in s.cancelled && forall id :: !Signals(s, e, id)
  {
  }

  lemma OwnNumber(s: State, e: Event, id: string)
    requires Numbered(s) && Alive(s, id)
    ensures (exists other :: Signals(s, e, other) && NumberOf(s, other) == NumberOf(s, id)) <==> Signals(s, e, id)
  {
    hide NumberOf;
  }

  // ---------- what the status says ----------

  /**
   Step `k` decides the task's outcome: its runner ends, raising or not, told to stop before or not; or
   it was told to stop before it was started.
   */
  ghost predicate Decides(states: seq<State>, events: seq<Event>, k: nat, r: Result)
    requires k < |events| < |states|
  {
    var s, e := states[k], events[k];
    || (&& e.Finish? && e.w < |s.workers| && s.workers[e.w].Executing? && s.workers[e.w].task.id == r.id
        && r.outcome == if e.raised then Failed
                        else if WasSignalled(states, events, k, r.id) then Cancelled else Completed)
    || (&& e.Begin? && e.w < |s.workers| && s.workers[e.w].Holding? && s.workers[e.w].task.id == r.id
        && r.outcome == Cancelled && WasSignalled(states, events, k, r.id))
  }

  ghost predicate DecidedBefore(states: seq<State>, events: seq<Event>, j: nat, r: Result)
    requires j <= |events| < |states|
  {
    exists k :: 0 <= k < j && Decides(states, events, k, r)
  }

  lemma DecidedLater(states: seq<State>, events: seq<Event>, j: nat, r: Result)
    requires 0 < j <= |events| < |states|
    ensures DecidedBefore(states, events, j - 1, r) || Decides(states, events, j - 1, r) ==>
              DecidedBefore(states, events, j, r)
  {
    hide Decides;
    if DecidedBefore(states, events, j - 1, r) {
      var k :| 0 <= k < j - 1 && Decides(states, events, k, r);
      assert 0 <= k < j;
    }
  }

  lemma StoredFrom(results: seq<Result>, r: Result, cap: nat, x: Result)
    requires x in Stored(results, r, cap)
    ensures x in results || x == r
  {
    var all := Assigned(results, r);
    assert x in all;
    var i :| 0 <= i < |all| && all[i] == x;
  }

  /** Where a result, or the outcome a worker is about to record, comes from. */
  lemma ResultFrom(s: State, e: Event, cap: nat, r: Result)
    requires Enabled(s, e) && r in Next(s, e, cap).results
    ensures || r in s.results
            || (e.Record? && r == Result(s.workers[e.w].task.id, s.workers[e.w].outcome))
            || (e.Begin? && s.workers[e.w].task.id in s.pending && s.workers[e.w].task.number in s.cancelled
                && r == Result(s.workers[e.w].task.id, Cancelled))
  {
    hide Stored, HasResult, Insert;
    match e {
      case Begin(w) =>
        var task := s.workers[w].task;
        if task.id in s.pending && task.number in s.cancelled {
          StoredFrom(s.results, Result(task.id, Cancelled), cap, r);
        }
      case Record(w) => StoredFrom(s.results, Result(s.workers[w].task.id, s.workers[w].outcome), cap, r);
      case _ =>
    }
  }

  lemma ReturnedFrom(s: State, e: Event, cap: nat, w: nat)
    requires Enabled(s, e) && w < |Next(s, e, cap).workers| && Next(s, e, cap).workers[w].Returned?
    ensures var worker := Next(s, e, cap).workers[w];
            || (w < |s.workers| && s.workers[w] == worker)
            || (&& e.Finish? && e.w == w && worker.task == s.workers[w].task
                && worker.outcome == if e.raised then Failed
                                     else if worker.task.number in s.cancelled then Cancelled else Completed)
  {
    hide Stored, HasResult, Insert;
  }

  /** Every stored result and every outcome still to be recorded was decided by a step before. */
  ghost predicate AllDecided(states: seq<State>, events: seq<Event>, j: nat)
    requires j <= |events| < |states|
  {
    var s := states[j];
    && (forall r :: r in s.results ==> DecidedBefore(states, events, j, r))
    && (forall w :: 0 <= w < |s.workers| && s.workers[w].Returned? ==>
          DecidedBefore(states, events, j, Result(s.workers[w].task.id, s.workers[w].outcome)))
  }

  lemma FinishDecides(states: seq<State>, events: seq<Event>, cap: nat, k: nat, w: nat)
    requires IsRun(states, events, cap) && DistinctSubmissions(events) && k < |events|
    requires events[k].Finish? && events[k].w == w
    ensures Enabled(states[k], events[k]) && w < |states[k].workers| && states[k].workers[w].Executing?
    ensures var task := states[k].workers[w].task;
            Decides(states, events, k,
                    Result(task.id, if events[k].raised then Failed
                                    else if task.number in states[k].cancelled then Cancelled else Completed))
  {
    hide Next, Known, WasSignalled, DistinctSubmissions, OnePlace, PendingCarried, QueueOrdered, ResultsFit;
    var s := states[k];
    var task := s.workers[w].task;
    RunKeepsInv(states, events, cap, k);
    assert s.workers[w].Busy() && task.id in s.running && s.running[task.id] == task;
    NotPending(s, Known(events[..k]), cap, task.id);
    CancelledExactly(states, events, cap, k, task.id);
  }

  lemma NotPending(s: State, known: set<string>, cap: nat, id: string)
    requires Inv(s, known, cap) && id in s.running
    ensures id !in s.pending && Alive(s, id) && NumberOf(s, id) == s.running[id].number
  {
  }

  lemma BeginDecides(states: seq<State>, events: seq<Event>, cap: nat, k: nat, w: nat)
    requires IsRun(states, events, cap) && DistinctSubmissions(events) && k < |events|
    requires events[k].Begin? && events[k].w == w && Enabled(states[k], events[k])
    requires var task := states[k].workers[w].task;
             task.id in states[k].pending && task.number in states[k].cancelled
    ensures Decides(states, events, k, Result(states[k].workers[w].task.id, Cancelled))
  {
    hide Next, Known, WasSignalled, DistinctSubmissions, OnePlace, QueueOrdered, ResultsFit, WorkersRun;
    var s := states[k];
    var task := s.workers[w].task;
    RunKeepsInv(states, events, cap, k);
    HeldIsPending(s, w, Known(events[..k]));
    CancelledExactly(states, events, cap, k, task.id);
  }

  lemma {:induction false} RunDecides(states: seq<State>, events: seq<Event>, cap: nat, j: nat)
    requires IsRun(states, events, cap) && DistinctSubmissions(events) && j <= |events|
    ensures AllDecided(states, events, j)
  {
    hide Next, Decides, DecidedBefore, DistinctSubmissions;
    if j > 0 {
      var s, e, next := states[j - 1], events[j - 1], states[j];
      RunDecides(states, events, cap, j - 1);
      forall r | r in next.results
        ensures DecidedBefore(states, events, j, r)
      {
        ResultFrom(s, e, cap, r);
        if r !in s.results && e.Begin? {
          BeginDecides(states, events, cap, j - 1, e.w);
        }
        DecidedLater(states, events, j, r);
      }
      forall w | 0 <= w < |next.workers| && next.workers[w].Returned?
        ensures DecidedBefore(states, events, j, Result(next.workers[w].task.id, next.workers[w].outcome))
      {
        ReturnedFrom(s, e, cap, w);
        if e.Finish? && e.w == w {
          FinishDecides(states, events, cap, j - 1, w);
        }
        DecidedLater(states, events, j, Result(next.workers[w].task.id, next.workers[w].outcome));
      }
    } else {
      NothingFinished(states, events, cap);
    }
  }

  lemma NothingFinished(states: seq<State>, events: seq<Event>, cap: nat)
    requires IsRun(states, events, cap)
    ensures states[0].results == [] && forall w :: 0 <= w < |states[0].workers| ==> states[0].workers[w] == Idle
  {
  }

  /**
   A finished task's status is true in every interleaving: "failed" means that its runner raised,
   "completed" that it returned without having been told to stop, "cancelled" that it was told to stop
   before it returned or was started.
   */
  lemma StatusIsTrue(states: seq<State>, events: seq<Event>, cap: nat, j: nat, id: string) returns (k: nat)
    requires IsRun(states, events, cap) && DistinctSubmissions(events) && j <= |events|
    requires StatusOf(states[j], id).Finished?
    ensures k < j && Decides(states, events, k, Result(id, StatusOf(states[j], id).outcome))
  {
    var s := states[j];
    var r := s.results[ResultPosition(s.results, id)];
    assert r in s.results && r == Result(id, StatusOf(s, id).outcome);
    RunDecides(states, events, cap, j);
    hide Decides;
    k :| 0 <= k < j && Decides(states, events, k, r);
  }


  /** The status says where the id is, in every interleaving. */
  lemma StatusExactly(states: seq<State>, events: seq<Event>, cap: nat, j: nat, id: string)
    requires IsRun(states, events, cap) && DistinctSubmissions(events) && j <= |events|
    ensures var s, status := states[j], StatusOf(states[j], id);
            && (status == Pending <==> id in s.pending)
            && (status == Running <==> id in s.running)
            && (forall o :: status == Finished(o) <==> Result(id, o) in s.results)
  {
    var s := states[j];
    RunKeepsInv(states, events, cap, j);
    assert OnePlace(s, Known(events[..j])) && DistinctResults(s.results);
    hide IsRun, DistinctSubmissions, Inv;
    var k := ResultPosition(s.results, id);
    assert k < |s.results| ==> s.results[k] in s.results;
  }

  // ---------- submitting and stopping ----------

  /** An accepted task is pending and waits, with its own priority, behind all earlier submissions. */
  lemma SubmitExactly(s: State, id: string, priority: int)
    requires id != "" && QueueOrdered(s) && !s.shutdown
    ensures var next, task := Submitted(s, id, priority), Task(id, s.counter);
            && (forall e :: e in next.queue <==> e in s.queue || e == Entry(priority, task))
            && (forall e :: e in s.queue ==> e.task.number < task.number)
            && next == s.(queue := next.queue, pending := s.pending[id := task], counter := s.counter + 1)
            && Sorted(next.queue)
  {
    InsertKeeps(s.queue, Entry(priority, Task(id, s.counter)));
    hide Insert;
  }

  lemma StoppedStep(s: State, e: Event, cap: nat)
    requires Enabled(s, e)
    ensures s.shutdown ==> Next(s, e, cap).shutdown
    ensures var next := Next(s, e, cap);
            forall w :: 0 <= w < |next.workers| && next.workers[w].Stopped? ==>
              (w < |s.workers| && s.workers[w].Stopped?) || s.shutdown
    ensures var next := Next(s, e, cap);
            s.shutdown ==> forall w :: 0 <= w < |next.workers| && next.workers[w].Polling? ==>
              w < |s.workers| && s.workers[w].Polling?
  {
    hide Stored, HasResult, Insert;
  }

  /** Workers serve until the shutdown, and after it none goes to the queue again. */
  lemma {:induction false} WorkersServeUntilShutdown(states: seq<State>, events: seq<Event>, cap: nat, j: nat, w: nat)
    requires IsRun(states, events, cap) && j <= |events| && w < |states[j].workers|
    ensures states[j].workers[w].Stopped? ==> states[j].shutdown
    ensures j > 0 && states[j - 1].shutdown && states[j].workers[w].Polling? ==>
              w < |states[j - 1].workers| && states[j - 1].workers[w].Polling?
  {
    hide Next, Enabled;
    if j > 0 {
      StoppedStep(states[j - 1], events[j - 1], cap);
      if w < |states[j - 1].workers| {
        WorkersServeUntilShutdown(states, events, cap, j - 1, w);
      }
    } else {
      NothingFinished(states, events, cap);
    }
  }
}
