/** The interrupt and resume cycle of `AgentOrchestrator._run_loop`, for one plan. */
module PlanResumption {
  import opened PlanGraph
  import opened PlanBatches
  import opened PlanOrder
  import opened PlanExecution

  /** What is saved of an interrupted plan. */
  datatype Checkpoint = Checkpoint(steps: seq<PlanStep>, current: seq<StepResult>)

  /** The saved results that a resumed run keeps: successes of steps of the plan. */
  function Kept(steps: seq<PlanStep>, results: seq<StepResult>): (r: seq<StepResult>)
    ensures forall x :: x in r <==> x in results && x.success && x.step in steps
  {
    if results == [] then []
    else
      var rest, last := results[..|results| - 1], results[|results| - 1];
      assert forall x :: x in results <==> x in rest || x == last;
      Kept(steps, rest) + if last.success && last.step in steps then [last] else []
  }

  lemma {:induction false} KeptIsDistinct(steps: seq<PlanStep>, results: seq<StepResult>)
    requires DistinctResults(results)
    ensures DistinctResults(Kept(steps, results))
  {
    if results != [] {
      var rest, last := results[..|results| - 1], results[|results| - 1];
      KeptIsDistinct(steps, rest);
      assert forall x :: x in rest ==> x.step.id != last.step.id;
      assert forall x :: x in Kept(steps, rest) ==> x.step.id != last.step.id;
    }
  }

  predicate HasId(results: seq<StepResult>, id: int) {
    exists i :: 0 <= i < |results| && results[i].step.id == id
  }

  /** The steps without a kept result, in plan order. */
  function Unfinished(steps: seq<PlanStep>, done: seq<StepResult>): (r: seq<PlanStep>)
    ensures forall s :: s in r <==> s in steps && !HasId(done, s.id)
  {
    if steps == [] then []
    else
      var rest, last := steps[..|steps| - 1], steps[|steps| - 1];
      assert forall s :: s in steps <==> s in rest || s == last;
      Unfinished(rest, done) + if HasId(done, last.id) then [] else [last]
  }

  lemma {:induction false} UnfinishedIsDistinct(steps: seq<PlanStep>, done: seq<StepResult>)
    requires DistinctIds(steps)
    ensures DistinctIds(Unfinished(steps, done))
  {
    if steps != [] {
      var rest, last := steps[..|steps| - 1], steps[|steps| - 1];
      UnfinishedIsDistinct(rest, done);
      assert forall s :: s in rest ==> s.id != last.id;
      assert forall s :: s in Unfinished(rest, done) ==> s.id != last.id;
    }
  }

  /** Batches of a plan hold its steps, and none of them twice. */
  ghost predicate Groups(groups: seq<seq<PlanStep>>, steps: seq<PlanStep>) {
    DistinctIds(Flatten(groups)) && forall s :: s in Flatten(groups) ==> s in steps
  }

  type Grouping = seq<PlanStep> -> seq<seq<PlanStep>>

  /** The grouping does so for every part of the plan. */
  ghost predicate GroupsWell(grouping: Grouping, steps: seq<PlanStep>) {
    forall part :: DistinctIds(part) && (forall s :: s in part ==> s in steps) ==> Groups(grouping(part), part)
  }

  /** Nor does it leave a step out. */
  ghost predicate GroupsAll(grouping: Grouping, steps: seq<PlanStep>) {
    forall part :: DistinctIds(part) && (forall s :: s in part ==> s in steps) ==>
      forall s :: s in part ==> s in Flatten(grouping(part))
  }

  /** The batches of numbered plans do. */
  lemma NumberedBatchesGroupWell(steps: seq<PlanStep>)
    requires AllGrouped(steps)
    ensures GroupsWell(BatchesOf, steps) && GroupsAll(BatchesOf, steps)
  {
    forall part | DistinctIds(part) && forall s :: s in part ==> s in steps
      ensures Groups(BatchesOf(part), part) && forall s :: s in part ==> s in Flatten(BatchesOf(part))
    {
      BatchesArePermutation(part);
      SameStepsDistinct(part, Flatten(BatchesOf(part)));
      assert forall s :: s in Flatten(BatchesOf(part)) <==> s in multiset(Flatten(BatchesOf(part)));
    }
  }

  datatype Outcome =
    | Interrupted
    | GivenUp
    | Verified(results: seq<StepResult>)

  /** A checkpoint the orchestrator saves: one result at most for a step, and only for steps of the plan. */
  ghost predicate Good(cp: Checkpoint) {
    DistinctIds(cp.steps) && DistinctResults(cp.current) && ResultsOf(cp.current, cp.steps)
  }

  /** The step's success is recorded. */
  ghost predicate Recorded(results: seq<StepResult>, id: int) {
    exists r :: r in results && r.success && r.step.id == id
  }

  /** What one session, from a checkpoint up to the next one or to the end, does. */
  datatype Session = Session(before: Checkpoint, ran: seq<PlanStep>, after: seq<StepResult>)

  /** It runs unfinished steps only, each at most once, and forgets no recorded success. */
  ghost predicate Resumes(s: Session) {
    && DistinctIds(s.ran)
    && (forall x :: x in s.ran ==> x in s.before.steps && !Recorded(s.before.current, x.id))
    && DistinctResults(s.after) && ResultsOf(s.after, s.before.steps)
    && (forall id :: Recorded(s.before.current, id) ==> Recorded(s.after, id))
  }

  lemma KeptKeepsRecorded(cp: Checkpoint, id: int)
    requires Good(cp)
    ensures Recorded(cp.current, id) <==> Recorded(Kept(cp.steps, cp.current), id)
    ensures HasId(Kept(cp.steps, cp.current), id) <==> Recorded(cp.current, id)
  {
    var kept := Kept(cp.steps, cp.current);
    if Recorded(cp.current, id) {
      var r :| r in cp.current && r.success && r.step.id == id;
      assert r in kept;
      var i :| 0 <= i < |kept| && kept[i] == r;
      assert kept[i].step.id == id;
    }
    if HasId(kept, id) {
      var i :| 0 <= i < |kept| && kept[i].step.id == id;
      assert kept[i] in kept;
    }
  }

  /** The steps a session resumed from the checkpoint runs. */
  function PendingOf(cp: Checkpoint): seq<PlanStep> {
    Unfinished(cp.steps, Kept(cp.steps, cp.current))
  }

  lemma WellGrouped(grouping: Grouping, cp: Checkpoint, groups: seq<seq<PlanStep>>)
    requires Good(cp) && GroupsWell(grouping, cp.steps)
    requires groups == grouping(Unfinished(cp.steps, Kept(cp.steps, cp.current)))
    ensures groups == grouping(PendingOf(cp)) && Groups(groups, PendingOf(cp)) && DistinctIds(Flatten(groups))
  {
    UnfinishedIsDistinct(cp.steps, Kept(cp.steps, cp.current));
  }

  lemma AllGroupedIn(grouping: Grouping, cp: Checkpoint, groups: seq<seq<PlanStep>>)
    requires Good(cp) && GroupsAll(grouping, cp.steps) && groups == grouping(PendingOf(cp))
    ensures forall s :: s in PendingOf(cp) ==> s in Flatten(groups)
  {
    UnfinishedIsDistinct(cp.steps, Kept(cp.steps, cp.current));
  }

  /** Stopping before the plan is executed keeps the results that were kept. */
  lemma NothingRan(cp: Checkpoint)
    requires Good(cp)
    ensures Resumes(Session(cp, [], Kept(cp.steps, cp.current)))
  {
    KeptIsDistinct(cp.steps, cp.current);
    forall id
      ensures Recorded(cp.current, id) ==> Recorded(Kept(cp.steps, cp.current), id)
    {
      KeptKeepsRecorded(cp, id);
    }
  }

  /** Executing the unfinished part adds results of other steps. */
  lemma SomeRan(cp: Checkpoint, groups: seq<seq<PlanStep>>, ran: seq<PlanStep>, results: seq<StepResult>)
    requires Good(cp)
    requires Groups(groups, PendingOf(cp)) && Tidy(results, ran, Flatten(groups))
    ensures Resumes(Session(cp, ran, Kept(cp.steps, cp.current) + results))
  {
    var kept := Kept(cp.steps, cp.current);
    var pending := Unfinished(cp.steps, kept);
    KeptIsDistinct(cp.steps, cp.current);
    forall r, s | r in kept && s in pending
      ensures r.step.id != s.id
    {
      var i :| 0 <= i < |kept| && kept[i] == r;
      assert !HasId(kept, s.id);
    }
    forall i, j | 0 <= i < j < |kept + results|
      ensures (kept + results)[i].step.id != (kept + results)[j].step.id
    {
      assert i < |kept| <= j ==> kept[i] in kept && results[j - |kept|] in results;
    }
    forall id
      ensures Recorded(cp.current, id) ==> Recorded(kept + results, id)
      ensures HasId(kept, id) <==> Recorded(cp.current, id)
    {
      KeptKeepsRecorded(cp, id);
      if Recorded(kept, id) {
        var r :| r in kept && r.success && r.step.id == id;
        assert r in kept + results;
      }
    }
  }

  lemma ResumesIsGood(s: Session)
    requires Good(s.before) && Resumes(s)
    ensures Good(Checkpoint(s.before.steps, s.after))
    ensures forall x :: x in s.ran ==> !Recorded(s.before.current, x.id)
  {
  }

  /** Finished or covered by the batches: then every step of the plan has a result or was skipped. */
  lemma AllCovered(cp: Checkpoint, groups: seq<seq<PlanStep>>, results: seq<StepResult>, skipped: set<PlanStep>)
    requires Good(cp) && forall s :: s in PendingOf(cp) ==> s in Flatten(groups)
    requires Covered(Flatten(groups), results, skipped)
    ensures Covered(cp.steps, Kept(cp.steps, cp.current) + results, skipped)
  {
    var kept := Kept(cp.steps, cp.current);
    var pending := Unfinished(cp.steps, kept);
    forall s | s in cp.steps && s !in skipped
      ensures HasResult(kept + results, s)
    {
      if HasId(kept, s.id) {
        var i :| 0 <= i < |kept| && kept[i].step.id == s.id;
        assert kept[i] in kept && kept[i].step in cp.steps;
        SameId(cp.steps, kept[i].step, s);
        assert kept[i] in kept + results;
      } else {
        assert s in pending;
        var r :| r in results && r.step == s;
        assert r in kept + results;
      }
    }
  }

  /** A step of the plan is pending again exactly when no success of it is recorded. */
  lemma PendingExactly(cp: Checkpoint, s: PlanStep)
    requires Good(cp)
    ensures s in PendingOf(cp) <==> s in cp.steps && !Recorded(cp.current, s.id)
  {
    KeptKeepsRecorded(cp, s.id);
  }

  /** What execution says about the results of run steps holds behind the kept results as well. */
  lemma ResultsBehindKept(cp: Checkpoint, groups: seq<seq<PlanStep>>, ran: seq<PlanStep>, results: seq<StepResult>,
                          aborted: bool)
    requires Good(cp) && Groups(groups, PendingOf(cp)) && Tidy(results, ran, Flatten(groups))
    requires aborted ==> results != []
    requires forall x :: x in ran ==> (HasResult(results, x) <==> !IsLost(aborted, results, groups, x))
    ensures var current := Kept(cp.steps, cp.current) + results;
            forall x :: x in ran ==> (HasResult(current, x) <==> !IsLost(aborted, current, groups, x))
  {
    var kept := Kept(cp.steps, cp.current);
    var current := kept + results;
    forall x | x in ran
      ensures HasResult(current, x) <==> HasResult(results, x)
    {
      assert x in PendingOf(cp);
      NoResultWithoutId(kept, x);
      assert forall r :: r in current ==> r in kept || r in results;
      if r :| r in results && r.step == x {
        assert r in current;
      }
    }
    if aborted {
      assert current[|current| - 1] == results[|results| - 1];
    }
  }

  lemma NoResultWithoutId(results: seq<StepResult>, s: PlanStep)
    requires !HasId(results, s.id)
    ensures !HasResult(results, s)
  {
    forall r | r in results
      ensures r.step != s
    {
      var i :| 0 <= i < |results| && results[i] == r;
    }
  }

  lemma PairIsOneBatch(a: PlanStep, b: PlanStep)
    requires a.id < b.id && a.group == b.group >= 0 && !UsesDesktop(b)
    ensures BatchesOf([a, b]) == [[a, b]]
  {
    var pair := [a, b];
    assert pair[1..] == [b] && [b][1..] == [];
    assert Sorted([b]) == [b];
    assert Sorted(pair) == pair;
    assert Within([b], {a.group}) == [b];
    assert GroupOf(pair, a.group) == pair;
    assert DesktopCount([b]) == 0;
    assert Chunk(pair) == [pair];
    assert Batches([b], pair, {} + {a.group}) == [];
  }

  /**
   A success can be lost and run again: in a plan of one batch the first step fails and aborts, the second
   succeeds, the user interrupts. The checkpoint holds the first result only, and the second step, although
   it succeeded, is pending in the next session.
   */
  lemma SuccessCanBeRunAgain(a: PlanStep, b: PlanStep, aborts: Aborting)
    requires a.id < b.id && a.group == b.group >= 0 && !UsesDesktop(b) && aborts(a)
    ensures BatchesOf([a, b]) == [[a, b]]
    ensures var judged := [StepResult(a, false), StepResult(b, true)];
            var cp := Checkpoint([a, b], judged[..TakenUp(judged, aborts, 2)]);
            Good(cp) && HasResult(judged, b) && !HasResult(cp.current, b) && b in PendingOf(cp)
  {
    hide BatchesOf, Batches, TakenUp, PendingOf, Kept, Unfinished;
    PairIsOneBatch(a, b);
    SuccessCanBeLost(a, b, aborts);
    var judged := [StepResult(a, false), StepResult(b, true)];
    var cp := Checkpoint([a, b], judged[..1]);
    assert cp.current == [StepResult(a, false)] && judged[1] in judged && cp.steps[1] in cp.steps;
    PendingExactly(cp, b);
  }

  lemma SameId(steps: seq<PlanStep>, a: PlanStep, b: PlanStep)
    requires DistinctIds(steps) && a in steps && b in steps && a.id == b.id
    ensures a == b
  {
    var i :| 0 <= i < |steps| && steps[i] == a;
    var j :| 0 <= j < |steps| && steps[j] == b;
  }

  /** Every recorded success was recorded before, or reported by a runner, or is that of a thought. */
  ghost predicate NoneMadeUp(results: seq<StepResult>, was: seq<StepResult>, reports: seq<StepResult>,
                             isThought: PlanStep -> bool) {
    forall r :: r in results && r.success ==> r in was || r in reports || isThought(r.step)
  }

  lemma KeptIsNotMadeUp(cp: Checkpoint, reports: seq<StepResult>, isThought: PlanStep -> bool)
    ensures NoneMadeUp(Kept(cp.steps, cp.current), cp.current, reports, isThought)
  {
  }

  lemma ReportedIsNotMadeUp(cp: Checkpoint, results: seq<StepResult>, reports: seq<StepResult>,
                            isThought: PlanStep -> bool, turnedDown: set<PlanStep>)
    requires Honest(results, reports, isThought, turnedDown)
    ensures NoneMadeUp(Kept(cp.steps, cp.current) + results, cp.current, reports, isThought)
  {
  }

  class AgentOrchestrator {
    const engine: ExecutionEngine
    const grouping: Grouping
    var lastCheckpoint: Checkpoint

    constructor (engine: ExecutionEngine, grouping: Grouping, steps: seq<PlanStep>)
      ensures this.engine == engine && this.grouping == grouping
      ensures lastCheckpoint == Checkpoint(steps, [])
    {
      this.engine, this.grouping := engine, grouping;
      lastCheckpoint := Checkpoint(steps, []);
    }

    method SaveCheckpoint(steps: seq<PlanStep>, current: seq<StepResult>)
      modifies this`lastCheckpoint
      ensures lastCheckpoint == Checkpoint(steps, current)
    {
      lastCheckpoint := Checkpoint(steps, current);
    }

    /**
     The first iteration after resuming from the checkpoint, or the first of a fresh plan when there is
     no result yet. It ends with the next checkpoint, with the verification, or with giving the plan up.
     The engine's cancel event is the orchestrator's interrupt event. `refused` tells that the time is up
     before the run or that the plan does not pass validation, `outOfTime` that it is up after the run.
     */
    method RunPlan(refused: bool, outOfTime: bool) returns (outcome: Outcome, ghost aborted: bool)
      requires Good(lastCheckpoint) && GroupsWell(grouping, lastCheckpoint.steps)
      modifies this`lastCheckpoint, engine
      ensures Good(lastCheckpoint) && lastCheckpoint.steps == old(lastCheckpoint.steps)
      ensures |engine.started| >= |old(engine.started)|
      ensures engine.started[..|old(engine.started)|] == old(engine.started)
      ensures var ran := engine.started[|old(engine.started)|..];
              && (outcome.Interrupted? ==> Resumes(Session(old(lastCheckpoint), ran, lastCheckpoint.current)))
              && (outcome.Verified? ==> Resumes(Session(old(lastCheckpoint), ran, outcome.results)))
              && forall x :: x in ran ==> !Recorded(old(lastCheckpoint.current), x.id)
      ensures outcome.Interrupted? ==> engine.cancelled && engine.requests > old(engine.requests)
      ensures refused ==> engine.started == old(engine.started)
      ensures engine.lateStarts == old(engine.lateStarts) && old(engine.reports) <= engine.reports
      ensures outcome.Interrupted? ==>
                NoneMadeUp(lastCheckpoint.current, old(lastCheckpoint.current),
                           engine.reports[|old(engine.reports)|..], engine.isThink)
      ensures outcome.Verified? ==>
                NoneMadeUp(outcome.results, old(lastCheckpoint.current),
                           engine.reports[|old(engine.reports)|..], engine.isThink)
      ensures var cp := old(lastCheckpoint);
              var groups := grouping(PendingOf(cp));
              outcome.Interrupted? ==>
                forall x :: x in engine.started[|old(engine.started)|..] ==>
                  (HasResult(lastCheckpoint.current, x) <==> !IsLost(aborted, lastCheckpoint.current, groups, x))
      ensures outcome.GivenUp? ==> refused || outOfTime || aborted
      ensures outcome.Verified? ==> !engine.cancelled && !refused && !outOfTime && !aborted
      ensures outcome.Verified? && GroupsAll(grouping, lastCheckpoint.steps) ==>
                Covered(lastCheckpoint.steps, outcome.results, engine.skipped)
    {
      ghost var cp := lastCheckpoint;
      hide *;
      aborted := false;
      engine.cancelled := false;
      var steps := lastCheckpoint.steps;
      var prior := Kept(steps, lastCheckpoint.current);
      NothingRan(cp);
      ResumesIsGood(Session(cp, [], prior));
      KeptIsNotMadeUp(cp, engine.reports[|old(engine.reports)|..], engine.isThink);
      assert engine.started[|old(engine.started)|..] == [];
      var interrupted := engine.IsCancelRequested();
      if interrupted {
        SaveCheckpoint(steps, prior);
        return Interrupted, aborted;
      }
      if refused {
        return GivenUp, aborted;
      }
      interrupted := engine.IsCancelRequested();
      if interrupted {
        SaveCheckpoint(steps, prior);
        return Interrupted, aborted;
      }
      var pending := Unfinished(steps, prior);
      var groups := grouping(pending);
      WellGrouped(grouping, cp, groups);
      var ok, failed, results := engine.ExecutePlan(groups);
      aborted := failed;
      ReportedIsNotMadeUp(cp, results, engine.reports[|old(engine.reports)|..], engine.isThink, engine.turnedDown);
      SomeRan(cp, groups, engine.started[|old(engine.started)|..], results);
      ResumesIsGood(Session(cp, engine.started[|old(engine.started)|..], prior + results));
      ResultsBehindKept(cp, groups, engine.started[|old(engine.started)|..], results, aborted);
      if ok && GroupsAll(grouping, steps) {
        AllGroupedIn(grouping, cp, groups);
        AllCovered(cp, groups, results, engine.skipped);
      }
      var current := prior + results;
      interrupted := engine.IsCancelRequested();
      if interrupted {
        SaveCheckpoint(steps, current);
        return Interrupted, aborted;
      }
      if outOfTime || !ok {
        return GivenUp, aborted;
      }
      interrupted := engine.IsCancelRequested();
      if interrupted {
        SaveCheckpoint(steps, current);
        return Interrupted, aborted;
      }
      interrupted := engine.IsCancelRequested();
      if interrupted {
        SaveCheckpoint(steps, current);
        return Interrupted, aborted;
      }
      outcome := Verified(current);
    }
  }

  /** Sessions of one plan, each resumed from the checkpoint of the one before. */
  ghost predicate Chain(sessions: seq<Session>) {
    && (forall i :: 0 <= i < |sessions| ==> Good(sessions[i].before) && Resumes(sessions[i]))
    && (forall i :: 0 <= i < |sessions| - 1 ==>
          sessions[i + 1].before == Checkpoint(sessions[i].before.steps, sessions[i].after))
  }

  lemma {:induction false} RecordsStay(sessions: seq<Session>, i: nat, j: nat, id: int)
    requires Chain(sessions) && i < j < |sessions| && Recorded(sessions[i].after, id)
    ensures Recorded(sessions[j].before.current, id)
    decreases j
  {
    if j > i + 1 {
      RecordsStay(sessions, i, j - 1, id);
    }
    assert sessions[j - 1 + 1].before == Checkpoint(sessions[j - 1].before.steps, sessions[j - 1].after);
  }

  /** Over any number of interruptions, a step whose success was recorded is never run again. */
  lemma RecordedIsNotRerun(sessions: seq<Session>, i: nat, j: nat, x: PlanStep)
    requires Chain(sessions) && i < j < |sessions| && Recorded(sessions[i].after, x.id)
    ensures x !in sessions[j].ran
    ensures Recorded(sessions[j].after, x.id)
  {
    RecordsStay(sessions, i, j, x.id);
  }
}
