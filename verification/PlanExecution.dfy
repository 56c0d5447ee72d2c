/**
 `ExecutionEngine.execute_plan`. What it asks the outside world (the cancel event, step conditions,
 runners, guards) is arbitrary.
 */
module PlanExecution {
  import opened Options
  import opened PlanGraph
  import opened PlanBatches
  import opened PlanOrder
  import opened PlanAnnotation
  import opened PlanDependencies

  datatype StepResult = StepResult(step: PlanStep, success: bool)

  ghost predicate DistinctResults(results: seq<StepResult>) {
    forall i, j :: 0 <= i < j < |results| ==> results[i].step.id != results[j].step.id
  }

  /** Every result is one of a step in `steps`. */
  ghost predicate ResultsOf(results: seq<StepResult>, steps: seq<PlanStep>) {
    forall r :: r in results ==> r.step in steps
  }

  ghost predicate HasResult(results: seq<StepResult>, s: PlanStep) {
    exists r :: r in results && r.step == s
  }

  lemma AppendResults(a: seq<StepResult>, front: seq<PlanStep>, b: seq<StepResult>, back: seq<PlanStep>)
    requires DistinctResults(a) && ResultsOf(a, front) && DistinctResults(b) && ResultsOf(b, back)
    requires DistinctIds(front + back)
    ensures DistinctResults(a + b) && ResultsOf(a + b, front + back)
  {
    forall r, s | r in a && s in b
      ensures r.step.id != s.step.id
    {
      var i :| 0 <= i < |front| && front[i] == r.step;
      var j :| 0 <= j < |back| && back[j] == s.step;
      assert (front + back)[i] == r.step && (front + back)[|front| + j] == s.step;
    }
    forall i, j | 0 <= i < j < |a + b|
      ensures (a + b)[i].step.id != (a + b)[j].step.id
    {
      assert i < |a| <= j ==> a[i] in a && b[j - |a|] in b;
    }
  }

  lemma AppendSteps(a: seq<PlanStep>, front: seq<PlanStep>, b: seq<PlanStep>, back: seq<PlanStep>)
    requires DistinctIds(a) && DistinctIds(b) && DistinctIds(front + back)
    requires (forall s :: s in a ==> s in front) && forall s :: s in b ==> s in back
    ensures DistinctIds(a + b) && forall s :: s in a + b ==> s in front + back
  {
    forall s, t | s in a && t in b
      ensures s.id != t.id
    {
      var i :| 0 <= i < |front| && front[i] == s;
      var j :| 0 <= j < |back| && back[j] == t;
      assert (front + back)[i] == s && (front + back)[|front| + j] == t;
    }
    forall i, j | 0 <= i < j < |a + b|
      ensures (a + b)[i].id != (a + b)[j].id
    {
      assert i < |a| <= j ==> a[i] in a && b[j - |a|] in b;
    }
  }

  /** The results so far and the steps given to a runner so far, all of them steps in `front`. */
  ghost predicate Tidy(results: seq<StepResult>, ran: seq<PlanStep>, front: seq<PlanStep>) {
    DistinctResults(results) && ResultsOf(results, front) && DistinctIds(ran) && forall s :: s in ran ==> s in front
  }

  /** Moreover no run is unaccounted for. */
  ghost predicate Accounted(results: seq<StepResult>, ran: seq<PlanStep>) {
    forall s :: s in ran ==> HasResult(results, s)
  }

  lemma AppendTidy(results: seq<StepResult>, ran: seq<PlanStep>, front: seq<PlanStep>,
                   more: seq<StepResult>, moreRan: seq<PlanStep>, back: seq<PlanStep>)
    requires Tidy(results, ran, front) && Tidy(more, moreRan, back) && DistinctIds(front + back)
    ensures Tidy(results + more, ran + moreRan, front + back)
    ensures Accounted(results, ran) && Accounted(more, moreRan) ==> Accounted(results + more, ran + moreRan)
  {
    AppendResults(results, front, more, back);
    AppendSteps(ran, front, moreRan, back);
    if Accounted(results, ran) && Accounted(more, moreRan) {
      forall s | s in ran + moreRan
        ensures HasResult(results + more, s)
      {
        if s in ran {
          var r :| r in results && r.step == s;
          assert r in results + more;
        } else {
          var r :| r in more && r.step == s;
          assert r in results + more;
        }
      }
    }
  }

  /** Every step of the batch has a result or was skipped. */
  ghost predicate Covered(group: seq<PlanStep>, results: seq<StepResult>, skipped: set<PlanStep>) {
    forall s :: s in group ==> HasResult(results, s) || s in skipped
  }

  // ---------- taking up a batch's results ----------

  type Aborting = PlanStep -> bool

  /** A failure that ends the plan. */
  predicate Stops(r: StepResult, aborts: Aborting) {
    !r.success && aborts(r.step)
  }

  /**
   How many of a batch's results are taken up from index `i` on: up to the first that stops the plan.
   From index `seen` on the cancel event was set, and then no failure stops it.
   */
  function TakenFrom(judged: seq<StepResult>, aborts: Aborting, seen: nat, i: nat): (n: nat)
    requires i <= |judged|
    ensures i <= n <= |judged|
    decreases |judged| - i
  {
    if i == |judged| then i
    else if i < seen && Stops(judged[i], aborts) then i + 1
    else TakenFrom(judged, aborts, seen, i + 1)
  }

  function TakenUp(judged: seq<StepResult>, aborts: Aborting, seen: nat): (n: nat)
    ensures n <= |judged|
  {
    TakenFrom(judged, aborts, seen, 0)
  }

  predicate StopsAt(judged: seq<StepResult>, aborts: Aborting, seen: nat, k: int) {
    0 <= k < |judged| && k < seen && Stops(judged[k], aborts)
  }

  lemma {:induction false} TakenFromIs(judged: seq<StepResult>, aborts: Aborting, seen: nat, i: nat, n: nat)
    requires i <= n <= |judged| && (n == |judged| || (i < n && StopsAt(judged, aborts, seen, n - 1)))
    requires forall k :: i <= k < n - 1 ==> !StopsAt(judged, aborts, seen, k)
    ensures TakenFrom(judged, aborts, seen, i) == n
    decreases |judged| - i
  {
    if i < |judged| && !StopsAt(judged, aborts, seen, i) {
      TakenFromIs(judged, aborts, seen, i + 1, n);
    }
  }

  lemma {:induction false} TakenFromMeans(judged: seq<StepResult>, aborts: Aborting, seen: nat, i: nat)
    requires i <= |judged|
    ensures var n := TakenFrom(judged, aborts, seen, i);
            && (forall k :: i <= k < n - 1 ==> !StopsAt(judged, aborts, seen, k))
            && (n < |judged| ==> i < n && StopsAt(judged, aborts, seen, n - 1))
    decreases |judged| - i
  {
    if i < |judged| && !StopsAt(judged, aborts, seen, i) {
      TakenFromMeans(judged, aborts, seen, i + 1);
    }
  }

  /** A result is lost exactly when one before it in the batch stops the plan. */
  lemma ResultIsLostExactly(judged: seq<StepResult>, aborts: Aborting, seen: nat, j: nat)
    requires j < |judged|
    ensures j >= TakenUp(judged, aborts, seen) <==> exists i :: 0 <= i < j && StopsAt(judged, aborts, seen, i)
  {
    TakenFromMeans(judged, aborts, seen, 0);
  }

  /** All results are taken up exactly when none but the last stops the plan. */
  lemma AllTakenUpExactly(judged: seq<StepResult>, aborts: Aborting, seen: nat)
    ensures TakenUp(judged, aborts, seen) == |judged| <==>
            forall i :: 0 <= i < |judged| - 1 ==> !StopsAt(judged, aborts, seen, i)
  {
    if judged != [] {
      ResultIsLostExactly(judged, aborts, seen, |judged| - 1);
    }
  }

  /** In a batch of two the success behind an aborting failure is lost. */
  lemma SuccessCanBeLost(a: PlanStep, b: PlanStep, aborts: Aborting)
    requires aborts(a)
    ensures TakenUp([StepResult(a, false), StepResult(b, true)], aborts, 2) == 1
  {
    assert StopsAt([StepResult(a, false), StepResult(b, true)], aborts, 2, 0);
  }

  // ---------- the engine ----------

  predicate Is(group: seq<PlanStep>, i: int, s: PlanStep) {
    0 <= i < |group| && group[i] == s
  }

  /** Results, or runnable steps, come in the order of their batch. */
  ghost predicate OrderedLike(part: seq<PlanStep>, group: seq<PlanStep>) {
    forall i, j, a, b :: 0 <= i < j < |part| && Is(group, a, part[i]) && Is(group, b, part[j]) ==> a < b
  }

  function StepsOf(results: seq<StepResult>): (steps: seq<PlanStep>)
    ensures |steps| == |results| && forall i :: 0 <= i < |steps| ==> steps[i] == results[i].step
  {
    seq(|results|, i requires 0 <= i < |results| => results[i].step)
  }

  // ---------- what the runners reported ----------

  /**
   Results say what the runners reported: a success was reported, or is that of a thought that was not
   run; a failure that was reported as a success was turned down by the guard.
   */
  ghost predicate Honest(results: seq<StepResult>, reports: seq<StepResult>, isThought: PlanStep -> bool,
                         turnedDown: set<PlanStep>) {
    && (forall r :: r in results && r.success ==>
          r in reports || (isThought(r.step) && forall p :: p in reports ==> p.step != r.step))
    && (forall r, p :: r in results && p in reports && p.step == r.step && p.success && !r.success ==>
          r.step in turnedDown)
  }

  predicate NoStep(s: PlanStep) {
    false
  }

  lemma NoneYet(results: seq<StepResult>, told: seq<StepResult>, group: seq<PlanStep>, i: nat)
    requires DistinctIds(group) && i < |group| && |results| == i
    requires forall k :: 0 <= k < i ==> results[k].step == group[k]
    requires forall s :: s in StepsOf(told) ==> s in group[..i]
    ensures forall r :: r in results ==> r.step != group[i]
    ensures forall p :: p in told ==> p.step != group[i]
  {
    forall p | p in told
      ensures p.step in group[..i]
    {
      var k :| 0 <= k < |told| && told[k] == p;
      assert StepsOf(told)[k] == p.step;
    }
  }

  lemma UnrunIsHonest(results: seq<StepResult>, told: seq<StepResult>, s: PlanStep)
    requires Honest(results, told, NoStep, {}) && forall p :: p in told ==> p.step != s
    ensures Honest(results + [StepResult(s, false)], told, NoStep, {})
  {
  }

  lemma RunIsHonest(results: seq<StepResult>, told: seq<StepResult>, result: StepResult)
    requires Honest(results, told, NoStep, {})
    requires (forall r :: r in results ==> r.step != result.step) && forall p :: p in told ==> p.step != result.step
    ensures Honest(results + [result], told + [result], NoStep, {})
  {
  }

  /** The first `i` steps of a batch have their results, some of them without having been run. */
  ghost predicate PartDone(results: seq<StepResult>, ran: seq<PlanStep>, told: seq<StepResult>, group: seq<PlanStep>,
                           i: nat)
    requires i <= |group|
  {
    && DistinctIds(group) && DistinctIds(ran) && StepsOf(told) == ran && Honest(results, told, NoStep, {})
    && |results| == i && (forall k :: 0 <= k < i ==> results[k].step == group[k])
    && forall s :: s in ran ==> s in group[..i]
  }

  lemma PartStarts(group: seq<PlanStep>)
    requires DistinctIds(group)
    ensures PartDone([], [], [], group, 0) && group[..0] == []
  {
  }

  lemma PartUnrun(results: seq<StepResult>, ran: seq<PlanStep>, told: seq<StepResult>, group: seq<PlanStep>, i: nat)
    requires i < |group| && PartDone(results, ran, told, group, i)
    ensures PartDone(results + [StepResult(group[i], false)], ran, told, group, i + 1)
  {
    NoneYet(results, told, group, i);
    UnrunIsHonest(results, told, group[i]);
    hide Honest, DistinctIds;
    assert group[..i + 1] == group[..i] + [group[i]];
  }

  lemma PartRun(results: seq<StepResult>, ran: seq<PlanStep>, told: seq<StepResult>, group: seq<PlanStep>, i: nat,
                result: StepResult)
    requires i < |group| && PartDone(results, ran, told, group, i) && result.step == group[i]
    ensures PartDone(results + [result], ran + [group[i]], told + [result], group, i + 1)
    ensures result == if result.success then result else StepResult(group[i], false)
  {
    NoneYet(results, told, group, i);
    RunIsHonest(results, told, result);
    OneMoreStep(ran, group, i);
    hide Honest, DistinctIds;
    assert group[..i + 1] == group[..i] + [group[i]];
  }

  lemma OneMoreStep(ran: seq<PlanStep>, group: seq<PlanStep>, i: nat)
    requires i < |group| && DistinctIds(group) && DistinctIds(ran) && forall s :: s in ran ==> s in group[..i]
    ensures DistinctIds(ran + [group[i]])
  {
    forall s | s in ran
      ensures s.id != group[i].id
    {
      var k :| 0 <= k < i && group[..i][k] == s;
      assert group[k] == s;
    }
  }

  lemma PartEnds(results: seq<StepResult>, ran: seq<PlanStep>, told: seq<StepResult>, group: seq<PlanStep>)
    requires PartDone(results, ran, told, group, |group|)
    ensures Tidy(results, ran, group) && Accounted(results, ran) && StepsOf(told) == ran
    ensures Honest(results, told, NoStep, {}) && group[..|group|] == group
    ensures |results| == |group| && forall k :: 0 <= k < |group| ==> results[k].step == group[k]
  {
    AllHaveResults(group, results);
    hide Honest;
    assert group[..|group|] == group;
  }

  lemma HonestWeakens(results: seq<StepResult>, told: seq<StepResult>, isThought: PlanStep -> bool)
    requires Honest(results, told, NoStep, {})
    ensures Honest(results, told, isThought, {})
  {
  }

  lemma TailOfTail<T>(a: seq<T>, b: seq<T>, c: seq<T>)
    requires |a| <= |b| <= |c| && b[..|a|] == a && c[..|b|] == b
    ensures c[|a|..] == b[|a|..] + c[|b|..] && c[..|a|] == a && a <= c
  {
  }

  lemma TidySteps(results: seq<StepResult>, ran: seq<PlanStep>, front: seq<PlanStep>,
                  more: seq<StepResult>, moreRan: seq<PlanStep>, back: seq<PlanStep>)
    requires Tidy(results, ran, front) && Tidy(more, moreRan, back)
    ensures (forall s :: s in ran ==> s in front) && forall s :: s in moreRan ==> s in back
  {
  }

  lemma HonestAlone(result: StepResult, isThought: PlanStep -> bool)
    ensures !result.success || isThought(result.step) ==> Honest([result], [], isThought, {})
    ensures Honest([result], [result], isThought, {})
  {
  }

  lemma ReportedSteps(told: seq<StepResult>, ran: seq<PlanStep>, p: StepResult)
    requires StepsOf(told) == ran && p in told
    ensures p.step in ran
  {
    var k :| 0 <= k < |told| && told[k] == p;
    assert ran[k] == p.step;
  }

  /** The guard turns successes down and does nothing else. */
  lemma GuardedIsHonest(groupResults: seq<StepResult>, more: seq<StepResult>, told: seq<StepResult>,
                        isThought: PlanStep -> bool, turnedDown: set<PlanStep>)
    requires Honest(groupResults, told, isThought, {}) && |more| <= |groupResults|
    requires forall i :: 0 <= i < |more| ==>
               && more[i].step == groupResults[i].step && (more[i].success ==> groupResults[i].success)
               && (groupResults[i].success && !more[i].success ==> more[i].step in turnedDown)
    ensures Honest(more, told, isThought, turnedDown)
  {
    forall r | r in more
      ensures r.success ==> r in told || (isThought(r.step) && forall p :: p in told ==> p.step != r.step)
      ensures forall p :: p in told && p.step == r.step && p.success && !r.success ==> r.step in turnedDown
    {
      var i :| 0 <= i < |more| && more[i] == r;
      assert groupResults[i] in groupResults;
      assert r.success ==> groupResults[i] == r;
    }
  }

  lemma HonestJoins(results: seq<StepResult>, told: seq<StepResult>, ran: seq<PlanStep>, front: seq<PlanStep>,
                    was: set<PlanStep>, more: seq<StepResult>, moreTold: seq<StepResult>, moreRan: seq<PlanStep>,
                    back: seq<PlanStep>, turnedDown: set<PlanStep>, isThought: PlanStep -> bool)
    requires Tidy(results, ran, front) && Tidy(more, moreRan, back) && DistinctIds(front + back)
    requires StepsOf(told) == ran && StepsOf(moreTold) == moreRan && was <= turnedDown
    requires Honest(results, told, isThought, was) && Honest(more, moreTold, isThought, turnedDown)
    ensures Honest(results + more, told + moreTold, isThought, turnedDown)
    ensures StepsOf(told + moreTold) == ran + moreRan
  {
    forall r, p | (r in results && p in moreTold) || (r in more && p in told)
      ensures r.step != p.step
    {
      if p in moreTold {
        ReportedSteps(moreTold, moreRan, p);
      }
      if p in told {
        ReportedSteps(told, ran, p);
      }
      if r in results && p in moreTold {
        NotInBoth(front, back, r.step);
      } else {
        NotInBoth(front, back, p.step);
      }
    }
    assert forall r :: r in results + more <==> r in results || r in more;
    assert forall p :: p in told + moreTold <==> p in told || p in moreTold;
  }

  // ---------- steps whose condition does not hold ----------

  /** No step that was run is among those whose condition was found not to hold since. */
  ghost predicate RanUnskipped(ran: seq<PlanStep>, skipped: set<PlanStep>, was: set<PlanStep>) {
    forall s :: s in ran && s in skipped ==> s in was
  }

  ghost predicate SkippedWithin(skipped: set<PlanStep>, was: set<PlanStep>, steps: seq<PlanStep>) {
    forall s :: s in skipped ==> s in was || s in steps
  }

  lemma UnskippedJoins(ran: seq<PlanStep>, moreRan: seq<PlanStep>, was: set<PlanStep>, between: set<PlanStep>,
                       now: set<PlanStep>, front: seq<PlanStep>, back: seq<PlanStep>)
    requires DistinctIds(front + back)
    requires (forall s :: s in ran ==> s in front) && forall s :: s in moreRan ==> s in back
    requires RanUnskipped(ran, between, was) && SkippedWithin(between, was, front)
    requires RanUnskipped(moreRan, now, between) && SkippedWithin(now, between, back)
    ensures RanUnskipped(ran + moreRan, now, was) && SkippedWithin(now, was, front + back)
  {
    forall s | s in ran + moreRan && s in now
      ensures s in was
    {
      if s in ran {
        NotInBoth(front, back, s);
      } else {
        assert s in back;
        if s in front {
          NotInBoth(front, back, s);
        }
      }
    }
  }

  // ---------- one batch more ----------

  /** What is known of the results, the runs, the reports and the skipped steps after the steps of `front`. */
  ghost predicate SoFar(results: seq<StepResult>, ran: seq<PlanStep>, told: seq<StepResult>, front: seq<PlanStep>,
                        was: set<PlanStep>, skipped: set<PlanStep>, turnedDown: set<PlanStep>,
                        isThought: PlanStep -> bool) {
    && Tidy(results, ran, front) && StepsOf(told) == ran && Honest(results, told, isThought, turnedDown)
    && RanUnskipped(ran, skipped, was) && SkippedWithin(skipped, was, front)
  }

  lemma SoFarJoins(results: seq<StepResult>, ran: seq<PlanStep>, told: seq<StepResult>, front: seq<PlanStep>,
                   more: seq<StepResult>, moreRan: seq<PlanStep>, moreTold: seq<StepResult>, back: seq<PlanStep>,
                   was: set<PlanStep>, between: set<PlanStep>, skipped: set<PlanStep>,
                   wasDown: set<PlanStep>, turnedDown: set<PlanStep>, isThought: PlanStep -> bool)
    requires DistinctIds(front + back) && wasDown <= turnedDown
    requires SoFar(results, ran, told, front, was, between, wasDown, isThought)
    requires SoFar(more, moreRan, moreTold, back, between, skipped, turnedDown, isThought)
    ensures SoFar(results + more, ran + moreRan, told + moreTold, front + back, was, skipped, turnedDown, isThought)
    ensures Accounted(results, ran) && Accounted(more, moreRan) ==> Accounted(results + more, ran + moreRan)
  {
    hide Tidy, StepsOf, Honest, RanUnskipped, SkippedWithin, Accounted, DistinctIds;
    AppendTidy(results, ran, front, more, moreRan, back);
    TidySteps(results, ran, front, more, moreRan, back);
    HonestJoins(results, told, ran, front, wasDown, more, moreTold, moreRan, back, turnedDown, isThought);
    UnskippedJoins(ran, moreRan, was, between, skipped, front, back);
  }

  /** The batch's own part, as it was reported and after the guard. */
  lemma GuardedSoFar(groupResults: seq<StepResult>, more: seq<StepResult>, ran: seq<PlanStep>, told: seq<StepResult>,
                     group: seq<PlanStep>, was: set<PlanStep>, skipped: set<PlanStep>, turnedDown: set<PlanStep>,
                     isThought: PlanStep -> bool)
    requires Tidy(groupResults, ran, group) && StepsOf(told) == ran && Honest(groupResults, told, isThought, {})
    requires RanUnskipped(ran, skipped, was) && SkippedWithin(skipped, was, group)
    requires |more| <= |groupResults| && forall i :: 0 <= i < |more| ==>
               && more[i].step == groupResults[i].step && (more[i].success ==> groupResults[i].success)
               && (groupResults[i].success && !more[i].success ==> more[i].step in turnedDown)
    ensures SoFar(more, ran, told, group, was, skipped, turnedDown, isThought)
    ensures Accounted(groupResults, ran) && |more| == |groupResults| ==> Accounted(more, ran)
  {
    GuardedTidy(groupResults, more, ran, group);
    GuardedIsHonest(groupResults, more, told, isThought, turnedDown);
  }

  lemma SoFarMeans(results: seq<StepResult>, ran: seq<PlanStep>, told: seq<StepResult>, groups: seq<seq<PlanStep>>,
                   n: nat, was: set<PlanStep>, skipped: set<PlanStep>, turnedDown: set<PlanStep>,
                   isThought: PlanStep -> bool)
    requires n <= |groups| && SoFar(results, ran, told, Flatten(groups[..n]), was, skipped, turnedDown, isThought)
    ensures Tidy(results, ran, Flatten(groups[..n])) && Tidy(results, ran, Flatten(groups))
    ensures StepsOf(told) == ran && Honest(results, told, isThought, turnedDown) && RanUnskipped(ran, skipped, was)
  {
    hide StepsOf, Honest, RanUnskipped, SkippedWithin, Flatten, Tidy;
    assert groups == groups[..n] + groups[n..];
    FlattenJoins(groups[..n], groups[n..]);
    TidyWidens(results, ran, Flatten(groups[..n]), Flatten(groups[n..]));
  }

  // ---------- the ways a batch can go ----------

  lemma SkippedNothing(skipped: set<PlanStep>, group: seq<PlanStep>)
    ensures SkippedWithin(skipped, skipped, group)
  {
  }

  lemma SkippedBy(group: seq<PlanStep>, runnable: seq<PlanStep>, skipped: set<PlanStep>, was: set<PlanStep>)
    requires forall s :: s in skipped ==> s in was || (s in group && s !in runnable)
    ensures SkippedWithin(skipped, was, group) && RanUnskipped(runnable, skipped, was)
  {
  }

  /** No runner was started: there is no result, a failure, or the success of a thought. */
  lemma UnrunBatch(results: seq<StepResult>, group: seq<PlanStep>, skipped: set<PlanStep>, was: set<PlanStep>,
                   isThought: PlanStep -> bool)
    requires results == [] ||
             (|results| == 1 && results[0].step in group && (!results[0].success || isThought(results[0].step)))
    ensures Tidy(results, [], group) && Accounted(results, []) && OrderedLike(StepsOf(results), group)
    ensures StepsOf([]) == [] && Honest(results, [], isThought, {}) && RanUnskipped([], skipped, was)
    ensures forall r :: r in results ==> !r.success || isThought(r.step)
  {
    if results != [] {
      HonestAlone(results[0], isThought);
      hide Honest;
      assert results == [results[0]];
    }
  }

  /** One runner was started, and its report is the result. */
  lemma SingleBatch(result: StepResult, group: seq<PlanStep>, skipped: set<PlanStep>, was: set<PlanStep>,
                    isThought: PlanStep -> bool)
    requires result.step in group
    ensures Tidy([result], [result.step], group) && Accounted([result], [result.step])
    ensures OrderedLike(StepsOf([result]), group) && StepsOf([result]) == [result.step]
    ensures Honest([result], [result], isThought, {})
  {
    HonestAlone(result, isThought);
    hide Honest;
    assert result in [result];
  }

  lemma ParallelBatch(results: seq<StepResult>, ran: seq<PlanStep>, told: seq<StepResult>, group: seq<PlanStep>,
                      runnable: seq<PlanStep>, skipped: set<PlanStep>, was: set<PlanStep>,
                      isThought: PlanStep -> bool)
    requires Tidy(results, ran, runnable) && (forall s :: s in runnable ==> s in group)
    requires OrderedLike(runnable, group) && RanUnskipped(runnable, skipped, was) && Honest(results, told, NoStep, {})
    requires |results| == |runnable| && forall i :: 0 <= i < |runnable| ==> results[i].step == runnable[i]
    ensures Tidy(results, ran, group) && OrderedLike(StepsOf(results), group)
    ensures RanUnskipped(ran, skipped, was) && Honest(results, told, isThought, {})
  {
    HonestWeakens(results, told, isThought);
    hide Honest, OrderedLike, DistinctIds, DistinctResults;
    assert StepsOf(results) == runnable;
  }

  lemma SingleCovers(group: seq<PlanStep>, results: seq<StepResult>, skipped: set<PlanStep>)
    requires |group| == |results| == 1 && results[0].step == group[0]
    ensures Covered(group, results, skipped)
    ensures results[0].success ==> forall r :: r in results ==> r.success
  {
    assert results[0] in results;
  }

  lemma RunnableCovers(group: seq<PlanStep>, runnable: seq<PlanStep>, results: seq<StepResult>, skipped: set<PlanStep>)
    requires forall s :: s in group ==> s in runnable || s in skipped
    requires |results| == |runnable| && forall i :: 0 <= i < |runnable| ==> results[i].step == runnable[i]
    ensures Covered(group, results, skipped)
  {
    AllHaveResults(runnable, results);
    hide HasResult;
  }

  // ---------- who cancelled, and what passed the guard ----------

  /** Every success, unless it is that of a thought, has passed the guard. */
  ghost predicate AllGuarded(results: seq<StepResult>, guarded: set<PlanStep>, isThought: PlanStep -> bool) {
    forall r :: r in results && r.success ==> r.step in guarded || isThought(r.step)
  }

  lemma ThoughtsNeedNoGuard(results: seq<StepResult>, guarded: set<PlanStep>, isThought: PlanStep -> bool)
    requires forall r :: r in results ==> !r.success || isThought(r.step)
    ensures AllGuarded(results, guarded, isThought)
  {
  }

  lemma GuardedJoins(a: seq<StepResult>, b: seq<StepResult>, was: set<PlanStep>, guarded: set<PlanStep>,
                     isThought: PlanStep -> bool)
    requires AllGuarded(a, was, isThought) && AllGuarded(b, guarded, isThought) && was <= guarded
    ensures AllGuarded(a + b, guarded, isThought)
  {
  }

  class ExecutionEngine {
    /** `step_type == "think"`, and `on_failure == "abort"`. */
    const isThink: PlanStep -> bool
    const aborts: Aborting
    /** The cancel event, which stays set once it is. */
    var cancelled: bool
    /** Every step that was given to a runner, in order, and every step whose condition did not hold. */
    ghost var started: seq<PlanStep>
    ghost var skipped: set<PlanStep>
    /** What the runners reported, in order, and the steps whose success the guard turned down. */
    ghost var reports: seq<StepResult>
    ghost var turnedDown: set<PlanStep>
    /** The steps whose results the guard has seen. */
    ghost var guarded: set<PlanStep>
    /** How often the user cancelled, and how often a runner was started although the plan was cancelled. */
    ghost var requests: nat
    ghost var lateStarts: nat

    constructor (isThink: PlanStep -> bool, aborts: Aborting)
      ensures started == [] && skipped == {} && reports == [] && turnedDown == {}
      ensures !cancelled && guarded == {} && requests == 0 && lateStarts == 0
      ensures this.isThink == isThink && this.aborts == aborts
    {
      this.isThink, this.aborts := isThink, aborts;
      cancelled, started, skipped, reports, turnedDown := false, [], {}, [], {};
      guarded, requests, lateStarts := {}, 0, 0;
    }

    /** The user may cancel at any time. */
    method MayBeCancelled()
      modifies this`cancelled, this`requests
      ensures requests >= old(requests) && (cancelled <==> old(cancelled) || requests > old(requests))
    {
      var now: bool := *;
      cancelled := cancelled || now;
      requests := requests + if now then 1 else 0;
    }

    /** `_is_cancel_requested`; the user may have cancelled in the meantime. */
    method IsCancelRequested() returns (requested: bool)
      modifies this`cancelled, this`requests
      ensures requested == cancelled
      ensures requests >= old(requests) && (cancelled <==> old(cancelled) || requests > old(requests))
    {
      MayBeCancelled();
      requested := cancelled;
    }

    /** One call of the runner, during which the user may cancel. */
    method Run(step: PlanStep) returns (result: StepResult)
      modifies this`started, this`reports, this`lateStarts, this`cancelled, this`requests
      ensures started == old(started) + [step] && result.step == step && reports == old(reports) + [result]
      ensures requests >= old(requests) && (cancelled <==> old(cancelled) || requests > old(requests))
      ensures lateStarts == old(lateStarts) + if old(cancelled) then 1 else 0
    {
      lateStarts := lateStarts + if cancelled then 1 else 0;
      started := started + [step];
      MayBeCancelled();
      var success: bool := *;
      result := StepResult(step, success);
      reports := reports + [result];
    }

    /** `_eval_condition` on a step's condition; none holds always. The user may cancel meanwhile. */
    method ConditionHolds(step: PlanStep) returns (holds: bool)
      modifies this`skipped, this`cancelled, this`requests
      ensures skipped == if holds then old(skipped) else old(skipped) + {step}
      ensures requests >= old(requests) && (cancelled <==> old(cancelled) || requests > old(requests))
    {
      MayBeCancelled();
      holds := *;
      skipped := if holds then skipped else skipped + {step};
    }

    /** `_apply_developer_step_guard` */
    method ApplyGuard(sr: StepResult) returns (r: StepResult)
      modifies this`turnedDown, this`guarded
      ensures r.step == sr.step && (r.success ==> sr.success) && guarded == old(guarded) + {sr.step}
      ensures turnedDown == if r == sr then old(turnedDown) else old(turnedDown) + {sr.step}
    {
      var accepted: bool := *;
      guarded := guarded + {sr.step};
      r := sr.(success := sr.success && accepted);
      turnedDown := if r == sr then turnedDown else turnedDown + {sr.step};
    }

    /** The steps whose condition holds in the context. */
    method Runnable(group: seq<PlanStep>) returns (runnable: seq<PlanStep>)
      requires DistinctIds(group)
      modifies this`skipped, this`cancelled, this`requests
      ensures requests >= old(requests) && (cancelled <==> old(cancelled) || requests > old(requests))
      ensures DistinctIds(runnable) && forall s :: s in runnable ==> s in group
      ensures old(skipped) <= skipped && forall s :: s in group ==> s in runnable || s in skipped
      ensures forall s :: s in skipped ==> s in old(skipped) || (s in group && s !in runnable)
      ensures OrderedLike(runnable, group)
    {
      runnable := [];
      for i := 0 to |group|
        invariant requests >= old(requests) && (cancelled <==> old(cancelled) || requests > old(requests))
        invariant DistinctIds(runnable) && forall s :: s in runnable ==> s in group[..i]
        invariant OrderedLike(runnable, group)
        invariant old(skipped) <= skipped && forall s :: s in group[..i] ==> s in runnable || s in skipped
        invariant forall s :: s in skipped ==> s in old(skipped) || (s in group[..i] && s !in runnable)
      {
        var holds := ConditionHolds(group[i]);
        assert group[..i + 1] == group[..i] + [group[i]];
        if holds {
          assert forall s :: s in group[..i] ==> s.id != group[i].id;
          NextInOrder(runnable, group, i);
          runnable := runnable + [group[i]];
        }
      }
      assert group[..|group|] == group;
    }

    /** `_execute_parallel_group`: a step is not given to its runner only when the plan was cancelled. */
    method ExecuteParallelGroup(group: seq<PlanStep>) returns (results: seq<StepResult>)
      requires DistinctIds(group)
      modifies this`started, this`cancelled, this`requests, this`reports, this`lateStarts
      ensures requests >= old(requests) && (cancelled <==> old(cancelled) || requests > old(requests))
      ensures |started| >= |old(started)| && started[..|old(started)|] == old(started)
      ensures Tidy(results, started[|old(started)|..], group)
      ensures Accounted(results, started[|old(started)|..])
      ensures lateStarts == old(lateStarts) && old(reports) <= reports
      ensures StepsOf(reports[|old(reports)|..]) == started[|old(started)|..]
      ensures Honest(results, reports[|old(reports)|..], NoStep, {})
      ensures |results| == |group| && forall i :: 0 <= i < |group| ==> results[i].step == group[i]
      ensures !cancelled ==> started == old(started) + group
    {
      hide *;
      results := [];
      PartStarts(group);
      ghost var ran, told := [], [];
      for i := 0 to |group|
        invariant started == old(started) + ran
        invariant requests >= old(requests) && (cancelled <==> old(cancelled) || requests > old(requests))
        invariant lateStarts == old(lateStarts) && reports == old(reports) + told
        invariant PartDone(results, ran, told, group, i)
        invariant !cancelled ==> ran == group[..i]
      {
        TakeOneMore(group, i);
        var requested := IsCancelRequested();
        if requested {
          PartUnrun(results, ran, told, group, i);
          results := results + [StepResult(group[i], false)];
        } else {
          var result := Run(group[i]);
          PartRun(results, ran, told, group, i, result);
          ran, told := ran + [group[i]], told + [result];
          requested := IsCancelRequested();
          results := results + [if requested && !result.success then StepResult(group[i], false) else result];
        }
      }
      PartEnds(results, ran, told, group);
      assert started[|old(started)|..] == ran && reports[|old(reports)|..] == told;
    }

    /**
     One batch, up to the results of its steps. It is `settled` when there is nothing to take up: its only
     step was a thought, or no condition held.
     */
    method ExecuteGroup(group: seq<PlanStep>) returns (stopped: bool, settled: bool, results: seq<StepResult>)
      requires DistinctIds(group)
      modifies this`started, this`cancelled, this`requests, this`skipped, this`reports, this`lateStarts
      ensures requests >= old(requests) && (cancelled <==> old(cancelled) || requests > old(requests))
      ensures old(skipped) <= skipped
      ensures |started| >= |old(started)| && started[..|old(started)|] == old(started)
      ensures lateStarts == old(lateStarts) && old(reports) <= reports
      ensures StepsOf(reports[|old(reports)|..]) == started[|old(started)|..]
      ensures Honest(results, reports[|old(reports)|..], isThink, {})
      ensures RanUnskipped(started[|old(started)|..], skipped, old(skipped))
      ensures SkippedWithin(skipped, old(skipped), group)
      ensures Tidy(results, started[|old(started)|..], group)
      ensures Accounted(results, started[|old(started)|..])
      ensures OrderedLike(StepsOf(results), group)
      ensures stopped ==> cancelled
      ensures !stopped ==> Covered(group, results, skipped)
      ensures settled ==> !stopped && forall r :: r in results ==> r.success
      ensures stopped || settled ==> forall r :: r in results ==> !r.success || isThink(r.step)
    {
      hide *;
      results, stopped, settled := [], false, false;
      assert started[|old(started)|..] == [] && reports[|old(reports)|..] == [];
      UnrunBatch([], group, skipped, skipped, isThink);
      SkippedNothing(skipped, group);
      stopped := IsCancelRequested();
      if stopped {
        if group != [] {
          results := [StepResult(group[0], false)];
          UnrunBatch(results, group, skipped, skipped, isThink);
        }
        return;
      }
      if |group| == 1 && isThink(group[0]) {
        stopped := IsCancelRequested();
        results := [StepResult(group[0], !stopped)];
        settled := !stopped;
        UnrunBatch(results, group, skipped, skipped, isThink);
        SingleCovers(group, results, skipped);
        return;
      }
      var runnable := Runnable(group);
      UnrunBatch([], group, skipped, old(skipped), isThink);
      SkippedBy(group, runnable, skipped, old(skipped));
      if runnable == [] {
        RunnableCovers(group, [], [], skipped);
        return false, true, [];
      }
      stopped := IsCancelRequested();
      if stopped {
        results := [StepResult(runnable[0], false)];
        UnrunBatch(results, group, skipped, old(skipped), isThink);
        return;
      }
      if |runnable| == 1 {
        var result := Run(runnable[0]);
        results := [result];
        assert started[|old(started)|..] == [runnable[0]] == runnable && reports[|old(reports)|..] == [result];
        SingleBatch(result, group, skipped, old(skipped), isThink);
      } else {
        results := ExecuteParallelGroup(runnable);
        ParallelBatch(results, started[|old(started)|..], reports[|old(reports)|..], group, runnable, skipped,
                      old(skipped), isThink);
      }
      RunnableCovers(group, runnable, results, skipped);
    }

    /**
     `execute_plan` on the batches of the plan. A step that was run is without a result exactly when the
     plan was aborted by a step before it in its own batch.
     */
    method ExecutePlan(groups: seq<seq<PlanStep>>) returns (ok: bool, aborted: bool, results: seq<StepResult>)
      requires DistinctIds(Flatten(groups))
      modifies this`started, this`cancelled, this`requests, this`skipped, this`reports, this`turnedDown,
               this`guarded, this`lateStarts
      ensures old(skipped) <= skipped && old(turnedDown) <= turnedDown && old(guarded) <= guarded
      ensures requests >= old(requests) && (cancelled <==> old(cancelled) || requests > old(requests))
      ensures !cancelled ==> AllGuarded(results, guarded, isThink)
      ensures |started| >= |old(started)| && started[..|old(started)|] == old(started)
      ensures Tidy(results, started[|old(started)|..], Flatten(groups))
      ensures InOrder(started[|old(started)|..], groups)
      ensures lateStarts == old(lateStarts) && old(reports) <= reports
      ensures StepsOf(reports[|old(reports)|..]) == started[|old(started)|..]
      ensures Honest(results, reports[|old(reports)|..], isThink, turnedDown)
      ensures RanUnskipped(started[|old(started)|..], skipped, old(skipped))
      ensures aborted ==> results != [] && Stops(results[|results| - 1], aborts)
      ensures forall s :: s in started[|old(started)|..] ==>
                (HasResult(results, s) <==> !IsLost(aborted, results, groups, s))
      ensures ok ==> !aborted && Covered(Flatten(groups), results, skipped)
      ensures ok ==> forall r :: r in results ==> !Stops(r, aborts)
      ensures !ok ==> aborted || cancelled
    {
      hide *;
      ok, aborted, results := true, false, [];
      ghost var ran, told := [], [];
      NothingRun(groups, skipped, turnedDown, isThink, aborts);
      assert started[|old(started)|..] == [] && reports[|old(reports)|..] == [];
      for i := 0 to |groups|
        invariant ok && !aborted && old(skipped) <= skipped && old(turnedDown) <= turnedDown
        invariant old(guarded) <= guarded && (!cancelled ==> AllGuarded(results, guarded, isThink))
        invariant requests >= old(requests) && (cancelled <==> old(cancelled) || requests > old(requests))
        invariant |started| >= |old(started)| && started[..|old(started)|] == old(started)
        invariant lateStarts == old(lateStarts) && old(reports) <= reports
        invariant ran == started[|old(started)|..] && told == reports[|old(reports)|..]
        invariant SoFar(results, ran, told, Flatten(groups[..i]), old(skipped), skipped, turnedDown, isThink)
        invariant InOrder(ran, groups) && Accounted(results, ran)
        invariant Covered(Flatten(groups[..i]), results, skipped)
        invariant NoneStops(results, aborts)
      {
        FlattenFront(groups, i);
        ghost var before, toldBefore, was, wasDown := started, reports, skipped, turnedDown;
        ghost var front, wasGuarded := Flatten(groups[..i]), guarded;
        var stopped, settled, groupResults := ExecuteGroup(groups[i]);
        ghost var moreRan, moreTold := started[|before|..], reports[|toldBefore|..];
        TailOfTail(old(started), before, started);
        TailOfTail(old(reports), toldBefore, reports);
        SoFarMeans(results, ran, told, groups, i, old(skipped), was, wasDown, isThink);
        AppendInOrder(groups, i, results, ran, groupResults, moreRan);
        var more := groupResults;
        ghost var judged, seen;
        if !stopped && !settled {
          aborted, more, judged, seen := Guarded(groupResults);
        } else {
          ThoughtsNeedNoGuard(groupResults, guarded, isThink);
        }
        if !cancelled {
          GuardedJoins(results, more, wasGuarded, guarded, isThink);
        }
        GuardedSoFar(groupResults, more, moreRan, moreTold, groups[i], was, skipped, turnedDown, isThink);
        SoFarJoins(results, ran, told, front, more, moreRan, moreTold, groups[i], old(skipped), was, skipped,
                   wasDown, turnedDown, isThink);
        SoFarMeans(results + more, ran + moreRan, told + moreTold, groups, i + 1, old(skipped), skipped, turnedDown,
                   isThink);
        if aborted {
          LostInAbortedBatch(results, ran, groups, i, groupResults, moreRan, more);
          return false, true, results + more;
        }
        NothingLost(results + more, ran + moreRan, groups);
        if stopped {
          return false, false, results + more;
        }
        CoveredMore(front, results, was, groups[i], groupResults, more, skipped);
        if settled {
          SuccessesStopNothing(results, groupResults, aborts);
        } else {
          var requested := IsCancelRequested();
          if requested {
            return false, false, results + more;
          }
          NoneStopsMore(results, more, aborts);
        }
        results, ran, told := results + more, ran + moreRan, told + moreTold;
      }
      SoFarMeans(results, ran, told, groups, |groups|, old(skipped), skipped, turnedDown, isThink);
      NothingLost(results, ran, groups);
      NoneStopsMeans(results, aborts);
      assert groups[..|groups|] == groups;
    }

    /**
     The results as they are taken up: the guard may turn a success down, a failure may stop the plan.
     `judged` are the batch's results after the guard, those not taken up unguarded; `seen` is the first
     index whose check for stopping found the cancel event set.
     */
    method Guarded(groupResults: seq<StepResult>)
      returns (aborted: bool, results: seq<StepResult>, ghost judged: seq<StepResult>, ghost seen: nat)
      modifies this`cancelled, this`requests, this`turnedDown, this`guarded
      ensures requests >= old(requests) && (cancelled <==> old(cancelled) || requests > old(requests))
      ensures old(turnedDown) <= turnedDown && old(guarded) <= guarded
      ensures !cancelled ==> AllGuarded(results, guarded, isThink)
      ensures |judged| == |groupResults|
      ensures forall i :: 0 <= i < |judged| ==>
                judged[i].step == groupResults[i].step && (judged[i].success ==> groupResults[i].success)
      ensures results == judged[..TakenUp(judged, aborts, seen)]
      ensures aborted <==> exists k :: StopsAt(judged, aborts, seen, k)
      ensures seen < |judged| ==> cancelled
      ensures |results| <= |groupResults| && forall i :: 0 <= i < |results| ==> results[i].step == groupResults[i].step
      ensures forall i :: 0 <= i < |results| ==>
                && (results[i].success ==> groupResults[i].success)
                && (groupResults[i].success && !results[i].success ==> results[i].step in turnedDown)
      ensures aborted ==> results != [] && Stops(results[|results| - 1], aborts)
      ensures !aborted ==> |results| == |groupResults| && (!cancelled ==> NoneStops(results, aborts))
    {
      hide *;
      aborted, results, judged, seen := false, [], groupResults, |groupResults|;
      NothingJudged(groupResults, aborts, seen, turnedDown, guarded, isThink);
      for i := 0 to |groupResults|
        invariant requests >= old(requests) && (cancelled <==> old(cancelled) || requests > old(requests))
        invariant old(guarded) <= guarded && (!cancelled ==> AllGuarded(results, guarded, isThink))
        invariant old(turnedDown) <= turnedDown
        invariant seen < |judged| ==> cancelled && seen < i
        invariant seen <= |judged| == |groupResults| && !aborted && results == judged[..i]
        invariant JudgedTo(judged, groupResults, i, turnedDown) && NoStopTo(judged, aborts, seen, i)
      {
        var sr := groupResults[i];
        var requested := IsCancelRequested();
        ghost var down, passed := turnedDown, guarded;
        if !requested {
          sr := ApplyGuard(sr);
        }
        ghost var unjudged, unseen := judged, seen;
        JudgeOne(judged, groupResults, i, down, turnedDown, sr);
        judged := judged[i := sr];
        if !requested {
          OneMoreGuarded(results, sr, passed, guarded, isThink);
        }
        results := results + [sr];
        requested := IsCancelRequested();
        if requested && seen > i {
          seen := i;
        }
        NoStopBefore(unjudged, judged, aborts, unseen, seen, i, sr);
        if !sr.success && aborts(sr.step) && !requested {
          AbortsHere(judged, groupResults, aborts, seen, i, turnedDown);
          JudgedMeans(judged, groupResults, i + 1, turnedDown);
          return true, results, judged, seen;
        }
        NoStopHere(judged, aborts, seen, i);
      }
      NeverAborts(judged, groupResults, aborts, seen, turnedDown);
      JudgedMeans(judged, groupResults, |judged|, turnedDown);
    }
  }

  /** The first `i` results have passed the guard, which turned some down; the others are as they were. */
  ghost predicate JudgedTo(judged: seq<StepResult>, groupResults: seq<StepResult>, i: nat, turnedDown: set<PlanStep>) {
    && i <= |judged| == |groupResults|
    && (forall k :: 0 <= k < |judged| ==> judged[k].step == groupResults[k].step)
    && (forall k :: 0 <= k < |judged| && judged[k].success ==> groupResults[k].success)
    && (forall k :: 0 <= k < i && groupResults[k].success && !judged[k].success ==> judged[k].step in turnedDown)
    && (forall k :: i <= k < |judged| ==> judged[k] == groupResults[k])
  }

  ghost predicate NoStopTo(judged: seq<StepResult>, aborts: Aborting, seen: nat, i: nat) {
    forall k :: 0 <= k < i ==> !StopsAt(judged, aborts, seen, k)
  }

  lemma NothingJudged(groupResults: seq<StepResult>, aborts: Aborting, seen: nat, turnedDown: set<PlanStep>,
                      guarded: set<PlanStep>, isThought: PlanStep -> bool)
    ensures JudgedTo(groupResults, groupResults, 0, turnedDown) && NoStopTo(groupResults, aborts, seen, 0)
    ensures AllGuarded([], guarded, isThought) && groupResults[..0] == []
  {
  }

  lemma JudgeOne(judged: seq<StepResult>, groupResults: seq<StepResult>, i: nat, was: set<PlanStep>,
                 turnedDown: set<PlanStep>, sr: StepResult)
    requires i < |judged| && JudgedTo(judged, groupResults, i, was) && was <= turnedDown
    requires sr.step == groupResults[i].step && (sr.success ==> groupResults[i].success)
    requires sr == groupResults[i] || sr.step in turnedDown
    ensures JudgedTo(judged[i := sr], groupResults, i + 1, turnedDown)
    ensures judged[i := sr][..i + 1] == judged[..i] + [sr]
  {
  }

  lemma OneMoreGuarded(results: seq<StepResult>, sr: StepResult, was: set<PlanStep>, guarded: set<PlanStep>,
                       isThought: PlanStep -> bool)
    requires AllGuarded(results, was, isThought) && guarded == was + {sr.step}
    ensures AllGuarded(results + [sr], guarded, isThought)
  {
  }

  lemma NoStopBefore(was: seq<StepResult>, now: seq<StepResult>, aborts: Aborting, wasSeen: nat, nowSeen: nat, i: nat,
                     sr: StepResult)
    requires i < |was| && now == was[i := sr] && nowSeen <= wasSeen && NoStopTo(was, aborts, wasSeen, i)
    ensures NoStopTo(now, aborts, nowSeen, i) && (StopsAt(now, aborts, nowSeen, i) <==>
              i < nowSeen && !sr.success && aborts(sr.step))
  {
    StillNoStop(was, now, aborts, wasSeen, nowSeen, i);
  }

  lemma NoStopHere(judged: seq<StepResult>, aborts: Aborting, seen: nat, i: nat)
    requires NoStopTo(judged, aborts, seen, i) && !StopsAt(judged, aborts, seen, i)
    ensures NoStopTo(judged, aborts, seen, i + 1)
  {
    hide StopsAt;
  }

  lemma AbortsHere(judged: seq<StepResult>, groupResults: seq<StepResult>, aborts: Aborting, seen: nat, i: nat,
                   turnedDown: set<PlanStep>)
    requires i < |judged| && JudgedTo(judged, groupResults, i + 1, turnedDown)
    requires NoStopTo(judged, aborts, seen, i) && StopsAt(judged, aborts, seen, i)
    ensures TakenUp(judged, aborts, seen) == i + 1 && Stops(judged[i], aborts)
    ensures exists k :: StopsAt(judged, aborts, seen, k)
  {
    TakenFromIs(judged, aborts, seen, 0, i + 1);
  }

  lemma JudgedMeans(judged: seq<StepResult>, groupResults: seq<StepResult>, n: nat, turnedDown: set<PlanStep>)
    requires JudgedTo(judged, groupResults, n, turnedDown)
    ensures forall k :: 0 <= k < |judged| ==>
              judged[k].step == groupResults[k].step && (judged[k].success ==> groupResults[k].success)
    ensures forall k :: 0 <= k < n && groupResults[k].success && !judged[k].success ==> judged[k].step in turnedDown
  {
  }

  lemma NeverAborts(judged: seq<StepResult>, groupResults: seq<StepResult>, aborts: Aborting, seen: nat,
                    turnedDown: set<PlanStep>)
    requires JudgedTo(judged, groupResults, |judged|, turnedDown) && NoStopTo(judged, aborts, seen, |judged|)
    requires seen <= |judged|
    ensures TakenUp(judged, aborts, seen) == |judged| && judged[..|judged|] == judged
    ensures !exists k :: StopsAt(judged, aborts, seen, k)
    ensures seen == |judged| ==> NoneStops(judged, aborts)
  {
    TakenFromIs(judged, aborts, seen, 0, |judged|);
    forall k
      ensures !StopsAt(judged, aborts, seen, k)
    {
    }
    assert seen == |judged| ==>
        forall k :: 0 <= k < |judged| && Stops(judged[k], aborts) ==> StopsAt(judged, aborts, seen, k);
  }

  lemma StillNoStop(was: seq<StepResult>, now: seq<StepResult>, aborts: Aborting, wasSeen: nat, nowSeen: nat, i: nat)
    requires i <= |was| == |now| && nowSeen <= wasSeen && forall k :: 0 <= k < i ==> now[k] == was[k]
    requires forall k :: 0 <= k < i ==> !StopsAt(was, aborts, wasSeen, k)
    ensures forall k :: 0 <= k < i ==> !StopsAt(now, aborts, nowSeen, k)
  {
    forall k | 0 <= k < i
      ensures !StopsAt(now, aborts, nowSeen, k)
    {
      assert !StopsAt(was, aborts, wasSeen, k);
    }
  }

  lemma NextInOrder(part: seq<PlanStep>, group: seq<PlanStep>, n: nat)
    requires n < |group| && DistinctIds(group) && OrderedLike(part, group)
    requires forall s :: s in part ==> s in group[..n]
    ensures OrderedLike(part + [group[n]], group)
  {
    var longer := part + [group[n]];
    forall i, j, a, b | 0 <= i < j < |longer| && Is(group, a, longer[i]) && Is(group, b, longer[j])
      ensures a < b
    {
      if j == |part| {
        assert longer[i] == part[i] && part[i] in part;
        var c :| 0 <= c < n && group[..n][c] == part[i];
        assert a == c && b == n;
      } else {
        assert longer[i] == part[i] && longer[j] == part[j];
      }
    }
  }

  /** No result stops the plan. */
  ghost predicate NoneStops(results: seq<StepResult>, aborts: Aborting) {
    forall i :: 0 <= i < |results| ==> !Stops(results[i], aborts)
  }

  lemma NoneStopsMeans(results: seq<StepResult>, aborts: Aborting)
    requires NoneStops(results, aborts)
    ensures forall r :: r in results ==> !Stops(r, aborts)
  {
  }

  lemma NoneStopsMore(a: seq<StepResult>, b: seq<StepResult>, aborts: Aborting)
    requires NoneStops(a, aborts) && NoneStops(b, aborts)
    ensures NoneStops(a + b, aborts)
  {
  }

  lemma SuccessesStopNothing(a: seq<StepResult>, b: seq<StepResult>, aborts: Aborting)
    requires NoneStops(a, aborts) && forall r :: r in b ==> r.success
    ensures NoneStops(a + b, aborts)
  {
    assert forall i :: 0 <= i < |b| ==> b[i] in b;
  }

  // ---------- results that are lost ----------

  predicate IsAt(groups: seq<seq<PlanStep>>, b: int, i: int, s: PlanStep) {
    0 <= b < |groups| && Is(groups[b], i, s)
  }

  /** The second step comes behind the first in one batch. */
  ghost predicate IsBehind(groups: seq<seq<PlanStep>>, first: PlanStep, second: PlanStep) {
    exists b, i, j :: IsAt(groups, b, i, first) && IsAt(groups, b, j, second) && i < j
  }

  /** The plan was aborted by its last result, and the step comes behind that one's in its batch. */
  ghost predicate IsLost(aborted: bool, results: seq<StepResult>, groups: seq<seq<PlanStep>>, s: PlanStep) {
    aborted && results != [] && IsBehind(groups, results[|results| - 1].step, s)
  }

  lemma NothingLost(results: seq<StepResult>, ran: seq<PlanStep>, groups: seq<seq<PlanStep>>)
    requires Accounted(results, ran)
    ensures forall s :: s in ran ==> (HasResult(results, s) <==> !IsLost(false, results, groups, s))
  {
  }

  lemma BehindInBatch(groups: seq<seq<PlanStep>>, n: nat, first: PlanStep, second: PlanStep)
    requires DistinctIds(Flatten(groups)) && n < |groups| && first in groups[n]
    ensures IsBehind(groups, first, second) <==>
            exists i, j :: IsAt(groups, n, i, first) && IsAt(groups, n, j, second) && i < j
  {
    if IsBehind(groups, first, second) {
      var b, i, j :| IsAt(groups, b, i, first) && IsAt(groups, b, j, second) && i < j;
      BatchIsUnique(groups, b, n, first);
      assert IsAt(groups, n, i, first) && IsAt(groups, n, j, second);
    }
  }

  lemma EarlierIsNotBehind(groups: seq<seq<PlanStep>>, n: nat, first: PlanStep, second: PlanStep)
    requires DistinctIds(Flatten(groups)) && n < |groups| && first in groups[n] && second in Flatten(groups[..n])
    ensures !IsBehind(groups, first, second)
  {
    BehindInBatch(groups, n, first, second);
    var b := FrontBatch(groups, n, second);
    if j :| IsAt(groups, n, j, second) {
      BatchIsUnique(groups, b, n, second);
    }
  }

  /** Within a batch the results behind the `n` that are taken up are those of the steps behind. */
  lemma BehindInResults(groups: seq<seq<PlanStep>>, b: nat, groupResults: seq<StepResult>, m: nat, k: nat)
    requires DistinctIds(Flatten(groups)) && b < |groups| && DistinctIds(groups[b])
    requires ResultsOf(groupResults, groups[b]) && OrderedLike(StepsOf(groupResults), groups[b])
    requires m < |groupResults| && k < |groupResults|
    ensures IsBehind(groups, groupResults[m].step, groupResults[k].step) <==> m < k
  {
    var steps := StepsOf(groupResults);
    assert groupResults[m] in groupResults && groupResults[k] in groupResults;
    var x :| 0 <= x < |groups[b]| && groups[b][x] == steps[m];
    var y :| 0 <= y < |groups[b]| && groups[b][y] == steps[k];
    BehindByIndex(groups, b, x, y);
    LikewiseOrdered(steps, groups[b], m, k, x, y);
  }

  lemma BehindByIndex(groups: seq<seq<PlanStep>>, b: nat, x: nat, y: nat)
    requires DistinctIds(Flatten(groups)) && b < |groups| && DistinctIds(groups[b])
    requires x < |groups[b]| && y < |groups[b]|
    ensures IsBehind(groups, groups[b][x], groups[b][y]) <==> x < y
  {
    var first, second := groups[b][x], groups[b][y];
    BehindInBatch(groups, b, first, second);
    hide IsBehind, Flatten;
    assert IsAt(groups, b, x, first) && IsAt(groups, b, y, second);
    forall i | IsAt(groups, b, i, first)
      ensures i == x
    {
    }
    forall j | IsAt(groups, b, j, second)
      ensures j == y
    {
    }
  }

  lemma LikewiseOrdered(part: seq<PlanStep>, group: seq<PlanStep>, m: nat, k: nat, x: nat, y: nat)
    requires OrderedLike(part, group) && m < |part| && k < |part| && DistinctIds(group)
    requires Is(group, x, part[m]) && Is(group, y, part[k])
    ensures m < k ==> x < y
    ensures k < m ==> y < x
    ensures k == m ==> x == y
  {
  }

  lemma LostInAbortedBatch(results: seq<StepResult>, ran: seq<PlanStep>, groups: seq<seq<PlanStep>>, b: nat,
                           groupResults: seq<StepResult>, moreRan: seq<PlanStep>, more: seq<StepResult>)
    requires DistinctIds(Flatten(groups)) && b < |groups|
    requires Tidy(results, ran, Flatten(groups[..b])) && Accounted(results, ran)
    requires Tidy(groupResults, moreRan, groups[b]) && Accounted(groupResults, moreRan)
    requires OrderedLike(StepsOf(groupResults), groups[b])
    requires 0 < |more| <= |groupResults| && forall i :: 0 <= i < |more| ==> more[i].step == groupResults[i].step
    ensures forall s :: s in ran + moreRan ==>
              (HasResult(results + more, s) <==> !IsLost(true, results + more, groups, s))
  {
    hide *;
    var m := |more| - 1;
    forall s | s in ran + moreRan
      ensures HasResult(results + more, s) <==> !IsLost(true, results + more, groups, s)
    {
      LostMeans(results, more, groups, s);
      if s in ran {
        EarlierKept(results, ran, groups, b, groupResults, moreRan, more, m, s);
      } else {
        LaterLostExactly(results, ran, groups, b, groupResults, moreRan, more, s);
      }
    }
  }

  lemma LostMeans(results: seq<StepResult>, more: seq<StepResult>, groups: seq<seq<PlanStep>>, s: PlanStep)
    requires more != []
    ensures IsLost(true, results + more, groups, s) <==> IsBehind(groups, more[|more| - 1].step, s)
  {
    hide IsBehind;
    assert (results + more)[|results + more| - 1] == more[|more| - 1];
  }

  lemma EarlierKept(results: seq<StepResult>, ran: seq<PlanStep>, groups: seq<seq<PlanStep>>, b: nat,
                    groupResults: seq<StepResult>, moreRan: seq<PlanStep>, more: seq<StepResult>, m: nat, s: PlanStep)
    requires DistinctIds(Flatten(groups)) && b < |groups| && m < |groupResults|
    requires Tidy(results, ran, Flatten(groups[..b])) && Accounted(results, ran) && s in ran
    requires Tidy(groupResults, moreRan, groups[b])
    ensures HasResult(results + more, s) && !IsBehind(groups, groupResults[m].step, s)
  {
    assert groupResults[m] in groupResults;
    var r :| r in results && r.step == s;
    assert r in results + more;
    hide IsBehind, Flatten, DistinctIds;
    EarlierIsNotBehind(groups, b, groupResults[m].step, s);
  }

  lemma LaterLostExactly(results: seq<StepResult>, ran: seq<PlanStep>, groups: seq<seq<PlanStep>>, b: nat,
                         groupResults: seq<StepResult>, moreRan: seq<PlanStep>, more: seq<StepResult>, s: PlanStep)
    requires DistinctIds(Flatten(groups)) && b < |groups|
    requires Tidy(results, ran, Flatten(groups[..b]))
    requires Tidy(groupResults, moreRan, groups[b]) && Accounted(groupResults, moreRan) && s in moreRan
    requires OrderedLike(StepsOf(groupResults), groups[b])
    requires 0 < |more| <= |groupResults| && forall i :: 0 <= i < |more| ==> more[i].step == groupResults[i].step
    ensures HasResult(results + more, s) <==> !IsBehind(groups, more[|more| - 1].step, s)
  {
    FlattenFront(groups, b);
    var r :| r in groupResults && r.step == s;
    var k :| 0 <= k < |groupResults| && groupResults[k] == r;
    hide IsBehind, Flatten, DistinctIds, OrderedLike, DistinctResults, ResultsOf, HasResult;
    BehindInResults(groups, b, groupResults, |more| - 1, k);
    TakenExactly(results, groups, b, groupResults, more, k);
  }

  /** The batch's result `k` is among all the results exactly when it was taken up. */
  lemma TakenExactly(results: seq<StepResult>, groups: seq<seq<PlanStep>>, b: nat,
                     groupResults: seq<StepResult>, more: seq<StepResult>, k: nat)
    requires b < |groups| && DistinctIds(Flatten(groups[..b]) + groups[b])
    requires ResultsOf(results, Flatten(groups[..b]))
    requires DistinctResults(groupResults) && ResultsOf(groupResults, groups[b]) && k < |groupResults|
    requires |more| <= |groupResults| && forall i :: 0 <= i < |more| ==> more[i].step == groupResults[i].step
    ensures HasResult(results + more, groupResults[k].step) <==> k < |more|
  {
    var s, front := groupResults[k].step, Flatten(groups[..b]);
    assert groupResults[k] in groupResults;
    if k < |more| {
      assert more[k] in results + more;
    }
    forall r | r in results
      ensures r.step != s
    {
      var i :| 0 <= i < |front| && front[i] == r.step;
      var j :| 0 <= j < |groups[b]| && groups[b][j] == s;
      assert (front + groups[b])[i] == r.step && (front + groups[b])[|front| + j] == s;
    }
    if r :| r in results + more && r.step == s {
      assert r in more;
      var i :| 0 <= i < |more| && more[i] == r;
      assert groupResults[i].step == groupResults[k].step;
    }
  }

  lemma NothingRun(groups: seq<seq<PlanStep>>, skipped: set<PlanStep>, turnedDown: set<PlanStep>,
                   isThought: PlanStep -> bool, aborts: Aborting)
    ensures SoFar([], [], [], Flatten(groups[..0]), skipped, skipped, turnedDown, isThought)
    ensures NoneStops([], aborts) && InOrder([], groups)
    ensures forall guarded :: AllGuarded([], guarded, isThought)
    ensures Accounted([], []) && Covered(Flatten(groups[..0]), [], skipped)
  {
  }

  lemma AllHaveResults(group: seq<PlanStep>, results: seq<StepResult>)
    requires |results| == |group| && forall i :: 0 <= i < |group| ==> results[i].step == group[i]
    ensures forall s :: s in group ==> HasResult(results, s)
  {
    forall s | s in group
      ensures HasResult(results, s)
    {
      var i :| 0 <= i < |group| && group[i] == s;
      assert results[i] in results;
    }
  }

  /** What the guard leaves of the batch's results covers the batch as well. */
  lemma CoveredMore(front: seq<PlanStep>, results: seq<StepResult>, was: set<PlanStep>, group: seq<PlanStep>,
                    groupResults: seq<StepResult>, more: seq<StepResult>, skipped: set<PlanStep>)
    requires Covered(front, results, was) && was <= skipped && Covered(group, groupResults, skipped)
    requires |more| == |groupResults| && forall i :: 0 <= i < |more| ==> more[i].step == groupResults[i].step
    ensures Covered(front + group, results + more, skipped)
  {
    forall s | s in front + group && s !in skipped
      ensures HasResult(results + more, s)
    {
      if s in front {
        var r :| r in results && r.step == s;
        assert r in results + more;
      } else {
        var r :| r in groupResults && r.step == s;
        var i :| 0 <= i < |groupResults| && groupResults[i] == r;
        assert more[i] in results + more;
      }
    }
  }

  // ---------- the order of runs ----------

  /** Steps are run batch by batch. */
  ghost predicate InOrder(ran: seq<PlanStep>, groups: seq<seq<PlanStep>>) {
    forall i, j, a, b :: 0 <= i < j < |ran| && InBatch(groups, a, ran[i]) && InBatch(groups, b, ran[j]) ==> a <= b
  }

  lemma BatchIsUnique(groups: seq<seq<PlanStep>>, a: int, b: int, s: PlanStep)
    requires DistinctIds(Flatten(groups)) && InBatch(groups, a, s) && InBatch(groups, b, s)
    ensures a == b
  {
    if a < b {
      LaterIsOther(groups, a, b, s);
    } else if b < a {
      LaterIsOther(groups, b, a, s);
    }
  }

  lemma {:induction false} InFront(groups: seq<seq<PlanStep>>, a: nat, b: nat, s: PlanStep)
    requires a < b <= |groups| && s in groups[a]
    ensures s in Flatten(groups[..b])
  {
    FlattenOne(groups[b - 1]);
    hide *;
    LastBatch(groups[..b], groups, b);
    FlattenJoins(groups[..b - 1], [groups[b - 1]]);
    if a < b - 1 {
      InFront(groups, a, b - 1, s);
    }
  }

  lemma LastBatch<T>(front: seq<T>, all: seq<T>, b: nat)
    requires 0 < b <= |all| && front == all[..b]
    ensures front == all[..b - 1] + [all[b - 1]]
  {
  }

  lemma NotInBoth(front: seq<PlanStep>, back: seq<PlanStep>, s: PlanStep)
    requires DistinctIds(front + back) && s in front
    ensures s !in back
  {
    var i :| 0 <= i < |front| && front[i] == s;
    forall j | 0 <= j < |back|
      ensures back[j] != s
    {
      assert (front + back)[i] == s && (front + back)[|front| + j] == back[j];
    }
  }

  lemma LaterIsOther(groups: seq<seq<PlanStep>>, a: int, b: int, s: PlanStep)
    requires DistinctIds(Flatten(groups)) && 0 <= a < b < |groups| && s in groups[a]
    ensures s !in groups[b]
  {
    hide *;
    InFront(groups, a, b, s);
    FlattenFront(groups, b);
    NotInBoth(Flatten(groups[..b]), groups[b], s);
  }

  lemma {:induction false} FrontBatch(groups: seq<seq<PlanStep>>, i: nat, s: PlanStep) returns (a: nat)
    requires i <= |groups| && s in Flatten(groups[..i])
    ensures a < i && InBatch(groups, a, s)
  {
    assert groups[..i] == groups[..i - 1] + [groups[i - 1]];
    FlattenJoins(groups[..i - 1], [groups[i - 1]]);
    FlattenOne(groups[i - 1]);
    if s in groups[i - 1] {
      a := i - 1;
    } else {
      a := FrontBatch(groups, i - 1, s);
    }
  }

  lemma AppendInOrder(groups: seq<seq<PlanStep>>, n: nat, results: seq<StepResult>, ran: seq<PlanStep>,
                      groupResults: seq<StepResult>, more: seq<PlanStep>)
    requires n < |groups| && DistinctIds(Flatten(groups)) && InOrder(ran, groups)
    requires Tidy(results, ran, Flatten(groups[..n])) && Tidy(groupResults, more, groups[n])
    ensures InOrder(ran + more, groups)
  {
    var all := ran + more;
    forall i, j, a, b | 0 <= i < j < |all| && InBatch(groups, a, all[i]) && InBatch(groups, b, all[j])
      ensures a <= b
    {
      if j >= |ran| {
        BatchIsUnique(groups, b, n, all[j]);
        if i < |ran| {
          var c := FrontBatch(groups, n, all[i]);
          BatchIsUnique(groups, a, c, all[i]);
        } else {
          BatchIsUnique(groups, a, n, all[i]);
        }
      }
    }
  }

  /**
   End to end: when both are run, a step of a fresh plan in id order that refers back is run after
   every smaller step it depends on, conflicts included.
   */
  lemma DependencyIsRunFirst(steps: seq<PlanStep>, ran: seq<PlanStep>, i: nat, j: nat)
    requires DistinctIds(steps) && IsSorted(steps) && RefersBack(steps)
    requires InOrder(ran, BatchesOf(Annotated(steps)))
    requires forall s :: s in ran ==> s in Flatten(BatchesOf(Annotated(steps)))
    requires i < |ran| && j < |ran| && ran[i].id in ran[j].dependsOn && ran[i].id < ran[j].id
    ensures i < j
  {
    hide *;
    var groups := BatchesOf(Annotated(steps));
    var a := BatchOf(groups, ran[i]);
    var b := BatchOf(groups, ran[j]);
    DependenciesRunEarlier(steps, a, ran[i], b, ran[j]);
    if j < i {
      OrderOf(ran, groups, j, i, b, a);
    }
  }

  /** The same in terms of the plan as it was made: declared steps, referenced outputs and conflicts. */
  lemma PlannedStepIsRunFirst(steps: seq<PlanStep>, ran: seq<PlanStep>, p: nat, i: nat, q: nat, j: nat)
    requires DistinctIds(steps) && IsSorted(steps) && RefersBack(steps)
    requires InOrder(ran, BatchesOf(Annotated(steps)))
    requires forall s :: s in ran ==> s in Flatten(BatchesOf(Annotated(steps)))
    requires p < |steps| && q < |steps| && steps[p].id < steps[q].id
    requires steps[p].id in steps[q].dependsOn || steps[p].id in steps[q].refs || Conflict(steps[q], steps[p])
    requires i < |ran| && ran[i] == Annotated(steps)[p] && j < |ran| && ran[j] == Annotated(steps)[q]
    ensures i < j
  {
    hide *;
    var groups := BatchesOf(Annotated(steps));
    var a := BatchOf(groups, ran[i]);
    var b := BatchOf(groups, ran[j]);
    PlannedOrderIsKept(steps, p, a, q, b);
    AnnotatedKeeps(steps);
    if j < i {
      OrderOf(ran, groups, j, i, b, a);
    }
  }

  lemma BatchOf(groups: seq<seq<PlanStep>>, s: PlanStep) returns (a: nat)
    requires s in Flatten(groups)
    ensures InBatch(groups, a, s)
  {
    assert groups[..|groups|] == groups;
    a := FrontBatch(groups, |groups|, s);
  }

  lemma OrderOf(ran: seq<PlanStep>, groups: seq<seq<PlanStep>>, i: nat, j: nat, a: int, b: int)
    requires InOrder(ran, groups) && i < j < |ran| && InBatch(groups, a, ran[i]) && InBatch(groups, b, ran[j])
    ensures a <= b
  {
  }

  lemma FlattenFront(groups: seq<seq<PlanStep>>, i: nat)
    requires i < |groups| && DistinctIds(Flatten(groups))
    ensures Flatten(groups[..i + 1]) == Flatten(groups[..i]) + groups[i]
    ensures DistinctIds(groups[i]) && DistinctIds(Flatten(groups[..i]) + groups[i])
  {
    FlattenOne(groups[i]);
    hide *;
    TakeOneMore(groups, i);
    FlattenJoins(groups[..i], [groups[i]]);
    FlattenJoins(groups[..i + 1], groups[i + 1..]);
    DistinctParts(Flatten(groups[..i + 1]), Flatten(groups[i + 1..]));
    DistinctParts(Flatten(groups[..i]), groups[i]);
  }

  lemma TakeOneMore<T>(s: seq<T>, i: nat)
    requires i < |s|
    ensures s[..i + 1] == s[..i] + [s[i]] && s == s[..i + 1] + s[i + 1..]
  {
  }

  lemma FlattenOne(group: seq<PlanStep>)
    ensures Flatten([group]) == group
  {
    assert [group][1..] == [];
  }

  lemma DistinctParts(a: seq<PlanStep>, b: seq<PlanStep>)
    requires DistinctIds(a + b)
    ensures DistinctIds(a) && DistinctIds(b)
  {
    assert forall i :: 0 <= i < |a| ==> (a + b)[i] == a[i];
    assert forall i :: 0 <= i < |b| ==> (a + b)[|a| + i] == b[i];
  }

  lemma GuardedTidy(groupResults: seq<StepResult>, results: seq<StepResult>, ran: seq<PlanStep>, group: seq<PlanStep>)
    requires Tidy(groupResults, ran, group) && |results| <= |groupResults|
    requires forall i :: 0 <= i < |results| ==> results[i].step == groupResults[i].step
    ensures Tidy(results, ran, group)
    ensures |results| == |groupResults| && Accounted(groupResults, ran) ==> Accounted(results, ran)
  {
    forall r | r in results
      ensures r.step in group
    {
      var i :| 0 <= i < |results| && results[i] == r;
      assert groupResults[i] in groupResults;
    }
    if |results| == |groupResults| && Accounted(groupResults, ran) {
      forall s | s in ran
        ensures HasResult(results, s)
      {
        var r :| r in groupResults && r.step == s;
        var i :| 0 <= i < |groupResults| && groupResults[i] == r;
        assert results[i] in results;
      }
    }
  }

  lemma TidyWidens(results: seq<StepResult>, ran: seq<PlanStep>, front: seq<PlanStep>, rest: seq<PlanStep>)
    requires Tidy(results, ran, front)
    ensures Tidy(results, ran, front + rest)
  {
  }
}
