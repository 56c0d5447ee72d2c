/** All counters against the log of trials, which days are kept, and the verdict in both directions. */
module MetricsLog {
  import opened Options
  import opened Strings
  import opened Wilson
  import opened ComponentMetrics
  import opened LearningVerdict

  // ---------- the counters ----------

  /** May the trial be counted for or against the component at all? */
  predicate Eligible(t: Trial) {
    t.eligible == Some(true) || (t.eligible == None && (t.activated || t.holdout))
  }

  /** Held out on purpose: eligible, chosen for holding out, and not applied. */
  predicate HeldOut(t: Trial) {
    Eligible(t) && t.holdout && !t.activated
  }

  predicate Tried(t: Trial) { Eligible(t) && !HeldOut(t) }

  predicate Applied(t: Trial) { t.activated }

  predicate Unapplied(t: Trial) { !t.activated }

  predicate HeldOutWell(t: Trial) { HeldOut(t) && t.success }

  predicate TriedWell(t: Trial) { Tried(t) && t.success }

  predicate AppliedWell(t: Trial) { t.activated && t.success }

  predicate UnappliedWell(t: Trial) { !t.activated && t.success }

  /** The trials of a component between two days that have a property. */
  function HowMany(log: seq<Trial>, name: string, from: int, to: int, has: Trial -> bool): nat {
    if log == [] then 0
    else
      var last := log[|log| - 1];
      HowMany(log[..|log| - 1], name, from, to, has)
      + if Strip(last.name, IsSpace) == name && from <= last.day <= to && has(last) then 1 else 0
  }

  /** Was the newest of these trials held out? */
  function LastHeldOut(log: seq<Trial>, name: string, from: int, to: int): bool {
    if log == [] then false
    else
      var last := log[|log| - 1];
      if Strip(last.name, IsSpace) == name && from <= last.day <= to then HeldOut(last)
      else LastHeldOut(log[..|log| - 1], name, from, to)
  }

  /** Each counter is the number of those trials that it is meant to count. */
  ghost predicate CountsAll(c: Counts, log: seq<Trial>, name: string, from: int, to: int) {
    && c.activatedCount == HowMany(log, name, from, to, Applied)
    && c.totalWith == HowMany(log, name, from, to, Applied)
    && c.successWith == HowMany(log, name, from, to, AppliedWell)
    && c.totalWithout == HowMany(log, name, from, to, Unapplied)
    && c.successWithout == HowMany(log, name, from, to, UnappliedWell)
    && c.trialTotalHoldout == HowMany(log, name, from, to, HeldOut)
    && c.trialSuccessHoldout == HowMany(log, name, from, to, HeldOutWell)
    && c.trialTotalWith == HowMany(log, name, from, to, Tried)
    && c.trialSuccessWith == HowMany(log, name, from, to, TriedWell)
    && c.holdout == LastHeldOut(log, name, from, to)
  }

  lemma OneMoreCounted(c: Counts, log: seq<Trial>, name: string, from: int, to: int)
    requires log != [] && CountsAll(c, log[..|log| - 1], name, from, to)
    ensures var last := log[|log| - 1];
            if last.Key() == name && from <= last.day <= to then CountsAll(Counted(c, last), log, name, from, to)
            else CountsAll(c, log, name, from, to)
  {
    hide Strip;
  }

  lemma NothingCounted(name: string, from: int, to: int)
    ensures CountsAll(NO_COUNTS, [], name, from, to)
  {
  }

  /** A day that is not pruned yet counts exactly that day's trials, in every counter. */
  lemma {:induction false} DayCountsExactly(log: seq<Trial>, name: string, day: int)
    requires DaysAdvance(log) && name != ""
    requires log != [] ==> day >= log[|log| - 1].day - 90
    ensures CountsAll(CountsFor(DayOf(DailyAfter(log), day), name), log, name, day, day)
  {
    hide CountsAll, Counted, Strip;
    if log == [] {
      NothingCounted(name, day, day);
    } else {
      var front, last := log[..|log| - 1], log[|log| - 1];
      assert front != [] ==> front[|front| - 1].day <= last.day;
      DayCountsExactly(front, name, day);
      OneMoreCounted(CountsFor(DayOf(DailyAfter(front), day), name), log, name, day, day);
    }
  }

  /** The lifetime counters count all trials, pruned from the days or not. */
  lemma {:induction false} LifetimeCountsExactly(log: seq<Trial>, name: string, from: int, to: int)
    requires name != "" && forall i :: 0 <= i < |log| ==> from <= log[i].day <= to
    ensures CountsAll(CountsFor(MetricsAfter(log), name), log, name, from, to)
  {
    hide CountsAll, Counted, Strip;
    if log == [] {
      NothingCounted(name, from, to);
    } else {
      var front := log[..|log| - 1];
      LifetimeCountsExactly(front, name, from, to);
      OneMoreCounted(CountsFor(MetricsAfter(front), name), log, name, from, to);
    }
  }

  /** Something was recorded for this trial. */
  predicate IsNamed(t: Trial) {
    Strip(t.name, IsSpace) != ""
  }

  /** The days kept are those of the recorded trials less than ninety-one days before the newest of them. */
  lemma {:induction false} KeptExactly(log: seq<Trial>, day: int)
    requires DaysAdvance(log)
    ensures day in DailyAfter(log) <==>
            && (exists i :: 0 <= i < |log| && IsNamed(log[i]) && log[i].day == day)
            && (forall i :: 0 <= i < |log| && IsNamed(log[i]) ==> day >= log[i].day - 90)
  {
    hide Strip, Counted, CountsFor, DayOf;
    if log != [] {
      var front, last := log[..|log| - 1], log[|log| - 1];
      KeptExactly(front, day);
      assert forall i :: 0 <= i < |front| ==> front[i] == log[i] && front[i].day <= last.day;
      assert log[|log| - 1] == last;
      if i :| 0 <= i < |front| && IsNamed(front[i]) && front[i].day == day {
        assert log[i].day == day;
      }
    }
  }

  // ---------- the verdict ----------

  predicate HasSamples(s: Sums, minSamples: int) {
    s.applied >= minSamples && s.held >= minSamples
  }

  /** What "fits" means in numbers: within 1.96 standard errors. */
  lemma FitsInNumbers(successes: nat, total: nat, q: real)
    requires total > 0
    ensures var rate := successes as real / total as real;
            Fits(successes, total, q) <==> (rate - q) * (rate - q) <= 1.96 * 1.96 / total as real * (q * (1.0 - q))
  {
  }

  /** Every rate that fits the applied trials is below every rate that fits the held-out ones. */
  ghost predicate ClearlyWorse(s: Sums) {
    s.applied > 0 && s.held > 0 &&
    forall p, q :: 0.0 <= p <= 1.0 && 0.0 <= q <= 1.0
      && Fits(s.appliedSuccesses, s.applied, p) && Fits(s.heldSuccesses, s.held, q)
      ==> p < q
  }

  /** The extreme rates of the two intervals fit themselves. */
  lemma BoundsFit(successes: nat, total: nat, root: real)
    requires 0 < total && successes <= total && IsRoot(root, Radicand(successes, total))
    ensures var (lower, upper) := Interval(successes, total, root);
            && 0.0 <= lower <= 1.0 && 0.0 <= upper <= 1.0
            && Fits(successes, total, lower) && Fits(successes, total, upper)
  {
    hide Interval, Radicand, Fits;
    IntervalHoldsRate(successes, total, root);
    var (lower, upper) := Interval(successes, total, root);
    IntervalIsScoreTest(successes, total, root, lower);
    IntervalIsScoreTest(successes, total, root, upper);
  }

  /**
   A component is switched off exactly when there are enough trials of both kinds and it is clearly worse
   when applied; with enough trials it is active otherwise, and without them nothing is decided.
   */
  lemma VerdictExactly(s: Sums, minSamples: int, appliedRoot: real, heldRoot: real)
    requires s.Sound() && RootsFor(s, appliedRoot, heldRoot)
    ensures var v := VerdictOn(s, minSamples, appliedRoot, heldRoot);
            && (v == Disabled <==> HasSamples(s, minSamples) && ClearlyWorse(s))
            && (v == Active <==> HasSamples(s, minSamples) && !ClearlyWorse(s))
            && (v == Pending <==> !HasSamples(s, minSamples))
  {
    hide Interval, Rate, Radicand, Fits, IsRoot;
    if VerdictOn(s, minSamples, appliedRoot, heldRoot) == Disabled {
      DisabledIsWorse(s, minSamples, appliedRoot, heldRoot);
    } else if ClearlyWorse(s) {
      BoundsFit(s.appliedSuccesses, s.applied, appliedRoot);
      BoundsFit(s.heldSuccesses, s.held, heldRoot);
    }
  }
}
