/** `learning_metrics`: trial counters per component and day, and the verdict drawn from them. */
module ComponentMetrics {
  import opened Options
  import opened Strings
  import opened Wilson

  const WINDOW_DAYS: nat := 60
  const KEPT_DAYS: nat := 90

  datatype Counts = Counts(
    activatedCount: nat, successWith: nat, totalWith: nat, successWithout: nat, totalWithout: nat, holdout: bool,
    trialSuccessWith: nat, trialTotalWith: nat, trialSuccessHoldout: nat, trialTotalHoldout: nat)

  const NO_COUNTS: Counts := Counts(0, 0, 0, 0, 0, false, 0, 0, 0, 0)

  /** One call of `record`, on the day of the call. */
  datatype Trial = Trial(
    name: string, activated: bool, success: bool, holdout: bool, eligible: Option<bool>, day: int)
  {
    function Key(): string {
      Strip(name, IsSpace)
    }

    predicate IsEligible() {
      if eligible.None? then activated || holdout else eligible.value
    }

    predicate IsHoldout() {
      holdout && IsEligible() && !activated
    }
  }

  /** The counters of a component, and its counters by day. */
  type Daily = map<int, map<string, Counts>>

  function CountsFor(metrics: map<string, Counts>, name: string): Counts {
    if name in metrics then metrics[name] else NO_COUNTS
  }

  function DayOf(daily: Daily, day: int): map<string, Counts> {
    if day in daily then daily[day] else map[]
  }

  function One(b: bool): nat {
    if b then 1 else 0
  }

  /** `held` and `eligible` as `record` has normalised them. */
  function Incremented(c: Counts, activated: bool, success: bool, held: bool, eligible: bool): Counts {
    var applied, heldOut := eligible && !held, eligible && held;
    Counts(c.activatedCount + One(activated),
           c.successWith + One(activated && success), c.totalWith + One(activated),
           c.successWithout + One(!activated && success), c.totalWithout + One(!activated),
           held,
           c.trialSuccessWith + One(applied && success), c.trialTotalWith + One(applied),
           c.trialSuccessHoldout + One(heldOut && success), c.trialTotalHoldout + One(heldOut))
  }

  /** What one trial adds to the counters of its component. */
  function Counted(c: Counts, t: Trial): Counts {
    Incremented(c, t.activated, t.success, t.IsHoldout(), t.IsEligible())
  }

  function Pruned(daily: Daily, today: int): Daily {
    map day | day in daily && day >= today - KEPT_DAYS :: daily[day]
  }

  function RecordedDaily(daily: Daily, t: Trial): Daily {
    if t.Key() == "" then daily
    else
      var items := DayOf(daily, t.day);
      Pruned(daily[t.day := items[t.Key() := Counted(CountsFor(items, t.Key()), t)]], t.day)
  }

  function RecordedMetrics(metrics: map<string, Counts>, t: Trial): map<string, Counts> {
    if t.Key() == "" then metrics else metrics[t.Key() := Counted(CountsFor(metrics, t.Key()), t)]
  }

  // ---------- the verdict ----------

  /** Trials with the component applied and held out, and how many of each succeeded. */
  datatype Sums = Sums(applied: nat, appliedSuccesses: nat, held: nat, heldSuccesses: nat)
  {
    function Plus(other: Sums): Sums {
      Sums(applied + other.applied, appliedSuccesses + other.appliedSuccesses,
           held + other.held, heldSuccesses + other.heldSuccesses)
    }

    predicate Sound() {
      appliedSuccesses <= applied && heldSuccesses <= held
    }
  }

  function TrialSums(c: Counts): Sums {
    Sums(c.trialTotalWith, c.trialSuccessWith, c.trialTotalHoldout, c.trialSuccessHoldout)
  }

  function DaySums(daily: Daily, name: string, day: int): Sums {
    TrialSums(CountsFor(DayOf(daily, day), name))
  }

  /** The sums over today and the days before it, `days` in all. */
  function WindowSums(daily: Daily, name: string, today: int, days: nat): Sums {
    if days == 0 then Sums(0, 0, 0, 0)
    else WindowSums(daily, name, today, days - 1).Plus(DaySums(daily, name, today - (days - 1)))
  }

  datatype Verdict = Pending | Disabled | Active

  function LiftUpper(s: Sums, appliedRoot: real, heldRoot: real): real {
    Interval(s.appliedSuccesses, s.applied, appliedRoot).1 - Interval(s.heldSuccesses, s.held, heldRoot).0
  }

  function VerdictOn(s: Sums, minSamples: int, appliedRoot: real, heldRoot: real): Verdict {
    if s.applied >= minSamples && s.held >= minSamples then
      if LiftUpper(s, appliedRoot, heldRoot) < 0.0 then Disabled else Active
    else Pending
  }

  class LearningMetrics {
    var metrics: map<string, Counts>
    var daily: Daily

    constructor ()
      ensures metrics == map[] && daily == map[]
    {
      metrics, daily := map[], map[];
    }

    /** The increments; `record` makes them on the counters of the component and of the day alike. */
    static method Count(counts: Counts, activated: bool, success: bool, holdout: bool, eligible: bool)
      returns (r: Counts)
      ensures r == Incremented(counts, activated, success, holdout, eligible)
    {
      r := counts.(holdout := holdout);
      if activated {
        r := r.(activatedCount := r.activatedCount + 1, totalWith := r.totalWith + 1);
        if success {
          r := r.(successWith := r.successWith + 1);
        }
      } else {
        r := r.(totalWithout := r.totalWithout + 1);
        if success {
          r := r.(successWithout := r.successWithout + 1);
        }
      }
      if eligible && holdout {
        r := r.(trialTotalHoldout := r.trialTotalHoldout + 1);
        if success {
          r := r.(trialSuccessHoldout := r.trialSuccessHoldout + 1);
        }
      } else if eligible {
        r := r.(trialTotalWith := r.trialTotalWith + 1);
        if success {
          r := r.(trialSuccessWith := r.trialSuccessWith + 1);
        }
      }
    }

    method Record(name: string, activated: bool, success: bool, holdout: bool, eligible: Option<bool>, today: int)
      modifies this
      ensures var t := Trial(name, activated, success, holdout, eligible, today);
              metrics == RecordedMetrics(old(metrics), t) && daily == RecordedDaily(old(daily), t)
    {
      hide Strip, DayOf, CountsFor, Pruned, Incremented;
      var key := Strip(name, IsSpace);
      if key == "" {
        return;
      }
      var isEligible := if eligible.None? then activated || holdout else eligible.value;
      var isHoldout := holdout && isEligible && !activated;
      var items := DayOf(daily, today);
      var total := Count(CountsFor(metrics, key), activated, success, isHoldout, isEligible);
      var day := Count(CountsFor(items, key), activated, success, isHoldout, isEligible);
      metrics := metrics[key := total];
      daily := daily[today := items[key := day]];
      daily := Pruned(daily, today);
    }

    /** `_component_state_locked`; the roots are what `math.sqrt` returns for the two intervals. */
    method ComponentState(name: string, minSamples: int, today: int, appliedRoot: real, heldRoot: real)
      returns (sums: Sums, verdict: Verdict)
      ensures sums == WindowSums(daily, name, today, WINDOW_DAYS)
      ensures verdict == VerdictOn(sums, minSamples, appliedRoot, heldRoot)
    {
      sums := Sums(0, 0, 0, 0);
      for offset := 0 to WINDOW_DAYS
        invariant sums == WindowSums(daily, name, today, offset)
      {
        var items := DayOf(daily, today - offset);
        var c := CountsFor(items, name);
        sums := Sums(sums.applied + c.trialTotalWith, sums.appliedSuccesses + c.trialSuccessWith,
                     sums.held + c.trialTotalHoldout, sums.heldSuccesses + c.trialSuccessHoldout);
      }
      verdict := Pending;
      if sums.applied >= minSamples && sums.held >= minSamples {
        var (_, withUpper) := Interval(sums.appliedSuccesses, sums.applied, appliedRoot);
        var (holdoutLower, _) := Interval(sums.heldSuccesses, sums.held, heldRoot);
        verdict := if withUpper - holdoutLower < 0.0 then Disabled else Active;
      }
    }
  }
}

/** The verdict is a statement about the log of all trials. */
module LearningVerdict {
  import opened Options
  import opened Strings
  import opened Wilson
  import opened ComponentMetrics

  // ---------- counters against the log ----------

  /** The counters after the calls in the log. */
  function DailyAfter(log: seq<Trial>): Daily {
    if log == [] then map[] else RecordedDaily(DailyAfter(log[..|log| - 1]), log[|log| - 1])
  }

  ghost predicate DaysAdvance(log: seq<Trial>) {
    forall i, j :: 0 <= i < j < |log| ==> log[i].day <= log[j].day
  }

  function SumsOf(t: Trial): Sums {
    var applied, held := t.IsEligible() && !t.IsHoldout(), t.IsHoldout();
    Sums(One(applied), One(applied && t.success), One(held), One(held && t.success))
  }

  /** The trials of a component in the log, from one day to another, both included. */
  function Tally(log: seq<Trial>, name: string, from: int, to: int): Sums {
    if log == [] then Sums(0, 0, 0, 0)
    else
      var last := log[|log| - 1];
      var rest := Tally(log[..|log| - 1], name, from, to);
      if last.Key() == name && from <= last.day <= to then rest.Plus(SumsOf(last)) else rest
  }

  lemma {:induction false} TallyIsSound(log: seq<Trial>, name: string, from: int, to: int)
    ensures Tally(log, name, from, to).Sound()
  {
    if log != [] {
      TallyIsSound(log[..|log| - 1], name, from, to);
    }
  }

  lemma {:induction false} TallySplits(log: seq<Trial>, name: string, from: int, mid: int, to: int)
    requires from <= mid + 1 && mid <= to
    ensures Tally(log, name, from, to) == Tally(log, name, from, mid).Plus(Tally(log, name, mid + 1, to))
  {
    if log != [] {
      TallySplits(log[..|log| - 1], name, from, mid, to);
    }
  }

  lemma PrunedDay(daily: Daily, today: int, day: int)
    requires day >= today - KEPT_DAYS
    ensures DayOf(Pruned(daily, today), day) == DayOf(daily, day)
  {
  }

  lemma CountedSums(c: Counts, t: Trial)
    ensures TrialSums(Counted(c, t)) == TrialSums(c).Plus(SumsOf(t))
  {
  }

  lemma RecordChangesOneDay(daily: Daily, t: Trial, name: string, day: int)
    requires name != "" && day >= t.day - KEPT_DAYS
    ensures DaySums(RecordedDaily(daily, t), name, day) ==
            if t.Key() == name && t.day == day then DaySums(daily, name, day).Plus(SumsOf(t))
            else DaySums(daily, name, day)
  {
    hide Pruned, Counted, TrialSums, SumsOf, Strip;
    if t.Key() != "" {
      var items := DayOf(daily, t.day);
      var counts := Counted(CountsFor(items, t.Key()), t);
      PrunedDay(daily[t.day := items[t.Key() := counts]], t.day, day);
      CountedSums(CountsFor(items, t.Key()), t);
    }
  }

  /** Every day that is not pruned yet holds exactly the trials of the log on that day. */
  lemma {:induction false} DayIsTally(log: seq<Trial>, name: string, day: int)
    requires DaysAdvance(log) && name != ""
    requires log != [] ==> day >= log[|log| - 1].day - KEPT_DAYS
    ensures DaySums(DailyAfter(log), name, day) == Tally(log, name, day, day)
  {
    if log != [] {
      var front, last := log[..|log| - 1], log[|log| - 1];
      assert front != [] ==> front[|front| - 1].day <= last.day;
      DayIsTally(front, name, day);
      RecordChangesOneDay(DailyAfter(front), last, name, day);
    }
  }

  lemma {:induction false} TallyOfNoDay(log: seq<Trial>, name: string, from: int, to: int)
    requires to < from
    ensures Tally(log, name, from, to) == Sums(0, 0, 0, 0)
  {
    if log != [] {
      TallyOfNoDay(log[..|log| - 1], name, from, to);
    }
  }

  lemma {:induction false} WindowIsTally(log: seq<Trial>, name: string, today: int, days: nat)
    requires DaysAdvance(log) && name != ""
    requires log != [] ==> today - days + 1 >= log[|log| - 1].day - KEPT_DAYS
    ensures WindowSums(DailyAfter(log), name, today, days) == Tally(log, name, today - days + 1, today)
  {
    WindowUnfolds(DailyAfter(log), name, today, days);
    hide *;
    if days == 0 {
      TallyOfNoDay(log, name, today + 1, today);
    } else {
      WindowIsTally(log, name, today, days - 1);
      DayIsTally(log, name, today - days + 1);
      TallySplits(log, name, today - days + 1, today - days + 1, today);
      PlusCommutes(Tally(log, name, today - days + 1, today - days + 1), Tally(log, name, today - days + 2, today));
    }
  }

  lemma WindowUnfolds(daily: Daily, name: string, today: int, days: nat)
    ensures WindowSums(daily, name, today, 0) == Sums(0, 0, 0, 0)
    ensures days > 0 ==>
              WindowSums(daily, name, today, days)
              == WindowSums(daily, name, today, days - 1).Plus(DaySums(daily, name, today - days + 1))
  {
  }

  lemma PlusCommutes(a: Sums, b: Sums)
    ensures a.Plus(b) == b.Plus(a)
  {
  }

  /** Forgetting days older than the pruning limit changes no verdict up to a month before it. */
  lemma {:induction false} PruningIsInvisible(daily: Daily, name: string, prunedOn: int, today: int, days: nat)
    requires today - days + 1 >= prunedOn - KEPT_DAYS
    ensures WindowSums(Pruned(daily, prunedOn), name, today, days) == WindowSums(daily, name, today, days)
  {
    WindowUnfolds(daily, name, today, days);
    WindowUnfolds(Pruned(daily, prunedOn), name, today, days);
    if days > 0 {
      PrunedDay(daily, prunedOn, today - days + 1);
      assert DaySums(Pruned(daily, prunedOn), name, today - days + 1) == DaySums(daily, name, today - days + 1);
      hide *;
      PruningIsInvisible(daily, name, prunedOn, today, days - 1);
    }
  }

  /** The lifetime counters after the calls in the log. */
  function MetricsAfter(log: seq<Trial>): map<string, Counts> {
    if log == [] then map[] else RecordedMetrics(MetricsAfter(log[..|log| - 1]), log[|log| - 1])
  }

  /** The lifetime counters hold every trial of the log, pruned from the days or not. */
  lemma {:induction false} LifetimeIsTally(log: seq<Trial>, name: string, from: int, to: int)
    requires name != "" && forall i :: 0 <= i < |log| ==> from <= log[i].day <= to
    ensures TrialSums(CountsFor(MetricsAfter(log), name)) == Tally(log, name, from, to)
  {
    if log != [] {
      var front, last := log[..|log| - 1], log[|log| - 1];
      LifetimeIsTally(front, name, from, to);
      CountedSums(CountsFor(MetricsAfter(front), last.Key()), last);
      hide Counted, TrialSums, SumsOf, Strip;
    }
  }

  // ---------- what "disabled" means ----------

  ghost predicate RootsFor(s: Sums, appliedRoot: real, heldRoot: real) {
    && (s.applied > 0 ==> IsRoot(appliedRoot, Radicand(s.appliedSuccesses, s.applied)))
    && (s.held > 0 ==> IsRoot(heldRoot, Radicand(s.heldSuccesses, s.held)))
  }

  lemma BoundsHoldRate(successes: nat, total: nat, root: real)
    requires successes <= total && (total > 0 ==> IsRoot(root, Radicand(successes, total)))
    ensures var (lower, upper) := Interval(successes, total, root);
            && 0.0 <= lower && upper <= 1.0 && (total == 0 ==> lower == 0.0 && upper == 1.0)
            && (total > 0 ==> lower <= Rate(successes, total) <= upper)
  {
    if total > 0 {
      IntervalHoldsRate(successes, total, root);
    }
  }

  /**
   A component is switched off only if every success rate that fits its applied trials is below every
   success rate that fits its held-out trials; in particular it succeeded less often when applied.
   */
  lemma DisabledIsWorse(s: Sums, minSamples: int, appliedRoot: real, heldRoot: real)
    requires s.Sound() && RootsFor(s, appliedRoot, heldRoot)
    requires VerdictOn(s, minSamples, appliedRoot, heldRoot) == Disabled
    ensures s.applied > 0 && s.held > 0
    ensures Rate(s.appliedSuccesses, s.applied) < Rate(s.heldSuccesses, s.held)
    ensures forall p, q :: 0.0 <= p <= 1.0 && 0.0 <= q <= 1.0
              && Fits(s.appliedSuccesses, s.applied, p) && Fits(s.heldSuccesses, s.held, q)
              ==> p < q
  {
    hide Interval, Rate, Radicand, Fits;
    BoundsHoldRate(s.appliedSuccesses, s.applied, appliedRoot);
    BoundsHoldRate(s.heldSuccesses, s.held, heldRoot);
    forall p, q | 0.0 <= p <= 1.0 && 0.0 <= q <= 1.0
      && Fits(s.appliedSuccesses, s.applied, p) && Fits(s.heldSuccesses, s.held, q)
      ensures p < q
    {
      IntervalIsScoreTest(s.appliedSuccesses, s.applied, appliedRoot, p);
      IntervalIsScoreTest(s.heldSuccesses, s.held, heldRoot, q);
    }
  }

  /**
   After any calls on advancing days, the verdict of a day is drawn from exactly the trials that the
   log holds for the component in the sixty days up to it; when it says "disabled", the component's
   applied trials in that window succeeded less often than its held-out trials.
   */
  lemma VerdictIsAboutTheLog(
    log: seq<Trial>, name: string, today: int, minSamples: int, appliedRoot: real, heldRoot: real)
    requires DaysAdvance(log) && name != ""
    requires log != [] ==> today >= log[|log| - 1].day - 31
    ensures var s := WindowSums(DailyAfter(log), name, today, WINDOW_DAYS);
            && s == Tally(log, name, today - 59, today) && s.Sound()
            && (RootsFor(s, appliedRoot, heldRoot) && VerdictOn(s, minSamples, appliedRoot, heldRoot) == Disabled ==>
                  s.applied > 0 && s.held > 0
                  && Rate(s.appliedSuccesses, s.applied) < Rate(s.heldSuccesses, s.held))
  {
    WindowIsTally(log, name, today, WINDOW_DAYS);
    TallyIsSound(log, name, today - 59, today);
    var s := WindowSums(DailyAfter(log), name, today, WINDOW_DAYS);
    if RootsFor(s, appliedRoot, heldRoot) && VerdictOn(s, minSamples, appliedRoot, heldRoot) == Disabled {
      DisabledIsWorse(s, minSamples, appliedRoot, heldRoot);
    }
  }

  // ---------- counters that were loaded ----------

  predicate SoundCounts(c: Counts) {
    && c.successWith <= c.totalWith && c.successWithout <= c.totalWithout
    && TrialSums(c).Sound() && c.activatedCount == c.totalWith
    && c.trialTotalWith + c.trialTotalHoldout <= c.totalWith + c.totalWithout
  }

  ghost predicate SoundDaily(daily: Daily) {
    forall day, name :: day in daily && name in daily[day] ==> SoundCounts(daily[day][name])
  }

  /** Whatever sound counters were stored, no call makes them unsound. */
  lemma RecordKeepsSound(daily: Daily, t: Trial)
    requires SoundDaily(daily)
    ensures SoundDaily(RecordedDaily(daily, t))
  {
    if t.Key() != "" {
      var items := DayOf(daily, t.day);
      assert SoundCounts(CountsFor(items, t.Key()));
      assert SoundCounts(Counted(CountsFor(items, t.Key()), t));
    }
  }
}
