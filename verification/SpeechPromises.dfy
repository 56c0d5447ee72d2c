/** When an event is spoken and when it is not, in terms of what was delivered, and what the streak counts. */
module SpeechPromises {
  import opened Options
  import opened SpeechScheduling
  import opened SpeechRuns

  // ---------- the records hold exactly the last deliveries ----------

  /** The last delivery of an event in the records is one in the log. */
  ghost predicate LastIsDelivered(s: State) {
    forall kind :: kind in s.last ==>
      exists i :: 0 <= i < |s.log| && s.log[i].kind == kind && s.log[i].at == s.last[kind]
  }

  lemma StepKeepsLast(s: State, e: Event)
    requires Enabled(s, e) && LastIsDelivered(s)
    ensures LastIsDelivered(Next(s, e))
  {
    hide IsReady, PendingIndex, FirstReady, Popped;
    var next := Next(s, e);
    forall kind | kind in next.last
      ensures exists i :: 0 <= i < |next.log| && next.log[i].kind == kind && next.log[i].at == next.last[kind]
    {
      if kind in s.last && next.last[kind] == s.last[kind] {
        var i :| 0 <= i < |s.log| && s.log[i].kind == kind && s.log[i].at == s.last[kind];
        assert next.log[i] == s.log[i];
      } else {
        assert next.log[|s.log|].kind == kind;
      }
    }
  }

  lemma {:induction false} RunKeepsLast(states: seq<State>, events: seq<Event>, j: nat)
    requires IsRun(states, events) && j <= |events|
    ensures LastIsDelivered(states[j])
  {
    hide LastIsDelivered, Next, Enabled;
    if j > 0 {
      RunKeepsLast(states, events, j - 1);
      StepKeepsLast(states[j - 1], events[j - 1]);
    } else {
      NothingDelivered();
    }
  }

  lemma NothingDelivered()
    ensures LastIsDelivered(INITIAL)
  {
  }

  // ---------- exactly when an event is allowed ----------

  /** Far enough behind every delivery of the event, and on another date than those when once a day is enough. */
  ghost predicate LongEnoughAgo(log: seq<Delivery>, kind: Kind, streak: nat, now: int) {
    forall d :: d in log && d.kind == kind ==>
      now - d.at >= Cooldown(kind) * Backoff(streak) && (OnceDaily(kind) ==> DateOf(d.at) != DateOf(now))
  }

  /** The clock is not behind the log. */
  ghost predicate IsPresent(log: seq<Delivery>, now: int) {
    forall d :: d in log ==> d.at <= now
  }

  lemma PositiveCooldown(kind: Kind, streak: nat)
    ensures Cooldown(kind) * Backoff(streak) > 0
  {
  }

  lemma SpacingIsKept(s: State, kind: Kind, now: int)
    requires Accurate(s) && LastIsDelivered(s) && IsPresent(s.log, now)
    ensures (kind in s.last ==>
               && !(OnceDaily(kind) && DateOf(s.last[kind]) == DateOf(now))
               && now - s.last[kind] >= Cooldown(kind) * Backoff(s.streak)) <==>
            LongEnoughAgo(s.log, kind, s.streak, now)
  {
    hide Cooldown, Backoff, OnceDaily, CountOn;
    PositiveCooldown(kind, s.streak);
    if kind in s.last {
      var i :| 0 <= i < |s.log| && s.log[i].kind == kind && s.log[i].at == s.last[kind];
      assert s.log[i] in s.log;
      forall d | d in s.log && d.kind == kind
        ensures d.at <= s.last[kind] <= now
        ensures DateOf(d.at) == DateOf(now) ==> DateOf(s.last[kind]) == DateOf(now)
      {
        DatesInOrder(d.at, s.last[kind], now);
      }
    }
  }

  lemma DatesInOrder(a: int, b: int, c: int)
    ensures a <= b <= c && DateOf(a) == DateOf(c) ==> DateOf(b) == DateOf(c)
    ensures a <= b ==> DateOf(a) <= DateOf(b)
  {
  }

  lemma CountIsOfToday(s: State, now: int)
    requires Accurate(s) && IsPresent(s.log, now) && (s.date.Some? ==> s.date.value <= DateOf(now))
    ensures CountOn(s.log, DateOf(now)) == if s.date == Some(DateOf(now)) then s.count else 0
  {
    hide CountOn, DateOf;
    if s.date != Some(DateOf(now)) {
      forall d | d in s.log
        ensures DateOf(d.at) < DateOf(now)
      {
      }
      NoneOnLaterDates(s.log, DateOf(now));
    }
  }

  /**
   In every run, with a clock that is not behind the deliveries, an event is allowed exactly when its last
   deliveries are long enough ago and fewer speeches than the daily limit were delivered on the date.
   */
  lemma AllowedExactly(states: seq<State>, events: seq<Event>, j: nat, kind: Kind, now: int)
    requires IsRun(states, events) && ClockAdvances(events) && j <= |events|
    requires IsPresent(states[j].log, now) && forall k :: 0 <= k < j && events[k].BeginFlush? ==> events[k].now <= now
    ensures var s := states[j];
            IsAllowed(s, kind, now) <==>
            LongEnoughAgo(s.log, kind, s.streak, now) && CountOn(s.log, DateOf(now)) < DailyLimit(s.streak)
  {
    var s := states[j];
    RunKeepsInv(states, events, j);
    RunKeepsLast(states, events, j);
    assert Accurate(s) && DateFromFlush(s, events[..j]);
    hide IsRun, LongEnoughAgo, Accurate, LastIsDelivered, IsPresent, CountOn, DateOf, Cooldown, Backoff, Inv;
    SpacingIsKept(s, kind, now);
    DateIsPast(s, events, j, now);
    CountIsOfToday(s, now);
  }

  lemma DateIsPast(s: State, events: seq<Event>, j: nat, now: int)
    requires j <= |events| && DateFromFlush(s, events[..j])
    requires forall k :: 0 <= k < j && events[k].BeginFlush? ==> events[k].now <= now
    ensures s.date.Some? ==> s.date.value <= DateOf(now)
  {
    if s.date.Some? {
      var e :| e in events[..j] && e.BeginFlush? && DateOf(e.now) == s.date.value;
      var k :| 0 <= k < j && events[..j][k] == e;
      DatesInOrder(events[k].now, now, now);
    }
  }

  /** The waiting times in seconds, and how ignored speeches stretch and reduce them. */
  lemma LimitsInNumbers()
    ensures Cooldown(Return) == 1800 && Cooldown(AgentDone) == 900 && Cooldown(MaintenanceResult) == 72000
    ensures Cooldown(LongUse) == 86400 && Cooldown(LateNight) == 86400 && Cooldown(PraiseStreak) == 86400
    ensures Cooldown(WeeklyReport) == 518400
    ensures forall kind :: OnceDaily(kind) <==> Cooldown(kind) == 86400
    ensures Backoff(0) == 1 && Backoff(1) == 2 && Backoff(2) == 4 && forall n: nat :: n >= 3 ==> Backoff(n) == 8
    ensures DailyLimit(0) == 3 && DailyLimit(1) == 2 && forall n: nat :: n >= 2 ==> DailyLimit(n) == 1
  {
  }

  // ---------- one flush ----------

  /** Pending event `k` may be spoken now. */
  predicate MaySpeak(s: State, k: int, now: int, otherWindow: bool) {
    0 <= k < |s.pending| && (s.pending[k].kind == AgentDone ==> otherWindow) && IsAllowed(s, s.pending[k].kind, now)
  }

  /**
   A flush takes up the first pending event that may be spoken, unless one is being spoken or a guard is
   up; an event without a text is dropped instead. Otherwise it changes nothing.
   */
  lemma FlushExactly(s: State, now: int, guarded: bool, otherWindow: bool, rendered: bool, k: nat)
    ensures var next := FlightBegun(s, now, guarded, otherWindow, rendered);
            if s.flight.None? && !guarded && MaySpeak(s, k, now, otherWindow)
               && forall i :: 0 <= i < k ==> !MaySpeak(s, i, now, otherWindow) then
              if rendered then next == s.(flight := Some(Flight(k, s.pending[k].kind, now, s.streak)))
              else next == s.(pending := s.pending[..k] + s.pending[k + 1..])
            else
              s.flight.Some? || guarded || (forall i :: !MaySpeak(s, i, now, otherWindow)) ==> next == s
  {
    hide IsAllowed;
    var first := FirstReady(s, 0, now, otherWindow);
    assert forall i :: 0 <= i < |s.pending| ==>
        (MaySpeak(s, i, now, otherWindow) <==> IsReady(s, s.pending[i], now, otherWindow));
  }

  // ---------- the pending events ----------

  function OtherPending(pending: seq<Item>, kind: Kind): seq<Item> {
    if pending == [] then []
    else (if pending[0].kind == kind then [] else [pending[0]]) + OtherPending(pending[1..], kind)
  }

  lemma {:induction false} NoneOfKind(pending: seq<Item>, kind: Kind)
    requires forall i :: 0 <= i < |pending| ==> pending[i].kind != kind
    ensures OtherPending(pending, kind) == pending
  {
    if pending != [] {
      NoneOfKind(pending[1..], kind);
    }
  }

  lemma {:induction false} OneOfKind(pending: seq<Item>, k: nat, kind: Kind)
    requires PendingDistinct(pending) && k < |pending| && pending[k].kind == kind
    ensures OtherPending(pending, kind) == pending[..k] + pending[k + 1..]
  {
    if k == 0 {
      NoneOfKind(pending[1..], kind);
      assert pending[..0] + pending[1..] == pending[1..];
    } else {
      OneOfKind(pending[1..], k - 1, kind);
      assert [pending[0]] + (pending[1..][..k - 1] + pending[1..][k..]) == pending[..k] + pending[k + 1..];
    }
  }

  /** After a request the event is pending once, with the newest payload; the others are as they were. */
  lemma RequestExactly(s: State, kind: Kind, payload: string)
    requires PendingDistinct(s.pending)
    ensures var next := Requested(s, Some(kind), payload);
            && Item(kind, payload) in next.pending && PendingDistinct(next.pending)
            && OtherPending(next.pending, kind) == OtherPending(s.pending, kind)
            && next == s.(pending := next.pending)
  {
    hide PendingIndex;
    var k, next := PendingIndex(s.pending, kind), Requested(s, Some(kind), payload).pending;
    if k < |s.pending| {
      assert next[k] == Item(kind, payload);
      OneOfKind(s.pending, k, kind);
      OneOfKind(next, k, kind);
      assert next[..k] == s.pending[..k] && next[k + 1..] == s.pending[k + 1..];
    } else {
      assert next[|s.pending|] == Item(kind, payload);
      NoneOfKind(s.pending, kind);
      OneOfKind(next, |s.pending|, kind);
      assert next[..|s.pending|] + next[|s.pending| + 1..] == s.pending;
    }
  }

  /** A delivered event leaves the pending ones, the others stay; an event that was not spoken stays too. */
  lemma DeliveryExactly(s: State, spoken: bool)
    requires s.flight.Some? && PendingDistinct(s.pending) && FlightInPlace(s)
    ensures var f, next := s.flight.value, FlightEnded(s, spoken);
            && next.flight.None? && next.streak == s.streak
            && (!spoken ==> next == s.(flight := None))
            && (spoken ==>
                  && next.pending == OtherPending(s.pending, f.kind)
                  && next.log == s.log + [Delivery(f.kind, f.at, f.streak)]
                  && next.reaction == Some(f.at))
  {
    if spoken {
      OneOfKind(s.pending, s.flight.value.index, s.flight.value.kind);
    }
  }

  // ---------- the ignored streak ----------

  /** This event judges the reaction to the last speech. */
  predicate Judges(s: State, e: Event) {
    e.UpdateStreak? && s.reaction.Some? && e.at - s.reaction.value >= 120 && e.ignored.Some?
  }

  predicate Ignores(s: State, e: Event) {
    Judges(s, e) && e.ignored == Some(true)
  }

  predicate Heeds(s: State, e: Event) {
    Judges(s, e) && e.ignored == Some(false)
  }

  /** How many speeches were found ignored by the steps from `m` on. */
  function IgnoredFrom(states: seq<State>, events: seq<Event>, m: nat, j: nat): nat
    requires m <= j <= |events| < |states|
  {
    if j == m then 0 else IgnoredFrom(states, events, m, j - 1) + if Ignores(states[j - 1], events[j - 1]) then 1 else 0
  }

  lemma StreakStep(s: State, e: Event)
    requires Enabled(s, e)
    ensures Next(s, e).streak == if Ignores(s, e) then s.streak + 1 else if Heeds(s, e) then 0 else s.streak
    ensures Judges(s, e) ==> Next(s, e).reaction.None?
  {
    hide IsReady, PendingIndex, FirstReady, Popped;
  }

  /** The streak counts the speeches ignored since the last one that was heeded, restarts included. */
  lemma {:induction false} StreakCountsIgnored(states: seq<State>, events: seq<Event>, j: nat) returns (m: nat)
    requires IsRun(states, events) && j <= |events|
    ensures m <= j && states[j].streak == IgnoredFrom(states, events, m, j)
    ensures m > 0 ==> Heeds(states[m - 1], events[m - 1])
    ensures forall k :: m <= k < j ==> !Heeds(states[k], events[k])
  {
    hide Next, Enabled, Ignores, Heeds;
    if j == 0 {
      m := 0;
    } else {
      StreakStep(states[j - 1], events[j - 1]);
      NotBoth(states[j - 1], events[j - 1]);
      if Heeds(states[j - 1], events[j - 1]) {
        m := j;
      } else {
        m := StreakCountsIgnored(states, events, j - 1);
      }
    }
  }

  lemma NotBoth(s: State, e: Event)
    ensures !(Ignores(s, e) && Heeds(s, e))
  {
  }

  /** Each speech is judged once at most: a judgement closes it. */
  lemma JudgedOnce(s: State, e: Event, later: Event)
    requires Enabled(s, e) && Judges(s, e)
    ensures !Judges(Next(s, e), later)
  {
    StreakStep(s, e);
  }
}
