/** `speech_scheduler`: event speeches held back by cooldowns and a daily limit. */
module SpeechScheduling {
  import opened Options

  datatype Kind = Return | LongUse | LateNight | AgentDone | WeeklyReport | PraiseStreak | MaintenanceResult

  const MINUTE: int := 60
  const HOUR: int := 3600
  const DAY: int := 86400
  const MAX_SPEECHES_PER_DAY: int := 3
  const IGNORE_AFTER_SECONDS: int := 120

  function Cooldown(kind: Kind): (seconds: int)
    ensures seconds > 0
  {
    match kind
    case Return => 30 * MINUTE
    case LongUse => DAY
    case LateNight => DAY
    case AgentDone => 15 * MINUTE
    case WeeklyReport => 6 * DAY
    case PraiseStreak => DAY
    case MaintenanceResult => 20 * HOUR
  }

  predicate OnceDaily(kind: Kind) {
    kind in {LongUse, LateNight, PraiseStreak}
  }

  /** `2 ** min(streak, 3)` */
  function Backoff(streak: nat): int {
    if streak == 0 then 1 else if streak == 1 then 2 else if streak == 2 then 4 else 8
  }

  function DailyLimit(streak: nat): (limit: int)
    ensures 1 <= limit <= MAX_SPEECHES_PER_DAY
  {
    var n := MAX_SPEECHES_PER_DAY - (if streak <= 2 then streak else 2);
    if n >= 1 then n else 1
  }

  function DateOf(t: int): int {
    t / DAY
  }

  datatype Item = Item(kind: Kind, payload: string)

  /** A speech that was selected and is being spoken outside the lock. */
  datatype Flight = Flight(index: nat, kind: Kind, at: int, streak: nat)

  /** A delivered speech, with the ignored streak at the time it was selected. */
  datatype Delivery = Delivery(kind: Kind, at: int, streak: nat)

  /** `log` is the history of deliveries; everything else is a field of the scheduler. */
  datatype State = State(
    pending: seq<Item>, flight: Option<Flight>, last: map<Kind, int>, date: Option<int>, count: nat,
    streak: nat, reaction: Option<int>, log: seq<Delivery>)

  const INITIAL: State := State([], None, map[], None, 0, 0, None, [])

  function PendingIndex(pending: seq<Item>, kind: Kind): (k: nat)
    ensures k <= |pending| && (k < |pending| ==> pending[k].kind == kind)
    ensures forall i :: 0 <= i < k ==> pending[i].kind != kind
  {
    if pending == [] || pending[0].kind == kind then 0 else 1 + PendingIndex(pending[1..], kind)
  }

  /** `request`; `None` stands for an event without phrases. */
  function Requested(s: State, kind: Option<Kind>, payload: string): State {
    if kind.None? then s
    else
      var k := PendingIndex(s.pending, kind.value);
      var item := Item(kind.value, payload);
      s.(pending := if k < |s.pending| then s.pending[k := item] else s.pending + [item])
  }

  /** `_is_event_allowed` */
  predicate IsAllowed(s: State, kind: Kind, now: int) {
    && (kind in s.last ==>
          && !(OnceDaily(kind) && DateOf(s.last[kind]) == DateOf(now))
          && now - s.last[kind] >= Cooldown(kind) * Backoff(s.streak))
    && (s.date == Some(DateOf(now)) ==> s.count < DailyLimit(s.streak))
  }

  predicate IsReady(s: State, item: Item, now: int, otherWindow: bool) {
    (item.kind == AgentDone ==> otherWindow) && IsAllowed(s, item.kind, now)
  }

  /** The first pending item that may be spoken, from index `i` on. */
  function FirstReady(s: State, i: nat, now: int, otherWindow: bool): (k: nat)
    requires i <= |s.pending|
    ensures i <= k <= |s.pending| && (k < |s.pending| ==> IsReady(s, s.pending[k], now, otherWindow))
    ensures forall j :: i <= j < k ==> !IsReady(s, s.pending[j], now, otherWindow)
    decreases |s.pending| - i
  {
    if i == |s.pending| || IsReady(s, s.pending[i], now, otherWindow) then i
    else FirstReady(s, i + 1, now, otherWindow)
  }

  function Popped(pending: seq<Item>, k: nat): seq<Item>
    requires k < |pending|
  {
    pending[..k] + pending[k + 1..]
  }

  /** The locked part of `_flush_one` before the speech; `rendered` tells that there is a text. */
  function FlightBegun(s: State, now: int, guarded: bool, otherWindow: bool, rendered: bool): State {
    if s.flight.Some? || s.pending == [] || guarded then s
    else
      var k := FirstReady(s, 0, now, otherWindow);
      if k == |s.pending| then s
      else if !rendered then s.(pending := Popped(s.pending, k))
      else s.(flight := Some(Flight(k, s.pending[k].kind, now, s.streak)))
  }

  /** The locked part after the speech. */
  function FlightEnded(s: State, spoken: bool): State
    requires s.flight.Some?
  {
    var f := s.flight.value;
    if !spoken then s.(flight := None)
    else
      var pending :=
        if f.index < |s.pending| && s.pending[f.index].kind == f.kind then Popped(s.pending, f.index) else s.pending;
      s.(pending := pending, flight := None, last := s.last[f.kind := f.at],
         date := Some(DateOf(f.at)), count := if s.date == Some(DateOf(f.at)) then s.count + 1 else 1,
         reaction := Some(f.at), log := s.log + [Delivery(f.kind, f.at, f.streak)])
  }

  /** `_update_ignored_streak`; `ignored` is `None` when the metrics cannot be read. */
  function StreakUpdated(s: State, now: int, ignored: Option<bool>): State {
    if s.reaction.None? || now - s.reaction.value < IGNORE_AFTER_SECONDS || ignored.None? then s
    else s.(streak := if ignored.value then s.streak + 1 else 0, reaction := None)
  }

  /** A new scheduler on the saved state. */
  function Restarted(s: State): State {
    s.(pending := [], flight := None, reaction := None)
  }

  class EventSpeechScheduler {
    var pending: seq<Item>
    var flight: Option<Flight>
    var lastDelivered: map<Kind, int>
    var dailyCountDate: Option<int>
    var dailyCount: nat
    var ignoredStreak: nat
    var lastReaction: Option<int>
    ghost var log: seq<Delivery>

    ghost function Now(): State
      reads this
    {
      State(pending, flight, lastDelivered, dailyCountDate, dailyCount, ignoredStreak, lastReaction, log)
    }

    constructor ()
      ensures Now() == INITIAL
    {
      pending, flight, lastDelivered, dailyCountDate := [], None, map[], None;
      dailyCount, ignoredStreak, lastReaction, log := 0, 0, None, [];
    }

    method Request(kind: Option<Kind>, payload: string) returns (accepted: bool)
      modifies this`pending
      ensures Now() == Requested(old(Now()), kind, payload) && accepted == kind.Some?
    {
      if kind.None? {
        return false;
      }
      var item := Item(kind.value, payload);
      for index := 0 to |pending|
        invariant pending == old(pending)
        invariant index <= PendingIndex(pending, kind.value)
      {
        if pending[index].kind == kind.value {
          pending := pending[index := item];
          return true;
        }
      }
      pending := pending + [item];
      accepted := true;
    }

    method IsEventAllowed(kind: Kind, now: int) returns (allowed: bool)
      ensures allowed == IsAllowed(Now(), kind, now)
    {
      if kind in lastDelivered {
        var last := lastDelivered[kind];
        if OnceDaily(kind) && DateOf(last) == DateOf(now) {
          return false;
        }
        if now - last < Cooldown(kind) * Backoff(ignoredStreak) {
          return false;
        }
      }
      if dailyCountDate == Some(DateOf(now)) && dailyCount >= DailyLimit(ignoredStreak) {
        return false;
      }
      allowed := true;
    }

    method BeginFlush(now: int, guarded: bool, otherWindow: bool, rendered: bool) returns (begun: bool)
      modifies this`pending, this`flight
      ensures Now() == FlightBegun(old(Now()), now, guarded, otherWindow, rendered)
      ensures begun == (old(flight).None? && flight.Some?)
    {
      if flight.Some? || pending == [] || guarded {
        return false;
      }
      var selected := |pending|;
      for index := 0 to |pending|
        invariant selected == |pending| && Now() == old(Now())
        invariant FirstReady(Now(), 0, now, otherWindow) == FirstReady(Now(), index, now, otherWindow)
      {
        if pending[index].kind == AgentDone && !otherWindow {
          continue;
        }
        var allowed := IsEventAllowed(pending[index].kind, now);
        if allowed {
          selected := index;
          assert FirstReady(Now(), index, now, otherWindow) == index;
          break;
        }
      }
      assert FirstReady(Now(), |pending|, now, otherWindow) == |pending|;
      if selected == |pending| {
        return false;
      }
      if !rendered {
        pending := Popped(pending, selected);
        return false;
      }
      flight := Some(Flight(selected, pending[selected].kind, now, ignoredStreak));
      begun := true;
    }

    method EndFlush(spoken: bool)
      requires flight.Some?
      modifies this
      ensures Now() == FlightEnded(old(Now()), spoken)
    {
      var f := flight.value;
      flight := None;
      if !spoken {
        return;
      }
      if f.index < |pending| && pending[f.index].kind == f.kind {
        pending := Popped(pending, f.index);
      }
      lastDelivered := lastDelivered[f.kind := f.at];
      if dailyCountDate != Some(DateOf(f.at)) {
        dailyCountDate := Some(DateOf(f.at));
        dailyCount := 0;
      }
      dailyCount := dailyCount + 1;
      lastReaction := Some(f.at);
      log := log + [Delivery(f.kind, f.at, f.streak)];
    }

    method UpdateIgnoredStreak(now: int, ignored: Option<bool>)
      modifies this`ignoredStreak, this`lastReaction
      ensures Now() == StreakUpdated(old(Now()), now, ignored)
    {
      if lastReaction.None? || now - lastReaction.value < IGNORE_AFTER_SECONDS || ignored.None? {
        return;
      }
      ignoredStreak := if ignored.value then ignoredStreak + 1 else 0;
      lastReaction := None;
    }
  }
}

/** Every run of the speech scheduler keeps the limits. */
module SpeechRuns {
  import opened Options
  import opened SpeechScheduling

  datatype Event =
    | Request(kind: Option<Kind>, payload: string)
    | BeginFlush(now: int, guarded: bool, otherWindow: bool, rendered: bool)
    | EndFlush(spoken: bool)
    | UpdateStreak(at: int, ignored: Option<bool>)
    | Restart

  predicate Enabled(s: State, e: Event) {
    match e
    case EndFlush(_) => s.flight.Some?
    case Restart => s.flight.None?
    case _ => true
  }

  function Next(s: State, e: Event): State
    requires Enabled(s, e)
  {
    match e
    case Request(kind, payload) => Requested(s, kind, payload)
    case BeginFlush(now, guarded, otherWindow, rendered) => FlightBegun(s, now, guarded, otherWindow, rendered)
    case EndFlush(spoken) => FlightEnded(s, spoken)
    case UpdateStreak(at, ignored) => StreakUpdated(s, at, ignored)
    case Restart => Restarted(s)
  }

  // ---------- pending events ----------

  /** Each event waits once at most. */
  predicate PendingDistinct(pending: seq<Item>) {
    forall i, j :: 0 <= i < j < |pending| ==> pending[i].kind != pending[j].kind
  }

  /** The speech in flight is still where it was found. */
  predicate FlightInPlace(s: State) {
    s.flight.Some? ==> s.flight.value.index < |s.pending| && s.pending[s.flight.value.index].kind == s.flight.value.kind
  }

  lemma PoppedStaysDistinct(pending: seq<Item>, k: nat)
    requires k < |pending| && PendingDistinct(pending)
    ensures PendingDistinct(Popped(pending, k))
  {
    var popped := Popped(pending, k);
    forall i | 0 <= i < |popped|
      ensures popped[i] == pending[if i < k then i else i + 1]
    {
    }
  }

  lemma RequestKeepsPending(s: State, kind: Option<Kind>, payload: string)
    requires PendingDistinct(s.pending) && FlightInPlace(s)
    ensures PendingDistinct(Requested(s, kind, payload).pending) && FlightInPlace(Requested(s, kind, payload))
  {
    hide PendingIndex;
  }

  lemma BeginKeepsPending(s: State, now: int, guarded: bool, otherWindow: bool, rendered: bool)
    requires PendingDistinct(s.pending) && FlightInPlace(s)
    ensures var next := FlightBegun(s, now, guarded, otherWindow, rendered);
            PendingDistinct(next.pending) && FlightInPlace(next)
  {
    hide PendingDistinct, IsReady, FirstReady, Popped;
    var k := FirstReady(s, 0, now, otherWindow);
    if k < |s.pending| {
      PoppedStaysDistinct(s.pending, k);
    }
  }

  lemma EndKeepsPending(s: State, spoken: bool)
    requires s.flight.Some? && PendingDistinct(s.pending)
    ensures PendingDistinct(FlightEnded(s, spoken).pending) && FlightEnded(s, spoken).flight.None?
  {
    hide PendingDistinct, Popped;
    if s.flight.value.index < |s.pending| {
      PoppedStaysDistinct(s.pending, s.flight.value.index);
    }
  }

  lemma StepKeepsPending(s: State, e: Event)
    requires Enabled(s, e) && PendingDistinct(s.pending) && FlightInPlace(s)
    ensures PendingDistinct(Next(s, e).pending) && FlightInPlace(Next(s, e))
  {
    hide Requested, FlightBegun, FlightEnded;
    match e
    case Request(kind, payload) => RequestKeepsPending(s, kind, payload);
    case BeginFlush(now, guarded, otherWindow, rendered) =>
      BeginKeepsPending(s, now, guarded, otherWindow, rendered);
    case EndFlush(spoken) => EndKeepsPending(s, spoken);
    case _ =>
  }

  // ---------- the log of deliveries ----------

  /** How many speeches were delivered on a date. */
  function CountOn(log: seq<Delivery>, date: int): (n: nat)
    ensures n <= |log|
  {
    if log == [] then 0
    else CountOn(log[..|log| - 1], date) + if DateOf(log[|log| - 1].at) == date then 1 else 0
  }

  /** Two deliveries of one event, the second after the first: far enough apart. */
  predicate Spaced(first: Delivery, second: Delivery) {
    first.kind == second.kind ==>
      && second.at - first.at >= Cooldown(second.kind) * Backoff(second.streak)
      && (OnceDaily(second.kind) ==> DateOf(first.at) != DateOf(second.at))
  }

  /** Every delivery kept to the spacing and to the limit that held when it was selected. */
  ghost predicate Limited(log: seq<Delivery>) {
    && (forall i, j :: 0 <= i < j < |log| ==> Spaced(log[i], log[j]))
    && (forall i :: 0 <= i < |log| ==> CountOn(log[..i], DateOf(log[i].at)) < DailyLimit(log[i].streak))
  }

  /** Last deliveries, date and count as the log has them. */
  ghost predicate Records(log: seq<Delivery>, last: map<Kind, int>, date: Option<int>, count: nat) {
    && (forall d :: d in log ==> d.kind in last && d.at <= last[d.kind])
    && (forall d :: d in log ==> date.Some? && DateOf(d.at) <= date.value)
    && (date.Some? ==> CountOn(log, date.value) == count)
  }

  /** The fields agree with the log. */
  ghost predicate Accurate(s: State) {
    Records(s.log, s.last, s.date, s.count)
  }

  /** The delivery in flight may be appended to the log. */
  ghost predicate FlightFits(s: State) {
    s.flight.Some? ==>
      var f := s.flight.value;
      var d := Delivery(f.kind, f.at, f.streak);
      && (forall i :: 0 <= i < |s.log| ==> Spaced(s.log[i], d))
      && CountOn(s.log, DateOf(f.at)) < DailyLimit(f.streak)
      && (s.date.Some? ==> s.date.value <= DateOf(f.at))
      && (f.kind in s.last ==> s.last[f.kind] <= f.at)
  }

  ghost predicate Inv(s: State) {
    PendingDistinct(s.pending) && FlightInPlace(s) && Limited(s.log) && Accurate(s) && FlightFits(s)
  }

  lemma {:induction false} NoneOnLaterDates(log: seq<Delivery>, date: int)
    requires forall d :: d in log ==> DateOf(d.at) < date
    ensures CountOn(log, date) == 0
  {
    if log != [] {
      assert log[|log| - 1] in log;
      NoneOnLaterDates(log[..|log| - 1], date);
    }
  }

  /** Whatever is selected fits the log, when the clock has not gone back behind the last delivery. */
  lemma SelectedFits(s: State, kind: Kind, now: int)
    requires Accurate(s) && IsAllowed(s, kind, now)
    requires s.date.Some? ==> s.date.value <= DateOf(now)
    ensures forall i :: 0 <= i < |s.log| ==> Spaced(s.log[i], Delivery(kind, now, s.streak))
    ensures CountOn(s.log, DateOf(now)) < DailyLimit(s.streak)
    ensures kind in s.last ==> s.last[kind] <= now
  {
    if s.date != Some(DateOf(now)) {
      NoneOnLaterDates(s.log, DateOf(now));
    }
  }

  /** The clock of this flush has not gone back behind the date of the last delivery. */
  predicate ClockFits(s: State, e: Event) {
    e.BeginFlush? && s.date.Some? ==> s.date.value <= DateOf(e.now)
  }

  lemma BeginKeepsFlight(s: State, e: Event)
    requires e.BeginFlush? && Accurate(s) && FlightFits(s) && ClockFits(s, e)
    ensures FlightFits(Next(s, e))
  {
    var k := FirstReady(s, 0, e.now, e.otherWindow);
    if s.flight.None? && k < |s.pending| {
      SelectedFits(s, s.pending[k].kind, e.now);
    }
    hide IsReady, IsAllowed, Spaced, Accurate, CountOn, DailyLimit;
  }

  lemma {:induction false} CountAppends(log: seq<Delivery>, d: Delivery, date: int)
    ensures CountOn(log + [d], date) == CountOn(log, date) + if DateOf(d.at) == date then 1 else 0
  {
    assert (log + [d])[..|log|] == log;
  }

  lemma AppendIsLimited(log: seq<Delivery>, d: Delivery)
    requires Limited(log) && CountOn(log, DateOf(d.at)) < DailyLimit(d.streak)
    requires forall i :: 0 <= i < |log| ==> Spaced(log[i], d)
    ensures Limited(log + [d])
  {
    hide CountOn, Spaced, DailyLimit;
    var longer := log + [d];
    forall i | 0 <= i < |longer|
      ensures CountOn(longer[..i], DateOf(longer[i].at)) < DailyLimit(longer[i].streak)
    {
      assert longer[..i] == log[..i];
      assert i == |log| ==> log[..i] == log;
    }
  }

  /** One more delivery, no earlier than the date on record and the last one of its event. */
  lemma AppendIsRecorded(log: seq<Delivery>, last: map<Kind, int>, date: Option<int>, count: nat, d: Delivery)
    requires Records(log, last, date, count)
    requires date.Some? ==> date.value <= DateOf(d.at)
    requires d.kind in last ==> last[d.kind] <= d.at
    ensures Records(log + [d], last[d.kind := d.at], Some(DateOf(d.at)),
                    if date == Some(DateOf(d.at)) then count + 1 else 1)
  {
    CountAppends(log, d, DateOf(d.at));
    if date != Some(DateOf(d.at)) {
      NoneOnLaterDates(log, DateOf(d.at));
    }
    hide CountOn, DateOf;
    forall x | x in log + [d]
      ensures x.kind in last[d.kind := d.at] && x.at <= last[d.kind := d.at][x.kind]
      ensures DateOf(x.at) <= DateOf(d.at)
    {
      assert x == d || x in log;
    }
  }

  lemma EndKeepsAccurate(s: State)
    requires s.flight.Some? && Accurate(s) && FlightFits(s)
    ensures Accurate(FlightEnded(s, true))
  {
    hide CountOn, Spaced, DailyLimit, DateOf, Records;
    var f := s.flight.value;
    AppendIsRecorded(s.log, s.last, s.date, s.count, Delivery(f.kind, f.at, f.streak));
  }

  /** Only deliveries touch the records. */
  lemma SameRecords(s: State, t: State)
    requires Accurate(s) && s.log == t.log && s.last == t.last && s.date == t.date && s.count == t.count
    ensures Accurate(t)
  {
    hide Records;
  }

  lemma RecordsUntouched(s: State, e: Event)
    requires Enabled(s, e)
    ensures !(e.EndFlush? && e.spoken) ==>
              var t := Next(s, e); s.log == t.log && s.last == t.last && s.date == t.date && s.count == t.count
    ensures !e.BeginFlush? ==> Next(s, e).flight == s.flight || Next(s, e).flight == None
  {
    hide IsReady, IsAllowed;
  }

  lemma StepKeepsRecords(s: State, e: Event)
    requires Enabled(s, e) && Limited(s.log) && Accurate(s) && FlightFits(s)
    ensures Limited(Next(s, e).log) && Accurate(Next(s, e))
  {
    RecordsUntouched(s, e);
    if e.EndFlush? && e.spoken {
      var f := s.flight.value;
      AppendIsLimited(s.log, Delivery(f.kind, f.at, f.streak));
      EndKeepsAccurate(s);
    } else {
      SameRecords(s, Next(s, e));
    }
    hide Limited, Accurate, FlightFits;
  }

  lemma StepKeepsFlight(s: State, e: Event)
    requires Enabled(s, e) && Accurate(s) && FlightFits(s) && ClockFits(s, e)
    ensures FlightFits(Next(s, e))
  {
    if e.BeginFlush? {
      BeginKeepsFlight(s, e);
    } else {
      RecordsUntouched(s, e);
      hide Enabled, Accurate, Spaced, CountOn, DailyLimit, IsReady, IsAllowed;
    }
  }

  lemma StepKeepsInv(s: State, e: Event)
    requires Enabled(s, e) && Inv(s) && ClockFits(s, e)
    ensures Inv(Next(s, e))
  {
    hide Enabled, Next, PendingDistinct, FlightInPlace, Limited, Accurate, FlightFits, ClockFits;
    StepKeepsPending(s, e);
    StepKeepsRecords(s, e);
    StepKeepsFlight(s, e);
  }

  // ---------- whole runs ----------

  ghost predicate IsRun(states: seq<State>, events: seq<Event>) {
    && |states| == |events| + 1 && states[0] == INITIAL
    && forall i :: 0 <= i < |events| ==> Enabled(states[i], events[i]) && states[i + 1] == Next(states[i], events[i])
  }

  /** The flushes see a clock that never goes back. */
  ghost predicate ClockAdvances(events: seq<Event>) {
    forall i, j :: 0 <= i < j < |events| && events[i].BeginFlush? && events[j].BeginFlush? ==>
      events[i].now <= events[j].now
  }

  /** The date in the state is that of an earlier flush. */
  ghost predicate DateFromFlush(s: State, past: seq<Event>) {
    && (s.date.Some? ==> exists e :: e in past && e.BeginFlush? && DateOf(e.now) == s.date.value)
    && (s.flight.Some? ==> exists e :: e in past && e.BeginFlush? && e.now == s.flight.value.at)
  }

  lemma StepKeepsDate(s: State, e: Event, past: seq<Event>)
    requires Enabled(s, e) && DateFromFlush(s, past)
    ensures DateFromFlush(Next(s, e), past + [e])
  {
    hide IsReady, IsAllowed;
    assert forall x :: x in past ==> x in past + [e];
    assert e in past + [e];
  }

  lemma {:induction false} RunKeepsInv(states: seq<State>, events: seq<Event>, i: nat)
    requires IsRun(states, events) && ClockAdvances(events) && i <= |events|
    ensures Inv(states[i]) && DateFromFlush(states[i], events[..i])
  {
    if i > 0 {
      var s, e, past := states[i - 1], events[i - 1], events[..i - 1];
      RunKeepsInv(states, events, i - 1);
      assert past + [e] == events[..i];
      StepKeepsDate(s, e, past);
      assert ClockFits(s, e) by {
        if e.BeginFlush? && s.date.Some? {
          var x :| x in past && x.BeginFlush? && DateOf(x.now) == s.date.value;
          var k :| 0 <= k < i - 1 && past[k] == x;
          assert events[k].now <= e.now;
          LaterDate(x.now, e.now);
        }
      }
      hide Next, Inv;
      StepKeepsInv(s, e);
    }
  }

  lemma LaterDate(a: int, b: int)
    requires a <= b
    ensures DateOf(a) <= DateOf(b)
  {
  }

  lemma {:induction false} LimitedPerDay(log: seq<Delivery>, date: int)
    requires Limited(log)
    ensures CountOn(log, date) <= MAX_SPEECHES_PER_DAY
  {
    if log != [] {
      var front, last := log[..|log| - 1], log[|log| - 1];
      assert forall i :: 0 <= i < |front| ==> front[..i] == log[..i];
      assert CountOn(front, DateOf(last.at)) < DailyLimit(last.streak);
      LimitedPerDay(front, date);
    }
  }

  /**
   With a clock that does not go back: at most three speeches on any date, two speeches of one event at
   least its cooldown apart, doubled for each ignored speech up to three, and no event pending twice.
   */
  lemma SpeechIsLimited(states: seq<State>, events: seq<Event>, i: nat)
    requires IsRun(states, events) && ClockAdvances(events) && i <= |events|
    ensures var s := states[i];
            && (forall date :: CountOn(s.log, date) <= MAX_SPEECHES_PER_DAY)
            && (forall j, k :: 0 <= j < k < |s.log| && s.log[j].kind == s.log[k].kind ==>
                  s.log[k].at - s.log[j].at >= Cooldown(s.log[k].kind) * Backoff(s.log[k].streak))
            && PendingDistinct(s.pending) && FlightInPlace(s)
  {
    RunKeepsInv(states, events, i);
    hide IsRun, Cooldown, Backoff;
    forall date
      ensures CountOn(states[i].log, date) <= MAX_SPEECHES_PER_DAY
    {
      LimitedPerDay(states[i].log, date);
    }
  }
}
