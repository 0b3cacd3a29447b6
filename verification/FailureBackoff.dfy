/** The recurring watch of a monitor or agent run: failure streak, exponential back-off, automatic pause,
    quota skips, resumes and interval changes. Times are in hours. */
module FailureBackoff {
  const MAX_CONSECUTIVE_FAILURES: nat := 5
  const JITTER_FACTOR: real := 0.10
  const BACKOFF_CAP: real := 24.0

  datatype Kind = Monitor | AgentRun

  /** What happened to the streak. */
  datatype Mark = Succeeded | Failed | Resumed

  datatype Option<T> = None | Some(value: T)

  /** The record; `scheduledAt` is when `next` was last written, `outcomeAt` when a check last had an outcome or
      the watch was resumed or created. */
  datatype Record = Record(kind: Kind, interval: real, active: bool, paused: bool, failures: nat,
                           now: real, next: real, scheduledAt: real, outcomeAt: real, log: seq<Mark>)

  /** `jitter` is what the random number made of the range from -1 to 1. An error after a stored success is a
      `Success` followed by a `Failure`. */
  datatype Event =
    | Wait(hours: real)
    | Success(jitter: real)
    | Failure
    | QuotaSkip(jitter: real)
    | Recheck
    | Resume(newInterval: Option<real>)
    | Deactivate(newInterval: Option<real>)
    | ChangeInterval(interval: real)

  function NewRecord(kind: Kind, interval: real, next: real): Record {
    Record(kind, interval, true, false, 0, 0.0, next, 0.0, 0.0, [])
  }

  predicate Enabled(r: Record, e: Event) {
    match e
    case Wait(h) => h >= 0.0
    case Success(j) => r.active && -1.0 <= j <= 1.0
    case Failure => r.active
    case QuotaSkip(j) => r.active && -1.0 <= j <= 1.0
    case Recheck => r.active && r.kind == Monitor
    case Resume(i) => i.Some? ==> i.value > 0.0
    case Deactivate(i) => i.Some? ==> i.value > 0.0
    case ChangeInterval(i) => i > 0.0
  }

  function Pow2(n: nat): (p: nat)
    ensures p >= 1
  {
    if n == 0 then 1 else 2 * Pow2(n - 1)
  }

  /** `calcNextCheckAt`. */
  function Jittered(interval: real, jitter: real): real {
    interval + jitter * (interval * JITTER_FACTOR)
  }

  function Backoff(interval: real, failures: nat): real {
    var hours := interval * (Pow2(failures) as real);
    if hours <= BACKOFF_CAP then hours else BACKOFF_CAP
  }

  function Schedule(r: Record, hours: real): Record {
    r.(next := r.now + hours, scheduledAt := r.now)
  }

  function AfterFailure(r: Record): Record {
    var f := r.failures + 1;
    var t := Schedule(r, Backoff(r.interval, f)).(failures := f, outcomeAt := r.now, log := r.log + [Failed]);
    if f >= MAX_CONSECUTIVE_FAILURES then t.(paused := true, active := false) else t
  }

  function OrElse(i: Option<real>, otherwise: real): real {
    if i.Some? then i.value else otherwise
  }

  function Step(r: Record, e: Event): Record {
    match e
    case Wait(h) => r.(now := r.now + h)
    case Success(j) =>
      Schedule(r, Jittered(r.interval, j)).(failures := 0, outcomeAt := r.now, log := r.log + [Succeeded])
    case Failure => AfterFailure(r)
    case QuotaSkip(j) => Schedule(r, Jittered(r.interval, j))
    case Recheck => Schedule(r, 0.0)
    case Resume(i) =>
      Schedule(r, OrElse(i, r.interval)).(interval := OrElse(i, r.interval), active := true, paused := false,
        failures := 0, outcomeAt := r.now, log := r.log + [Resumed])
    case Deactivate(i) =>
      r.(interval := OrElse(i, r.interval), active := false, paused := r.paused || r.kind == AgentRun)
    case ChangeInterval(i) =>
      if r.kind == Monitor || r.active then Schedule(r, i).(interval := i) else r.(interval := i)
  }

  /** `r` is reached from a new record by `events`. */
  ghost predicate Reaches(start: Record, events: seq<Event>, r: Record) {
    if events == [] then r == start
    else
      var n := |events| - 1;
      exists before :: Reaches(start, events[..n], before) && Enabled(before, events[n]) && r == Step(before, events[n])
  }

  /** Failures since the last success or resume. */
  function Streak(log: seq<Mark>): nat {
    if log == [] || log[|log| - 1] != Failed then 0 else 1 + Streak(log[..|log| - 1])
  }

  function Max(a: real, b: real): real {
    if a >= b then a else b
  }

  /** An active record's next check lies no earlier than its last scheduling, and not too far ahead of it. */
  predicate WellScheduled(r: Record) {
    r.active ==> r.scheduledAt <= r.next <= r.scheduledAt + Max(1.1 * r.interval, BACKOFF_CAP)
  }

  predicate Inv(r: Record) {
    && r.failures == Streak(r.log) <= MAX_CONSECUTIVE_FAILURES
    && (r.active ==> r.failures < MAX_CONSECUTIVE_FAILURES)
    && (r.failures == MAX_CONSECUTIVE_FAILURES ==> r.paused && !r.active)
    && (r.kind == Monitor && r.paused ==> r.failures == MAX_CONSECUTIVE_FAILURES)
    && (r.kind == AgentRun ==> (r.paused <==> !r.active))
    && r.outcomeAt <= r.scheduledAt <= r.now && r.interval > 0.0
    && WellScheduled(r)
  }

  lemma StreakSnoc(log: seq<Mark>, m: Mark)
    ensures Streak(log + [m]) == if m == Failed then Streak(log) + 1 else 0
  {
    assert (log + [m])[..|log|] == log;
  }

  lemma NonNegativeProduct(a: real, b: real)
    requires a >= 0.0 && b >= 0.0
    ensures a * b >= 0.0
  {
  }

  lemma JitteredRange(interval: real, jitter: real)
    requires interval > 0.0 && -1.0 <= jitter <= 1.0
    ensures 0.9 * interval <= Jittered(interval, jitter) <= 1.1 * interval
  {
    var width := interval * JITTER_FACTOR;
    var offset := jitter * width;
    NonNegativeProduct(1.0 - jitter, width);
    NonNegativeProduct(1.0 + jitter, width);
    assert (1.0 - jitter) * width == width - offset;
    assert (1.0 + jitter) * width == width + offset;
    assert Jittered(interval, jitter) == interval + offset;
  }

  /** The back-off doubles with every failure up to its cap. */
  lemma BackoffRange(interval: real, failures: nat)
    requires interval > 0.0
    ensures 0.0 < Backoff(interval, failures) <= 24.0
    ensures Backoff(interval, 0) == if interval <= 24.0 then interval else 24.0
    ensures Backoff(interval, failures) <= Backoff(interval, failures + 1) <= 2.0 * Backoff(interval, failures)
    ensures Backoff(interval, failures + 1) < 24.0 ==>
      Backoff(interval, failures + 1) == 2.0 * Backoff(interval, failures)
  {
    var p := Pow2(failures) as real;
    assert Pow2(failures + 1) as real == 2.0 * p;
    assert interval * p > 0.0;
    assert interval * (2.0 * p) == 2.0 * (interval * p);
  }

  lemma SuccessKeepsInv(r: Record, jitter: real)
    requires Inv(r) && Enabled(r, Success(jitter))
    ensures Inv(Step(r, Success(jitter)))
  {
    StreakSnoc(r.log, Succeeded);
    JitteredRange(r.interval, jitter);
  }

  lemma FailureKeepsInv(r: Record)
    requires Inv(r) && Enabled(r, Failure)
    ensures Inv(Step(r, Failure))
  {
    StreakSnoc(r.log, Failed);
    BackoffRange(r.interval, r.failures + 1);
  }

  lemma SkipKeepsInv(r: Record, jitter: real)
    requires Inv(r) && Enabled(r, QuotaSkip(jitter))
    ensures Inv(Step(r, QuotaSkip(jitter)))
  {
    JitteredRange(r.interval, jitter);
  }

  lemma ResumeKeepsInv(r: Record, newInterval: Option<real>)
    requires Inv(r) && Enabled(r, Resume(newInterval))
    ensures Inv(Step(r, Resume(newInterval)))
  {
    StreakSnoc(r.log, Resumed);
  }

  lemma OtherKeepsInv(r: Record, e: Event)
    requires Inv(r) && Enabled(r, e) && (e.Wait? || e.Recheck? || e.Deactivate? || e.ChangeInterval?)
    ensures Inv(Step(r, e))
  {
  }

  lemma StepKeepsInv(r: Record, e: Event)
    requires Inv(r) && Enabled(r, e)
    ensures Inv(Step(r, e))
  {
    match e
    case Success(j) => SuccessKeepsInv(r, j);
    case QuotaSkip(j) => SkipKeepsInv(r, j);
    case Failure => FailureKeepsInv(r);
    case Resume(i) => ResumeKeepsInv(r, i);
    case _ => OtherKeepsInv(r, e);
  }

  lemma {:induction false} Invariant(start: Record, events: seq<Event>, r: Record)
    requires Inv(start) && Reaches(start, events, r)
    ensures Inv(r) && r.kind == start.kind
    decreases |events|
  {
    if events == [] {
    } else {
      var n := |events| - 1;
      var before :| Reaches(start, events[..n], before) && Enabled(before, events[n]) && r == Step(before, events[n]);
      Invariant(start, events[..n], before);
      StepKeepsInv(before, events[n]);
    }
  }

  /** A record as its route creates it: active, first check within its interval. */
  predicate IsNew(r: Record) {
    r.interval > 0.0 && 0.0 < r.next <= Max(1.1 * r.interval, BACKOFF_CAP) && r == NewRecord(r.kind, r.interval, r.next)
  }

  /** Over any history, `consecutiveFailures` is the current failure streak; an active record has fewer than
      five, one with five is paused, and a monitor is paused only by reaching five. */
  lemma StreakAndPause(start: Record, events: seq<Event>, r: Record)
    requires IsNew(start) && Reaches(start, events, r)
    ensures r.failures == Streak(r.log) <= 5
    ensures r.active ==> r.failures < 5
    ensures r.failures == 5 ==> r.paused && !r.active
    ensures r.kind == Monitor ==> (r.paused <==> r.failures == 5)
  {
    Invariant(start, events, r);
  }

  /** A failure pauses exactly when it is the fifth in a row. */
  lemma PausesAtTheFifth(start: Record, events: seq<Event>, r: Record)
    requires IsNew(start) && Reaches(start, events, r) && Enabled(r, Failure)
    ensures Streak(Step(r, Failure).log) == Streak(r.log) + 1
    ensures !Step(r, Failure).active <==> Streak(r.log) + 1 == 5
    ensures Step(r, Failure).next - r.now == Backoff(r.interval, Streak(r.log) + 1)
  {
    Invariant(start, events, r);
    StreakSnoc(r.log, Failed);
  }

  /** An active record's next check lies between its last outcome, skip, resume or recheck and
      max(1.1 * interval, 24h) after it. */
  lemma NextCheckIsNear(start: Record, events: seq<Event>, r: Record)
    requires IsNew(start) && Reaches(start, events, r) && r.active
    ensures r.scheduledAt <= r.now && r.scheduledAt <= r.next <= r.scheduledAt + Max(1.1 * r.interval, 24.0)
  {
    Invariant(start, events, r);
  }

  /** An outcome of a check, or a resume. */
  predicate IsOutcome(e: Event) {
    e.Success? || e.Failure? || e.Resume?
  }

  predicate OnlyWaitsAndRechecks(events: seq<Event>) {
    forall e :: e in events ==> e.Wait? || e.Recheck?
  }

  /** Nothing but time and manual rechecks since: the schedule stands, or the check is due. */
  predicate StandsOrDue(before: Record, r: Record) {
    && r.active == before.active && r.interval == before.interval && before.now <= r.now
    && (r.next == before.next || r.next <= r.now)
  }

  lemma {:induction false} ScheduleStands(before: Record, later: seq<Event>, r: Record)
    requires Reaches(before, later, r) && OnlyWaitsAndRechecks(later)
    ensures StandsOrDue(before, r)
    decreases |later|
  {
    if later == [] {
    } else {
      var n := |later| - 1;
      assert later[n] in later;
      assert forall e :: e in later[..n] ==> e in later;
      var s :| Reaches(before, later[..n], s) && Enabled(s, later[n]) && r == Step(s, later[n]);
      ScheduleStands(before, later[..n], s);
    }
  }

  /** Measured from the last recorded outcome itself: an active record is next checked strictly after it, and
      until something else reschedules it, at most max(1.1 * interval, 24h) after it, or it is due already. */
  lemma NextCheckAfterOutcome(start: Record, events: seq<Event>, s: Record, e: Event, later: seq<Event>, r: Record)
    requires IsNew(start) && Reaches(start, events, s) && IsOutcome(e) && Enabled(s, e)
    requires Reaches(Step(s, e), later, r) && OnlyWaitsAndRechecks(later) && r.active
    ensures s.now < Step(s, e).next <= s.now + Max(1.1 * r.interval, 24.0)
    ensures r.next <= s.now + Max(1.1 * r.interval, 24.0) || r.next <= r.now
  {
    Invariant(start, events, s);
    StepKeepsInv(s, e);
    ScheduleStands(Step(s, e), later, r);
    match e
    case Success(j) => JitteredRange(s.interval, j);
    case Failure => BackoffRange(s.interval, s.failures + 1);
    case Resume(_) =>
  }

  // ---- The bound from the last outcome, exactly ----

  /** What `NextCheckAfterOutcome` says until something else reschedules. */
  predicate NearOutcome(r: Record) {
    r.next <= r.outcomeAt + Max(1.1 * r.interval, BACKOFF_CAP)
  }

  /** The event writes the schedule. */
  predicate Writes(r: Record, e: Event) {
    IsOutcome(e) || e.QuotaSkip? || e.Recheck? || (e.ChangeInterval? && (r.kind == Monitor || r.active))
  }

  /** Read off the record before the event: how long ago the last outcome may be for the bound to hold after. */
  predicate SoonEnough(r: Record, e: Event) {
    var since := r.now - r.outcomeAt;
    match e
    case QuotaSkip(j) => since <= Max(1.1 * r.interval, BACKOFF_CAP) - Jittered(r.interval, j)
    case Recheck => since <= Max(1.1 * r.interval, BACKOFF_CAP)
    case ChangeInterval(i) => since <= Max(0.1 * i, BACKOFF_CAP - i)
    case _ => true
  }

  lemma WriteIsNearExactly(r: Record, e: Event)
    requires Inv(r) && Enabled(r, e) && Writes(r, e)
    ensures NearOutcome(Step(r, e)) <==> SoonEnough(r, e)
  {
    match e
    case Success(j) => JitteredRange(r.interval, j);
    case Failure => BackoffRange(r.interval, r.failures + 1);
    case _ =>
  }

  predicate OnlyWaits(events: seq<Event>) {
    forall e :: e in events ==> e.Wait?
  }

  lemma {:induction false} WaitsChangeNothing(before: Record, later: seq<Event>, r: Record)
    requires Reaches(before, later, r) && OnlyWaits(later)
    ensures r == before.(now := r.now)
    decreases |later|
  {
    if later == [] {
    } else {
      var n := |later| - 1;
      assert later[n] in later;
      assert forall e :: e in later[..n] ==> e in later;
      var s :| Reaches(before, later[..n], s) && Enabled(s, later[n]) && r == Step(s, later[n]);
      WaitsChangeNothing(before, later[..n], s);
    }
  }

  /** Over any history: the next check is at most max(1.1 * interval, 24h) after the last outcome exactly when
      the event that last wrote the schedule came soon enough after that outcome. */
  lemma NearOutcomeExactly(start: Record, events: seq<Event>, s: Record, e: Event, later: seq<Event>, r: Record)
    requires IsNew(start) && Reaches(start, events, s) && Enabled(s, e) && Writes(s, e)
    requires Reaches(Step(s, e), later, r) && OnlyWaits(later)
    ensures r.next <= r.outcomeAt + Max(1.1 * r.interval, 24.0) <==> SoonEnough(s, e)
  {
    Invariant(start, events, s);
    WriteIsNearExactly(s, e);
    WaitsChangeNothing(Step(s, e), later, r);
  }

  lemma Extend(start: Record, events: seq<Event>, r: Record, e: Event)
    requires Reaches(start, events, r) && Enabled(r, e)
    ensures Reaches(start, events + [e], Step(r, e))
  {
    assert (events + [e])[..|events|] == events;
  }

  /** `events[n]` is the last event that wrote the schedule, on record `s`. */
  ghost predicate LastWrite(start: Record, events: seq<Event>, n: nat, s: Record, r: Record) {
    && n < |events| && Reaches(start, events[..n], s) && Enabled(s, events[n]) && Writes(s, events[n])
    && Reaches(Step(s, events[n]), events[n + 1..], r) && OnlyWaits(events[n + 1..])
  }

  lemma WaitAfterWrite(start: Record, events: seq<Event>, n: nat, s: Record, r: Record, e: Event)
    requires LastWrite(start, events, n, s, r) && e.Wait? && Enabled(r, e)
    ensures LastWrite(start, events + [e], n, s, Step(r, e))
  {
    Extend(Step(s, events[n]), events[n + 1..], r, e);
    assert (events + [e])[..n] == events[..n];
    assert (events + [e])[n + 1..] == events[n + 1..] + [e];
  }

  lemma WriteIsLast(start: Record, events: seq<Event>, s: Record, e: Event)
    requires Reaches(start, events, s) && Enabled(s, e) && Writes(s, e)
    ensures LastWrite(start, events + [e], |events|, s, Step(s, e))
  {
    assert (events + [e])[..|events|] == events;
    assert (events + [e])[|events| + 1..] == [];
  }

  /** The case above is every case: the schedule of an active record is the one it was created with, or some
      event was the last to write it. */
  lemma {:induction false} ActiveHasLastWrite(start: Record, events: seq<Event>, r: Record)
    requires Reaches(start, events, r) && r.active
    ensures OnlyWaits(events) || exists n: nat, s :: LastWrite(start, events, n, s, r)
    decreases |events|
  {
    if events == [] {
    } else {
      var init, e := events[..|events| - 1], events[|events| - 1];
      assert events == init + [e];
      var s :| Reaches(start, init, s) && Enabled(s, e) && r == Step(s, e);
      if Writes(s, e) {
        WriteIsLast(start, init, s, e);
      } else {
        ActiveHasLastWrite(start, init, s);
        if n: nat, t :| LastWrite(start, init, n, t, s) {
          WaitAfterWrite(start, init, n, t, s, e);
        }
      }
    }
  }

  /** A quota skip keeps the bound whatever its jitter exactly when the outcome is no longer ago than 24 hours
      exceed the longest jittered interval; so at intervals of 22 hours or more only an immediate skip does. */
  lemma SkipKeepsBoundExactly(start: Record, events: seq<Event>, r: Record)
    requires IsNew(start) && Reaches(start, events, r)
    ensures (forall j :: -1.0 <= j <= 1.0 ==> NearOutcome(Step(r, QuotaSkip(j)))) <==>
      r.now - r.outcomeAt <= Max(0.0, 24.0 - 1.1 * r.interval)
  {
    Invariant(start, events, r);
    if r.now - r.outcomeAt <= Max(0.0, 24.0 - 1.1 * r.interval) {
      forall j | -1.0 <= j <= 1.0 ensures NearOutcome(Step(r, QuotaSkip(j))) {
        JitteredRange(r.interval, j);
      }
    } else {
      assert Jittered(r.interval, 1.0) == 1.1 * r.interval;
      assert !NearOutcome(Step(r, QuotaSkip(1.0)));
    }
  }

  /** A changed interval keeps the bound exactly when the outcome is no longer ago than this. */
  lemma IntervalKeepsBoundExactly(start: Record, events: seq<Event>, r: Record, i: real)
    requires IsNew(start) && Reaches(start, events, r) && (r.kind == Monitor || r.active) && i > 0.0
    ensures NearOutcome(Step(r, ChangeInterval(i))) <==> r.now - r.outcomeAt <= Max(0.1 * i, 24.0 - i)
  {
    Invariant(start, events, r);
    WriteIsNearExactly(r, ChangeInterval(i));
  }

  /** The bound does fail: a daily monitor that succeeds, and a day later is skipped for quota or has its
      interval set again, is next checked two days after the success. */
  lemma BoundFromOutcomeFails(e: Event)
    requires e == QuotaSkip(0.0) || e == ChangeInterval(24.0)
    ensures exists events, r ::
      Reaches(NewRecord(Monitor, 24.0, 24.0), events, r) && r.active && r.next == r.outcomeAt + 48.0 && !NearOutcome(r)
  {
    var start := NewRecord(Monitor, 24.0, 24.0);
    assert Reaches(start, [], start);
    Extend(start, [], start, Wait(24.0));
    var r1 := Step(start, Wait(24.0));
    var es1 := [] + [Wait(24.0)];
    Extend(start, es1, r1, Success(0.0));
    var r2 := Step(r1, Success(0.0));
    var es2 := es1 + [Success(0.0)];
    Extend(start, es2, r2, Wait(24.0));
    var r3 := Step(r2, Wait(24.0));
    var es3 := es2 + [Wait(24.0)];
    Extend(start, es3, r3, e);
    var r4 := Step(r3, e);
    assert Jittered(24.0, 0.0) == 24.0;
    assert r4.outcomeAt == 24.0 && r4.next == 72.0;
    assert Reaches(start, es3 + [e], r4);
  }

  // ---- The row, as worker and route change it ----

  class WatchRow {
    const kind: Kind
    var interval: real
    var active: bool
    var paused: bool
    var failures: nat
    var now: real
    var next: real
    ghost var scheduledAt: real
    ghost var outcomeAt: real
    ghost var log: seq<Mark>

    ghost function Now(): Record
      reads this
    {
      Record(kind, interval, active, paused, failures, now, next, scheduledAt, outcomeAt, log)
    }

    constructor (kind: Kind, interval: real, next: real)
      ensures Now() == NewRecord(kind, interval, next)
    {
      this.kind, this.interval, this.next := kind, interval, next;
      active, paused, failures, now, scheduledAt, outcomeAt, log := true, false, 0, 0.0, 0.0, 0.0, [];
    }

    method WriteNext(hours: real)
      modifies this`next, this`scheduledAt
      ensures Now() == Schedule(old(Now()), hours)
    {
      next, scheduledAt := now + hours, now;
    }

    /** The check went through. */
    method RecordSuccess(jitter: real)
      requires Enabled(Now(), Success(jitter))
      modifies this
      ensures Now() == Step(old(Now()), Success(jitter))
      ensures failures == 0 && active && paused == old(paused) && interval == old(interval)
      ensures interval > 0.0 ==> now + 0.9 * interval <= next <= now + 1.1 * interval
    {
      if interval > 0.0 {
        JitteredRange(interval, jitter);
      }
      WriteNext(interval + jitter * (interval * JITTER_FACTOR));
      failures, outcomeAt, log := 0, now, log + [Succeeded];
    }

    /** `handleTickFailure`. */
    method RecordFailure()
      requires Enabled(Now(), Failure)
      modifies this
      ensures Now() == Step(old(Now()), Failure)
      ensures failures == old(failures) + 1 && (!active <==> failures >= 5) && (failures >= 5 ==> paused)
      ensures next == now + Backoff(interval, failures) && interval == old(interval)
    {
      var newFailures := failures + 1;
      var hours := interval * (Pow2(newFailures) as real);
      WriteNext(if hours <= 24.0 then hours else 24.0);
      failures, outcomeAt, log := newFailures, now, log + [Failed];
      if newFailures >= MAX_CONSECUTIVE_FAILURES {
        paused, active := true, false;
      }
    }

    /** Over quota: reschedule and nothing else. */
    method SkipForQuota(jitter: real)
      requires Enabled(Now(), QuotaSkip(jitter))
      modifies this
      ensures Now() == Step(old(Now()), QuotaSkip(jitter))
      ensures failures == old(failures) && log == old(log) && active && paused == old(paused)
      ensures interval > 0.0 ==> now + 0.9 * interval <= next <= now + 1.1 * interval
    {
      if interval > 0.0 {
        JitteredRange(interval, jitter);
      }
      WriteNext(interval + jitter * (interval * JITTER_FACTOR));
    }

    /** `POST /recheck`: due at once, and a job that checks it; false is the validation error. */
    method RequestRecheck() returns (enqueued: bool)
      requires kind == Monitor
      modifies this`next, this`scheduledAt
      ensures enqueued <==> active
      ensures enqueued ==> Now() == Step(old(Now()), Recheck) && next == now
      ensures !enqueued ==> Now() == old(Now())
    {
      if !active {
        return false;
      }
      WriteNext(0.0);
      return true;
    }

    /** `PATCH`, by what it says about being active. */
    method PatchRow(setActive: Option<bool>, newInterval: Option<real>)
      requires newInterval.Some? ==> newInterval.value > 0.0
      modifies this
      ensures setActive == Some(true) ==> Now() == Step(old(Now()), Resume(newInterval))
      ensures setActive == Some(true) ==> active && !paused && failures == 0 && next == now + interval
      ensures setActive == Some(false) ==> !active && next == old(next) && (kind == AgentRun ==> paused)
      ensures setActive == None && newInterval.Some? && (kind == Monitor || active) ==> next == now + interval
      ensures interval == if newInterval.Some? then newInterval.value else old(interval)
      ensures setActive == Some(false) ==> Now() == Step(old(Now()), Deactivate(newInterval))
      ensures setActive == None && newInterval.Some? ==> Now() == Step(old(Now()), ChangeInterval(newInterval.value))
      ensures setActive == None && newInterval == None ==> Now() == old(Now())
    {
      var wasActive := active;
      if newInterval.Some? {
        interval := newInterval.value;
      }
      if setActive == Some(true) {
        active, paused, failures, outcomeAt, log := true, false, 0, now, log + [Resumed];
        WriteNext(interval);
      } else if setActive == Some(false) {
        active := false;
        if kind == AgentRun {
          paused := true;
        }
      } else if newInterval.Some? && (kind == Monitor || wasActive) {
        WriteNext(interval);
      }
    }
  }
}
