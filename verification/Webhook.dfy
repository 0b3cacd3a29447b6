/** Webhook deliveries of one endpoint: dispatch, attempts, the retry chain on the queue, and the endpoint's
    counters. */
module Webhook {
  datatype Delivery = Delivery(eventId: string, attempts: nat, maxAttempts: nat, delivered: bool,
                               failedPermanently: bool)

  /** The counters of the webhook row. */
  datatype Counters = Counters(total: nat, success: nat, failure: nat, consecutiveFailures: nat)

  /** A queued job, named `webhook-<delivery>-<attempt>`. */
  datatype Job = Job(delivery: nat, attempt: nat)

  /** Rows and queue; with the history of enqueued jobs, POSTs (by delivery) and decided outcomes. */
  datatype State = State(deliveries: seq<Delivery>, hook: Counters, pending: set<Job>,
                         enqueued: seq<Job>, posts: seq<nat>, outcomes: seq<bool>)

  const START := State([], Counters(0, 0, 0, 0), {}, [], [], [])

  datatype Event = Dispatch(eventId: string) | Attempt(job: Job, ok: bool)

  predicate Undecided(d: Delivery) {
    !d.delivered && !d.failedPermanently
  }

  predicate Enabled(s: State, e: Event) {
    e.Attempt? ==> e.job in s.pending
  }

  /** The queue ignores a job whose id it has seen. */
  function Enqueue(s: State, j: Job): State {
    if j in s.enqueued then s else s.(pending := s.pending + {j}, enqueued := s.enqueued + [j])
  }

  predicate Seen(ds: seq<Delivery>, eventId: string) {
    exists i :: 0 <= i < |ds| && ds[i].eventId == eventId
  }

  function AfterDispatch(maxAttempts: nat, s: State, eventId: string): State {
    if eventId != "" && Seen(s.deliveries, eventId) then s
    else
      var created := s.(deliveries := s.deliveries + [Delivery(eventId, 0, maxAttempts, false, false)]);
      Enqueue(created, Job(|s.deliveries|, 1))
  }

  /** What one POST makes of a delivery. */
  function Attempted(d: Delivery, ok: bool): Delivery {
    if ok then d.(attempts := d.attempts + 1, delivered := true)
    else d.(attempts := d.attempts + 1, failedPermanently := d.attempts + 1 >= d.maxAttempts)
  }

  function Count(h: Counters, d: Delivery): Counters {
    if d.delivered then Counters(h.total + 1, h.success + 1, h.failure, 0)
    else if d.failedPermanently then Counters(h.total + 1, h.success, h.failure + 1, h.consecutiveFailures + 1)
    else h
  }

  function AfterAttempt(s: State, job: Job, ok: bool): State {
    var taken := s.(pending := s.pending - {job});
    if job.delivery >= |s.deliveries| || !Undecided(s.deliveries[job.delivery]) then taken
    else
      var d := Attempted(s.deliveries[job.delivery], ok);
      var done := taken.(deliveries := s.deliveries[job.delivery := d], hook := Count(s.hook, d),
                         posts := s.posts + [job.delivery],
                         outcomes := if Undecided(d) then s.outcomes else s.outcomes + [d.delivered]);
      if Undecided(d) then Enqueue(done, Job(job.delivery, d.attempts + 1)) else done
  }

  function Step(maxAttempts: nat, s: State, e: Event): State {
    match e
    case Dispatch(id) => AfterDispatch(maxAttempts, s, id)
    case Attempt(job, ok) => AfterAttempt(s, job, ok)
  }

  ghost predicate Reaches(maxAttempts: nat, events: seq<Event>, s: State) {
    if events == [] then s == START
    else
      var n := |events| - 1;
      exists before :: Reaches(maxAttempts, events[..n], before) && Enabled(before, events[n])
        && s == Step(maxAttempts, before, events[n])
  }

  // ---- Counting ----

  function Posts(posts: seq<nat>, d: nat): nat {
    if posts == [] then 0 else Posts(posts[..|posts| - 1], d) + (if posts[|posts| - 1] == d then 1 else 0)
  }

  function Outcomes(outcomes: seq<bool>, which: bool): nat {
    if outcomes == [] then 0
    else Outcomes(outcomes[..|outcomes| - 1], which) + (if outcomes[|outcomes| - 1] == which then 1 else 0)
  }

  /** Length of the streak of failures at the end. */
  function TrailingFailures(outcomes: seq<bool>): nat {
    if outcomes == [] || outcomes[|outcomes| - 1] then 0 else 1 + TrailingFailures(outcomes[..|outcomes| - 1])
  }

  function Delivered(ds: seq<Delivery>, n: nat): nat
    requires n <= |ds|
  {
    if n == 0 then 0 else Delivered(ds, n - 1) + (if ds[n - 1].delivered then 1 else 0)
  }

  function Failed(ds: seq<Delivery>, n: nat): nat
    requires n <= |ds|
  {
    if n == 0 then 0 else Failed(ds, n - 1) + (if ds[n - 1].failedPermanently then 1 else 0)
  }

  // ---- The invariant ----

  /** Never both delivered and failed, never more attempts than allowed, decided at the latest by the last. */
  predicate DeliveryOk(maxAttempts: nat, d: Delivery) {
    && d.maxAttempts == maxAttempts && d.attempts <= maxAttempts
    && !(d.delivered && d.failedPermanently)
    && (Undecided(d) ==> d.attempts < maxAttempts)
    && (d.failedPermanently ==> d.attempts == maxAttempts)
  }

  predicate AllOk(maxAttempts: nat, ds: seq<Delivery>) {
    forall i :: 0 <= i < |ds| ==> DeliveryOk(maxAttempts, ds[i])
  }

  /** A job is pending exactly when it is the next attempt of an undecided delivery. */
  predicate IsNext(ds: seq<Delivery>, j: Job) {
    j.delivery < |ds| && Undecided(ds[j.delivery]) && j.attempt == ds[j.delivery].attempts + 1
  }

  ghost predicate OneChain(ds: seq<Delivery>, pending: set<Job>) {
    forall j: Job :: j in pending <==> IsNext(ds, j)
  }

  /** Jobs enqueued so far: no id twice, none past the next attempt. */
  predicate JobsOk(ds: seq<Delivery>, enqueued: seq<Job>) {
    && (forall i, j :: 0 <= i < j < |enqueued| ==> enqueued[i] != enqueued[j])
    && forall i :: 0 <= i < |enqueued| ==>
         && enqueued[i].delivery < |ds|
         && var d := ds[enqueued[i].delivery]; enqueued[i].attempt <= d.attempts + (if Undecided(d) then 1 else 0)
  }

  predicate PostsOk(ds: seq<Delivery>, posts: seq<nat>) {
    && (forall i :: 0 <= i < |posts| ==> posts[i] < |ds|)
    && forall d: nat :: d < |ds| ==> Posts(posts, d) == ds[d].attempts
  }

  predicate CountersOk(ds: seq<Delivery>, h: Counters, outcomes: seq<bool>) {
    && h.total == h.success + h.failure
    && h.success == Delivered(ds, |ds|) == Outcomes(outcomes, true)
    && h.failure == Failed(ds, |ds|) == Outcomes(outcomes, false)
    && h.consecutiveFailures == TrailingFailures(outcomes)
  }

  /** One delivery per event. */
  predicate EventsOk(ds: seq<Delivery>) {
    forall i, j :: 0 <= i < j < |ds| && ds[i].eventId != "" ==> ds[i].eventId != ds[j].eventId
  }

  ghost predicate Inv(maxAttempts: nat, s: State) {
    && AllOk(maxAttempts, s.deliveries) && OneChain(s.deliveries, s.pending) && JobsOk(s.deliveries, s.enqueued)
    && PostsOk(s.deliveries, s.posts) && CountersOk(s.deliveries, s.hook, s.outcomes) && EventsOk(s.deliveries)
  }

  // ---- Dispatch ----

  lemma {:induction false} CountsOfPrefix(ds: seq<Delivery>, d: Delivery, n: nat)
    requires n <= |ds|
    ensures Delivered(ds + [d], n) == Delivered(ds, n) && Failed(ds + [d], n) == Failed(ds, n)
  {
    if n == 0 {
    } else {
      CountsOfPrefix(ds, d, n - 1);
    }
  }

  lemma {:induction false} NoPostsYet(posts: seq<nat>, d: nat)
    requires forall i :: 0 <= i < |posts| ==> posts[i] != d
    ensures Posts(posts, d) == 0
  {
    if posts == [] {
    } else {
      NoPostsYet(posts[..|posts| - 1], d);
    }
  }

  /** The first job's id is new, so the queue takes it. */
  lemma DispatchEnqueues(maxAttempts: nat, s: State, eventId: string)
    requires Inv(maxAttempts, s)
    ensures Job(|s.deliveries|, 1) !in s.enqueued && Job(|s.deliveries|, 1) !in s.pending
  {
    var j := Job(|s.deliveries|, 1);
    assert !IsNext(s.deliveries, j);
  }

  /** A dispatch adds one undecided delivery and its first job, unless the event has an id that was dispatched
      before, which changes nothing. */
  lemma DispatchInWords(maxAttempts: nat, s: State, eventId: string)
    requires Inv(maxAttempts, s)
    ensures var t := Step(maxAttempts, s, Dispatch(eventId)); var n := |s.deliveries|;
      if eventId != "" && exists i :: 0 <= i < n && s.deliveries[i].eventId == eventId then t == s
      else
        && t.deliveries == s.deliveries + [Delivery(eventId, 0, maxAttempts, false, false)]
        && t.pending == s.pending + {Job(n, 1)} && t.enqueued == s.enqueued + [Job(n, 1)] && t.hook == s.hook
  {
    DispatchEnqueues(maxAttempts, s, eventId);
  }

  lemma DispatchKeepsInv(maxAttempts: nat, s: State, eventId: string)
    requires maxAttempts >= 1 && Inv(maxAttempts, s)
    ensures Inv(maxAttempts, AfterDispatch(maxAttempts, s, eventId))
  {
    var t := AfterDispatch(maxAttempts, s, eventId);
    if t != s {
      var d := Delivery(eventId, 0, maxAttempts, false, false);
      DispatchEnqueues(maxAttempts, s, eventId);
      NoPostsYet(s.posts, |s.deliveries|);
      CountsOfPrefix(s.deliveries, d, |s.deliveries|);
      forall j: Job ensures j in t.pending <==> IsNext(t.deliveries, j) {
        assert j in s.pending <==> IsNext(s.deliveries, j);
      }
    }
  }

  // ---- One attempt ----

  /** The retry's id is new, so the queue takes it: the chain never breaks. */
  lemma RetryEnqueues(maxAttempts: nat, s: State, job: Job)
    requires Inv(maxAttempts, s) && job in s.pending
    ensures IsNext(s.deliveries, job)
    ensures Job(job.delivery, job.attempt + 1) !in s.enqueued
  {
  }

  lemma AttemptKeepsChain(maxAttempts: nat, s: State, job: Job, ok: bool)
    requires Inv(maxAttempts, s) && job in s.pending
    ensures OneChain(AfterAttempt(s, job, ok).deliveries, AfterAttempt(s, job, ok).pending)
  {
    var t := AfterAttempt(s, job, ok);
    RetryEnqueues(maxAttempts, s, job);
    forall j: Job ensures j in t.pending <==> IsNext(t.deliveries, j) {
      assert j in s.pending <==> IsNext(s.deliveries, j);
    }
  }

  lemma AttemptKeepsJobs(maxAttempts: nat, s: State, job: Job, ok: bool)
    requires Inv(maxAttempts, s) && job in s.pending
    ensures JobsOk(AfterAttempt(s, job, ok).deliveries, AfterAttempt(s, job, ok).enqueued)
  {
    RetryEnqueues(maxAttempts, s, job);
  }

  lemma AttemptKeepsPosts(maxAttempts: nat, s: State, job: Job, ok: bool)
    requires Inv(maxAttempts, s) && job in s.pending
    ensures PostsOk(AfterAttempt(s, job, ok).deliveries, AfterAttempt(s, job, ok).posts)
  {
    var t := AfterAttempt(s, job, ok);
    RetryEnqueues(maxAttempts, s, job);
    assert t.posts[..|t.posts| - 1] == s.posts;
  }

  lemma {:induction false} CountsAfterChange(ds: seq<Delivery>, k: nat, d: Delivery, n: nat)
    requires k < |ds| && n <= |ds| && Undecided(ds[k])
    ensures Delivered(ds[k := d], n) == Delivered(ds, n) + (if k < n && d.delivered then 1 else 0)
    ensures Failed(ds[k := d], n) == Failed(ds, n) + (if k < n && d.failedPermanently then 1 else 0)
  {
    if n == 0 {
    } else {
      CountsAfterChange(ds, k, d, n - 1);
    }
  }

  lemma OutcomesSnoc(outcomes: seq<bool>, o: bool)
    ensures Outcomes(outcomes + [o], true) == Outcomes(outcomes, true) + (if o then 1 else 0)
    ensures Outcomes(outcomes + [o], false) == Outcomes(outcomes, false) + (if o then 0 else 1)
    ensures TrailingFailures(outcomes + [o]) == if o then 0 else 1 + TrailingFailures(outcomes)
  {
    assert (outcomes + [o])[..|outcomes|] == outcomes;
  }

  lemma AttemptKeepsCounters(maxAttempts: nat, s: State, job: Job, ok: bool)
    requires Inv(maxAttempts, s) && job in s.pending
    ensures var t := AfterAttempt(s, job, ok); CountersOk(t.deliveries, t.hook, t.outcomes)
  {
    RetryEnqueues(maxAttempts, s, job);
    var d := Attempted(s.deliveries[job.delivery], ok);
    CountsAfterChange(s.deliveries, job.delivery, d, |s.deliveries|);
    OutcomesSnoc(s.outcomes, d.delivered);
  }

  lemma AttemptKeepsInv(maxAttempts: nat, s: State, job: Job, ok: bool)
    requires Inv(maxAttempts, s) && job in s.pending
    ensures Inv(maxAttempts, AfterAttempt(s, job, ok))
  {
    RetryEnqueues(maxAttempts, s, job);
    AttemptKeepsChain(maxAttempts, s, job, ok);
    AttemptKeepsJobs(maxAttempts, s, job, ok);
    AttemptKeepsPosts(maxAttempts, s, job, ok);
    AttemptKeepsCounters(maxAttempts, s, job, ok);
  }

  // ---- Over every run ----

  lemma {:induction false} Invariant(maxAttempts: nat, events: seq<Event>, s: State)
    requires maxAttempts >= 1 && Reaches(maxAttempts, events, s)
    ensures Inv(maxAttempts, s)
    decreases |events|
  {
    if events == [] {
    } else {
      var n := |events| - 1;
      var before :| Reaches(maxAttempts, events[..n], before) && Enabled(before, events[n])
        && s == Step(maxAttempts, before, events[n]);
      Invariant(maxAttempts, events[..n], before);
      match events[n] {
        case Dispatch(id) => DispatchKeepsInv(maxAttempts, before, id);
        case Attempt(job, ok) => AttemptKeepsInv(maxAttempts, before, job, ok);
      }
    }
  }

  /** A delivery gets at most `maxAttempts` POSTs, exactly one of them per attempt counted, and is never both
      delivered and permanently failed. */
  lemma PostsAreBounded(maxAttempts: nat, events: seq<Event>, s: State, d: nat)
    requires maxAttempts >= 1 && Reaches(maxAttempts, events, s) && d < |s.deliveries|
    ensures Posts(s.posts, d) == s.deliveries[d].attempts <= maxAttempts
    ensures !(s.deliveries[d].delivered && s.deliveries[d].failedPermanently)
    ensures s.deliveries[d].failedPermanently ==> Posts(s.posts, d) == maxAttempts
  {
    Invariant(maxAttempts, events, s);
    assert DeliveryOk(maxAttempts, s.deliveries[d]);
  }

  /** A delivery is undecided exactly when one job of it is pending, and then only one. */
  lemma PendingIffUndecided(maxAttempts: nat, events: seq<Event>, s: State, d: nat)
    requires maxAttempts >= 1 && Reaches(maxAttempts, events, s) && d < |s.deliveries|
    ensures Undecided(s.deliveries[d]) <==> exists j :: j in s.pending && j.delivery == d
    ensures forall i, j :: i in s.pending && j in s.pending && i.delivery == d == j.delivery ==> i == j
  {
    Invariant(maxAttempts, events, s);
    if Undecided(s.deliveries[d]) {
      assert IsNext(s.deliveries, Job(d, s.deliveries[d].attempts + 1));
    }
    forall i, j | i in s.pending && j in s.pending && i.delivery == d == j.delivery ensures i == j {
      assert IsNext(s.deliveries, i) && IsNext(s.deliveries, j);
    }
  }

  // ---- What the events say ----

  /** Event `k` of the run is an attempt of delivery `d`. */
  predicate AttemptOf(events: seq<Event>, k: nat, d: nat) {
    k < |events| && events[k].Attempt? && events[k].job.delivery == d
  }

  /** The attempts of delivery `d`. */
  function AttemptsOf(events: seq<Event>, d: nat): set<nat> {
    set k | 0 <= k < |events| && AttemptOf(events, k, d)
  }

  /** The attempts, of any delivery, whose POST succeeded. */
  function Succeeded(events: seq<Event>): set<nat> {
    set k | 0 <= k < |events| && events[k].Attempt? && events[k].ok
  }

  predicate SomeOk(events: seq<Event>, d: nat) {
    exists k :: 0 <= k < |events| && AttemptOf(events, k, d) && events[k].ok
  }

  /** What one attempt does to its delivery, to the other deliveries and to the queue. */
  lemma AttemptInWords(maxAttempts: nat, s: State, job: Job, ok: bool)
    requires Inv(maxAttempts, s) && job in s.pending
    ensures var t := Step(maxAttempts, s, Attempt(job, ok)); var i := job.delivery;
      && i < |s.deliveries| == |t.deliveries|
      && var d, e := s.deliveries[i], t.deliveries[i];
      && !d.delivered && !d.failedPermanently && job.attempt == d.attempts + 1
      && e.attempts == d.attempts + 1 && e.eventId == d.eventId && e.maxAttempts == d.maxAttempts
      && (e.delivered <==> ok) && (e.failedPermanently <==> !ok && d.attempts + 1 == maxAttempts)
      && (forall j :: 0 <= j < |s.deliveries| && j != i ==> t.deliveries[j] == s.deliveries[j])
      && t.hook.success == s.hook.success + (if e.delivered then 1 else 0)
      && t.hook.failure == s.hook.failure + (if e.failedPermanently then 1 else 0)
      && t.hook.consecutiveFailures ==
         (if e.delivered then 0 else s.hook.consecutiveFailures + if e.failedPermanently then 1 else 0)
      && t.pending == s.pending - {job} + if ok || d.attempts + 1 == maxAttempts then {} else {Job(i, d.attempts + 2)}
  {
    RetryEnqueues(maxAttempts, s, job);
    assert DeliveryOk(maxAttempts, s.deliveries[job.delivery]);
  }

  lemma OneMoreAttemptOf(events: seq<Event>, e: Event, d: nat)
    ensures |AttemptsOf(events + [e], d)| == |AttemptsOf(events, d)| +
      if e.Attempt? && e.job.delivery == d then 1 else 0
  {
    var all := events + [e];
    assert forall k: nat :: k < |events| ==> (AttemptOf(all, k, d) <==> AttemptOf(events, k, d));
    if e.Attempt? && e.job.delivery == d {
      assert AttemptOf(all, |events|, d);
      assert AttemptsOf(all, d) == AttemptsOf(events, d) + {|events|};
    } else {
      assert AttemptsOf(all, d) == AttemptsOf(events, d);
    }
  }

  lemma OneMoreOk(events: seq<Event>, e: Event, d: nat)
    ensures SomeOk(events + [e], d) <==> SomeOk(events, d) || (e.Attempt? && e.job.delivery == d && e.ok)
  {
    var all := events + [e];
    assert forall k: nat :: k < |events| ==> (AttemptOf(all, k, d) <==> AttemptOf(events, k, d)) && all[k] == events[k];
    assert AttemptOf(all, |events|, d) <==> e.Attempt? && e.job.delivery == d;
  }

  lemma OneMoreSucceeded(events: seq<Event>, e: Event)
    ensures |Succeeded(events + [e])| == |Succeeded(events)| + if e.Attempt? && e.ok then 1 else 0
  {
    var all := events + [e];
    assert Succeeded(all) == Succeeded(events) + if e.Attempt? && e.ok then {|events|} else {};
  }

  /** What the row of delivery `d` says of the events. */
  predicate RowTells(maxAttempts: nat, events: seq<Event>, ds: seq<Delivery>, d: nat)
    requires d < |ds|
  {
    && ds[d].attempts == |AttemptsOf(events, d)|
    && (ds[d].delivered <==> SomeOk(events, d))
    && (ds[d].failedPermanently <==> !SomeOk(events, d) && |AttemptsOf(events, d)| == maxAttempts)
  }

  /** And of the attempts of deliveries that are not there yet. */
  predicate EventsTell(maxAttempts: nat, events: seq<Event>, ds: seq<Delivery>) {
    && (forall d :: 0 <= d < |ds| ==> RowTells(maxAttempts, events, ds, d))
    && forall k :: 0 <= k < |events| && events[k].Attempt? ==> events[k].job.delivery < |ds|
  }

  lemma NothingOf(events: seq<Event>, d: nat)
    requires forall k :: 0 <= k < |events| && events[k].Attempt? ==> events[k].job.delivery != d
    ensures AttemptsOf(events, d) == {} && !SomeOk(events, d)
  {
  }

  lemma DispatchTells(maxAttempts: nat, events: seq<Event>, s: State, eventId: string)
    requires maxAttempts >= 1 && EventsTell(maxAttempts, events, s.deliveries)
    ensures var e := Dispatch(eventId); EventsTell(maxAttempts, events + [e], Step(maxAttempts, s, e).deliveries)
  {
    var e := Dispatch(eventId);
    var t := Step(maxAttempts, s, e);
    forall d | 0 <= d < |t.deliveries| ensures RowTells(maxAttempts, events + [e], t.deliveries, d) {
      OneMoreAttemptOf(events, e, d);
      OneMoreOk(events, e, d);
      if d < |s.deliveries| {
        assert RowTells(maxAttempts, events, s.deliveries, d);
      } else {
        NothingOf(events, d);
      }
    }
  }

  lemma AttemptTells(maxAttempts: nat, events: seq<Event>, s: State, job: Job, ok: bool)
    requires Inv(maxAttempts, s) && job in s.pending && EventsTell(maxAttempts, events, s.deliveries)
    ensures var e := Attempt(job, ok); EventsTell(maxAttempts, events + [e], Step(maxAttempts, s, e).deliveries)
  {
    var e := Attempt(job, ok);
    var t := Step(maxAttempts, s, e);
    AttemptInWords(maxAttempts, s, job, ok);
    forall d | 0 <= d < |t.deliveries| ensures RowTells(maxAttempts, events + [e], t.deliveries, d) {
      OneMoreAttemptOf(events, e, d);
      OneMoreOk(events, e, d);
      assert RowTells(maxAttempts, events, s.deliveries, d);
    }
  }

  lemma {:induction false} EventsTellTheRows(maxAttempts: nat, events: seq<Event>, s: State)
    requires maxAttempts >= 1 && Reaches(maxAttempts, events, s)
    ensures EventsTell(maxAttempts, events, s.deliveries)
    decreases |events|
  {
    if events == [] {
    } else {
      var n := |events| - 1;
      var before :| Reaches(maxAttempts, events[..n], before) && Enabled(before, events[n])
        && s == Step(maxAttempts, before, events[n]);
      assert events == events[..n] + [events[n]];
      EventsTellTheRows(maxAttempts, events[..n], before);
      match events[n] {
        case Dispatch(id) => DispatchTells(maxAttempts, events[..n], before, id);
        case Attempt(job, ok) =>
          Invariant(maxAttempts, events[..n], before);
          AttemptTells(maxAttempts, events[..n], before, job, ok);
      }
    }
  }

  /** Over any run: a delivery is delivered exactly when one of its attempts succeeded, and permanently failed
      exactly when all the attempts it may have were made and none did. */
  lemma DecidedByItsAttempts(maxAttempts: nat, events: seq<Event>, s: State, d: nat)
    requires maxAttempts >= 1 && Reaches(maxAttempts, events, s) && d < |s.deliveries|
    ensures s.deliveries[d].delivered <==> exists k :: 0 <= k < |events| && AttemptOf(events, k, d) && events[k].ok
    ensures s.deliveries[d].failedPermanently <==>
      && |AttemptsOf(events, d)| == maxAttempts
      && forall k :: 0 <= k < |events| && AttemptOf(events, k, d) ==> !events[k].ok
    ensures s.deliveries[d].attempts == |AttemptsOf(events, d)|
  {
    EventsTellTheRows(maxAttempts, events, s);
    assert RowTells(maxAttempts, events, s.deliveries, d);
  }

  lemma StillUndecided(maxAttempts: nat, events: seq<Event>, s: State, e: Event)
    requires maxAttempts >= 1 && Reaches(maxAttempts, events, s) && Enabled(s, e) && e.Attempt?
    ensures e.job.delivery < |s.deliveries| && !s.deliveries[e.job.delivery].delivered
  {
    Invariant(maxAttempts, events, s);
    RetryEnqueues(maxAttempts, s, e.job);
  }

  /** A successful attempt is the last one of its delivery. */
  lemma {:induction false} SuccessIsLast(maxAttempts: nat, events: seq<Event>, s: State, d: nat, j: nat, k: nat)
    requires maxAttempts >= 1 && Reaches(maxAttempts, events, s)
    requires AttemptOf(events, j, d) && AttemptOf(events, k, d) && j < k
    ensures !events[j].ok
    decreases |events|
  {
    var n := |events| - 1;
    var before :| Reaches(maxAttempts, events[..n], before) && Enabled(before, events[n])
      && s == Step(maxAttempts, before, events[n]);
    assert AttemptOf(events[..n], j, d);
    if k < n {
      assert AttemptOf(events[..n], k, d);
      SuccessIsLast(maxAttempts, events[..n], before, d, j, k);
    } else {
      StillUndecided(maxAttempts, events[..n], before, events[n]);
      DecidedByItsAttempts(maxAttempts, events[..n], before, d);
    }
  }

  /** The successes counted are the attempts whose POST succeeded. */
  lemma {:induction false} SuccessesAreCounted(maxAttempts: nat, events: seq<Event>, s: State)
    requires maxAttempts >= 1 && Reaches(maxAttempts, events, s)
    ensures s.hook.success == |Succeeded(events)|
    decreases |events|
  {
    if events == [] {
    } else {
      var n := |events| - 1;
      var before :| Reaches(maxAttempts, events[..n], before) && Enabled(before, events[n])
        && s == Step(maxAttempts, before, events[n]);
      assert events == events[..n] + [events[n]];
      SuccessesAreCounted(maxAttempts, events[..n], before);
      OneMoreSucceeded(events[..n], events[n]);
      if events[n].Attempt? {
        Invariant(maxAttempts, events[..n], before);
        AttemptInWords(maxAttempts, before, events[n].job, events[n].ok);
      }
    }
  }

  /** The endpoint's counters: totals add up, the successes are the attempts whose POST succeeded, and
      the streak is the failures since the last success. */
  lemma CountersTellTheOutcomes(maxAttempts: nat, events: seq<Event>, s: State)
    requires maxAttempts >= 1 && Reaches(maxAttempts, events, s)
    ensures s.hook.total == s.hook.success + s.hook.failure
    ensures s.hook.success == Delivered(s.deliveries, |s.deliveries|)
    ensures s.hook.failure == Failed(s.deliveries, |s.deliveries|)
    ensures s.hook.success == |Succeeded(events)|
    ensures s.hook.consecutiveFailures == TrailingFailures(s.outcomes)
    ensures forall i, j :: 0 <= i < j < |s.enqueued| ==> s.enqueued[i] != s.enqueued[j]
    ensures EventsOk(s.deliveries)
  {
    Invariant(maxAttempts, events, s);
    SuccessesAreCounted(maxAttempts, events, s);
  }

  // ---- Termination ----

  /** Attempts the undecided deliveries may still take. */
  function Remaining(ds: seq<Delivery>, n: nat): int
    requires n <= |ds|
  {
    if n == 0 then 0
    else Remaining(ds, n - 1) + (if Undecided(ds[n - 1]) then ds[n - 1].maxAttempts - ds[n - 1].attempts else 0)
  }

  lemma {:induction false} RemainingAfterChange(maxAttempts: nat, ds: seq<Delivery>, k: nat, ok: bool, n: nat)
    requires k < |ds| && n <= |ds| && AllOk(maxAttempts, ds) && Undecided(ds[k])
    ensures Remaining(ds[k := Attempted(ds[k], ok)], n) <= Remaining(ds, n) - (if k < n then 1 else 0)
    ensures Remaining(ds, n) >= 0
  {
    if n == 0 {
    } else {
      RemainingAfterChange(maxAttempts, ds, k, ok, n - 1);
      assert DeliveryOk(maxAttempts, ds[n - 1]);
    }
  }

  function AfterAttempts(s: State, jobs: seq<(Job, bool)>): State
    decreases |jobs|
  {
    if jobs == [] then s
    else AfterAttempt(AfterAttempts(s, jobs[..|jobs| - 1]), jobs[|jobs| - 1].0, jobs[|jobs| - 1].1)
  }

  /** Each job is pending when it is taken. */
  predicate Possible(s: State, jobs: seq<(Job, bool)>)
    decreases |jobs|
  {
    jobs != [] ==>
      Possible(s, jobs[..|jobs| - 1]) && jobs[|jobs| - 1].0 in AfterAttempts(s, jobs[..|jobs| - 1]).pending
  }

  /** The retry chains end: without new dispatches no more attempts are possible than remain. */
  lemma {:induction false} ChainsTerminate(maxAttempts: nat, s: State, jobs: seq<(Job, bool)>)
    requires Inv(maxAttempts, s) && Possible(s, jobs)
    ensures var t := AfterAttempts(s, jobs);
      && Inv(maxAttempts, t) && |t.deliveries| == |s.deliveries|
      && (jobs != [] ==> |jobs| + Remaining(t.deliveries, |t.deliveries|) <= Remaining(s.deliveries, |s.deliveries|))
      && (jobs != [] ==> Remaining(t.deliveries, |t.deliveries|) >= 0)
    decreases |jobs|
  {
    if jobs == [] {
    } else {
      var n := |jobs| - 1;
      var t := AfterAttempts(s, jobs[..n]);
      ChainsTerminate(maxAttempts, s, jobs[..n]);
      var job, ok := jobs[n].0, jobs[n].1;
      RetryEnqueues(maxAttempts, t, job);
      AttemptKeepsInv(maxAttempts, t, job, ok);
      RemainingAfterChange(maxAttempts, t.deliveries, job.delivery, ok, |t.deliveries|);
      RemainingIsNonNegative(maxAttempts, AfterAttempts(s, jobs).deliveries, |t.deliveries|);
    }
  }

  lemma {:induction false} RemainingIsNonNegative(maxAttempts: nat, ds: seq<Delivery>, n: nat)
    requires n <= |ds| && AllOk(maxAttempts, ds)
    ensures Remaining(ds, n) >= 0
  {
    if n == 0 {
    } else {
      RemainingIsNonNegative(maxAttempts, ds, n - 1);
      assert DeliveryOk(maxAttempts, ds[n - 1]);
    }
  }

  /** When the queue is empty, everything is decided. */
  lemma EmptyQueueMeansDecided(maxAttempts: nat, s: State)
    requires Inv(maxAttempts, s)
    ensures s.pending == {} <==> forall i :: 0 <= i < |s.deliveries| ==> !Undecided(s.deliveries[i])
  {
    forall i | 0 <= i < |s.deliveries| && Undecided(s.deliveries[i])
      ensures Job(i, s.deliveries[i].attempts + 1) in s.pending
    {
      assert IsNext(s.deliveries, Job(i, s.deliveries[i].attempts + 1));
    }
    if s.pending != {} {
      var j :| j in s.pending;
      assert IsNext(s.deliveries, j);
    }
  }

  // ---- Retry delays ----

  const MAX_BACKOFF_MS: int := 7_200_000

  function BaseDelay(attempt: nat): int {
    match attempt
    case 1 => 30_000
    case 2 => 120_000
    case 3 => 480_000
    case 4 => 2_040_000
    case 5 => 7_200_000
    case _ => MAX_BACKOFF_MS
  }

  predicate IsRandom(x: real) {
    0.0 <= x < 1.0
  }

  /** `retryDelayMs`, for the number that `Math.random` gave. */
  function RetryDelay(attempt: nat, random: real): int {
    var base := BaseDelay(attempt) as real;
    var jitter := base * 0.20;
    var offset := (random * 2.0 - 1.0) * jitter;
    var rounded := (base + offset + 0.5).Floor;
    if rounded <= MAX_BACKOFF_MS then rounded else MAX_BACKOFF_MS
  }

  lemma DelayRange(attempt: nat, random: real)
    requires IsRandom(random)
    ensures var base := BaseDelay(attempt) as real; 0.8 * base <= RetryDelay(attempt, random) as real + 0.5
    ensures RetryDelay(attempt, random) as real <= 1.2 * (BaseDelay(attempt) as real) + 0.5
    ensures 0 < RetryDelay(attempt, random) <= 7_200_000
  {
    var base := BaseDelay(attempt) as real;
    var offset := (random * 2.0 - 1.0) * (base * 0.20);
    assert -0.2 * base <= offset <= 0.2 * base by {
      var u := random * 2.0 - 1.0;
      assert -1.0 <= u <= 1.0;
      assert base >= 30000.0;
      Scaled(u, base * 0.20);
    }
  }

  /** The delays in seconds: half a minute, two, eight, thirty-four minutes, and from the fifth on two hours, each
      give or take a fifth, and two hours at the most. */
  lemma DelaysInSeconds(random: real)
    requires IsRandom(random)
    ensures 24_000 <= RetryDelay(1, random) <= 36_000
    ensures 96_000 <= RetryDelay(2, random) <= 144_000
    ensures 384_000 <= RetryDelay(3, random) <= 576_000
    ensures 1_632_000 <= RetryDelay(4, random) <= 2_448_000
    ensures forall attempt :: attempt >= 5 ==> 5_760_000 <= RetryDelay(attempt, random) <= 7_200_000
  {
    DelayRange(1, random);
    DelayRange(2, random);
    DelayRange(3, random);
    DelayRange(4, random);
    forall attempt | attempt >= 5 ensures 5_760_000 <= RetryDelay(attempt, random) <= 7_200_000 {
      DelayRange(attempt, random);
    }
  }

  lemma Scaled(u: real, x: real)
    requires -1.0 <= u <= 1.0 && x >= 0.0
    ensures -x <= u * x <= x
  {
  }

  /** Delays strictly increase, whatever the two jitters, exactly through the fifth attempt. */
  lemma DelaysIncreaseThroughTheFifth(attempt: nat)
    requires attempt >= 1
    ensures (forall r1, r2 :: IsRandom(r1) && IsRandom(r2) ==> RetryDelay(attempt, r1) < RetryDelay(attempt + 1, r2))
       <==> attempt <= 4
  {
    if attempt <= 4 {
      forall r1, r2 | IsRandom(r1) && IsRandom(r2) ensures RetryDelay(attempt, r1) < RetryDelay(attempt + 1, r2) {
        DelayRange(attempt, r1);
        DelayRange(attempt + 1, r2);
      }
    } else {
      assert IsRandom(0.0) && RetryDelay(attempt, 0.0) == RetryDelay(attempt + 1, 0.0);
    }
  }

  // ---- Rows and queue, as the worker changes them ----

  class Endpoint {
    const maxAttempts: nat
    var deliveries: seq<Delivery>
    var hook: Counters
    var pending: set<Job>
    var enqueued: seq<Job>
    ghost var posts: seq<nat>
    ghost var outcomes: seq<bool>

    ghost function Now(): State
      reads this
    {
      State(deliveries, hook, pending, enqueued, posts, outcomes)
    }

    constructor (maxAttempts: nat)
      ensures this.maxAttempts == maxAttempts && Now() == START
    {
      this.maxAttempts := maxAttempts;
      deliveries, hook, pending, enqueued, posts, outcomes := [], Counters(0, 0, 0, 0), {}, [], [], [];
    }

    method Add(j: Job)
      modifies this`pending, this`enqueued
      ensures Now() == Enqueue(old(Now()), j)
    {
      if j !in enqueued {
        pending, enqueued := pending + {j}, enqueued + [j];
      }
    }

    /** `deliverToEndpoint`. */
    method DeliverToEndpoint(eventId: string)
      modifies this
      ensures Now() == Step(maxAttempts, old(Now()), Dispatch(eventId))
    {
      if eventId != "" && Seen(deliveries, eventId) {
        return;
      }
      var id := |deliveries|;
      deliveries := deliveries + [Delivery(eventId, 0, maxAttempts, false, false)];
      Add(Job(id, 1));
    }

    /** `processWebhookDelivery`; `success` is the outcome of the POST. */
    method ProcessWebhookDelivery(job: Job, success: bool)
      requires Enabled(Now(), Attempt(job, success))
      modifies this
      ensures Now() == Step(maxAttempts, old(Now()), Attempt(job, success))
      ensures job.delivery < |old(deliveries)| && Undecided(old(deliveries)[job.delivery]) ==>
        var d, e := old(deliveries)[job.delivery], deliveries[job.delivery];
        && e.attempts == d.attempts + 1
        && (e.delivered <==> success) && (e.failedPermanently <==> !success && d.attempts + 1 >= d.maxAttempts)
        && hook.success == old(hook).success + (if success then 1 else 0)
        && (!e.delivered && !e.failedPermanently ==> Job(job.delivery, d.attempts + 2) in enqueued)
    {
      pending := pending - {job};
      if job.delivery >= |deliveries| {
        return;
      }
      var d := deliveries[job.delivery];
      if d.delivered || d.failedPermanently {
        return;
      }
      posts := posts + [job.delivery];
      var newAttemptCount := d.attempts + 1;
      if success {
        deliveries := deliveries[job.delivery := d.(delivered := true, attempts := newAttemptCount)];
        hook := Counters(hook.total + 1, hook.success + 1, hook.failure, 0);
        outcomes := outcomes + [true];
        return;
      }
      var exhausted := newAttemptCount >= d.maxAttempts;
      deliveries := deliveries[job.delivery := d.(attempts := newAttemptCount, failedPermanently := exhausted)];
      var by1 := if exhausted then 1 else 0;
      hook := Counters(hook.total + by1, hook.success, hook.failure + by1, hook.consecutiveFailures + by1);
      if exhausted {
        outcomes := outcomes + [false];
        return;
      }
      Add(Job(job.delivery, newAttemptCount + 1));
    }
  }
}
