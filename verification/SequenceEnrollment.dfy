/** The enrollments of a sequence under ticks and completed tasks, and the mailboxes they send from. */
module SequenceEnrollment {
  datatype Option<T> = None | Some(value: T)

  /** A step of the sequence; `delay` is how long after the previous one it is due. */
  datatype Step = Step(isEmail: bool, delay: nat)

  datatype Sequence = Sequence(active: bool, stopOnOpen: bool, stopOnClick: bool, steps: seq<Step>,
                               mailboxId: Option<nat>)

  datatype Status = Active | Unsubscribed | Bounced | Completed | AwaitingManualAction

  /** History: a step that went out, the mailbox it went through (none for the shared fallback), whether the
      enrollment could be updated afterwards, and when. */
  datatype Sent = Sent(step: nat, mailbox: Option<nat>, stored: bool, at: int)

  datatype Enrollment = Enrollment(status: Status, currentStep: nat, nextSendAt: Option<int>, mailboxId: Option<nat>,
                                   sent: seq<Sent>)

  /** Mailboxes are known by their place in the pool; `usable` is active, with host and credentials. */
  datatype Mailbox = Mailbox(usable: bool, sentToday: nat, dailyLimit: nat)

  datatype Suppression = NotSuppressed | UnsubscribedReason | OtherReason

  /** How sending went: it threw; or it went out, and then the mailbox count and the enrollment update each
      may or may not have been stored. */
  datatype Sending = Threw | WentOut(counted: bool, stored: bool)

  /** What a tick finds out about one due enrollment; `ranked` is the mailbox the ESP ranking puts first. */
  datatype Findings = Findings(suppressed: Suppression, inWindow: bool, openSeen: bool, clickSeen: bool,
                               condition: bool, ranked: nat, sending: Sending)

  // ---- Mailbox selection ----

  predicate Available(pool: seq<Mailbox>, m: nat) {
    m < |pool| && pool[m].usable && pool[m].sentToday < pool[m].dailyLimit
  }

  /** The first available mailbox from `n` on. */
  function FirstAvailable(pool: seq<Mailbox>, n: nat): (m: Option<nat>)
    ensures m.Some? ==> Available(pool, m.value)
    ensures m.None? ==> forall i: nat :: n <= i ==> !Available(pool, i)
    decreases |pool| - n
  {
    if n >= |pool| then None
    else if Available(pool, n) then Some(n)
    else FirstAvailable(pool, n + 1)
  }

  /** Follow-ups stay with the recorded mailbox; otherwise the sequence's own, the best ranked, or any. */
  function Select(q: Sequence, pool: seq<Mailbox>, e: Enrollment, ranked: nat): (m: Option<nat>)
    ensures m.Some? ==> Available(pool, m.value)
    ensures m.None? <==> FirstAvailable(pool, 0).None?
  {
    if FirstAvailable(pool, 0).None? then None
    else if e.mailboxId.Some? && Available(pool, e.mailboxId.value) && e.currentStep > 0 then e.mailboxId
    else if q.mailboxId.Some? && Available(pool, q.mailboxId.value) then q.mailboxId
    else if Available(pool, ranked) then Some(ranked)
    else FirstAvailable(pool, 0)
  }

  predicate CanSend(b: Mailbox) {
    b.usable && b.sentToday < b.dailyLimit
  }

  /** Which of the mailboxes that can send is chosen: the recorded one for a follow-up, then the sequence's own,
      then the best ranked; and none only when none can. */
  lemma SelectPrefers(q: Sequence, pool: seq<Mailbox>, e: Enrollment, ranked: nat)
    ensures var m := Select(q, pool, e, ranked);
      var recorded := e.currentStep > 0 && e.mailboxId.Some? && e.mailboxId.value < |pool| &&
                      CanSend(pool[e.mailboxId.value]);
      var own := q.mailboxId.Some? && q.mailboxId.value < |pool| && CanSend(pool[q.mailboxId.value]);
      && (m == None <==> forall b :: b in pool ==> !CanSend(b))
      && (recorded ==> m == e.mailboxId)
      && (!recorded && own ==> m == q.mailboxId)
      && (!recorded && !own && ranked < |pool| && CanSend(pool[ranked]) ==> m == Some(ranked))
  {
    forall i: nat | i < |pool| ensures Available(pool, i) <==> CanSend(pool[i]) {
    }
    if b :| b in pool && CanSend(b) {
      var i: nat :| i < |pool| && pool[i] == b;
      assert Available(pool, i);
    }
  }

  // ---- One enrollment in a tick ----

  function NextAt(q: Sequence, step: nat, now: int): Option<int> {
    if step < |q.steps| then Some(now + q.steps[step].delay) else None
  }

  predicate Due(e: Enrollment, now: int) {
    e.status == Active && e.nextSendAt.Some? && e.nextSendAt.value <= now
  }

  /** What sending makes of the enrollment. */
  function AfterSending(q: Sequence, e: Enrollment, m: Option<nat>, now: int, sending: Sending): Enrollment {
    if sending.Threw? then e
    else
      var logged := e.(sent := e.sent + [Sent(e.currentStep, m, sending.stored, now)]);
      if !sending.stored then logged
      else logged.(currentStep := e.currentStep + 1, nextSendAt := NextAt(q, e.currentStep + 1, now),
                   mailboxId := if e.currentStep == 0 && m.Some? then m else e.mailboxId,
                   status := if e.currentStep + 1 < |q.steps| then e.status else Completed)
  }

  predicate Sends(q: Sequence, e: Enrollment, x: Findings) {
    && q.active && x.suppressed == NotSuppressed && x.inWindow
    && !(q.stopOnOpen && x.openSeen) && !(q.stopOnClick && x.clickSeen)
    && e.currentStep < |q.steps| && x.condition && q.steps[e.currentStep].isEmail
  }

  /** The enrollment after the tick has dealt with it. */
  function Process(q: Sequence, pool: seq<Mailbox>, e: Enrollment, now: int, x: Findings): Enrollment {
    if !q.active then e
    else if x.suppressed != NotSuppressed then
      e.(status := if x.suppressed == UnsubscribedReason then Unsubscribed else Bounced)
    else if !x.inWindow then e
    else if (q.stopOnOpen && x.openSeen) || (q.stopOnClick && x.clickSeen) then e.(status := Completed)
    else if e.currentStep >= |q.steps| then e.(status := Completed)
    else if !x.condition then e.(currentStep := e.currentStep + 1, nextSendAt := NextAt(q, e.currentStep + 1, now))
    else if !q.steps[e.currentStep].isEmail then e.(status := AwaitingManualAction)
    else AfterSending(q, e, Select(q, pool, e, x.ranked), now, x.sending)
  }

  function Charge(pool: seq<Mailbox>, m: Option<nat>, sending: Sending): seq<Mailbox> {
    if sending.WentOut? && sending.counted && m.Some? && m.value < |pool|
    then pool[m.value := pool[m.value].(sentToday := pool[m.value].sentToday + 1)]
    else pool
  }

  /** The mailboxes after the tick has dealt with the enrollment. */
  function ProcessPool(q: Sequence, pool: seq<Mailbox>, e: Enrollment, x: Findings): seq<Mailbox> {
    if Sends(q, e, x) then Charge(pool, Select(q, pool, e, x.ranked), x.sending) else pool
  }

  function CompleteTask(q: Sequence, e: Enrollment, now: int): Enrollment {
    e.(currentStep := e.currentStep + 1, nextSendAt := NextAt(q, e.currentStep + 1, now),
       status := if e.currentStep + 1 < |q.steps| then Active else Completed)
  }

  // ---- The whole sequence ----

  datatype Db = Db(enrollments: seq<Enrollment>, pool: seq<Mailbox>)

  /** `Pool` is whatever else happens to the mailboxes: other sends, the daily reset, new limits. */
  datatype Event = Handle(i: nat, now: int, x: Findings) | TaskDone(i: nat, now: int) | Pool(pool: seq<Mailbox>)

  function StepDb(q: Sequence, db: Db, ev: Event): Db {
    match ev
    case Handle(i, now, x) =>
      if i < |db.enrollments| && Due(db.enrollments[i], now) then
        var e := db.enrollments[i];
        Db(db.enrollments[i := Process(q, db.pool, e, now, x)], ProcessPool(q, db.pool, e, x))
      else db
    case TaskDone(i, now) =>
      if i < |db.enrollments| && db.enrollments[i].status == AwaitingManualAction then
        db.(enrollments := db.enrollments[i := CompleteTask(q, db.enrollments[i], now)])
      else db
    case Pool(pool) => db.(pool := pool)
  }

  function Run(q: Sequence, db: Db, events: seq<Event>): (r: Db)
    ensures |r.enrollments| == |db.enrollments|
    decreases |events|
  {
    if events == [] then db else StepDb(q, Run(q, db, events[..|events| - 1]), events[|events| - 1])
  }

  function NewEnrollment(at: int): Enrollment {
    Enrollment(Active, 0, Some(at), None, [])
  }

  // ---- What every run keeps ----

  /** Each email step goes out in order, and again only if the enrollment could not be updated before. */
  predicate InOrder(sent: seq<Sent>) {
    forall i, j :: 0 <= i < j < |sent| ==>
      sent[i].step <= sent[j].step && (sent[i].stored ==> sent[i].step < sent[j].step)
  }

  predicate Behind(q: Sequence, e: Enrollment) {
    forall i :: 0 <= i < |e.sent| ==>
      && e.sent[i].step <= e.currentStep && (e.sent[i].stored ==> e.sent[i].step < e.currentStep)
      && e.sent[i].step < |q.steps| && q.steps[e.sent[i].step].isEmail
  }

  predicate Inv(q: Sequence, e: Enrollment) {
    && e.currentStep <= |q.steps|
    && InOrder(e.sent) && Behind(q, e)
    && (e.status == AwaitingManualAction ==> e.currentStep < |q.steps| && !q.steps[e.currentStep].isEmail)
    && (e.mailboxId.Some? ==> e.currentStep > 0)
  }

  lemma SendingKeepsInv(q: Sequence, e: Enrollment, m: Option<nat>, now: int, sending: Sending)
    requires Inv(q, e) && e.status == Active && e.currentStep < |q.steps| && q.steps[e.currentStep].isEmail
    ensures Inv(q, AfterSending(q, e, m, now, sending))
  {
  }

  lemma ProcessKeepsInv(q: Sequence, pool: seq<Mailbox>, e: Enrollment, now: int, x: Findings)
    requires Inv(q, e) && e.status == Active
    ensures Inv(q, Process(q, pool, e, now, x))
    ensures Process(q, pool, e, now, x).currentStep >= e.currentStep
  {
    if Sends(q, e, x) {
      SendingKeepsInv(q, e, Select(q, pool, e, x.ranked), now, x.sending);
    }
  }

  lemma StepKeepsInv(q: Sequence, db: Db, ev: Event, i: nat)
    requires i < |db.enrollments| && Inv(q, db.enrollments[i])
    ensures Inv(q, StepDb(q, db, ev).enrollments[i])
    ensures StepDb(q, db, ev).enrollments[i].currentStep >= db.enrollments[i].currentStep
  {
    if ev.Handle? && ev.i == i && Due(db.enrollments[i], ev.now) {
      ProcessKeepsInv(q, db.pool, db.enrollments[i], ev.now, ev.x);
    }
  }

  /** Over any run, `currentStep` never decreases nor passes the number of steps; email steps go out in order,
      and none a second time unless its enrollment could not be updated the first time. */
  lemma {:induction false} StepsGoOutInOrder(q: Sequence, db: Db, events: seq<Event>, i: nat)
    requires i < |db.enrollments| && Inv(q, db.enrollments[i])
    ensures var e := Run(q, db, events).enrollments[i];
      Inv(q, e) && db.enrollments[i].currentStep <= e.currentStep <= |q.steps| && InOrder(e.sent)
    decreases |events|
  {
    if events == [] {
    } else {
      var n := |events| - 1;
      StepsGoOutInOrder(q, db, events[..n], i);
      StepKeepsInv(q, Run(q, db, events[..n]), events[n], i);
    }
  }

  predicate Increasing(sent: seq<Sent>) {
    forall a, b :: 0 <= a < b < |sent| ==> sent[a].step < sent[b].step
  }

  predicate EveryStored(sent: seq<Sent>) {
    forall k :: 0 <= k < |sent| ==> sent[k].stored
  }

  predicate CanStore(ev: Event, i: nat) {
    ev.Handle? && ev.i == i && ev.x.sending.WentOut? ==> ev.x.sending.stored
  }

  /** No tick leaves enrollment `i` unstored after a send. */
  predicate AllStored(events: seq<Event>, i: nat) {
    forall ev :: ev in events ==> CanStore(ev, i)
  }

  lemma {:induction false} StoredHistory(q: Sequence, db: Db, events: seq<Event>, i: nat)
    requires i < |db.enrollments| && AllStored(events, i) && EveryStored(db.enrollments[i].sent)
    ensures EveryStored(Run(q, db, events).enrollments[i].sent)
    decreases |events|
  {
    if events == [] {
    } else {
      var n := |events| - 1;
      assert CanStore(events[n], i);
      assert forall ev :: ev in events[..n] ==> ev in events;
      StoredHistory(q, db, events[..n], i);
    }
  }

  /** From a new enrollment on, every step goes out at most once, in order, over any run in which its updates
      can be stored. */
  lemma AtMostOnceWhenStored(q: Sequence, db: Db, events: seq<Event>, i: nat, at: int)
    requires i < |db.enrollments| && db.enrollments[i] == NewEnrollment(at) && AllStored(events, i)
    ensures Increasing(Run(q, db, events).enrollments[i].sent)
  {
    StoredHistory(q, db, events, i);
    StepsGoOutInOrder(q, db, events, i);
  }

  predicate AlreadySent(sent: seq<Sent>, step: nat) {
    exists k :: 0 <= k < |sent| && sent[k].step == step
  }

  /** What the stored row and the last send tell before a tick: the last send was this step and was not stored. */
  predicate LastUnstored(e: Enrollment) {
    e.sent != [] && !e.sent[|e.sent| - 1].stored && e.sent[|e.sent| - 1].step == e.currentStep
  }

  /** Exactly when a tick sends a step that went out before: the send just before it was of this step and could
      not be stored. */
  lemma RepeatsExactlyAfterUnstored(q: Sequence, db: Db, events: seq<Event>, i: nat, now: int, x: Findings)
    requires i < |db.enrollments| && Inv(q, db.enrollments[i])
    requires var e := Run(q, db, events).enrollments[i]; Due(e, now) && Sends(q, e, x) && x.sending.WentOut?
    ensures var e, after := Run(q, db, events).enrollments[i], Run(q, db, events + [Handle(i, now, x)]).enrollments[i];
      && |after.sent| == |e.sent| + 1
      && (AlreadySent(e.sent, after.sent[|e.sent|].step) <==> LastUnstored(e))
  {
    var e := Run(q, db, events).enrollments[i];
    StepsGoOutInOrder(q, db, events, i);
    RunStep(q, db, events, Handle(i, now, x));
    SendsExactlyWhen(q, Run(q, db, events), i, now, x);
    assert Inv(q, e);
  }

  lemma RunStep(q: Sequence, db: Db, events: seq<Event>, ev: Event)
    ensures Run(q, db, events + [ev]) == StepDb(q, Run(q, db, events), ev)
  {
    assert (events + [ev])[..|events|] == events;
  }

  /** A send that is not stored changes nothing but the history. */
  lemma UnstoredStep(q: Sequence, db: Db, i: nat, now: int, x: Findings)
    requires i < |db.enrollments| && Due(db.enrollments[i], now)
    requires Sends(q, db.enrollments[i], x) && x.sending.WentOut? && !x.sending.stored
    ensures var e, after := db.enrollments[i], StepDb(q, db, Handle(i, now, x)).enrollments[i];
      && after == e.(sent := after.sent) && |after.sent| == |e.sent| + 1
      && after.sent[|e.sent|].step == e.currentStep
  {
  }

  /** And it happens: whenever an enrollment is due and its send cannot be stored, the next tick that finds
      nothing against it sends the step again. */
  lemma UnstoredIsResent(q: Sequence, db: Db, events: seq<Event>, i: nat, now: int, x: Findings,
                         again: int, y: Findings)
    requires i < |db.enrollments|
    requires var e := Run(q, db, events).enrollments[i];
      Due(e, now) && Sends(q, e, x) && x.sending.WentOut? && !x.sending.stored
    requires var e := Run(q, db, events).enrollments[i]; Due(e, again) && Sends(q, e, y) && y.sending.WentOut?
    ensures var e := Run(q, db, events).enrollments[i];
      var once := Run(q, db, events + [Handle(i, now, x)]).enrollments[i];
      var twice := Run(q, db, events + [Handle(i, now, x)] + [Handle(i, again, y)]).enrollments[i];
      && |once.sent| == |e.sent| + 1 && once.sent[|e.sent|].step == e.currentStep
      && exists m, stored :: twice.sent == once.sent + [Sent(e.currentStep, m, stored, again)]
  {
    var before := Run(q, db, events);
    var after := Run(q, db, events + [Handle(i, now, x)]);
    RunStep(q, db, events, Handle(i, now, x));
    UnstoredStep(q, before, i, now, x);
    RunStep(q, db, events + [Handle(i, now, x)], Handle(i, again, y));
    SendsExactlyWhen(q, after, i, again, y);
  }

  /** A tick sends to a due enrollment exactly when nothing stops it: the sequence is active and in its window,
      the address not suppressed, no open or click ends it, and an email step with a true condition is up. */
  lemma SendsExactlyWhen(q: Sequence, db: Db, i: nat, now: int, x: Findings)
    requires i < |db.enrollments|
    ensures var e, after := db.enrollments[i], StepDb(q, db, Handle(i, now, x)).enrollments[i];
      && (after.sent != e.sent <==> Due(e, now) && Sends(q, e, x) && x.sending.WentOut?)
      && (after.sent != e.sent ==> exists m :: after.sent == e.sent + [Sent(e.currentStep, m, x.sending.stored, now)])
  {
    var e, after := db.enrollments[i], StepDb(q, db, Handle(i, now, x)).enrollments[i];
    if Due(e, now) && Sends(q, e, x) && x.sending.WentOut? {
      var m := Select(q, db.pool, e, x.ranked);
      assert after.sent == e.sent + [Sent(e.currentStep, m, x.sending.stored, now)];
      assert |after.sent| == |e.sent| + 1;
    }
  }

  // ---- Delays ----

  /** When step `k` is to go out, if there is one, for an enrollment that came to it at `now`. */
  predicate ScheduledFor(q: Sequence, e: Enrollment, k: nat, now: int) {
    e.nextSendAt == if k < |q.steps| then Some(now + q.steps[k].delay) else None
  }

  /** Event `j` of the run takes enrollment `i` from step `k` to the next. */
  predicate Advances(q: Sequence, db: Db, events: seq<Event>, i: nat, j: nat, k: nat)
    requires i < |db.enrollments|
  {
    && j < |events| && !events[j].Pool?
    && Run(q, db, events[..j]).enrollments[i].currentStep == k
    && Run(q, db, events[..j + 1]).enrollments[i].currentStep == k + 1
  }

  /** A stored send, a skipped step and a completed task each advance by one step, and schedule the next one after
      its own delay; nothing else moves the step or the time of the next send. */
  lemma AdvanceSchedules(q: Sequence, db: Db, ev: Event, i: nat)
    requires i < |db.enrollments|
    ensures var e, after := db.enrollments[i], StepDb(q, db, ev).enrollments[i];
      && (after.currentStep == e.currentStep ==> after.nextSendAt == e.nextSendAt)
      && (after.currentStep != e.currentStep ==>
            !ev.Pool? && after.currentStep == e.currentStep + 1 && ScheduledFor(q, after, e.currentStep + 1, ev.now))
  {
  }

  /** What a step of the run shows of a send: it was due, and it is of the step that is up. */
  lemma SendIsDue(q: Sequence, db: Db, ev: Event, i: nat)
    requires i < |db.enrollments|
    ensures var e, after := db.enrollments[i], StepDb(q, db, ev).enrollments[i];
      after.sent != e.sent ==>
        && ev.Handle? && after.sent == e.sent + [after.sent[|e.sent|]] && after.sent[|e.sent|].step == e.currentStep
        && after.sent[|e.sent|].at == ev.now && e.nextSendAt.Some? && e.nextSendAt.value <= ev.now
  {
  }

  lemma RunPrefix(q: Sequence, db: Db, events: seq<Event>)
    requires events != []
    ensures events[..|events|] == events
    ensures Run(q, db, events) == StepDb(q, Run(q, db, events[..|events| - 1]), events[|events| - 1])
  {
  }

  lemma AdvancesEarlier(q: Sequence, db: Db, events: seq<Event>, i: nat, j: nat, k: nat)
    requires i < |db.enrollments| && j + 1 < |events|
    ensures Advances(q, db, events[..|events| - 1], i, j, k) <==> Advances(q, db, events, i, j, k)
  {
    assert events[..|events| - 1][..j] == events[..j] && events[..|events| - 1][..j + 1] == events[..j + 1];
  }

  lemma {:induction false} StepIsMonotone(q: Sequence, db: Db, events: seq<Event>, i: nat, j: nat)
    requires i < |db.enrollments| && j <= |events|
    ensures Run(q, db, events[..j]).enrollments[i].currentStep <= Run(q, db, events).enrollments[i].currentStep
    decreases |events|
  {
    if j == |events| {
      assert events[..j] == events;
    } else {
      var n := |events| - 1;
      StepIsMonotone(q, db, events[..n], i, j);
      assert events[..n][..j] == events[..j];
      AdvanceSchedules(q, Run(q, db, events[..n]), events[n], i);
    }
  }

  lemma StillUp(q: Sequence, db: Db, events: seq<Event>, i: nat, j: nat, k: nat)
    requires i < |db.enrollments| && Advances(q, db, events, i, j, k) && j + 1 < |events|
    requires Run(q, db, events).enrollments[i].currentStep == k + 1
    ensures Run(q, db, events[..|events| - 1]).enrollments[i].currentStep == k + 1
  {
    var n := |events| - 1;
    StepIsMonotone(q, db, events[..n], i, j + 1);
    assert events[..n][..j + 1] == events[..j + 1];
    StepIsMonotone(q, db, events, i, n);
  }

  /** The next send stays scheduled as the event that brought the step up left it. */
  lemma {:induction false} ScheduleStands(q: Sequence, db: Db, events: seq<Event>, i: nat, j: nat, k: nat)
    requires i < |db.enrollments| && Advances(q, db, events, i, j, k)
    requires Run(q, db, events).enrollments[i].currentStep == k + 1
    ensures ScheduledFor(q, Run(q, db, events).enrollments[i], k + 1, events[j].now)
    decreases |events|
  {
    var n := |events| - 1;
    RunPrefix(q, db, events);
    AdvanceSchedules(q, Run(q, db, events[..n]), events[n], i);
    if j == n {
    } else {
      StillUp(q, db, events, i, j, k);
      AdvancesEarlier(q, db, events, i, j, k);
      ScheduleStands(q, db, events[..n], i, j, k);
    }
  }

  /** A send comes no earlier than the delay of its step after the event that brought the step up. */
  lemma {:induction false} SendKeepsDelay(q: Sequence, db: Db, events: seq<Event>, i: nat, m: nat, j: nat, k: nat)
    requires i < |db.enrollments| && Inv(q, db.enrollments[i])
    requires |db.enrollments[i].sent| <= m < |Run(q, db, events).enrollments[i].sent|
    requires Advances(q, db, events, i, j, k) && Run(q, db, events).enrollments[i].sent[m].step == k + 1
    ensures k + 1 < |q.steps|
    ensures Run(q, db, events).enrollments[i].sent[m].at >= events[j].now + q.steps[k + 1].delay
    decreases |events|
  {
    var n := |events| - 1;
    var before := Run(q, db, events[..n]).enrollments[i];
    RunPrefix(q, db, events);
    SendIsDue(q, Run(q, db, events[..n]), events[n], i);
    StepsGoOutInOrder(q, db, events[..n], i);
    assert j < n;
    AdvancesEarlier(q, db, events, i, j, k);
    if m < |before.sent| {
      SendKeepsDelay(q, db, events[..n], i, m, j, k);
    } else {
      ScheduleStands(q, db, events[..n], i, j, k);
    }
  }

  lemma {:induction false} StepWasBroughtUp(q: Sequence, db: Db, events: seq<Event>, i: nat, k: nat) returns (j: nat)
    requires i < |db.enrollments| && db.enrollments[i].currentStep <= k
    requires k < Run(q, db, events).enrollments[i].currentStep
    ensures Advances(q, db, events, i, j, k)
    decreases |events|
  {
    var n := |events| - 1;
    RunPrefix(q, db, events);
    AdvanceSchedules(q, Run(q, db, events[..n]), events[n], i);
    if k < Run(q, db, events[..n]).enrollments[i].currentStep {
      j := StepWasBroughtUp(q, db, events[..n], i, k);
      AdvancesEarlier(q, db, events, i, j, k);
    } else {
      j := n;
    }
  }

  lemma {:induction false} FirstStepWaits(q: Sequence, db: Db, events: seq<Event>, i: nat, at: int)
    requires i < |db.enrollments| && db.enrollments[i] == NewEnrollment(at)
    ensures var e := Run(q, db, events).enrollments[i];
      && (e.currentStep == 0 ==> e.nextSendAt == Some(at))
      && forall m :: 0 <= m < |e.sent| && e.sent[m].step == 0 ==> e.sent[m].at >= at
    decreases |events|
  {
    if events == [] {
    } else {
      var n := |events| - 1;
      FirstStepWaits(q, db, events[..n], i, at);
      AdvanceSchedules(q, Run(q, db, events[..n]), events[n], i);
      SendIsDue(q, Run(q, db, events[..n]), events[n], i);
    }
  }

  /** Event `j` brought step `k` up at least its delay before `at`. */
  predicate BroughtUp(q: Sequence, db: Db, events: seq<Event>, i: nat, j: nat, k: nat, at: int)
    requires i < |db.enrollments|
  {
    1 <= k < |q.steps| && Advances(q, db, events, i, j, k - 1) && at >= events[j].now + q.steps[k].delay
  }

  lemma LaterStepWaits(q: Sequence, db: Db, events: seq<Event>, i: nat, m: nat) returns (j: nat)
    requires i < |db.enrollments| && Inv(q, db.enrollments[i]) && db.enrollments[i].currentStep == 0
    requires |db.enrollments[i].sent| <= m < |Run(q, db, events).enrollments[i].sent|
    requires Run(q, db, events).enrollments[i].sent[m].step >= 1
    ensures var sent := Run(q, db, events).enrollments[i].sent[m];
      BroughtUp(q, db, events, i, j, sent.step, sent.at)
  {
    var k := Run(q, db, events).enrollments[i].sent[m].step - 1;
    StepsGoOutInOrder(q, db, events, i);
    j := StepWasBroughtUp(q, db, events, i, k);
    SendKeepsDelay(q, db, events, i, m, j, k);
  }

  /** Over any run of a new enrollment, every send keeps its delay: the first step goes out when it was put down
      for, and every later one no earlier than its own delay after the send, the skip or the completed task that
      brought it up. */
  lemma DelaysAreKept(q: Sequence, db: Db, events: seq<Event>, i: nat, at: int, m: nat)
    requires i < |db.enrollments| && db.enrollments[i] == NewEnrollment(at)
    requires m < |Run(q, db, events).enrollments[i].sent|
    ensures var sent := Run(q, db, events).enrollments[i].sent[m];
      if sent.step == 0 then sent.at >= at else exists j: nat :: BroughtUp(q, db, events, i, j, sent.step, sent.at)
  {
    if Run(q, db, events).enrollments[i].sent[m].step == 0 {
      FirstStepWaits(q, db, events, i, at);
    } else {
      var j := LaterStepWaits(q, db, events, i, m);
    }
  }

  /** A send that goes out is charged to the mailbox it went through, if that could be stored, and to no other; and
      the first stored send of a thread records its mailbox. */
  lemma SendIsCharged(q: Sequence, db: Db, i: nat, now: int, x: Findings)
    requires i < |db.enrollments|
    requires StepDb(q, db, Handle(i, now, x)).enrollments[i].sent != db.enrollments[i].sent
    ensures var e, t := db.enrollments[i], StepDb(q, db, Handle(i, now, x));
      var via := t.enrollments[i].sent[|e.sent|].mailbox;
      && |t.pool| == |db.pool|
      && (forall m :: 0 <= m < |db.pool| ==>
            t.pool[m].sentToday == db.pool[m].sentToday + if via == Some(m) && x.sending.counted then 1 else 0)
      && t.enrollments[i].mailboxId ==
           if e.currentStep == 0 && x.sending.stored && via.Some? then via else e.mailboxId
  {
  }

  /** A completed task ends the enrollment exactly when its step was the last. */
  lemma TaskEndsIn(q: Sequence, db: Db, i: nat, now: int)
    requires i < |db.enrollments| && db.enrollments[i].status == AwaitingManualAction
    ensures var e, after := db.enrollments[i], StepDb(q, db, TaskDone(i, now)).enrollments[i];
      && after.currentStep == e.currentStep + 1 && after.sent == e.sent
      && after.status == if e.currentStep + 1 < |q.steps| then Active else Completed
  {
  }

  /** Where a tick leaves a due enrollment: unsubscribed or bounced exactly when it is found suppressed, completed
      when an open or click ends it or its last email is stored, waiting when a manual step is up; and when it
      sends. */
  lemma TickEndsIn(q: Sequence, db: Db, i: nat, now: int, x: Findings)
    requires i < |db.enrollments| && db.enrollments[i].status == Active
    requires db.enrollments[i].nextSendAt.Some? && db.enrollments[i].nextSendAt.value <= now
    ensures var e, after := db.enrollments[i], StepDb(q, db, Handle(i, now, x)).enrollments[i];
      var goesOn := q.active && x.suppressed == NotSuppressed && x.inWindow;
      var stops := (q.stopOnOpen && x.openSeen) || (q.stopOnClick && x.clickSeen);
      var last := e.currentStep + 1 == |q.steps|;
      && (after.status == Unsubscribed <==> q.active && x.suppressed == UnsubscribedReason)
      && (after.status == Bounced <==> q.active && x.suppressed == OtherReason)
      && (after.status == AwaitingManualAction <==>
            goesOn && !stops && e.currentStep < |q.steps| && x.condition && !q.steps[e.currentStep].isEmail)
      && (after.status == Completed <==>
            goesOn && (stops || e.currentStep >= |q.steps|
                       || (last && x.condition && q.steps[e.currentStep].isEmail
                           && x.sending.WentOut? && x.sending.stored)))
      && (after.sent != e.sent <==>
            goesOn && !stops && e.currentStep < |q.steps| && x.condition && q.steps[e.currentStep].isEmail
            && x.sending.WentOut?)
  {
  }

  predicate Ended(e: Enrollment) {
    e.status == Unsubscribed || e.status == Bounced || e.status == Completed
  }

  predicate NoTaskDone(events: seq<Event>, i: nat) {
    forall ev :: ev in events && ev.TaskDone? ==> ev.i != i
  }

  /** Nothing is sent, and nothing else changes, once an enrollment has ended, or while it waits for a task, or
      when it has no next send time any more. */
  lemma {:induction false} Quiet(q: Sequence, db: Db, events: seq<Event>, i: nat)
    requires i < |db.enrollments|
    requires var e := db.enrollments[i];
      || Ended(e)
      || (e.status == AwaitingManualAction && NoTaskDone(events, i))
      || (e.status == Active && e.nextSendAt == None)
    ensures Run(q, db, events).enrollments[i] == db.enrollments[i]
    decreases |events|
  {
    if events == [] {
    } else {
      var n := |events| - 1;
      assert events[n] in events;
      assert forall ev :: ev in events[..n] ==> ev in events;
      Quiet(q, db, events[..n], i);
    }
  }

  /** Skipping the last step on its condition leaves an enrollment active for ever. */
  lemma SkippedLastStepStrands(q: Sequence, pool: seq<Mailbox>, e: Enrollment, now: int, x: Findings,
                               events: seq<Event>)
    requires q.active && x.suppressed == NotSuppressed && x.inWindow && !x.openSeen && !x.clickSeen && !x.condition
    requires Due(e, now) && e.currentStep + 1 == |q.steps|
    ensures var stuck := Run(q, Db([e], pool), [Handle(0, now, x)] + events).enrollments[0];
      stuck.status == Active && stuck.nextSendAt == None && stuck.currentStep == |q.steps|
    decreases |events|
  {
    var first := [Handle(0, now, x)];
    assert first[..0] == [];
    assert Run(q, Db([e], pool), first) == StepDb(q, Db([e], pool), first[0]);
    RunConcat(q, Db([e], pool), first, events);
    Quiet(q, Run(q, Db([e], pool), first), events, 0);
  }

  lemma {:induction false} RunConcat(q: Sequence, db: Db, a: seq<Event>, b: seq<Event>)
    ensures Run(q, db, a + b) == Run(q, Run(q, db, a), b)
    decreases |b|
  {
    if b == [] {
      assert a + b == a;
    } else {
      RunConcat(q, db, a, b[..|b| - 1]);
      assert (a + b)[..|a + b| - 1] == a + b[..|b| - 1];
    }
  }

  /** Every tick finds enrollment `i` suppressed. */
  predicate AlwaysSuppressed(events: seq<Event>, i: nat) {
    forall ev :: ev in events && ev.Handle? && ev.i == i ==> ev.x.suppressed != NotSuppressed
  }

  lemma {:induction false} NothingWhileSuppressed(q: Sequence, db: Db, events: seq<Event>, i: nat)
    requires i < |db.enrollments| && AlwaysSuppressed(events, i)
    ensures Run(q, db, events).enrollments[i].sent == db.enrollments[i].sent
    decreases |events|
  {
    if events == [] {
    } else {
      var n := |events| - 1;
      assert events[n] in events;
      assert forall ev :: ev in events[..n] ==> ev in events;
      NothingWhileSuppressed(q, db, events[..n], i);
    }
  }

  /** The recorded mailbox is available whenever enrollment `i` is handled. */
  predicate StaysAvailable(q: Sequence, db: Db, events: seq<Event>, i: nat, m: nat)
    decreases |events|
  {
    events != [] ==>
      var n := |events| - 1;
      && StaysAvailable(q, db, events[..n], i, m)
      && (events[n].Handle? && events[n].i == i ==> Available(Run(q, db, events[..n]).pool, m))
  }

  /** Once recorded, a mailbox stays recorded, and as long as it is available every later step goes through it. */
  lemma {:induction false} ThreadKeepsItsMailbox(q: Sequence, db: Db, events: seq<Event>, i: nat, m: nat)
    requires i < |db.enrollments| && Inv(q, db.enrollments[i]) && db.enrollments[i].mailboxId == Some(m)
    ensures var e := Run(q, db, events).enrollments[i];
      && e.mailboxId == Some(m) && e.currentStep > 0 && db.enrollments[i].sent <= e.sent
      && (StaysAvailable(q, db, events, i, m) ==>
            forall k :: |db.enrollments[i].sent| <= k < |e.sent| ==> e.sent[k].mailbox == Some(m))
    decreases |events|
  {
    if events == [] {
    } else {
      var n := |events| - 1;
      ThreadKeepsItsMailbox(q, db, events[..n], i, m);
      var before := Run(q, db, events[..n]);
      if events[n].Handle? && events[n].i == i && Available(before.pool, m) {
        AvailableMeansSome(before.pool, m);
      }
    }
  }

  lemma AvailableMeansSome(pool: seq<Mailbox>, m: nat)
    requires Available(pool, m)
    ensures FirstAvailable(pool, 0).Some?
  {
  }

  predicate WithinLimits(pool: seq<Mailbox>) {
    forall m :: 0 <= m < |pool| ==> pool[m].sentToday <= pool[m].dailyLimit
  }

  /** Sends of the sequence never push a mailbox past its daily limit, whatever state the mailboxes are in. */
  lemma SendsKeepLimits(q: Sequence, db: Db, ev: Event, m: nat)
    requires !ev.Pool? && m < |db.pool|
    ensures var after := StepDb(q, db, ev).pool;
      && |after| == |db.pool| && after[m].dailyLimit == db.pool[m].dailyLimit
      && (after[m].sentToday != db.pool[m].sentToday ==>
            after[m].sentToday == db.pool[m].sentToday + 1 <= after[m].dailyLimit && after[m].usable)
  {
  }

  lemma {:induction false} RunKeepsLimits(q: Sequence, db: Db, events: seq<Event>)
    requires WithinLimits(db.pool) && forall ev :: ev in events && ev.Pool? ==> WithinLimits(ev.pool)
    ensures WithinLimits(Run(q, db, events).pool)
    decreases |events|
  {
    if events == [] {
    } else {
      var n := |events| - 1;
      assert events[n] in events;
      assert forall ev :: ev in events[..n] ==> ev in events;
      RunKeepsLimits(q, db, events[..n]);
      var before := Run(q, db, events[..n]);
      if !events[n].Pool? {
        forall m: nat | m < |before.pool|
          ensures Run(q, db, events).pool[m].sentToday <= Run(q, db, events).pool[m].dailyLimit
        {
          SendsKeepLimits(q, before, events[n], m);
        }
      }
    }
  }

  // ---- The tick ----

  /** A tick as events: one per enrollment of its batch. */
  function TickEvents(batch: seq<nat>, now: int, findings: seq<Findings>, n: nat): (events: seq<Event>)
    requires n <= |batch| && |findings| == |batch|
    ensures |events| == n
  {
    if n == 0 then [] else TickEvents(batch, now, findings, n - 1) + [Handle(batch[n - 1], now, findings[n - 1])]
  }

  class SequenceStore {
    const q: Sequence
    var enrollments: seq<Enrollment>
    var pool: seq<Mailbox>

    ghost function Now(): Db
      reads this
    {
      Db(enrollments, pool)
    }

    constructor (q: Sequence, enrollments: seq<Enrollment>, pool: seq<Mailbox>)
      ensures this.q == q && Now() == Db(enrollments, pool)
    {
      this.q, this.enrollments, this.pool := q, enrollments, pool;
    }

    /** The mailbox for the next send of `e`. */
    method SelectMailbox(e: Enrollment, ranked: nat) returns (selected: Option<nat>)
      ensures selected == Select(q, pool, e, ranked)
    {
      var first := FirstAvailable(pool, 0);
      if first.None? {
        return None;
      }
      if e.mailboxId.Some? && Available(pool, e.mailboxId.value) && e.currentStep > 0 {
        return e.mailboxId;
      }
      if q.mailboxId.Some? && Available(pool, q.mailboxId.value) {
        return q.mailboxId;
      }
      selected := if Available(pool, ranked) then Some(ranked) else first;
    }

    /** Sends the current step of enrollment `i` and stores what came of it. */
    method SendStep(i: nat, now: int, ranked: nat, sending: Sending)
      requires i < |enrollments|
      modifies this
      ensures var e := old(enrollments)[i]; var m := Select(q, old(pool), e, ranked);
        && enrollments == old(enrollments)[i := AfterSending(q, e, m, now, sending)]
        && pool == Charge(old(pool), m, sending)
        && (sending.WentOut? && sending.stored ==> ScheduledFor(q, enrollments[i], e.currentStep + 1, now))
    {
      var e := enrollments[i];
      var m := SelectMailbox(e, ranked);
      if sending.Threw? {
        return;
      }
      if m.Some? && sending.counted {
        pool := pool[m.value := pool[m.value].(sentToday := pool[m.value].sentToday + 1)];
      }
      var logged := e.(sent := e.sent + [Sent(e.currentStep, m, sending.stored, now)]);
      if sending.stored {
        var next := e.currentStep + 1;
        logged := logged.(currentStep := next, nextSendAt := NextAt(q, next, now),
                          mailboxId := if e.currentStep == 0 && m.Some? then m else e.mailboxId,
                          status := if next < |q.steps| then e.status else Completed);
      }
      enrollments := enrollments[i := logged];
    }

    method HandleEnrollment(i: nat, now: int, x: Findings)
      modifies this
      ensures Now() == StepDb(q, old(Now()), Handle(i, now, x))
      ensures i < |enrollments| && enrollments[i].currentStep != old(enrollments)[i].currentStep ==>
        ScheduledFor(q, enrollments[i], old(enrollments)[i].currentStep + 1, now)
    {
      if i >= |enrollments| || !Due(enrollments[i], now) {
        return;
      }
      var e := enrollments[i];
      if !q.active {
        return;
      }
      if x.suppressed != NotSuppressed {
        var ended := if x.suppressed == UnsubscribedReason then Unsubscribed else Bounced;
        enrollments := enrollments[i := e.(status := ended)];
        return;
      }
      if !x.inWindow {
        return;
      }
      if (q.stopOnOpen && x.openSeen) || (q.stopOnClick && x.clickSeen) || e.currentStep >= |q.steps| {
        enrollments := enrollments[i := e.(status := Completed)];
        return;
      }
      if !x.condition {
        var next := e.currentStep + 1;
        enrollments := enrollments[i := e.(currentStep := next, nextSendAt := NextAt(q, next, now))];
        return;
      }
      if !q.steps[e.currentStep].isEmail {
        enrollments := enrollments[i := e.(status := AwaitingManualAction)];
        return;
      }
      SendStep(i, now, x.ranked, x.sending);
    }

    /** `processSequenceTick` over the batch of due enrollments. */
    method ProcessSequenceTick(batch: seq<nat>, now: int, findings: seq<Findings>)
      requires |findings| == |batch|
      modifies this
      ensures Now() == Run(q, old(Now()), TickEvents(batch, now, findings, |batch|))
    {
      for n := 0 to |batch|
        invariant Now() == Run(q, old(Now()), TickEvents(batch, now, findings, n))
      {
        HandleEnrollment(batch[n], now, findings[n]);
        ghost var events := TickEvents(batch, now, findings, n + 1);
        assert events[..n] == TickEvents(batch, now, findings, n);
      }
    }

    /** `complete-task`; false is "not found". */
    method CompleteManualTask(i: nat, now: int) returns (found: bool)
      modifies this`enrollments
      ensures Now() == StepDb(q, old(Now()), TaskDone(i, now))
      ensures found <==> i < |old(enrollments)| && old(enrollments)[i].status == AwaitingManualAction
      ensures found ==> ScheduledFor(q, enrollments[i], old(enrollments)[i].currentStep + 1, now)
    {
      if i >= |enrollments| || enrollments[i].status != AwaitingManualAction {
        return false;
      }
      var e := enrollments[i];
      var next := e.currentStep + 1;
      enrollments := enrollments[i := e.(currentStep := next, nextSendAt := NextAt(q, next, now),
                                         status := if next < |q.steps| then Active else Completed)];
      return true;
    }
  }
}
