/** One-shot agent runs (nurture and outbound): kick, draft, approve, send, pause, cancel, with every
    handler an atomic step, under any order of events. */
module AgentRun {
  datatype Option<T> = None | Some(value: T)

  datatype Email = Email(subject: string, htmlBody: string, textBody: string)

  datatype DraftStep = DraftStep(email: Email, delayDays: nat)

  /** What the generator wrote and the run stores. */
  datatype Draft = EmailDraft(email: Email) | SequenceDraft(name: string, steps: seq<DraftStep>)

  datatype Pillar = Nurture(autoSend: bool) | Outbound

  /** The part of the stored configuration that no event changes; `valid` is whether it parses. */
  datatype Config = Config(pillar: Pillar, valid: bool, fromName: string, fromEmail: string, replyTo: Option<string>,
                           listId: string, mailboxId: Option<string>, leadIds: seq<string>)

  datatype Status = PendingApproval | Active | Running | Paused | Completed | Failed | Cancelled

  datatype StepRow = StepRow(stepOrder: nat, delayDays: nat, email: Email)

  /** The rows that hand a draft to the send workers. */
  datatype Product =
    | Campaign(name: string, fromName: string, fromEmail: string, replyTo: Option<string>, email: Email,
               listIds: seq<string>)
    | Sequence(name: string, fromName: string, fromEmail: string, mailboxId: Option<string>, steps: seq<StepRow>,
               leadIds: seq<string>)

  function FirstOf(s: string, n: nat): string {
    if |s| <= n then s else s[..n]
  }

  /** The campaign or sequence made of a draft. */
  function Built(cfg: Config, draft: Draft): Product {
    match draft
    case EmailDraft(e) => Campaign(FirstOf(e.subject, 200), cfg.fromName, cfg.fromEmail, cfg.replyTo, e, [cfg.listId])
    case SequenceDraft(name, steps) =>
      var rows := seq(|steps|, i requires 0 <= i < |steps| => StepRow(i, steps[i].delayDays, steps[i].email));
      Sequence(name, cfg.fromName, cfg.fromEmail, cfg.mailboxId, rows, cfg.leadIds)
  }

  /** Nothing of a draft is lost on the way: what is created tells the draft. */
  lemma BuiltTellsTheDraft(cfg: Config, a: Draft, b: Draft)
    ensures Built(cfg, a) == Built(cfg, b) <==> a == b
  {
    if Built(cfg, a) == Built(cfg, b) && a.SequenceDraft? {
      forall i | 0 <= i < |a.steps| ensures a.steps[i] == b.steps[i] {
        assert Built(cfg, a).steps[i] == StepRow(i, a.steps[i].delayDays, a.steps[i].email);
        assert Built(cfg, b).steps[i] == StepRow(i, b.steps[i].delayDays, b.steps[i].email);
      }
      assert a.steps == b.steps;
    }
  }

  /** What is created has the draft's text and the configuration's sender and audience; a campaign is named after
      the first 200 characters of its subject, and the steps are numbered in order, each with its delay. */
  lemma BuiltCarries(cfg: Config, draft: Draft)
    ensures var p := Built(cfg, draft);
      && p.fromName == cfg.fromName && p.fromEmail == cfg.fromEmail
      && (draft.EmailDraft? ==>
            && p.Campaign? && p.email == draft.email && p.replyTo == cfg.replyTo && p.listIds == [cfg.listId]
            && p.name <= draft.email.subject && (|draft.email.subject| <= 200 ==> p.name == draft.email.subject)
            && (|draft.email.subject| > 200 ==> |p.name| == 200))
      && (draft.SequenceDraft? ==>
            && p.Sequence? && p.name == draft.name && p.mailboxId == cfg.mailboxId && p.leadIds == cfg.leadIds
            && |p.steps| == |draft.steps|
            && forall i :: 0 <= i < |p.steps| ==>
                 && p.steps[i].stepOrder == i && p.steps[i].email == draft.steps[i].email
                 && p.steps[i].delayDays == draft.steps[i].delayDays)
  {
  }

  /** A campaign or sequence that was really created. */
  datatype Creation = Creation(content: Product, approved: bool)

  /** The stored run, with the history of what it created; `unrecorded` counts creations after which the
      handler threw before it could store the new id. */
  datatype Run = Run(cfg: Config, status: Status, pausedAt: bool,
                     draft: Option<Draft>, sentId: Option<nat>, created: seq<Creation>, unrecorded: nat)

  function NewRun(cfg: Config): Run {
    Run(cfg, Active, false, None, None, [], 0)
  }

  /** How generating a draft went: it threw, the worker died under it, or it gave a draft. */
  datatype Generated = Threw | Died | Made(draft: Draft)

  /** How creating and storing the id went. */
  datatype Creating = NotCreated | Unrecorded | Recorded(id: nat)

  datatype Patch = ConfigOnly | ToPaused | ToActive

  datatype Event =
    | Kick(generated: Generated, creating: Creating)
    | Update(patch: Patch)
    | Cancel
    | Approve(creating: Creating)
    | Trigger

  predicate AutoSends(r: Run) {
    r.cfg.pillar.Nurture? && r.cfg.pillar.autoSend
  }

  /** `createAndSendCampaignFromDraft` or `createSequenceAndEnrollFromDraft`, and the id stored after it. */
  function Create(r: Run, draft: Draft, approved: bool, creating: Creating, otherwise: Run): Run {
    var created := r.created + [Creation(Built(r.cfg, draft), approved)];
    match creating
    case NotCreated => otherwise
    case Unrecorded => otherwise.(created := created, unrecorded := r.unrecorded + 1)
    case Recorded(id) => r.(status := Completed, draft := Some(draft), sentId := Some(id), created := created)
  }

  function AfterKick(r: Run, generated: Generated, creating: Creating): Run {
    if r.status != Active || r.pausedAt then r
    else if !r.cfg.valid then r.(status := Failed)
    else if r.sentId.Some? then r
    else if r.draft.Some? then r.(status := PendingApproval)
    else match generated
      case Threw => r.(status := Failed)
      case Died => r.(status := Running)
      case Made(draft) =>
        if AutoSends(r) then Create(r, draft, false, creating, r.(status := Failed))
        else r.(status := PendingApproval, draft := Some(draft))
  }

  function AfterUpdate(r: Run, patch: Patch): Run {
    if r.status == Cancelled then r
    else match patch
      case ConfigOnly => r
      case ToPaused => r.(status := Paused, pausedAt := true)
      case ToActive => r.(status := Active, pausedAt := false)
  }

  function AfterApprove(r: Run, creating: Creating): Run {
    if r.status != PendingApproval || !r.cfg.valid || r.draft.None? then r
    else Create(r, r.draft.value, true, creating, r)
  }

  function Step(r: Run, e: Event): Run {
    match e
    case Kick(generated, creating) => AfterKick(r, generated, creating)
    case Update(patch) => AfterUpdate(r, patch)
    case Cancel => if r.status == Cancelled then r else r.(status := Cancelled, pausedAt := true)
    case Approve(creating) => AfterApprove(r, creating)
    case Trigger => r
  }

  function RunFrom(r: Run, events: seq<Event>): Run
    decreases |events|
  {
    if events == [] then r else Step(RunFrom(r, events[..|events| - 1]), events[|events| - 1])
  }

  /** The state after any sequence of events on a new run. */
  function After(cfg: Config, events: seq<Event>): Run {
    RunFrom(NewRun(cfg), events)
  }

  // ---- What every run keeps ----

  predicate Inv(r: Run) {
    && |r.created| == r.unrecorded + (if r.sentId.Some? then 1 else 0)
    && (r.status == PendingApproval ==> r.cfg.valid && r.draft.Some? && r.sentId.None?)
    && (r.sentId.Some? ==> r.draft.Some? && r.created[|r.created| - 1].content == Built(r.cfg, r.draft.value))
    && (forall c :: c in r.created && c.approved ==> r.draft.Some? && c.content == Built(r.cfg, r.draft.value))
    && (!AutoSends(r) ==> forall c :: c in r.created ==> c.approved)
    && (AutoSends(r) ==> forall c :: c in r.created ==> !c.approved)
    && (AutoSends(r) ==> (r.draft.Some? <==> r.sentId.Some?))
  }

  lemma CreateKeepsInv(r: Run, draft: Draft, approved: bool, creating: Creating, otherwise: Run)
    requires Inv(r) && r.sentId.None? && otherwise == r.(status := otherwise.status)
    requires otherwise.status == PendingApproval ==> r.status == PendingApproval
    requires if approved then r.draft == Some(draft) && !AutoSends(r) else AutoSends(r)
    ensures Inv(Create(r, draft, approved, creating, otherwise))
  {
  }

  lemma StepKeepsInv(r: Run, e: Event)
    requires Inv(r)
    ensures Inv(Step(r, e))
  {
    match e
    case Kick(Made(draft), creating) =>
      if r.status == Active && r.sentId.None? && AutoSends(r) {
        CreateKeepsInv(r, draft, false, creating, r.(status := Failed));
      }
    case Approve(creating) =>
      if r.status == PendingApproval {
        CreateKeepsInv(r, r.draft.value, true, creating, r);
      }
    case _ =>
  }

  lemma {:induction false} RunKeepsInv(r: Run, events: seq<Event>)
    requires Inv(r)
    ensures Inv(RunFrom(r, events)) && RunFrom(r, events).cfg == r.cfg
    decreases |events|
  {
    if events == [] {
    } else {
      RunKeepsInv(r, events[..|events| - 1]);
      StepKeepsInv(RunFrom(r, events[..|events| - 1]), events[|events| - 1]);
    }
  }

  lemma {:induction false} RunConcat(r: Run, a: seq<Event>, b: seq<Event>)
    ensures RunFrom(r, a + b) == RunFrom(RunFrom(r, a), b)
    decreases |b|
  {
    if b == [] {
      assert a + b == a;
    } else {
      RunConcat(r, a, b[..|b| - 1]);
      assert (a + b)[..|a + b| - 1] == a + b[..|b| - 1];
    }
  }

  /** At most one id is ever stored, and every creation beyond it went unrecorded. */
  lemma CreatedExactly(cfg: Config, events: seq<Event>)
    ensures var r := After(cfg, events); |r.created| == r.unrecorded + (if r.sentId.Some? then 1 else 0)
  {
    RunKeepsInv(NewRun(cfg), events);
  }

  /** The handler of this event does not throw between creating and storing the id. */
  predicate Records(e: Event) {
    (e.Kick? || e.Approve?) ==> !e.creating.Unrecorded?
  }

  predicate AllRecord(events: seq<Event>) {
    forall e :: e in events ==> Records(e)
  }

  lemma {:induction false} NoneUnrecorded(r: Run, events: seq<Event>)
    requires AllRecord(events)
    ensures RunFrom(r, events).unrecorded == r.unrecorded
    decreases |events|
  {
    if events == [] {
    } else {
      var n := |events| - 1;
      assert Records(events[n]);
      assert forall e :: e in events[..n] ==> e in events;
      NoneUnrecorded(r, events[..n]);
    }
  }

  /** Over any events whose handlers store the id of what they create, a run creates at most one campaign or
      sequence, and none while it waits for approval. */
  lemma AtMostOneCreation(cfg: Config, events: seq<Event>)
    requires AllRecord(events)
    ensures var r := After(cfg, events);
      |r.created| <= 1 && (r.status == PendingApproval ==> r.created == []) && (r.created != [] <==> r.sentId.Some?)
  {
    RunKeepsInv(NewRun(cfg), events);
    NoneUnrecorded(NewRun(cfg), events);
  }

  /** The stored row of a run that creates nothing any more. */
  predicate Closed(r: Run) {
    r.sentId.Some? || r.status == Cancelled || !r.cfg.valid
  }

  lemma {:induction false} ClosedCreatesNothing(r: Run, events: seq<Event>)
    requires Inv(r) && Closed(r)
    ensures RunFrom(r, events).created == r.created && Closed(RunFrom(r, events))
    ensures r.sentId.Some? ==> RunFrom(r, events).sentId == r.sentId
    decreases |events|
  {
    if events == [] {
    } else {
      var n := |events| - 1;
      RunKeepsInv(r, events[..n]);
      ClosedCreatesNothing(r, events[..n]);
    }
  }

  /** From an open run, a resume, a kick and an approval create. */
  lemma OpenCreates(r: Run, d: Draft) returns (later: seq<Event>)
    requires Inv(r) && !Closed(r)
    ensures |RunFrom(r, later).created| == |r.created| + 1
  {
    RunStep(r, [], Update(ToActive));
    assert [] + [Update(ToActive)] == [Update(ToActive)];
    var kick := Kick(Made(d), Unrecorded);
    RunStep(r, [Update(ToActive)], kick);
    if AutoSends(r) {
      later := [Update(ToActive)] + [kick];
    } else {
      RunStep(r, [Update(ToActive)] + [kick], Approve(Unrecorded));
      later := [Update(ToActive)] + [kick] + [Approve(Unrecorded)];
    }
  }

  lemma RunStep(r: Run, events: seq<Event>, e: Event)
    ensures RunFrom(r, events + [e]) == Step(RunFrom(r, events), e)
  {
    assert (events + [e])[..|events|] == events;
  }

  /** Exactly when a run can create no more, whatever comes: its id is stored, it is cancelled, or its
      configuration does not parse. */
  lemma NothingMoreExactly(r: Run)
    requires Inv(r)
    ensures (forall later :: RunFrom(r, later).created == r.created) <==> Closed(r)
  {
    if Closed(r) {
      forall later ensures RunFrom(r, later).created == r.created {
        ClosedCreatesNothing(r, later);
      }
    } else {
      var later := OpenCreates(r, EmailDraft(Email("", "", "")));
      assert RunFrom(r, later).created != r.created;
    }
  }

  /** So after its first creation a run stays at one exactly when it stored the id or was cancelled. */
  lemma StaysAtOneExactly(cfg: Config, events: seq<Event>)
    requires |After(cfg, events).created| == 1
    ensures var r := After(cfg, events);
      (forall later :: |RunFrom(r, later).created| <= 1) <==> r.sentId.Some? || r.status == Cancelled
  {
    var r := After(cfg, events);
    RunKeepsInv(NewRun(cfg), events);
    CreatedMeansValid(cfg, events);
    if Closed(r) {
      forall later ensures |RunFrom(r, later).created| <= 1 {
        ClosedCreatesNothing(r, later);
      }
    } else {
      var later := OpenCreates(r, EmailDraft(Email("", "", "")));
      assert |RunFrom(r, later).created| == 2;
    }
  }

  lemma CreatedMeansValid(cfg: Config, events: seq<Event>)
    ensures After(cfg, events).created != [] ==> cfg.valid
  {
    RunKeepsInv(NewRun(cfg), []);
    RunKeepsInv(NewRun(cfg), events);
    if !cfg.valid {
      ClosedCreatesNothing(NewRun(cfg), events);
    }
  }

  /** Waiting for approval means there is a draft to look at and no id of anything sent. */
  lemma PendingMeansDraftUnsent(cfg: Config, events: seq<Event>)
    ensures var r := After(cfg, events); r.status == PendingApproval ==> r.draft.Some? && r.sentId.None?
    ensures var r := After(cfg, events); r.status == PendingApproval && AllRecord(events) ==> r.created == []
  {
    RunKeepsInv(NewRun(cfg), events);
    if AllRecord(events) {
      NoneUnrecorded(NewRun(cfg), events);
    }
  }

  predicate NoApprove(events: seq<Event>) {
    forall e :: e in events ==> !e.Approve?
  }

  /** An outbound or reviewed nurture run creates nothing unless somebody approves. */
  lemma {:induction false} NothingWithoutApproval(cfg: Config, events: seq<Event>)
    requires NoApprove(events) && cfg.pillar != Nurture(true)
    ensures After(cfg, events).created == []
    decreases |events|
  {
    if events == [] {
    } else {
      var n := |events| - 1;
      NothingWithoutApproval(cfg, events[..n]);
      RunKeepsInv(NewRun(cfg), events[..n]);
      assert events[n] in events;
    }
  }

  /** A stored draft is never replaced ... */
  lemma {:induction false} DraftStays(r: Run, events: seq<Event>)
    requires r.draft.Some?
    ensures RunFrom(r, events).draft == r.draft
    decreases |events|
  {
    if events == [] {
    } else {
      DraftStays(r, events[..|events| - 1]);
    }
  }

  /** ... so what an approval creates is exactly the draft that was waiting, whenever it is approved. */
  lemma ApprovedIsTheDraft(cfg: Config, before: seq<Event>, after: seq<Event>, c: Creation)
    requires var r := After(cfg, before); r.draft.Some?
    requires c in After(cfg, before + after).created && c.approved
    ensures c.content == Built(cfg, After(cfg, before).draft.value)
  {
    RunConcat(NewRun(cfg), before, after);
    DraftStays(After(cfg, before), after);
    RunKeepsInv(NewRun(cfg), before + after);
  }

  /** Approving a run that waits for it sends the draft, whatever happened before. */
  lemma ApprovalSends(cfg: Config, events: seq<Event>, id: nat)
    requires After(cfg, events).status == PendingApproval
    ensures var r, s := After(cfg, events), After(cfg, events + [Approve(Recorded(id))]);
      && s.status == Completed && s.sentId == Some(id)
      && r.draft.Some? && s.created == r.created + [Creation(Built(cfg, r.draft.value), true)]
  {
    RunKeepsInv(NewRun(cfg), events);
    assert (events + [Approve(Recorded(id))])[..|events|] == events;
  }

  /** Pausing and resuming a run that waits for approval loses nothing: the next kick, whatever it would
      generate, brings it back to waiting with the same draft. */
  lemma ResumedRunWaitsAgain(r: Run, generated: Generated, creating: Creating)
    requires Inv(r) && r.status == PendingApproval
    ensures var s := RunFrom(r, [Update(ToPaused), Update(ToActive), Kick(generated, creating)]);
      s.status == PendingApproval && s.draft == r.draft && s.created == r.created
  {
    var events := [Update(ToPaused), Update(ToActive), Kick(generated, creating)];
    assert events[..2][..1][..0] == [] && events[..2][..1] == events[..1] && events[..1][..0] == [];
    assert RunFrom(r, events[..1]) == Step(r, events[0]);
    assert RunFrom(r, events[..2]) == Step(RunFrom(r, events[..1]), events[1]);
  }

  /** A patch or a cancel, column by column: pausing and resuming set the status and its mark and nothing else,
      unless the run is cancelled. */
  lemma PauseAndResume(r: Run)
    requires r.status != Cancelled
    ensures RunFrom(r, [Update(ToPaused)]) == r.(status := Paused, pausedAt := true)
    ensures RunFrom(r, [Update(ToActive)]) == r.(status := Active, pausedAt := false)
    ensures RunFrom(r, [Update(ConfigOnly)]) == r
    ensures RunFrom(r, [Cancel]) == r.(status := Cancelled, pausedAt := true)
  {
    forall e: Event ensures RunFrom(r, [e]) == Step(r, e) {
      assert [e][..0] == [];
    }
  }

  predicate NoResume(events: seq<Event>) {
    forall e :: e in events && e.Update? ==> !e.patch.ToActive?
  }

  /** A paused run stays as it is until somebody resumes it, or cancels it for good: nothing is created and no
      draft is written. */
  lemma {:induction false} PausedDoesNothing(r: Run, events: seq<Event>)
    requires r.status == Paused && NoResume(events)
    ensures var s := RunFrom(r, events);
      s == r.(status := s.status, pausedAt := s.pausedAt) && (s.status == Paused || s.status == Cancelled)
    decreases |events|
  {
    if events == [] {
    } else {
      var n := |events| - 1;
      assert events[n] in events;
      assert forall e :: e in events[..n] ==> e in events;
      PausedDoesNothing(r, events[..n]);
    }
  }

  predicate IsActive(r: Run) {
    r.status == Active && !r.pausedAt
  }

  /** A kick moves only an active run. It ends waiting for approval, failed, running or completed exactly so;
      and it leaves an active run active exactly when its id is stored. */
  lemma KickInWords(r: Run, generated: Generated, creating: Creating)
    ensures var s := RunFrom(r, [Kick(generated, creating)]);
      var blank := r.cfg.valid && r.sentId.None? && r.draft.None?;
      var sends := r.cfg.pillar == Nurture(true);
      if !IsActive(r) then s == r
      else
        && (s.status == Failed <==>
              !r.cfg.valid || (blank && (generated.Threw? || (generated.Made? && sends && !creating.Recorded?))))
        && (s.status == PendingApproval <==>
              r.cfg.valid && r.sentId.None? && (r.draft.Some? || (generated.Made? && !sends)))
        && (s.status == Running <==> blank && generated.Died?)
        && (s.status == Completed <==> blank && generated.Made? && sends && creating.Recorded?)
        && (s.status == Active <==> r.cfg.valid && r.sentId.Some?)
        && (s.draft != r.draft ==> generated.Made? && s.draft == Some(generated.draft))
        && (s.sentId != r.sentId ==> s.status == Completed && creating.Recorded? && s.sentId == Some(creating.id))
  {
    var kick := Kick(generated, creating);
    assert [kick][..0] == [] && RunFrom(r, [kick]) == Step(r, kick);
  }

  /** A stored id is final: nothing is created after it. */
  lemma SentIsFinal(r: Run, events: seq<Event>)
    requires Inv(r) && r.sentId.Some?
    ensures RunFrom(r, events).sentId == r.sentId && RunFrom(r, events).created == r.created
  {
    ClosedCreatesNothing(r, events);
  }

  /** Cancelled is absorbing: no event changes anything. */
  lemma {:induction false} CancelledIsAbsorbing(r: Run, events: seq<Event>)
    requires r.status == Cancelled
    ensures RunFrom(r, events) == r
    decreases |events|
  {
    if events == [] {
    } else {
      CancelledIsAbsorbing(r, events[..|events| - 1]);
    }
  }

  /** A creation that goes unrecorded is repeated by the next approval. */
  lemma UnrecordedIsRepeated(cfg: Config, d: Draft)
    requires cfg.valid && cfg.pillar == Outbound
    ensures |After(cfg, [Kick(Made(d), NotCreated)] + [Approve(Unrecorded)] + [Approve(Recorded(7))]).created| == 2
  {
    var kick := Kick(Made(d), NotCreated);
    RunStep(NewRun(cfg), [], kick);
    assert [] + [kick] == [kick];
    RunStep(NewRun(cfg), [kick], Approve(Unrecorded));
    RunStep(NewRun(cfg), [kick] + [Approve(Unrecorded)], Approve(Recorded(7)));
  }

  // ---- The handlers ----

  class StoredRun {
    const cfg: Config
    var status: Status
    var pausedAt: bool
    var draft: Option<Draft>
    var sentId: Option<nat>
    ghost var created: seq<Creation>
    ghost var unrecorded: nat

    ghost function Now(): Run
      reads this
    {
      Run(cfg, status, pausedAt, draft, sentId, created, unrecorded)
    }

    constructor (cfg: Config)
      ensures Now() == NewRun(cfg)
    {
      this.cfg := cfg;
      status, pausedAt, draft, sentId, created, unrecorded := Active, false, None, None, [], 0;
    }

    /** `runKick`, then the tick of the pillar. */
    method ProcessKick(generated: Generated, creating: Creating)
      modifies this
      ensures Now() == Step(old(Now()), Kick(generated, creating))
    {
      if status != Active || pausedAt {
        return;
      }
      if !cfg.valid {
        status := Failed;
        return;
      }
      if sentId.Some? {
        return;
      }
      if draft.Some? {
        status := PendingApproval;
        return;
      }
      status := Running;
      match generated
      case Threw => status := Failed;
      case Died =>
      case Made(made) =>
        if cfg.pillar.Nurture? && cfg.pillar.autoSend {
          var done := Send(made, false, creating);
          if !done {
            status := Failed;
          }
        } else {
          status, draft := PendingApproval, Some(made);
        }
    }

    /** The rows written for a draft, its steps one by one. */
    method Build(made: Draft) returns (product: Product)
      ensures product == Built(cfg, made)
    {
      match made
      case EmailDraft(e) =>
        product := Campaign(FirstOf(e.subject, 200), cfg.fromName, cfg.fromEmail, cfg.replyTo, e, [cfg.listId]);
      case SequenceDraft(name, steps) =>
        var rows := [];
        for i := 0 to |steps|
          invariant |rows| == i
          invariant forall j :: 0 <= j < i ==> rows[j] == StepRow(j, steps[j].delayDays, steps[j].email)
        {
          rows := rows + [StepRow(i, steps[i].delayDays, steps[i].email)];
        }
        product := Sequence(name, cfg.fromName, cfg.fromEmail, cfg.mailboxId, rows, cfg.leadIds);
    }

    /** Creates from the draft, then stores completion; false when the handler threw on the way. */
    method Send(made: Draft, approved: bool, creating: Creating) returns (done: bool)
      modifies this
      ensures done <==> creating.Recorded?
      ensures Now() == Create(old(Now()), made, approved, creating, old(Now()))
    {
      if creating.NotCreated? {
        return false;
      }
      var product := Build(made);
      created := created + [Creation(product, approved)];
      if creating.Unrecorded? {
        unrecorded := unrecorded + 1;
        return false;
      }
      status, draft, sentId := Completed, Some(made), Some(creating.id);
      return true;
    }

    /** `PATCH`; false is the validation error. */
    method PatchRun(patch: Patch) returns (accepted: bool)
      modifies this`status, this`pausedAt
      ensures Now() == Step(old(Now()), Update(patch))
      ensures accepted <==> old(status) != Cancelled
      ensures accepted && patch == ToPaused ==> status == Paused && pausedAt
      ensures accepted && patch == ToActive ==> status == Active && !pausedAt
      ensures !accepted || patch == ConfigOnly ==> status == old(status) && pausedAt == old(pausedAt)
    {
      if status == Cancelled {
        return false;
      }
      match patch {
        case ConfigOnly =>
        case ToPaused => status, pausedAt := Paused, true;
        case ToActive => status, pausedAt := Active, false;
      }
      return true;
    }

    method CancelRun()
      modifies this`status, this`pausedAt
      ensures Now() == Step(old(Now()), Cancel) && status == Cancelled
      ensures old(status) != Cancelled ==> pausedAt
    {
      if status == Cancelled {
        return;
      }
      status, pausedAt := Cancelled, true;
    }

    /** `POST /approve`; true is the answer with the new id. */
    method ApproveRun(creating: Creating) returns (accepted: bool)
      modifies this
      ensures Now() == Step(old(Now()), Approve(creating))
      ensures accepted <==> old(status) == PendingApproval && cfg.valid && old(draft).Some? && creating.Recorded?
    {
      if status != PendingApproval {
        return false;
      }
      if !cfg.valid || draft.None? {
        return false;
      }
      accepted := Send(draft.value, true, creating);
    }

    /** `POST /trigger` only enqueues a kick, and only for an active run. */
    method TriggerRun() returns (enqueued: bool)
      ensures enqueued <==> status == Active && !pausedAt
      ensures Now() == Step(Now(), Trigger)
    {
      enqueued := !(status != Active || pausedAt);
    }
  }
}
