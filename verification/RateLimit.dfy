/** The fixed-window rate limiter: clients interleave at every Redis command, under any clock schedule. */
module RateLimit {
  const WINDOW_MS: nat := 60_000

  type Request = nat

  datatype Expiry = NoTtl | ExpiresAt(time: nat)

  /** The Redis counter of one key. A key whose expiry has come is gone. */
  datatype Key = Absent | Counter(count: nat, expiry: Expiry)

  /** How far a request has come: it still owes the EXPIRE, holds its count, or has its answer. */
  datatype Phase = OwesExpire | Counted(count: nat) | Admitted(remaining: nat) | Rejected

  /** History: which request was counted when, in which lifetime of the key, and as which number. */
  datatype Hit = Hit(request: Request, time: nat, life: nat, count: nat)

  /** `births[g]` is the time lifetime `g` of the key began. */
  datatype State = State(now: nat, key: Key, phases: map<Request, Phase>, births: seq<nat>, log: seq<Hit>)

  const START := State(0, Absent, map[], [], [])

  /** The Redis commands of the requests, one at a time, and the clock. */
  datatype Event = Tick(ms: nat) | Incr(r: Request) | Expire(r: Request) | Answer(r: Request)

  predicate Gone(key: Key, now: nat) {
    match key
    case Absent => true
    case Counter(_, NoTtl) => false
    case Counter(_, ExpiresAt(t)) => now >= t
  }

  predicate Enabled(s: State, e: Event) {
    match e
    case Tick(_) => true
    case Incr(r) => r !in s.phases
    case Expire(r) => r in s.phases && s.phases[r] == OwesExpire
    case Answer(r) => r in s.phases && s.phases[r].Counted?
  }

  function AfterIncr(s: State, r: Request): State {
    if Gone(s.key, s.now) then
      s.(key := Counter(1, NoTtl), phases := s.phases[r := OwesExpire],
         births := s.births + [s.now], log := s.log + [Hit(r, s.now, |s.births|, 1)])
    else
      var n := s.key.count + 1;
      s.(key := s.key.(count := n),
         phases := s.phases[r := if n == 1 then OwesExpire else Counted(n)],
         log := s.log + [Hit(r, s.now, if s.births == [] then 0 else |s.births| - 1, n)])
  }

  function AfterExpire(s: State, r: Request): State {
    s.(key := if Gone(s.key, s.now) then s.key else s.key.(expiry := ExpiresAt(s.now + WINDOW_MS)),
       phases := s.phases[r := Counted(1)])
  }

  function Verdict(count: nat, limit: nat): Phase {
    if count > limit then Rejected else Admitted(limit - count)
  }

  function Step(limit: nat, s: State, e: Event): State
    requires Enabled(s, e)
  {
    match e
    case Tick(ms) => s.(now := s.now + ms)
    case Incr(r) => AfterIncr(s, r)
    case Expire(r) => AfterExpire(s, r)
    case Answer(r) => s.(phases := s.phases[r := Verdict(s.phases[r].count, limit)])
  }

  /** `s` is reached from an unused key by `events`. */
  ghost predicate Reaches(limit: nat, events: seq<Event>, s: State) {
    if events == [] then s == START
    else
      var n := |events| - 1;
      exists before :: Reaches(limit, events[..n], before) && Enabled(before, events[n])
        && s == Step(limit, before, events[n])
  }

  // ---- Counting ----

  function Hits(log: seq<Hit>, n: nat, g: nat): nat
    requires n <= |log|
  {
    if n == 0 then 0 else Hits(log, n - 1, g) + (if log[n - 1].life == g then 1 else 0)
  }

  predicate IsAdmitted(s: State, r: Request) {
    r in s.phases && s.phases[r].Admitted?
  }

  /** Requests admitted in lifetime `g`, among the first `n` hits. */
  function AdmittedInLife(s: State, n: nat, g: nat): nat
    requires n <= |s.log|
  {
    if n == 0 then 0
    else AdmittedInLife(s, n - 1, g) + (if s.log[n - 1].life == g && IsAdmitted(s, s.log[n - 1].request) then 1 else 0)
  }

  predicate InSpan(h: Hit, from: nat) {
    from <= h.time < from + 60_000
  }

  /** Admitted requests counted within the 60 seconds that start at `from`, among the first `n` hits. */
  function AdmittedInSpan(s: State, n: nat, from: nat): nat
    requires n <= |s.log|
  {
    if n == 0 then 0
    else
      var h := s.log[n - 1];
      AdmittedInSpan(s, n - 1, from) + (if InSpan(h, from) && IsAdmitted(s, h.request) then 1 else 0)
  }

  // ---- The invariant ----

  /** The key belongs to the last lifetime, and a TTL always gives that lifetime its full window. */
  predicate KeyFits(key: Key, births: seq<nat>, log: seq<Hit>) {
    match key
    case Absent => births == []
    case Counter(n, x) =>
      && |births| > 0 && n >= 1
      && n == Hits(log, |log|, |births| - 1)
      && (x.ExpiresAt? ==> x.time >= births[|births| - 1] + WINDOW_MS)
  }

  /** Lifetimes begin at least a window apart, and have begun. */
  predicate Spaced(births: seq<nat>, now: nat) {
    && (forall a, b :: 0 <= a < b < |births| ==> births[a] + WINDOW_MS <= births[b])
    && (forall a :: 0 <= a < |births| ==> births[a] <= now)
  }

  /** A hit falls within its lifetime, the first one at its very beginning. */
  predicate Falls(h: Hit, births: seq<nat>, now: nat) {
    && h.life < |births|
    && births[h.life] <= h.time <= now
    && (h.life + 1 < |births| ==> h.time <= births[h.life + 1])
    && (h.count == 1 ==> h.time == births[h.life])
  }

  predicate AllFall(log: seq<Hit>, births: seq<nat>, now: nat) {
    forall i :: 0 <= i < |log| ==> Falls(log[i], births, now)
  }

  /** A hit carries its number within its lifetime. */
  predicate Numbered(log: seq<Hit>, i: nat)
    requires i < |log|
  {
    log[i].count == Hits(log, i, log[i].life) + 1
  }

  predicate AllNumbered(log: seq<Hit>) {
    forall i: nat :: i < |log| ==> Numbered(log, i)
  }

  /** An EXPIRE that is still owed belongs to a key without TTL: it cannot land on a later lifetime. */
  predicate OwedFits(phases: map<Request, Phase>, key: Key) {
    && (forall r :: r in phases && phases[r] == OwesExpire ==> key.Counter? && key.expiry == NoTtl)
    && (forall q, r :: q in phases && r in phases && phases[q] == OwesExpire && phases[r] == OwesExpire ==> q == r)
  }

  /** A request's phase follows the count it got. */
  predicate Follows(limit: nat, h: Hit, phases: map<Request, Phase>) {
    && h.request in phases
    && match phases[h.request]
       case OwesExpire => h.count == 1
       case Counted(n) => h.count == n
       case Admitted(left) => h.count + left == limit
       case Rejected => h.count > limit
  }

  predicate AllFollow(limit: nat, log: seq<Hit>, phases: map<Request, Phase>) {
    forall i :: 0 <= i < |log| ==> Follows(limit, log[i], phases)
  }

  predicate LivesInOrder(log: seq<Hit>) {
    forall i, j :: 0 <= i < j < |log| ==> log[i].life <= log[j].life
  }

  predicate OneHitEach(log: seq<Hit>) {
    forall i, j :: 0 <= i < j < |log| ==> log[i].request != log[j].request
  }

  ghost predicate Inv(limit: nat, s: State) {
    && KeyFits(s.key, s.births, s.log) && Spaced(s.births, s.now)
    && AllFall(s.log, s.births, s.now) && LivesInOrder(s.log) && AllNumbered(s.log)
    && OwedFits(s.phases, s.key) && AllFollow(limit, s.log, s.phases) && OneHitEach(s.log)
  }

  lemma {:induction false} HitsOfPrefix(log: seq<Hit>, h: Hit, n: nat, g: nat)
    requires n <= |log|
    ensures Hits(log + [h], n, g) == Hits(log, n, g)
  {
    if n == 0 {
    } else {
      HitsOfPrefix(log, h, n - 1, g);
    }
  }

  lemma {:induction false} NoHitsYet(log: seq<Hit>, n: nat, g: nat)
    requires n <= |log| && forall i :: 0 <= i < n ==> log[i].life < g
    ensures Hits(log, n, g) == 0
  {
    if n == 0 {
    } else {
      NoHitsYet(log, n - 1, g);
    }
  }

  /** One hit more, numbered in turn. */
  lemma AppendHit(log: seq<Hit>, h: Hit)
    requires AllNumbered(log) && h.count == Hits(log, |log|, h.life) + 1
    ensures AllNumbered(log + [h]) && Hits(log + [h], |log| + 1, h.life) == h.count
  {
    var t := log + [h];
    forall i: nat | i < |t| ensures Numbered(t, i) {
      HitsOfPrefix(log, h, i, t[i].life);
      if i < |log| {
        assert Numbered(log, i);
      }
    }
    HitsOfPrefix(log, h, |log|, h.life);
  }

  lemma IncrKeepsHistory(limit: nat, s: State, r: Request)
    requires Inv(limit, s)
    ensures var t := AfterIncr(s, r);
      KeyFits(t.key, t.births, t.log) && Spaced(t.births, t.now) && AllNumbered(t.log)
  {
    var h := AfterIncr(s, r).log[|s.log|];
    if Gone(s.key, s.now) {
      forall i | 0 <= i < |s.log| ensures s.log[i].life < |s.births| {
        assert Falls(s.log[i], s.births, s.now);
      }
      NoHitsYet(s.log, |s.log|, |s.births|);
      BirthIsSpaced(s.key, s.births, s.log, s.now);
    }
    AppendHit(s.log, h);
  }

  /** A key that is gone had its full window. */
  lemma BirthIsSpaced(key: Key, births: seq<nat>, log: seq<Hit>, now: nat)
    requires KeyFits(key, births, log) && Gone(key, now) && Spaced(births, now)
    ensures Spaced(births + [now], now)
  {
    if births != [] {
      assert births[|births| - 1] + WINDOW_MS <= now;
    }
  }

  lemma IncrKeepsFalls(s: State, r: Request)
    requires KeyFits(s.key, s.births, s.log) && Spaced(s.births, s.now) && AllFall(s.log, s.births, s.now)
    ensures var t := AfterIncr(s, r); AllFall(t.log, t.births, t.now)
  {
    var t := AfterIncr(s, r);
    forall i | 0 <= i < |t.log| ensures Falls(t.log[i], t.births, t.now) {
      if i < |s.log| {
        assert Falls(s.log[i], s.births, s.now);
        assert t.births == s.births || t.births == s.births + [s.now];
      }
    }
  }

  lemma IncrKeepsLivesInOrder(s: State, r: Request)
    requires KeyFits(s.key, s.births, s.log) && AllFall(s.log, s.births, s.now) && LivesInOrder(s.log)
    ensures LivesInOrder(AfterIncr(s, r).log)
  {
    forall i | 0 <= i < |s.log| ensures s.log[i].life < |s.births| {
      assert Falls(s.log[i], s.births, s.now);
    }
  }

  lemma IncrKeepsPhases(limit: nat, s: State, r: Request)
    requires Inv(limit, s) && r !in s.phases
    ensures var t := AfterIncr(s, r);
      OwedFits(t.phases, t.key) && AllFollow(limit, t.log, t.phases) && OneHitEach(t.log)
  {
    var t := AfterIncr(s, r);
    forall i | 0 <= i < |t.log| ensures Follows(limit, t.log[i], t.phases) && (i < |s.log| ==> t.log[i].request != r) {
      if i < |s.log| {
        assert Follows(limit, s.log[i], s.phases);
      }
    }
  }

  /** Giving a request its next phase leaves every other request's alone. */
  lemma NextPhase(limit: nat, log: seq<Hit>, phases: map<Request, Phase>, r: Request, p: Phase)
    requires AllFollow(limit, log, phases) && OneHitEach(log) && r in phases && p != OwesExpire
    requires phases[r] == OwesExpire ==> p == Counted(1)
    requires phases[r].Counted? ==> p == Verdict(phases[r].count, limit)
    requires phases[r] == OwesExpire || phases[r].Counted?
    ensures AllFollow(limit, log, phases[r := p])
  {
    forall i | 0 <= i < |log| ensures Follows(limit, log[i], phases[r := p]) {
      assert Follows(limit, log[i], phases);
    }
  }

  lemma StepKeepsInv(limit: nat, s: State, e: Event)
    requires Inv(limit, s) && Enabled(s, e)
    ensures Inv(limit, Step(limit, s, e))
  {
    match e
    case Tick(ms) =>
      forall i | 0 <= i < |s.log| ensures Falls(s.log[i], s.births, s.now + ms) {
        assert Falls(s.log[i], s.births, s.now);
      }
    case Incr(r) =>
      IncrKeepsHistory(limit, s, r);
      IncrKeepsFalls(s, r);
      IncrKeepsLivesInOrder(s, r);
      IncrKeepsPhases(limit, s, r);
    case Expire(r) => NextPhase(limit, s.log, s.phases, r, Counted(1));
    case Answer(r) => NextPhase(limit, s.log, s.phases, r, Verdict(s.phases[r].count, limit));
  }

  /** Over every interleaving of the clients' commands and every clock schedule. */
  lemma {:induction false} Invariant(limit: nat, events: seq<Event>, s: State)
    requires Reaches(limit, events, s)
    ensures Inv(limit, s)
    decreases |events|
  {
    if events == [] {
    } else {
      var n := |events| - 1;
      var before :| Reaches(limit, events[..n], before) && Enabled(before, events[n])
        && s == Step(limit, before, events[n]);
      Invariant(limit, events[..n], before);
      StepKeepsInv(limit, before, events[n]);
    }
  }

  // ---- The two bounds ----

  function Min(a: nat, b: nat): nat {
    if a <= b then a else b
  }

  lemma {:induction false} LifeBound(limit: nat, s: State, n: nat, g: nat)
    requires AllNumbered(s.log) && AllFollow(limit, s.log, s.phases) && n <= |s.log|
    ensures AdmittedInLife(s, n, g) <= Min(limit, Hits(s.log, n, g))
  {
    if n == 0 {
    } else {
      LifeBound(limit, s, n - 1, g);
      assert Numbered(s.log, n - 1) && Follows(limit, s.log[n - 1], s.phases);
    }
  }

  /** At most `limit` requests are admitted per lifetime of the key. */
  lemma AtMostLimitPerLifetime(limit: nat, events: seq<Event>, s: State, g: nat)
    requires Reaches(limit, events, s)
    ensures AdmittedInLife(s, |s.log|, g) <= limit
  {
    Invariant(limit, events, s);
    LifeBound(limit, s, |s.log|, g);
  }

  /** Exactly the first `limit` requests of a lifetime are admitted, each told how many are left. */
  lemma ExactlyTheFirstAreAdmitted(limit: nat, events: seq<Event>, s: State, i: nat)
    requires Reaches(limit, events, s) && i < |s.log|
    requires var r := s.log[i].request; r in s.phases && (s.phases[r].Admitted? || s.phases[r].Rejected?)
    ensures var number := Hits(s.log, i, s.log[i].life) + 1;
      s.phases[s.log[i].request] == if number <= limit then Admitted(limit - number) else Rejected
  {
    Invariant(limit, events, s);
    assert Numbered(s.log, i) && Follows(limit, s.log[i], s.phases);
  }

  /** Hits of two lifetimes at least two apart are a window apart. */
  lemma FarLivesAreFarApart(limit: nat, s: State, i: nat, j: nat)
    requires Inv(limit, s) && i < |s.log| && j < |s.log|
    ensures s.log[i].life + 2 <= s.log[j].life ==> s.log[i].time + WINDOW_MS <= s.log[j].time
  {
    assert Falls(s.log[i], s.births, s.now) && Falls(s.log[j], s.births, s.now);
    if s.log[i].life + 2 <= s.log[j].life {
      assert s.births[s.log[i].life + 1] + WINDOW_MS <= s.births[s.log[j].life];
    }
  }

  /** Admitted requests of lifetime `g` counted within the span. */
  function AdmittedInBoth(s: State, n: nat, from: nat, g: nat): nat
    requires n <= |s.log|
  {
    if n == 0 then 0
    else
      var h := s.log[n - 1];
      AdmittedInBoth(s, n - 1, from, g) + (if h.life == g && InSpan(h, from) && IsAdmitted(s, h.request) then 1 else 0)
  }

  lemma {:induction false} SpanSplits(s: State, n: nat, from: nat, g: nat)
    requires n <= |s.log|
    requires forall i :: 0 <= i < n && InSpan(s.log[i], from) ==> g <= s.log[i].life <= g + 1
    ensures AdmittedInSpan(s, n, from) == AdmittedInBoth(s, n, from, g) + AdmittedInBoth(s, n, from, g + 1)
  {
    if n == 0 {
    } else {
      SpanSplits(s, n - 1, from, g);
    }
  }

  lemma {:induction false} BothAtMostLife(s: State, n: nat, from: nat, g: nat)
    requires n <= |s.log|
    ensures AdmittedInBoth(s, n, from, g) <= AdmittedInLife(s, n, g)
  {
    if n == 0 {
    } else {
      BothAtMostLife(s, n - 1, from, g);
    }
  }

  /** When the span holds no first hit of lifetime `g`, one of its `limit` admissions falls outside. */
  lemma {:induction false} LateInLife(limit: nat, s: State, n: nat, from: nat, g: nat)
    requires AllNumbered(s.log) && AllFollow(limit, s.log, s.phases) && n <= |s.log|
    requires forall i :: 0 <= i < n && s.log[i].life == g && InSpan(s.log[i], from) ==> s.log[i].count >= 2
    ensures AdmittedInBoth(s, n, from, g) + 1 <= Min(limit, Hits(s.log, n, g)) || AdmittedInBoth(s, n, from, g) == 0
  {
    if n == 0 {
    } else {
      LateInLife(limit, s, n - 1, from, g);
      assert Numbered(s.log, n - 1) && Follows(limit, s.log[n - 1], s.phases);
    }
  }

  lemma {:induction false} NothingInSpan(s: State, n: nat, from: nat)
    requires n <= |s.log| && forall i :: 0 <= i < n ==> !InSpan(s.log[i], from)
    ensures AdmittedInSpan(s, n, from) == 0
  {
    if n == 0 {
    } else {
      NothingInSpan(s, n - 1, from);
    }
  }

  /** The first hit in the span, if any. */
  lemma {:induction false} FirstInSpan(s: State, n: nat, from: nat) returns (f: nat)
    requires n <= |s.log|
    ensures f <= n && (f < n ==> InSpan(s.log[f], from))
    ensures forall i :: 0 <= i < f ==> !InSpan(s.log[i], from)
  {
    f := 0;
    while f < n && !InSpan(s.log[f], from)
      invariant f <= n && forall i :: 0 <= i < f ==> !InSpan(s.log[i], from)
    {
      f := f + 1;
    }
  }

  /** A span that reaches into a second lifetime begins after the first one did. */
  lemma SecondLifeMeansLate(limit: nat, s: State, from: nat, g: nat, j: nat)
    requires Inv(limit, s) && j < |s.log| && InSpan(s.log[j], from) && s.log[j].life == g + 1
    ensures forall i :: 0 <= i < |s.log| && s.log[i].life == g && InSpan(s.log[i], from) ==> s.log[i].count >= 2
  {
    assert Falls(s.log[j], s.births, s.now);
    assert s.births[g] + WINDOW_MS <= s.births[g + 1];
    forall i | 0 <= i < |s.log| && s.log[i].life == g && InSpan(s.log[i], from) ensures s.log[i].count >= 2 {
      assert Falls(s.log[i], s.births, s.now) && Numbered(s.log, i);
    }
  }

  lemma {:induction false} NoneOfLife(s: State, n: nat, from: nat, g: nat)
    requires n <= |s.log| && forall i :: 0 <= i < n ==> !(InSpan(s.log[i], from) && s.log[i].life == g)
    ensures AdmittedInBoth(s, n, from, g) == 0
  {
    if n == 0 {
    } else {
      NoneOfLife(s, n - 1, from, g);
    }
  }

  lemma TwoLives(limit: nat, s: State, n: nat, from: nat, f: nat)
    requires Inv(limit, s) && f < n == |s.log| && InSpan(s.log[f], from)
    requires forall i :: 0 <= i < f ==> !InSpan(s.log[i], from)
    ensures forall i :: 0 <= i < n && InSpan(s.log[i], from) ==> s.log[f].life <= s.log[i].life <= s.log[f].life + 1
  {
    forall i | 0 <= i < n && InSpan(s.log[i], from) ensures s.log[f].life <= s.log[i].life <= s.log[f].life + 1 {
      FarLivesAreFarApart(limit, s, f, i);
    }
  }

  /** A span that meets lifetimes `g` and `g + 1` only. */
  lemma SpanOfTwoLives(limit: nat, s: State, n: nat, from: nat, g: nat)
    requires Inv(limit, s) && n == |s.log|
    requires forall i :: 0 <= i < n && InSpan(s.log[i], from) ==> g <= s.log[i].life <= g + 1
    ensures AdmittedInSpan(s, n, from) < 2 * limit || AdmittedInSpan(s, n, from) == limit == 0
  {
    SpanSplits(s, n, from, g);
    LifeBound(limit, s, n, g);
    LifeBound(limit, s, n, g + 1);
    BothAtMostLife(s, n, from, g);
    BothAtMostLife(s, n, from, g + 1);
    if j :| 0 <= j < n && InSpan(s.log[j], from) && s.log[j].life == g + 1 {
      SecondLifeMeansLate(limit, s, from, g, j);
      LateInLife(limit, s, n, from, g);
    } else {
      NoneOfLife(s, n, from, g + 1);
    }
  }

  /** In any 60 seconds, by the time they were counted, fewer than twice `limit` requests are admitted. */
  lemma FewerThanTwiceLimitPerSpan(limit: nat, events: seq<Event>, s: State, from: nat)
    requires Reaches(limit, events, s)
    ensures AdmittedInSpan(s, |s.log|, from) < 2 * limit || AdmittedInSpan(s, |s.log|, from) == limit == 0
  {
    Invariant(limit, events, s);
    var n := |s.log|;
    var f := FirstInSpan(s, n, from);
    if f == n {
      NothingInSpan(s, n, from);
    } else {
      TwoLives(limit, s, n, from, f);
      SpanOfTwoLives(limit, s, n, from, s.log[f].life);
    }
  }

  // ---- The bound is met ----

  /** A reachable state whose requests are all numbered below `next`. */
  ghost predicate Reached(limit: nat, s: State, next: Request) {
    (exists events :: Reaches(limit, events, s)) && forall r :: r in s.phases ==> r < next
  }

  lemma Extend(limit: nat, s: State, next: Request, e: Event, next': Request)
    requires Reached(limit, s, next) && Enabled(s, e) && next <= next'
    requires e.Incr? ==> e.r < next'
    ensures Reached(limit, Step(limit, s, e), next')
  {
    var events :| Reaches(limit, events, s);
    assert (events + [e])[..|events|] == events;
    assert Reaches(limit, events + [e], Step(limit, s, e));
  }

  /** The count over hits whose requests keep their answers. */
  lemma {:induction false} SpanSame(s: State, t: State, n: nat, from: nat)
    requires n <= |s.log| <= |t.log| && t.log[..|s.log|] == s.log
    requires forall i :: 0 <= i < n ==> (IsAdmitted(s, s.log[i].request) <==> IsAdmitted(t, s.log[i].request))
    ensures AdmittedInSpan(t, n, from) == AdmittedInSpan(s, n, from)
  {
    if n == 0 {
    } else {
      SpanSame(s, t, n - 1, from);
      assert t.log[n - 1] == t.log[..|s.log|][n - 1];
    }
  }

  function Within(now: nat, from: nat): nat {
    if from <= now < from + 60_000 then 1 else 0
  }

  /** One request more, admitted on the spot. */
  lemma OneMoreAdmitted(limit: nat, s: State, t: State, r: Request, from: nat)
    requires Inv(limit, s) && r !in s.phases
    requires |t.log| == |s.log| + 1 && t.log[..|s.log|] == s.log
    requires t.log[|s.log|].request == r && t.log[|s.log|].time == s.now
    requires IsAdmitted(t, r) && forall q :: q in s.phases ==> q in t.phases && t.phases[q] == s.phases[q]
    ensures AdmittedInSpan(t, |t.log|, from)
         == AdmittedInSpan(s, |s.log|, from) + Within(s.now, from)
  {
    forall i | 0 <= i < |s.log|
      ensures IsAdmitted(s, s.log[i].request) <==> IsAdmitted(t, s.log[i].request)
    {
      assert Follows(limit, s.log[i], s.phases);
    }
    SpanSame(s, t, |s.log|, from);
  }

  /** The first request of a lifetime, admitted, with the window it opens. */
  lemma OpenWindow(limit: nat, s: State, r: Request, from: nat) returns (t: State)
    requires limit >= 1 && Reached(limit, s, r) && Gone(s.key, s.now)
    ensures Reached(limit, t, r + 1) && t.now == s.now && t.key == Counter(1, ExpiresAt(s.now + WINDOW_MS))
    ensures AdmittedInSpan(t, |t.log|, from) == AdmittedInSpan(s, |s.log|, from) + Within(s.now, from)
  {
    var events :| Reaches(limit, events, s);
    Invariant(limit, events, s);
    var a := Step(limit, s, Incr(r));
    Extend(limit, s, r, Incr(r), r + 1);
    var b := Step(limit, a, Expire(r));
    Extend(limit, a, r + 1, Expire(r), r + 1);
    t := Step(limit, b, Answer(r));
    Extend(limit, b, r + 1, Answer(r), r + 1);
    OneMoreAdmitted(limit, s, t, r, from);
  }

  /** One request more in an open window. */
  lemma JoinWindow(limit: nat, s: State, r: Request, from: nat) returns (t: State)
    requires Reached(limit, s, r) && !Gone(s.key, s.now) && 1 <= s.key.count < limit
    ensures Reached(limit, t, r + 1) && t.now == s.now && t.key == s.key.(count := s.key.count + 1)
    ensures AdmittedInSpan(t, |t.log|, from) == AdmittedInSpan(s, |s.log|, from) + Within(s.now, from)
  {
    var events :| Reaches(limit, events, s);
    Invariant(limit, events, s);
    var a := Step(limit, s, Incr(r));
    Extend(limit, s, r, Incr(r), r + 1);
    t := Step(limit, a, Answer(r));
    Extend(limit, a, r + 1, Answer(r), r + 1);
    OneMoreAdmitted(limit, s, t, r, from);
  }

  /** `k` requests more in an open window, all admitted. */
  lemma {:induction false} FillWindow(limit: nat, s: State, r: Request, from: nat, k: nat) returns (t: State)
    requires Reached(limit, s, r) && !Gone(s.key, s.now) && 1 <= s.key.count && s.key.count + k <= limit
    ensures Reached(limit, t, r + k) && t.now == s.now && t.key == s.key.(count := s.key.count + k)
    ensures AdmittedInSpan(t, |t.log|, from) == AdmittedInSpan(s, |s.log|, from) + k * Within(s.now, from)
    decreases k
  {
    if k == 0 {
      t := s;
    } else {
      t := JoinWindow(limit, s, r, from);
      t := FillWindow(limit, t, r + 1, from, k - 1);
    }
  }

  lemma WaitInRun(limit: nat, s: State, r: Request, from: nat, ms: nat) returns (t: State)
    requires Reached(limit, s, r)
    ensures t == s.(now := s.now + ms) && Reached(limit, t, r)
    ensures AdmittedInSpan(t, |t.log|, from) == AdmittedInSpan(s, |s.log|, from)
  {
    t := Step(limit, s, Tick(ms));
    Extend(limit, s, r, Tick(ms), r);
    assert t.log[..|s.log|] == s.log;
    SpanSame(s, t, |s.log|, from);
  }

  /** One request at the start of a window and the rest of it at its end. */
  lemma LateWindow(limit: nat) returns (s: State)
    requires limit >= 1
    ensures Reached(limit, s, limit) && s.now == WINDOW_MS - 1 && s.key == Counter(limit, ExpiresAt(WINDOW_MS))
    ensures AdmittedInSpan(s, |s.log|, 1) == limit - 1
  {
    assert Reaches(limit, [], START);
    s := OpenWindow(limit, START, 0, 1);
    s := WaitInRun(limit, s, 1, 1, WINDOW_MS - 1);
    s := FillWindow(limit, s, 1, 1, limit - 1);
  }

  /** No smaller bound holds: for every limit some run admits all but one of twice the limit within 60 seconds,
      with one request at the start of a window, the rest at its end, and a full window right after. */
  lemma BoundIsMet(limit: nat)
    requires limit >= 1
    ensures exists events, s :: Reaches(limit, events, s) && AdmittedInSpan(s, |s.log|, 1) == 2 * limit - 1
  {
    var s := LateWindow(limit);
    s := WaitInRun(limit, s, limit, 1, 1);
    s := OpenWindow(limit, s, limit, 1);
    s := FillWindow(limit, s, limit + 1, 1, limit - 1);
    var events :| Reaches(limit, events, s);
  }

  // ---- The commands ----

  /** One Redis key and the requests that use it, each command an atomic step. */
  class RateLimiter {
    const limit: nat
    var now: nat
    var key: Key
    var phases: map<Request, Phase>
    ghost var births: seq<nat>
    ghost var log: seq<Hit>

    ghost function Now(): State
      reads this
    {
      State(now, key, phases, births, log)
    }

    constructor (limit: nat)
      ensures this.limit == limit && Now() == START
    {
      this.limit := limit;
      now, key, phases, births, log := 0, Absent, map[], [], [];
    }

    method Wait(ms: nat)
      modifies this`now
      ensures Now() == Step(limit, old(Now()), Tick(ms))
    {
      now := now + ms;
    }

    /** `INCR`; a missing or expired key counts from one. */
    method Increment(r: Request) returns (count: nat)
      requires Enabled(Now(), Incr(r))
      modifies this
      ensures Now() == Step(limit, old(Now()), Incr(r))
      ensures count == log[|log| - 1].count
    {
      if Gone(key, now) {
        count := 1;
        key := Counter(1, NoTtl);
        births := births + [now];
      } else {
        count := key.count + 1;
        key := key.(count := count);
      }
      log := log + [Hit(r, now, if births == [] then 0 else |births| - 1, count)];
      if count == 1 {
        phases := phases[r := OwesExpire];
      } else {
        phases := phases[r := Counted(count)];
      }
    }

    /** `EXPIRE 60`, by the request that counted one; on a missing key it does nothing. */
    method SetTtl(r: Request)
      requires Enabled(Now(), Expire(r))
      modifies this`key, this`phases
      ensures Now() == Step(limit, old(Now()), Expire(r))
      ensures if old(Gone(key, now)) then key == old(key)
              else key == Counter(old(key).count, ExpiresAt(now + WINDOW_MS)) && !Gone(key, now)
      ensures phases[r] == Counted(1) && forall q :: q in old(phases) && q != r ==> phases[q] == old(phases)[q]
    {
      if !Gone(key, now) {
        key := key.(expiry := ExpiresAt(now + WINDOW_MS));
      }
      phases := phases[r := Counted(1)];
    }

    /** `count > limitRpm` rejects; otherwise `remaining` is what is left of the limit. */
    method Decide(r: Request)
      requires Enabled(Now(), Answer(r))
      modifies this`phases
      ensures Now() == Step(limit, old(Now()), Answer(r))
    {
      var count := phases[r].count;
      if count > limit {
        phases := phases[r := Rejected];
      } else {
        phases := phases[r := Admitted(limit - count)];
      }
    }
  }
}
