/** The lease lock of a monitor or agent run: `SET NX PX`, and a release that is a `GET` and then a `DEL`. */
module LeaseLock {
  type Worker = nat

  /** The Redis key; the owner is history, Redis only knows the value. */
  datatype Lock = Free | Held(value: string, expiresAt: nat, owner: Worker)

  /** A worker that holds a lease it took at `since`; releasing once its `GET` has matched. */
  datatype Phase = Working(value: string, since: nat) | Releasing(value: string, since: nat)

  datatype State = State(now: nat, lock: Lock, busy: map<Worker, Phase>, used: set<string>)

  const START := State(0, Free, map[], {})

  /** `Get` and `Del` are the release as it is written; `GetDel` would be the two in one step. */
  datatype Event =
    | Tick(ms: nat)
    | Acquire(w: Worker, value: string)
    | Get(w: Worker)
    | Del(w: Worker)
    | GetDel(w: Worker)

  predicate Live(s: State) {
    s.lock.Held? && s.now < s.lock.expiresAt
  }

  predicate Enabled(s: State, e: Event) {
    match e
    case Tick(_) => true
    case Acquire(w, _) => w !in s.busy
    case Get(w) => w in s.busy && s.busy[w].Working?
    case Del(w) => w in s.busy && s.busy[w].Releasing?
    case GetDel(w) => w in s.busy && s.busy[w].Working?
  }

  function Step(ttl: nat, s: State, e: Event): State
    requires Enabled(s, e)
  {
    match e
    case Tick(ms) => s.(now := s.now + ms)
    case Acquire(w, v) =>
      if Live(s) then s
      else s.(lock := Held(v, s.now + ttl, w), busy := s.busy[w := Working(v, s.now)], used := s.used + {v})
    case Get(w) =>
      if Live(s) && s.lock.value == s.busy[w].value
      then s.(busy := s.busy[w := Releasing(s.busy[w].value, s.busy[w].since)])
      else s.(busy := s.busy - {w})
    case Del(w) => s.(lock := Free, busy := s.busy - {w})
    case GetDel(w) =>
      if Live(s) && s.lock.value == s.busy[w].value
      then s.(lock := Free, busy := s.busy - {w})
      else s.(busy := s.busy - {w})
  }

  /** The worker still holds a lease that has run out. */
  predicate Overran(ttl: nat, s: State, w: Worker)
    requires w in s.busy
  {
    s.now >= s.busy[w].since + ttl
  }

  /** The step takes away a live lock of some other worker. */
  predicate TakesAnothers(ttl: nat, s: State, e: Event)
    requires Enabled(s, e)
  {
    Live(s) && (e.Del? || e.GetDel?) && s.lock.owner != e.w && Step(ttl, s, e).lock == Free
  }

  /** Timely: a `DEL` comes before the end of its lease. */
  predicate Timely(ttl: nat, s: State, e: Event) {
    e.Del? && e.w in s.busy ==> !Overran(ttl, s, e.w)
  }

  /** Fresh: a lock value never used before. */
  predicate Fresh(s: State, e: Event) {
    e.Acquire? ==> e.value !in s.used
  }

  /** Which steps a run may take. */
  datatype Discipline = TimelyRelease | AtomicRelease

  predicate Allowed(d: Discipline, ttl: nat, s: State, e: Event) {
    match d
    case TimelyRelease => !e.GetDel? && Timely(ttl, s, e)
    case AtomicRelease => !e.Get? && !e.Del? && Fresh(s, e)
  }

  ghost predicate Reaches(d: Discipline, ttl: nat, events: seq<Event>, s: State) {
    if events == [] then s == START
    else
      var n := |events| - 1;
      exists before :: Reaches(d, ttl, events[..n], before) && Enabled(before, events[n])
        && Allowed(d, ttl, before, events[n]) && s == Step(ttl, before, events[n])
  }

  // ---- The invariant ----

  /** A worker within its lease owns the lock, until the end of that lease. */
  predicate OwnsWhileInLease(ttl: nat, s: State) {
    forall w :: w in s.busy && !Overran(ttl, s, w) ==>
      s.lock.Held? && s.lock.owner == w && s.lock.value == s.busy[w].value && s.lock.expiresAt == s.busy[w].since + ttl
  }

  /** A live lock belongs to a worker within its lease. */
  predicate OwnerIsBusy(ttl: nat, s: State) {
    Live(s) ==> s.lock.owner in s.busy && !Overran(ttl, s, s.lock.owner) && s.lock.value == s.busy[s.lock.owner].value
  }

  predicate ValuesDistinct(s: State) {
    && (forall w :: w in s.busy ==> s.busy[w].value in s.used)
    && (forall v, w :: v in s.busy && w in s.busy && s.busy[v].value == s.busy[w].value ==> v == w)
  }

  predicate NoneReleasing(s: State) {
    forall w :: w in s.busy ==> s.busy[w].Working?
  }

  ghost predicate Inv(d: Discipline, ttl: nat, s: State) {
    && OwnsWhileInLease(ttl, s) && OwnerIsBusy(ttl, s)
    && (d.AtomicRelease? ==> ValuesDistinct(s) && NoneReleasing(s))
  }

  lemma StepKeepsInv(d: Discipline, ttl: nat, s: State, e: Event)
    requires Inv(d, ttl, s) && Enabled(s, e) && Allowed(d, ttl, s, e)
    ensures Inv(d, ttl, Step(ttl, s, e))
    ensures !TakesAnothers(ttl, s, e)
  {
  }

  lemma {:induction false} Invariant(d: Discipline, ttl: nat, events: seq<Event>, s: State)
    requires Reaches(d, ttl, events, s)
    ensures Inv(d, ttl, s)
    decreases |events|
  {
    if events == [] {
    } else {
      var n := |events| - 1;
      var before :| Reaches(d, ttl, events[..n], before) && Enabled(before, events[n])
        && Allowed(d, ttl, before, events[n]) && s == Step(ttl, before, events[n]);
      Invariant(d, ttl, events[..n], before);
      StepKeepsInv(d, ttl, before, events[n]);
    }
  }

  /** Mutual exclusion, for any number of workers: two that are busy at once means one of them overran its
      lease. With the release as written this takes every `DEL` to come within its lease; with a one-step
      release and distinct lock values it holds always. */
  lemma MutualExclusion(d: Discipline, ttl: nat, events: seq<Event>, s: State, a: Worker, b: Worker)
    requires Reaches(d, ttl, events, s)
    requires a in s.busy && b in s.busy && a != b
    ensures Overran(ttl, s, a) || Overran(ttl, s, b)
  {
    Invariant(d, ttl, events, s);
  }

  /** With a one-step release and distinct values, even a worker that overran its lease never takes away
      another's lock. */
  lemma OverrunIsHarmless(ttl: nat, events: seq<Event>, s: State, e: Event)
    requires Reaches(AtomicRelease, ttl, events, s) && Enabled(s, e) && Allowed(AtomicRelease, ttl, s, e)
    ensures !TakesAnothers(ttl, s, e)
  {
    Invariant(AtomicRelease, ttl, events, s);
    StepKeepsInv(AtomicRelease, ttl, s, e);
  }

  /** As written, the first `DEL` to take another's lock is exactly one that comes after the end of its own
      lease, once somebody else is in theirs. */
  lemma DelTakesAnothersExactly(ttl: nat, events: seq<Event>, s: State, w: Worker)
    requires Reaches(TimelyRelease, ttl, events, s) && Enabled(s, Del(w))
    ensures TakesAnothers(ttl, s, Del(w)) <==>
      Overran(ttl, s, w) && exists b :: b in s.busy && b != w && !Overran(ttl, s, b)
  {
    Invariant(TimelyRelease, ttl, events, s);
  }

  /** It happens: the lease ends between `GET` and `DEL`, and afterwards two workers are in their leases at once. */
  lemma LateDelBreaksExclusion(ttl: nat)
    requires ttl >= 1
    ensures var s1 := Step(ttl, START, Acquire(1, "a"));
      var s2 := Step(ttl, s1, Get(1));
      var s3 := Step(ttl, s2, Tick(ttl));
      var s4 := Step(ttl, s3, Acquire(2, "b"));
      var s5 := Step(ttl, s4, Del(1));
      var s6 := Step(ttl, s5, Acquire(3, "c"));
      && TakesAnothers(ttl, s4, Del(1))
      && 2 in s6.busy && 3 in s6.busy && !Overran(ttl, s6, 2) && !Overran(ttl, s6, 3)
  {
  }

  /** And a one-step release does not help when two workers use the same lock value. The values are a process
      id and the time of the attempt, so equal values a whole lease apart take equal process ids (as in two
      containers) and either clocks that differ by the lease or a `SET` that arrives that much later. */
  lemma EqualValuesBreakExclusion(ttl: nat, v: string)
    requires ttl >= 1
    ensures var s1 := Step(ttl, START, Acquire(1, v));
      var s2 := Step(ttl, s1, Tick(ttl));
      var s3 := Step(ttl, s2, Acquire(2, v));
      TakesAnothers(ttl, s3, GetDel(1))
  {
  }

  // ---- What the comparison is worth ----

  /** A run of the release as written, however late its commands, over lock values never used before. */
  ghost predicate ReachesFresh(ttl: nat, events: seq<Event>, s: State) {
    if events == [] then s == START
    else
      var n := |events| - 1;
      exists before :: ReachesFresh(ttl, events[..n], before) && Enabled(before, events[n])
        && Fresh(before, events[n]) && !events[n].GetDel? && s == Step(ttl, before, events[n])
  }

  /** The value of the lock tells whose it is. */
  predicate ValueTellsOwner(s: State) {
    && (forall w :: w in s.busy ==> s.busy[w].value in s.used)
    && (s.lock.Held? ==> forall w :: w in s.busy && s.busy[w].value == s.lock.value ==> w == s.lock.owner)
  }

  lemma {:induction false} FreshRun(ttl: nat, events: seq<Event>, s: State)
    requires ReachesFresh(ttl, events, s)
    ensures ValueTellsOwner(s)
    decreases |events|
  {
    if events == [] {
    } else {
      var n := |events| - 1;
      var before :| ReachesFresh(ttl, events[..n], before) && Enabled(before, events[n])
        && Fresh(before, events[n]) && !events[n].GetDel? && s == Step(ttl, before, events[n]);
      FreshRun(ttl, events[..n], before);
    }
  }

  /** With values never used before, a `GET` goes on to the `DEL` only if the worker's own lock is there: on
      another's live lock it ends the release. So a `GET` and a `DEL` with no time between take nobody else's
      lock, whatever the delays before them. */
  lemma GetEndsOnAnothers(ttl: nat, events: seq<Event>, s: State, w: Worker)
    requires ReachesFresh(ttl, events, s) && Enabled(s, Get(w))
    ensures var t := Step(ttl, s, Get(w));
      && t.lock == s.lock && t.now == s.now
      && (Live(s) && s.lock.owner != w ==> w !in t.busy)
      && (Enabled(t, Del(w)) ==> Live(s) && s.lock.owner == w && !TakesAnothers(ttl, t, Del(w)))
  {
    FreshRun(ttl, events, s);
  }

  // ---- The key, command by command ----

  class RedisLock {
    const ttl: nat
    var now: nat
    var lock: Lock
    var busy: map<Worker, Phase>
    ghost var used: set<string>

    ghost function Now(): State
      reads this
    {
      State(now, lock, busy, used)
    }

    constructor (ttl: nat)
      ensures this.ttl == ttl && Now() == START
    {
      this.ttl := ttl;
      now, lock, busy, used := 0, Free, map[], {};
    }

    /** `SET key value NX PX ttl`. */
    method TryAcquire(w: Worker, value: string) returns (acquired: bool)
      requires Enabled(Now(), Acquire(w, value))
      modifies this
      ensures Now() == Step(ttl, old(Now()), Acquire(w, value))
      ensures acquired <==> w in busy
    {
      if lock.Held? && now < lock.expiresAt {
        return false;
      }
      lock, busy, used := Held(value, now + ttl, w), busy[w := Working(value, now)], used + {value};
      return true;
    }

    /** `GET`, compared with the worker's own value; a mismatch ends the release. */
    method CheckOwn(w: Worker) returns (own: bool)
      requires Enabled(Now(), Get(w))
      modifies this`busy
      ensures Now() == Step(ttl, old(Now()), Get(w))
      ensures own <==> w in busy
    {
      own := lock.Held? && now < lock.expiresAt && lock.value == busy[w].value;
      if own {
        busy := busy[w := Releasing(busy[w].value, busy[w].since)];
      } else {
        busy := busy - {w};
      }
    }

    /** `DEL`, whoever the key belongs to by now. */
    method Delete(w: Worker)
      requires Enabled(Now(), Del(w))
      modifies this`lock, this`busy
      ensures Now() == Step(ttl, old(Now()), Del(w))
      ensures lock == Free && w !in busy
      ensures forall v :: v in old(busy) && v != w ==> v in busy && busy[v] == old(busy)[v]
    {
      lock, busy := Free, busy - {w};
    }
  }
}
