/** The rolling concurrency pool: grants, releases and the waiting queue under every interleaving. */
module Limiter {
  type Task = nat

  /** The closure's state, with the history of arrivals, grants and releases. */
  datatype Pool = Pool(active: int, queue: seq<Task>, arrived: seq<Task>, granted: seq<Task>, released: set<Task>)

  const EMPTY := Pool(0, [], [], [], {})

  /** A task arrives, or a running task settles; it makes no difference whether it succeeded. */
  datatype Event = Arrive(task: Task) | Settle(task: Task, ok: bool)

  function Next(max: nat, p: Pool): Pool {
    if p.active >= max || p.queue == [] then p
    else p.(queue := p.queue[1..], active := p.active + 1, granted := p.granted + [p.queue[0]])
  }

  predicate Possible(p: Pool, e: Event) {
    match e
    case Arrive(t) => t !in p.arrived
    case Settle(t, _) => t in p.granted && t !in p.released
  }

  function Step(max: nat, p: Pool, e: Event): Pool {
    match e
    case Arrive(t) => Next(max, p.(arrived := p.arrived + [t], queue := p.queue + [t]))
    case Settle(t, _) => Next(max, p.(active := p.active - 1, released := p.released + {t}))
  }

  /** `p` is reached from the empty pool by `events`, each possible when it happened. */
  ghost predicate Reaches(max: nat, events: seq<Event>, p: Pool) {
    if events == [] then p == EMPTY
    else
      var n := |events| - 1;
      exists before :: Reaches(max, events[..n], before) && Possible(before, events[n])
        && p == Step(max, before, events[n])
  }

  predicate Distinct(s: seq<Task>) {
    forall i, j :: 0 <= i < j < |s| ==> s[i] != s[j]
  }

  function Elements(s: seq<Task>): set<Task> {
    set t | t in s
  }

  /** Every slot in use belongs to a granted, unreleased task; no more than `max` of them; nobody waits
      while a slot is free; grants come in order of arrival. */
  ghost predicate Inv(max: nat, p: Pool) {
    && p.active == |Elements(p.granted) - p.released|
    && p.active <= max
    && (p.queue != [] ==> p.active == max)
    && p.granted + p.queue == p.arrived
    && Distinct(p.arrived)
    && p.released <= Elements(p.granted)
  }

  /** The head of the queue was not granted before. */
  lemma HeadIsNew(p: Pool)
    requires p.granted + p.queue == p.arrived && Distinct(p.arrived) && p.queue != []
    ensures p.queue[0] !in Elements(p.granted)
  {
    assert p.arrived[|p.granted|] == p.queue[0];
    forall i | 0 <= i < |p.granted| ensures p.granted[i] != p.queue[0] {
      assert p.arrived[i] == p.granted[i];
    }
  }

  lemma AddNew(granted: set<Task>, released: set<Task>, t: Task)
    requires t !in granted && released <= granted
    ensures |granted + {t} - released| == |granted - released| + 1
  {
    assert granted + {t} - released == (granted - released) + {t};
  }

  lemma GrantOne(max: nat, p: Pool)
    requires p.granted + p.queue == p.arrived && Distinct(p.arrived) && p.released <= Elements(p.granted)
    requires p.active == |Elements(p.granted) - p.released| && p.active < max && p.queue != []
    ensures var q := Next(max, p);
      && q.active == |Elements(q.granted) - q.released| == p.active + 1
      && q.granted + q.queue == q.arrived && q.released <= Elements(q.granted)
  {
    var t := p.queue[0];
    HeadIsNew(p);
    AddNew(Elements(p.granted), p.released, t);
    assert Elements(p.granted + [t]) == Elements(p.granted) + {t};
    assert p.granted + [t] + p.queue[1..] == p.arrived;
  }

  /** Letting the head start restores the invariant when at most one slot is free, or at most one task waits. */
  lemma NextGrants(max: nat, p: Pool)
    requires p.granted + p.queue == p.arrived && Distinct(p.arrived) && p.released <= Elements(p.granted)
    requires p.active == |Elements(p.granted) - p.released| && p.active <= max
    requires |p.queue| <= 1 || p.active + 1 >= max
    ensures Inv(max, Next(max, p))
  {
    if p.active < max && p.queue != [] {
      GrantOne(max, p);
    }
  }

  lemma ArriveKeepsInv(max: nat, p: Pool, t: Task)
    requires Inv(max, p) && t !in p.arrived
    ensures Inv(max, Step(max, p, Arrive(t)))
  {
    var q := p.(arrived := p.arrived + [t], queue := p.queue + [t]);
    assert q.granted + q.queue == q.arrived;
    NextGrants(max, q);
  }

  lemma SettleKeepsInv(max: nat, p: Pool, t: Task, ok: bool)
    requires Inv(max, p) && Possible(p, Settle(t, ok))
    ensures Inv(max, Step(max, p, Settle(t, ok)))
  {
    var q := p.(active := p.active - 1, released := p.released + {t});
    assert t in Elements(p.granted) - p.released;
    assert Elements(q.granted) - q.released == (Elements(p.granted) - p.released) - {t};
    NextGrants(max, q);
  }

  lemma StepKeepsInv(max: nat, p: Pool, e: Event)
    requires Inv(max, p) && Possible(p, e)
    ensures Inv(max, Step(max, p, e))
  {
    match e
    case Arrive(t) => ArriveKeepsInv(max, p, t);
    case Settle(t, ok) => SettleKeepsInv(max, p, t, ok);
  }

  /** Over every interleaving of arrivals and completions. */
  lemma {:induction false} PoolInvariant(max: nat, events: seq<Event>, p: Pool)
    requires Reaches(max, events, p)
    ensures Inv(max, p)
    decreases |events|
  {
    if events == [] {
      assert Elements([]) - {} == {};
    } else {
      var n := |events| - 1;
      var before :| Reaches(max, events[..n], before) && Possible(before, events[n])
        && p == Step(max, before, events[n]);
      PoolInvariant(max, events[..n], before);
      StepKeepsInv(max, before, events[n]);
    }
  }

  /** No wake-up is lost: when every granted task has settled, every task that arrived was granted. It
      takes one slot: a pool of none grants nothing. */
  lemma AllGrantedWhenAllSettled(max: nat, events: seq<Event>, p: Pool)
    requires Reaches(max, events, p) && Elements(p.granted) == p.released
    ensures p.granted == p.arrived <==> max >= 1 || p.arrived == []
  {
    PoolInvariant(max, events, p);
    assert Elements(p.granted) - p.released == {};
    if p.queue == [] {
      assert p.granted + p.queue == p.granted;
    } else {
      assert |p.granted| < |p.arrived|;
    }
    if max == 0 && p.arrived != [] {
      NothingGrantedByNone(events, p);
    }
  }

  lemma {:induction false} NothingGrantedByNone(events: seq<Event>, p: Pool)
    requires Reaches(0, events, p)
    ensures p.granted == []
    decreases |events|
  {
    if events == [] {
    } else {
      var n := |events| - 1;
      var before :| Reaches(0, events[..n], before) && Possible(before, events[n]) && p == Step(0, before, events[n]);
      NothingGrantedByNone(events[..n], before);
    }
  }

  /** As long as a task is unsettled some running task can settle ... */
  lemma SomeoneCanSettle(max: nat, p: Pool)
    requires Inv(max, p) && max >= 1 && Elements(p.arrived) != p.released
    ensures exists t :: Possible(p, Settle(t, true))
  {
    if p.queue == [] {
      assert p.granted == p.arrived;
    }
    var t :| t in Elements(p.granted) - p.released;
    assert Possible(p, Settle(t, true));
  }

  /** ... and each settlement, successful or not, leaves one unsettled task fewer. */
  lemma SettlingProgresses(max: nat, p: Pool, t: Task, ok: bool)
    requires Inv(max, p) && Possible(p, Settle(t, ok))
    ensures var q := Step(max, p, Settle(t, ok));
      q.arrived == p.arrived && |Elements(q.arrived) - q.released| < |Elements(p.arrived) - p.released|
  {
    var q := Step(max, p, Settle(t, ok));
    assert t in p.arrived;
    assert Elements(q.arrived) - q.released == (Elements(p.arrived) - p.released) - {t};
  }

  // ---- The limiter object ----

  class ConcurrencyLimiter {
    const maxConcurrent: nat
    var active: int
    var queue: seq<Task>
    ghost var arrived: seq<Task>
    ghost var granted: seq<Task>
    ghost var released: set<Task>

    ghost function State(): Pool
      reads this
    {
      Pool(active, queue, arrived, granted, released)
    }

    constructor (max: nat)
      ensures maxConcurrent == max && State() == EMPTY
    {
      maxConcurrent := max;
      active, queue, arrived, granted, released := 0, [], [], [], {};
    }

    /** Starts the task at the head of the queue if a slot is free. */
    method StartNext() returns (started: seq<Task>)
      modifies this
      ensures State() == Next(maxConcurrent, old(State()))
      ensures granted == old(granted) + started
    {
      started := [];
      if active >= maxConcurrent {
        return;
      }
      if queue == [] {
        return;
      }
      started := [queue[0]];
      granted := granted + [queue[0]];
      queue := queue[1..];
      active := active + 1;
    }

    /** The first half of `limit`: queue up, and run at once if possible. */
    method Enter(task: Task) returns (started: seq<Task>)
      modifies this
      ensures State() == Step(maxConcurrent, old(State()), Arrive(task))
      ensures granted == old(granted) + started
    {
      queue := queue + [task];
      arrived := arrived + [task];
      started := StartNext();
    }

    /** The `finally` block, reached on success and on failure alike. */
    method Leave(task: Task, ok: bool) returns (started: seq<Task>)
      modifies this
      ensures State() == Step(maxConcurrent, old(State()), Settle(task, ok))
      ensures granted == old(granted) + started
    {
      active := active - 1;
      released := released + {task};
      started := StartNext();
    }
  }

  // ---- runWithConcurrency ----

  datatype Settled<R> = Fulfilled(value: R) | Rejected(reason: string)

  function Upto(n: nat): seq<nat> {
    seq(n, i => i)
  }

  /** The first `i` items have entered and none has settled. */
  ghost predicate Entered(max: nat, i: nat, p: Pool) {
    Inv(max, p) && p.arrived == Upto(i) && p.released == {}
  }

  lemma EmptyPool(max: nat)
    ensures Entered(max, 0, EMPTY)
  {
    assert Elements([]) - {} == {};
  }

  lemma EnterOne(max: nat, i: nat, p: Pool)
    requires Entered(max, i, p)
    ensures Entered(max, i + 1, Step(max, p, Arrive(i)))
  {
    assert Upto(i) + [i] == Upto(i + 1);
    ArriveKeepsInv(max, p, i);
  }

  method EnterAll(limiter: ConcurrencyLimiter, n: nat) returns (calls: seq<nat>)
    requires limiter.State() == EMPTY
    modifies limiter
    ensures Entered(limiter.maxConcurrent, n, limiter.State()) && calls == limiter.granted
  {
    EmptyPool(limiter.maxConcurrent);
    calls := [];
    for i := 0 to n
      invariant Entered(limiter.maxConcurrent, i, limiter.State()) && calls == limiter.granted
    {
      EnterOne(limiter.maxConcurrent, i, limiter.State());
      var started := limiter.Enter(i);
      calls := calls + started;
    }
  }

  /** All `n` items have entered; `running` are the calls granted and not settled yet. */
  ghost predicate Draining(max: nat, n: nat, p: Pool, calls: seq<nat>, running: set<nat>) {
    Inv(max, p) && p.arrived == Upto(n) && calls == p.granted && running == Elements(calls) - p.released
  }

  lemma SettleKeepsDraining(max: nat, n: nat, p: Pool, calls: seq<nat>, running: set<nat>, t: Task, ok: bool,
                            q: Pool, started: seq<Task>)
    requires max >= 1 && Draining(max, n, p, calls, running) && t in running
    requires q == Step(max, p, Settle(t, ok)) && q.granted == p.granted + started
    ensures Draining(max, n, q, calls + started, running - {t} + Elements(started))
    ensures q.released == p.released + {t} && t < n
    ensures |Elements(q.arrived) - q.released| < |Elements(p.arrived) - p.released|
  {
    assert Possible(p, Settle(t, ok));
    StepKeepsInv(max, p, Settle(t, ok));
    SettlingProgresses(max, p, t, ok);
    StartedIsNew(max, p, q, t, started);
    RunningIsAnItem(max, n, p, calls, running, t);
  }

  lemma RunningIsAnItem(max: nat, n: nat, p: Pool, calls: seq<nat>, running: set<nat>, t: Task)
    requires Draining(max, n, p, calls, running) && t in running
    ensures t < n
  {
    assert t in p.arrived;
  }

  /** With no slots nothing is granted. */
  lemma NoSlotsNoCalls(n: nat, p: Pool)
    requires Entered(0, n, p)
    ensures p.granted == []
  {
    assert Elements(p.granted) - p.released == Elements(p.granted);
    NoElements(p.granted);
  }

  lemma NoElements(s: seq<Task>)
    ensures Elements(s) == {} <==> s == []
  {
    if s != [] {
      assert s[0] in Elements(s);
    }
  }

  lemma NoneRunningAllDone(max: nat, n: nat, p: Pool, calls: seq<nat>)
    requires max >= 1 && Draining(max, n, p, calls, {})
    ensures calls == Upto(n) && forall i: nat :: i < n ==> i in p.released
  {
    assert p.queue == [];
    assert p.granted == p.arrived;
    forall i: nat | i < n ensures i in p.released {
      assert Upto(n)[i] == i;
      assert i in Elements(calls) && i !in Elements(calls) - p.released;
    }
  }

  /** The results so far are those of the settled items, each at its own index. */
  ghost predicate Recorded<T, R>(items: seq<T>, fn: (T, nat) -> Settled<R>, done: map<nat, Settled<R>>,
                                 released: set<Task>)
  {
    done.Keys == released && forall t :: t in done ==> t < |items| && done[t] == fn(items[t], t)
  }

  lemma RecordOne<T, R>(items: seq<T>, fn: (T, nat) -> Settled<R>, done: map<nat, Settled<R>>,
                        released: set<Task>, t: Task)
    requires Recorded(items, fn, done, released) && t < |items|
    ensures Recorded(items, fn, done[t := fn(items[t], t)], released + {t})
  {
  }

  /** `Promise.all`: the results in the order of the items. */
  method Collect<T, R>(items: seq<T>, ghost fn: (T, nat) -> Settled<R>, done: map<nat, Settled<R>>)
    returns (results: seq<Settled<R>>)
    requires forall i: nat :: i < |items| ==> i in done && done[i] == fn(items[i], i)
    ensures |results| == |items| && forall i :: 0 <= i < |items| ==> results[i] == fn(items[i], i)
  {
    results := [];
    for i := 0 to |items|
      invariant |results| == i && forall j :: 0 <= j < i ==> results[j] == fn(items[j], j)
    {
      results := results + [done[i]];
    }
  }

  /** Enters every item, then lets running calls settle in any order the scheduler likes. `calls` is the
      order in which `fn` was invoked; `settled` is false when the promise stays open for ever. */
  method RunWithConcurrency<T, R>(items: seq<T>, max: nat, fn: (T, nat) -> Settled<R>)
    returns (settled: bool, results: seq<Settled<R>>, calls: seq<nat>)
    ensures settled <==> max >= 1 || items == []
    ensures settled ==> |results| == |items| && forall i :: 0 <= i < |items| ==> results[i] == fn(items[i], i)
    ensures calls == if settled then Upto(|items|) else []
  {
    var n := |items|;
    var limiter := new ConcurrencyLimiter(max);
    calls := EnterAll(limiter, n);
    var done: map<nat, Settled<R>> := map[];
    if max == 0 {
      NoSlotsNoCalls(n, limiter.State());
      return n == 0, [], [];
    }
    done, calls := Drain(limiter, items, fn, calls);
    NoneRunningAllDone(max, n, limiter.State(), calls);
    results := Collect(items, fn, done);
    settled := true;
  }

  /** Settles running calls, in any order, until none runs. */
  method Drain<T, R>(limiter: ConcurrencyLimiter, items: seq<T>, fn: (T, nat) -> Settled<R>, entered: seq<nat>)
    returns (done: map<nat, Settled<R>>, calls: seq<nat>)
    requires limiter.maxConcurrent >= 1 && entered == limiter.granted
    requires Entered(limiter.maxConcurrent, |items|, limiter.State())
    modifies limiter
    ensures Draining(limiter.maxConcurrent, |items|, limiter.State(), calls, {})
    ensures Recorded(items, fn, done, limiter.released)
  {
    calls := entered;
    var running := Elements(calls);
    done := map[];
    while running != {}
      invariant Draining(limiter.maxConcurrent, |items|, limiter.State(), calls, running)
      invariant Recorded(items, fn, done, limiter.State().released)
      decreases |Elements(limiter.State().arrived) - limiter.State().released|
    {
      var t :| t in running;
      ghost var before := limiter.State();
      RunningIsAnItem(limiter.maxConcurrent, |items|, before, calls, running, t);
      var outcome := fn(items[t], t);
      var started := limiter.Leave(t, outcome.Fulfilled?);
      SettleKeepsDraining(limiter.maxConcurrent, |items|, before, calls, running, t, outcome.Fulfilled?,
                          limiter.State(), started);
      RecordOne(items, fn, done, before.released, t);
      done := done[t := outcome];
      calls := calls + started;
      running := running - {t} + Elements(started);
    }
  }

  lemma StartedIsNew(max: nat, before: Pool, after: Pool, t: Task, started: seq<Task>)
    requires Inv(max, before) && Inv(max, after) && t in before.granted && t !in before.released
    requires after.granted == before.granted + started && after.released == before.released + {t}
    ensures (Elements(before.granted) - before.released) - {t} + Elements(started)
         == Elements(after.granted) - after.released
  {
    assert Elements(after.granted) == Elements(before.granted) + Elements(started);
    forall s | s in started ensures s !in before.granted {
      LaterGrantIsNew(max, before, after, started, s);
    }
  }

  lemma LaterGrantIsNew(max: nat, before: Pool, after: Pool, started: seq<Task>, s: Task)
    requires Inv(max, after) && after.granted == before.granted + started && s in started
    ensures s !in before.granted
  {
    var i :| 0 <= i < |started| && started[i] == s;
    assert after.arrived[|before.granted| + i] == s;
    forall j | 0 <= j < |before.granted| ensures before.granted[j] != s {
      assert after.arrived[j] == before.granted[j];
    }
  }
}
