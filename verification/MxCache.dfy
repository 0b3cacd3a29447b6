/** The bounded TTL cache of MX lookups (the API-key cache has the same scheme): an insertion-ordered map
    against the plain history of its sets. */
module MxCache {
  datatype MxResult = MxResult(found: bool, records: seq<string>, error: string)

  datatype Option<T> = None | Some(value: T)

  datatype Entry = Entry(domain: string, result: MxResult, expiresAt: int)

  // ---- An insertion-ordered map ----

  predicate DistinctKeys(es: seq<Entry>) {
    forall i, j :: 0 <= i < j < |es| ==> es[i].domain != es[j].domain
  }

  /** Position of a key, or the length when it is absent. */
  function IndexOf(es: seq<Entry>, d: string): (i: nat)
    ensures i <= |es|
    ensures i < |es| ==> es[i].domain == d
    ensures forall j :: 0 <= j < i ==> es[j].domain != d
  {
    if es == [] || es[0].domain == d then 0 else 1 + IndexOf(es[1..], d)
  }

  predicate Has(es: seq<Entry>, d: string) {
    IndexOf(es, d) < |es|
  }

  function Delete(es: seq<Entry>, d: string): seq<Entry> {
    var i := IndexOf(es, d);
    if i < |es| then es[..i] + es[i + 1..] else es
  }

  /** `Map.set`: an existing key keeps its place. */
  function Put(es: seq<Entry>, e: Entry): seq<Entry> {
    var i := IndexOf(es, e.domain);
    if i < |es| then es[i := e] else es + [e]
  }

  lemma IndexIs(es: seq<Entry>, d: string, i: nat)
    requires DistinctKeys(es) && i < |es| && es[i].domain == d
    ensures IndexOf(es, d) == i
  {
  }

  // ---- The cache ----

  datatype Config = Config(max: nat, ttl: nat)

  const MX_CACHE := Config(10_000, 300_000)
  const KEY_CACHE := Config(10_000, 60_000)

  function Found(es: seq<Entry>, d: string, now: int): Option<MxResult> {
    var i := IndexOf(es, d);
    if i < |es| && now <= es[i].expiresAt then Some(es[i].result) else None
  }

  /** `getCached` deletes what it finds expired. */
  function AfterGet(es: seq<Entry>, d: string, now: int): seq<Entry> {
    if Has(es, d) && Found(es, d, now) == None then Delete(es, d) else es
  }

  function Room(cfg: Config, es: seq<Entry>): seq<Entry> {
    if |es| >= cfg.max && es != [] then es[1..] else es
  }

  /** `setCached` evicts the first key of a full map before it sets. */
  function AfterSet(cfg: Config, es: seq<Entry>, d: string, r: MxResult, now: int): seq<Entry> {
    Put(Room(cfg, es), Entry(d, r, now + cfg.ttl))
  }

  datatype Event = Get(domain: string, at: int) | Set(domain: string, result: MxResult, at: int)

  function Step(cfg: Config, es: seq<Entry>, e: Event): seq<Entry> {
    match e
    case Get(d, at) => AfterGet(es, d, at)
    case Set(d, r, at) => AfterSet(cfg, es, d, r, at)
  }

  function Run(cfg: Config, es: seq<Entry>, events: seq<Event>): seq<Entry>
    decreases |events|
  {
    if events == [] then es else Step(cfg, Run(cfg, es, events[..|events| - 1]), events[|events| - 1])
  }

  lemma RunStep(cfg: Config, es: seq<Entry>, events: seq<Event>, e: Event)
    ensures Run(cfg, es, events + [e]) == Step(cfg, Run(cfg, es, events), e)
  {
    assert (events + [e])[..|events|] == events;
  }

  // ---- The history ----

  datatype Stored = Stored(result: MxResult, at: int)

  /** The latest set of a domain. */
  function Latest(events: seq<Event>, d: string): Option<Stored> {
    if events == [] then None
    else
      var e := events[|events| - 1];
      if e.Set? && e.domain == d then Some(Stored(e.result, e.at)) else Latest(events[..|events| - 1], d)
  }

  /** An entry is the latest set of its domain. */
  predicate IsLatest(cfg: Config, events: seq<Event>, e: Entry) {
    Latest(events, e.domain) == Some(Stored(e.result, e.expiresAt - cfg.ttl))
  }

  predicate Agrees(cfg: Config, es: seq<Entry>, events: seq<Event>) {
    && DistinctKeys(es) && |es| <= cfg.max
    && forall e :: e in es ==> IsLatest(cfg, events, e)
  }

  lemma BeforeIsOther(es: seq<Entry>, i: nat, e: Entry)
    requires DistinctKeys(es) && i < |es| && e in es[..i]
    ensures e in es && e.domain != es[i].domain
  {
    var j :| 0 <= j < i && es[..i][j] == e;
    assert es[j] == e;
  }

  lemma AfterIsOther(es: seq<Entry>, i: nat, e: Entry)
    requires DistinctKeys(es) && i < |es| && e in es[i + 1..]
    ensures e in es && e.domain != es[i].domain
  {
    var j :| 0 <= j < |es| - i - 1 && es[i + 1..][j] == e;
    assert es[i + 1 + j] == e;
  }

  lemma CutOutIsDistinct(es: seq<Entry>, i: nat)
    requires DistinctKeys(es) && i < |es|
    ensures DistinctKeys(es[..i] + es[i + 1..])
  {
    var rest := es[..i] + es[i + 1..];
    forall j, k | 0 <= j < k < |rest| ensures rest[j].domain != rest[k].domain {
      assert rest[j] == (if j < i then es[j] else es[j + 1]);
      assert rest[k] == (if k < i then es[k] else es[k + 1]);
    }
  }

  lemma DeleteKeeps(es: seq<Entry>, d: string)
    requires DistinctKeys(es)
    ensures DistinctKeys(Delete(es, d)) && |Delete(es, d)| <= |es|
    ensures forall e :: e in Delete(es, d) ==> e in es && e.domain != d
  {
    var i := IndexOf(es, d);
    if i < |es| {
      CutOutIsDistinct(es, i);
      forall e | e in es[..i] + es[i + 1..] ensures e in es && e.domain != d {
        if e in es[..i] {
          BeforeIsOther(es, i, e);
        } else {
          AfterIsOther(es, i, e);
        }
      }
    }
  }

  lemma PutKeeps(es: seq<Entry>, x: Entry)
    requires DistinctKeys(es)
    ensures DistinctKeys(Put(es, x)) && |Put(es, x)| <= |es| + 1
    ensures forall e :: e in Put(es, x) ==> e == x || (e in es && e.domain != x.domain)
  {
    var put := Put(es, x);
    forall e | e in put ensures e == x || (e in es && e.domain != x.domain) {
      var j :| 0 <= j < |put| && put[j] == e;
      if e != x {
        assert es[j] == e && j != IndexOf(es, x.domain);
      }
    }
  }

  lemma LatestStep(events: seq<Event>, e: Event, d: string)
    ensures Latest(events + [e], d)
         == if e.Set? && e.domain == d then Some(Stored(e.result, e.at)) else Latest(events, d)
  {
    assert (events + [e])[..|events|] == events;
  }

  lemma GetAgrees(cfg: Config, es: seq<Entry>, events: seq<Event>, d: string, at: int)
    requires Agrees(cfg, es, events)
    ensures Agrees(cfg, AfterGet(es, d, at), events + [Get(d, at)])
  {
    var after := AfterGet(es, d, at);
    DeleteKeeps(es, d);
    forall x | x in after ensures IsLatest(cfg, events + [Get(d, at)], x) {
      assert IsLatest(cfg, events, x);
      LatestStep(events, Get(d, at), x.domain);
    }
  }

  lemma RoomKeeps(cfg: Config, es: seq<Entry>)
    requires cfg.max >= 1 && DistinctKeys(es) && |es| <= cfg.max
    ensures DistinctKeys(Room(cfg, es)) && |Room(cfg, es)| < cfg.max
    ensures forall x :: x in Room(cfg, es) ==> x in es
  {
  }

  lemma SetAgrees(cfg: Config, es: seq<Entry>, events: seq<Event>, d: string, r: MxResult, at: int)
    requires cfg.max >= 1 && Agrees(cfg, es, events)
    ensures Agrees(cfg, AfterSet(cfg, es, d, r, at), events + [Set(d, r, at)])
  {
    var after := AfterSet(cfg, es, d, r, at);
    RoomKeeps(cfg, es);
    PutKeeps(Room(cfg, es), Entry(d, r, at + cfg.ttl));
    forall x | x in after ensures IsLatest(cfg, events + [Set(d, r, at)], x) {
      assert x != Entry(d, r, at + cfg.ttl) ==> IsLatest(cfg, events, x);
      LatestStep(events, Set(d, r, at), x.domain);
    }
  }

  lemma StepAgrees(cfg: Config, es: seq<Entry>, events: seq<Event>, e: Event)
    requires cfg.max >= 1 && Agrees(cfg, es, events)
    ensures Agrees(cfg, Step(cfg, es, e), events + [e])
  {
    match e
    case Get(d, at) => GetAgrees(cfg, es, events, d, at);
    case Set(d, r, at) => SetAgrees(cfg, es, events, d, r, at);
  }

  lemma {:induction false} RunAgrees(cfg: Config, events: seq<Event>)
    requires cfg.max >= 1
    ensures Agrees(cfg, Run(cfg, [], events), events)
    decreases |events|
  {
    if events == [] {
    } else {
      var n := |events| - 1;
      RunAgrees(cfg, events[..n]);
      StepAgrees(cfg, Run(cfg, [], events[..n]), events[..n], events[n]);
      assert events[..n] + [events[n]] == events;
    }
  }

  /** When the domain was last set; zero when it never was. */
  function LatestAt(events: seq<Event>, d: string): int {
    var latest := Latest(events, d);
    if latest.Some? then latest.value.at else 0
  }

  /** The result is what the latest set of the domain stored, no more than the TTL before `now`. */
  predicate IsFresh(cfg: Config, events: seq<Event>, d: string, r: MxResult, now: int) {
    var latest := Latest(events, d);
    latest.Some? && latest.value.result == r && now <= latest.value.at + cfg.ttl
  }

  /** A hit is the latest set of that domain, made no more than the TTL ago; the size never passes the cap. */
  lemma HitIsLatestSet(cfg: Config, events: seq<Event>, d: string, now: int)
    requires cfg.max >= 1
    ensures |Run(cfg, [], events)| <= cfg.max
    ensures var hit := Found(Run(cfg, [], events), d, now); hit.Some? ==> IsFresh(cfg, events, d, hit.value, now)
  {
    RunAgrees(cfg, events);
    var es := Run(cfg, [], events);
    if Found(es, d, now).Some? {
      assert IsLatest(cfg, events, es[IndexOf(es, d)]);
    }
  }

  /** At the sizes and lifetimes of the two caches: MX answers for five minutes, keys for one. */
  lemma BothCachesAreFresh(events: seq<Event>, d: string, now: int)
    ensures |Run(MX_CACHE, [], events)| <= 10_000 && |Run(KEY_CACHE, [], events)| <= 10_000
    ensures Found(Run(MX_CACHE, [], events), d, now).Some? ==> now <= LatestAt(events, d) + 300_000
    ensures Found(Run(KEY_CACHE, [], events), d, now).Some? ==> now <= LatestAt(events, d) + 60_000
  {
    HitIsLatestSet(MX_CACHE, events, d, now);
    HitIsLatestSet(KEY_CACHE, events, d, now);
  }

  // ---- Survival ----

  function Sets(events: seq<Event>): nat {
    if events == [] then 0 else Sets(events[..|events| - 1]) + (if events[|events| - 1].Set? then 1 else 0)
  }

  /** After a lookup that missed, the domain is not held. */
  lemma MissEmpties(cfg: Config, events: seq<Event>, d: string, now: int)
    requires cfg.max >= 1
    ensures Found(Run(cfg, [], events), d, now) == None ==> !Has(Run(cfg, [], events + [Get(d, now)]), d)
  {
    RunStep(cfg, [], events, Get(d, now));
    RunAgrees(cfg, events);
    DeleteKeeps(Run(cfg, [], events), d);
  }

  /** How many sets the entry of `d` is sure to outlive. */
  function Slack(cfg: Config, es: seq<Entry>, d: string): int {
    cfg.max - |es| + IndexOf(es, d)
  }

  /** Nothing in the events replaces or expires the entry. */
  predicate LeavesAlone(events: seq<Event>, d: string, expiresAt: int) {
    forall i :: 0 <= i < |events| ==> events[i].domain == d ==> events[i].Get? && events[i].at <= expiresAt
  }

  /** Each set is of a domain the cache does not hold. */
  predicate FreshSets(cfg: Config, es: seq<Entry>, events: seq<Event>)
    decreases |events|
  {
    events != [] ==>
      var n := |events| - 1;
      && events[n].Set? && !Has(Run(cfg, es, events[..n]), events[n].domain)
      && FreshSets(cfg, es, events[..n])
  }

  lemma DeleteOther(es: seq<Entry>, d: string, other: string)
    requires DistinctKeys(es) && d != other && Has(es, d)
    ensures Has(Delete(es, other), d)
    ensures Delete(es, other)[IndexOf(Delete(es, other), d)] == es[IndexOf(es, d)]
    ensures |es| - IndexOf(es, d) >= |Delete(es, other)| - IndexOf(Delete(es, other), d)
  {
    var k, i := IndexOf(es, other), IndexOf(es, d);
    if k < |es| {
      var rest := es[..k] + es[k + 1..];
      DeleteKeeps(es, other);
      IndexIs(rest, d, if i < k then i else i - 1);
    }
  }

  lemma PutOther(es: seq<Entry>, d: string, x: Entry)
    requires DistinctKeys(es) && d != x.domain && Has(es, d)
    ensures Has(Put(es, x), d) && IndexOf(Put(es, x), d) == IndexOf(es, d)
    ensures Put(es, x)[IndexOf(es, d)] == es[IndexOf(es, d)]
  {
    PutKeeps(es, x);
    IndexIs(Put(es, x), d, IndexOf(es, d));
  }

  /** `d` holds exactly this entry. */
  predicate Holds(es: seq<Entry>, x: Entry) {
    Has(es, x.domain) && es[IndexOf(es, x.domain)] == x
  }

  lemma EvictionSparesOthers(cfg: Config, es: seq<Entry>, x: Entry)
    requires cfg.max >= 1 && DistinctKeys(es) && |es| <= cfg.max && Holds(es, x) && Slack(cfg, es, x.domain) >= 1
    ensures Holds(Room(cfg, es), x) && DistinctKeys(Room(cfg, es))
    ensures Slack(cfg, Room(cfg, es), x.domain) == Slack(cfg, es, x.domain)
  {
    if |es| >= cfg.max {
      IndexIs(es[1..], x.domain, IndexOf(es, x.domain) - 1);
    }
  }

  lemma SetSpares(cfg: Config, es: seq<Entry>, x: Entry, e: Event)
    requires cfg.max >= 1 && DistinctKeys(es) && |es| <= cfg.max && Holds(es, x)
    requires e.Set? && e.domain != x.domain && Slack(cfg, es, x.domain) >= 1
    ensures var after := Step(cfg, es, e);
      && Holds(after, x)
      && Slack(cfg, after, x.domain) >= Slack(cfg, es, x.domain) - 1
      && (!Has(es, e.domain) ==> Slack(cfg, after, x.domain) == Slack(cfg, es, x.domain) - 1)
  {
    var room := Room(cfg, es);
    EvictionSparesOthers(cfg, es, x);
    PutOther(room, x.domain, Entry(e.domain, e.result, e.at + cfg.ttl));
    RoomKeeps(cfg, es);
    if Has(room, e.domain) {
      assert room[IndexOf(room, e.domain)] in es;
    }
  }

  lemma StepSpares(cfg: Config, es: seq<Entry>, x: Entry, e: Event)
    requires cfg.max >= 1 && DistinctKeys(es) && |es| <= cfg.max && Holds(es, x)
    requires LeavesAlone([e], x.domain, x.expiresAt)
    requires e.Set? ==> Slack(cfg, es, x.domain) >= 1
    ensures var after := Step(cfg, es, e);
      Holds(after, x) && Slack(cfg, after, x.domain) >= Slack(cfg, es, x.domain) - (if e.Set? then 1 else 0)
  {
    assert [e][0] == e;
    if e.Set? {
      SetSpares(cfg, es, x, e);
    } else if e.domain != x.domain {
      DeleteOther(es, x.domain, e.domain);
    }
  }

  lemma StepKeepsKeys(cfg: Config, es: seq<Entry>, e: Event)
    requires cfg.max >= 1 && DistinctKeys(es) && |es| <= cfg.max
    ensures DistinctKeys(Step(cfg, es, e)) && |Step(cfg, es, e)| <= cfg.max
  {
    match e
    case Get(d, at) => DeleteKeeps(es, d);
    case Set(d, r, at) =>
      RoomKeeps(cfg, es);
      PutKeeps(Room(cfg, es), Entry(d, r, at + cfg.ttl));
  }

  lemma {:induction false} RunKeepsKeys(cfg: Config, es: seq<Entry>, events: seq<Event>)
    requires cfg.max >= 1 && DistinctKeys(es) && |es| <= cfg.max
    ensures DistinctKeys(Run(cfg, es, events)) && |Run(cfg, es, events)| <= cfg.max
    decreases |events|
  {
    if events == [] {
    } else {
      var n := |events| - 1;
      RunKeepsKeys(cfg, es, events[..n]);
      StepKeepsKeys(cfg, Run(cfg, es, events[..n]), events[n]);
    }
  }

  /** An entry that nothing replaces or expires outlives as many sets as its slack, whatever else happens. */
  lemma {:induction false} Survives(cfg: Config, es: seq<Entry>, x: Entry, later: seq<Event>)
    requires cfg.max >= 1 && DistinctKeys(es) && |es| <= cfg.max && Holds(es, x)
    requires LeavesAlone(later, x.domain, x.expiresAt) && Sets(later) <= Slack(cfg, es, x.domain)
    ensures Holds(Run(cfg, es, later), x)
    ensures Slack(cfg, Run(cfg, es, later), x.domain) >= Slack(cfg, es, x.domain) - Sets(later)
    decreases |later|
  {
    if later == [] {
    } else {
      var n := |later| - 1;
      Survives(cfg, es, x, later[..n]);
      RunKeepsKeys(cfg, es, later[..n]);
      assert LeavesAlone([later[n]], x.domain, x.expiresAt);
      StepSpares(cfg, Run(cfg, es, later[..n]), x, later[n]);
    }
  }

  lemma LastOfConcat(a: seq<Event>, b: seq<Event>)
    requires b != []
    ensures b == b[..|b| - 1] + [b[|b| - 1]]
    ensures a + b == a + b[..|b| - 1] + [b[|b| - 1]]
  {
  }

  lemma {:induction false} RunConcat(cfg: Config, es: seq<Entry>, a: seq<Event>, b: seq<Event>)
    ensures Run(cfg, es, a + b) == Run(cfg, Run(cfg, es, a), b)
    decreases |b|
  {
    if b == [] {
      assert a + b == a;
    } else {
      var init, last := b[..|b| - 1], b[|b| - 1];
      LastOfConcat(a, b);
      RunConcat(cfg, es, a, init);
      calc {
        Run(cfg, es, a + b);
      == { RunStep(cfg, es, a + init, last); }
        Step(cfg, Run(cfg, es, a + init), last);
      == { RunStep(cfg, Run(cfg, es, a), init, last); }
        Run(cfg, Run(cfg, es, a), b);
      }
    }
  }

  /** The slack a set leaves its entry: all but one of the cap, unless it overwrote an entry that stays in
      place and so keeps that one's slack. */
  lemma SlackAfterSet(cfg: Config, es: seq<Entry>, d: string, r: MxResult, at: int)
    requires cfg.max >= 1 && DistinctKeys(es) && |es| <= cfg.max
    ensures var after := AfterSet(cfg, es, d, r, at);
      && Holds(after, Entry(d, r, at + cfg.ttl))
      && Slack(cfg, after, d) == if Has(es, d) && Slack(cfg, es, d) > 0 then Slack(cfg, es, d) else cfg.max - 1
  {
    var x := Entry(d, r, at + cfg.ttl);
    var room := Room(cfg, es);
    RoomKeeps(cfg, es);
    PutKeeps(room, x);
    if Has(es, d) && Slack(cfg, es, d) > 0 {
      EvictionSparesOthers(cfg, es, es[IndexOf(es, d)]);
      IndexIs(Put(room, x), d, IndexOf(room, d));
    } else {
      IndexIs(Put(room, x), d, |room|);
    }
  }

  /** A set that follows a miss is found until it expires, through any run of fewer than `max` later sets. */
  lemma SetAfterMissSurvives(cfg: Config, before: seq<Event>, d: string, r: MxResult, at: int, later: seq<Event>,
                             now: int)
    requires cfg.max >= 1
    requires !Has(Run(cfg, [], before), d)
    requires LeavesAlone(later, d, at + cfg.ttl) && Sets(later) < cfg.max
    requires now <= at + cfg.ttl
    ensures Found(Run(cfg, [], before + [Set(d, r, at)] + later), d, now) == Some(r)
  {
    var es := Run(cfg, [], before);
    RunKeepsKeys(cfg, [], before);
    SlackAfterSet(cfg, es, d, r, at);
    var mid := before + [Set(d, r, at)];
    RunStep(cfg, [], before, Set(d, r, at));
    RunKeepsKeys(cfg, [], mid);
    Survives(cfg, Run(cfg, [], mid), Entry(d, r, at + cfg.ttl), later);
    RunConcat(cfg, [], mid, later);
  }

  /** Exactly: through sets of fresh domains an entry lasts if and only if they are no more than its slack.
      So a set that overwrites an entry in place can be evicted by far fewer than `max` later sets. */
  lemma {:induction false} SurvivesExactly(cfg: Config, es: seq<Entry>, x: Entry, later: seq<Event>)
    requires cfg.max >= 1 && DistinctKeys(es) && |es| <= cfg.max && Holds(es, x)
    requires LeavesAlone(later, x.domain, x.expiresAt) && FreshSets(cfg, es, later)
    ensures Has(Run(cfg, es, later), x.domain) <==> |later| <= Slack(cfg, es, x.domain)
    ensures |later| <= Slack(cfg, es, x.domain) ==>
      var after := Run(cfg, es, later);
      Holds(after, x) && Slack(cfg, after, x.domain) == Slack(cfg, es, x.domain) - |later|
    decreases |later|
  {
    if later == [] {
    } else {
      var n := |later| - 1;
      var before := Run(cfg, es, later[..n]);
      SurvivesExactly(cfg, es, x, later[..n]);
      RunKeepsKeys(cfg, es, later[..n]);
      assert LeavesAlone([later[n]], x.domain, x.expiresAt);
      if n < Slack(cfg, es, x.domain) {
        SetSpares(cfg, before, x, later[n]);
      } else {
        GoneAfterSet(cfg, before, x, later[n]);
      }
    }
  }

  lemma Resolve(es: seq<Entry>, d: string, i: nat)
    requires i <= |es| && (i < |es| ==> es[i].domain == d) && forall j :: 0 <= j < i ==> es[j].domain != d
    ensures IndexOf(es, d) == i
  {
  }

  function Holding(r: MxResult, ttl: nat, d: string): Entry {
    Entry(d, r, ttl)
  }

  lemma SetAppends(cfg: Config, events: seq<Event>, es: seq<Entry>, d: string, r: MxResult)
    requires Run(cfg, [], events) == es && |es| < cfg.max && IndexOf(es, d) == |es|
    ensures Run(cfg, [], events + [Set(d, r, 0)]) == es + [Holding(r, cfg.ttl, d)]
  {
    RunStep(cfg, [], events, Set(d, r, 0));
  }

  /** Three sets in a row: the second one of `a` overwrites in place. */
  lemma OverwrittenInPlace(ttl: nat, r: MxResult)
    ensures Run(Config(3, ttl), [], [Set("a", r, 0)] + [Set("b", r, 0)] + [Set("a", r, 0)])
         == [Holding(r, ttl, "a"), Holding(r, ttl, "b")]
  {
    var cfg := Config(3, ttl);
    var e1 := [Set("a", r, 0)];
    SetAppends(cfg, [], [], "a", r);
    assert [] + e1 == e1;
    SetAppends(cfg, e1, [Holding(r, ttl, "a")], "b", r);
    RunStep(cfg, [], e1 + [Set("b", r, 0)], Set("a", r, 0));
    Resolve([Holding(r, ttl, "a"), Holding(r, ttl, "b")], "a", 0);
  }

  /** From an empty cache of three: of five sets in a row, the second one of `a` overwrites in place, and two
      more sets evict it, though it is the latest of its domain and far from expired. */
  lemma OverwrittenIsEvictedEarly(ttl: nat, r: MxResult)
    ensures var events := [Set("a", r, 0)] + [Set("b", r, 0)] + [Set("a", r, 0)] + [Set("c", r, 0)] + [Set("d", r, 0)];
      && Latest(events, "a") == Some(Stored(r, 0))
      && Found(Run(Config(3, ttl), [], events), "a", 0) == None
  {
    var cfg := Config(3, ttl);
    var e3 := [Set("a", r, 0)] + [Set("b", r, 0)] + [Set("a", r, 0)];
    var e4 := e3 + [Set("c", r, 0)];
    var full := [Holding(r, ttl, "a"), Holding(r, ttl, "b"), Holding(r, ttl, "c")];
    OverwrittenInPlace(ttl, r);
    Resolve(full[..2], "c", 2);
    SetAppends(cfg, e3, full[..2], "c", r);
    assert Run(cfg, [], e4) == full;
    RunStep(cfg, [], e4, Set("d", r, 0));
    assert full[1..] == [Holding(r, ttl, "b"), Holding(r, ttl, "c")];
    Resolve(full[1..], "d", 2);
    Resolve(full[1..] + [Holding(r, ttl, "d")], "a", 3);
    LatestStep(e4, Set("d", r, 0), "a");
    LatestStep(e3, Set("c", r, 0), "a");
    LatestStep([Set("a", r, 0)] + [Set("b", r, 0)], Set("a", r, 0), "a");
  }

  lemma GoneAfterSet(cfg: Config, es: seq<Entry>, x: Entry, e: Event)
    requires cfg.max >= 1 && DistinctKeys(es) && |es| <= cfg.max && e.Set? && e.domain != x.domain
    requires Has(es, x.domain) ==> Slack(cfg, es, x.domain) == 0
    ensures !Has(Step(cfg, es, e), x.domain)
  {
    var room := Room(cfg, es);
    RoomKeeps(cfg, es);
    PutKeeps(room, Entry(e.domain, e.result, e.at + cfg.ttl));
  }

  // ---- The map as the worker holds it ----

  class Cache {
    const cfg: Config
    var entries: seq<Entry>
    ghost var history: seq<Event>

    ghost predicate Valid()
      reads this
    {
      cfg.max >= 1 && entries == Run(cfg, [], history)
    }

    constructor (max: nat, ttl: nat)
      requires max >= 1
      ensures Valid() && cfg == Config(max, ttl) && history == []
    {
      cfg, entries, history := Config(max, ttl), [], [];
    }

    method GetCached(domain: string, now: int) returns (hit: Option<MxResult>)
      modifies this`entries
      ensures hit == Found(old(entries), domain, now) && entries == AfterGet(old(entries), domain, now)
    {
      hit := None;
      var i := IndexOf(entries, domain);
      if i < |entries| {
        if now > entries[i].expiresAt {
          entries := entries[..i] + entries[i + 1..];
        } else {
          hit := Some(entries[i].result);
        }
      }
    }

    method SetCached(domain: string, result: MxResult, now: int)
      modifies this`entries
      ensures entries == AfterSet(cfg, old(entries), domain, result, now)
    {
      if |entries| >= cfg.max {
        if entries != [] {
          entries := entries[1..];
        }
      }
      var i := IndexOf(entries, domain);
      if i < |entries| {
        entries := entries[i := Entry(domain, result, now + cfg.ttl)];
      } else {
        entries := entries + [Entry(domain, result, now + cfg.ttl)];
      }
    }

    /** `lookupMx`; `fetched` is what the resolver would answer, `asked` and `answered` the clock around it. */
    method LookupMx(domain: string, asked: int, fetched: MxResult, answered: int) returns (result: MxResult)
      requires Valid()
      modifies this
      ensures Valid() && |entries| <= cfg.max
      ensures var cached := Found(old(entries), domain, asked);
        if cached.Some? then
          && result == cached.value && IsFresh(cfg, old(history), domain, result, asked)
          && history == old(history) + [Get(domain, asked)]
        else
          && result == fetched && !Has(Run(cfg, [], old(history) + [Get(domain, asked)]), domain)
          && history == old(history) + [Get(domain, asked)] + [Set(domain, fetched, answered)]
    {
      MissEmpties(cfg, history, domain, asked);
      HitIsLatestSet(cfg, history, domain, asked);
      RunStep(cfg, [], history, Get(domain, asked));
      var cached := GetCached(domain, asked);
      history := history + [Get(domain, asked)];
      RunKeepsKeys(cfg, [], history);
      if cached.Some? {
        return cached.value;
      }
      result := fetched;
      RunStep(cfg, [], history, Set(domain, result, answered));
      SetCached(domain, result, answered);
      history := history + [Set(domain, result, answered)];
      RunKeepsKeys(cfg, [], history);
    }
  }
}
