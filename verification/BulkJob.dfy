/** The resumable bulk verification job: rows and counters in the database, one attempt of the worker
    that may be cancelled or die between any two writes, and any number of attempts. */
module BulkJob {
  const EMAIL_CONCURRENCY: nat := 40
  const PROGRESS_FLUSH_INTERVAL: nat := 25

  datatype Status = Deliverable | Undeliverable | Risky | Unknown

  /** What verifying a row gives: a status, or an engine error. */
  datatype Verdict = Verified(status: Status) | EngineError

  datatype StoredStatus = NoStatus | Has(status: Status)

  datatype Row = Row(email: string, isDuplicate: bool, processed: bool, status: StoredStatus)

  datatype Counters = Counters(processed: nat, valid: nat, invalid: nat, risky: nat, unknown: nat, error: nat)

  predicate Balanced(c: Counters) {
    c.processed == c.valid + c.invalid + c.risky + c.unknown + c.error
  }

  predicate Pending(r: Row) {
    !r.isDuplicate && !r.processed
  }

  predicate Counted(r: Row) {
    !r.isDuplicate && r.processed
  }

  function Stored(v: Verdict): StoredStatus {
    if v.Verified? then Has(v.status) else NoStatus
  }

  /** A row after its verdict has been written. */
  function Done(r: Row, v: Verdict): Row {
    r.(processed := true, status := Stored(v))
  }

  // ---- What one uninterrupted run leaves behind ----

  type Engine = nat -> Verdict

  /** Every pending row carries its verdict; nothing else changed. */
  function AllVerified(rows: seq<Row>, verify: Engine): seq<Row> {
    seq(|rows|, i requires 0 <= i < |rows| => if Pending(rows[i]) then Done(rows[i], verify(i)) else rows[i])
  }

  /** The rows at `which` carry their verdicts. */
  function WithVerdicts(rows: seq<Row>, which: seq<nat>, verify: Engine): seq<Row> {
    seq(|rows|, i requires 0 <= i < |rows| => if i in which then Done(rows[i], verify(i)) else rows[i])
  }

  /** `rows` lies on the way from `start` to the end of an uninterrupted run. */
  predicate OnTheWay(start: seq<Row>, rows: seq<Row>, verify: Engine) {
    && |rows| == |start|
    && forall i :: 0 <= i < |start| ==>
         rows[i] == start[i] || (Pending(start[i]) && rows[i] == Done(start[i], verify(i)))
  }

  /** Resuming refines running once: from any point on the way, the rest of the work leads to the same rows. */
  lemma ResumeRefines(start: seq<Row>, rows: seq<Row>, verify: Engine)
    requires OnTheWay(start, rows, verify)
    ensures AllVerified(rows, verify) == AllVerified(start, verify)
    ensures OnTheWay(start, AllVerified(rows, verify), verify)
  {
  }

  lemma OnTheWayIsTransitive(a: seq<Row>, b: seq<Row>, c: seq<Row>, verify: Engine)
    requires OnTheWay(a, b, verify) && OnTheWay(b, c, verify)
    ensures OnTheWay(a, c, verify)
  {
  }

  // ---- Recounting the rows ----

  function B(b: bool): nat {
    if b then 1 else 0
  }

  function Add(a: Counters, b: Counters): Counters {
    Counters(a.processed + b.processed, a.valid + b.valid, a.invalid + b.invalid,
             a.risky + b.risky, a.unknown + b.unknown, a.error + b.error)
  }

  const ZERO := Counters(0, 0, 0, 0, 0, 0)

  function Tally(r: Row): Counters {
    if !Counted(r) then ZERO
    else match r.status
      case Has(Deliverable) => Counters(1, 1, 0, 0, 0, 0)
      case Has(Undeliverable) => Counters(1, 0, 1, 0, 0, 0)
      case Has(Risky) => Counters(1, 0, 0, 1, 0, 0)
      case Has(Unknown) => Counters(1, 0, 0, 0, 1, 0)
      case NoStatus => Counters(1, 0, 0, 0, 0, 1)
  }

  /** The counters read off the first `n` stored rows; duplicates do not count. */
  function RecountTo(rows: seq<Row>, n: nat): Counters
    requires n <= |rows|
  {
    if n == 0 then ZERO else Add(RecountTo(rows, n - 1), Tally(rows[n - 1]))
  }

  function Recount(rows: seq<Row>): Counters {
    RecountTo(rows, |rows|)
  }

  lemma {:induction false} RecountBalances(rows: seq<Row>, n: nat)
    requires n <= |rows|
    ensures Balanced(RecountTo(rows, n))
  {
    if n == 0 {
    } else {
      RecountBalances(rows, n - 1);
    }
  }

  lemma {:induction false} RecountSame(a: seq<Row>, b: seq<Row>, n: nat)
    requires n <= |a| && n <= |b| && forall i :: 0 <= i < n ==> a[i] == b[i]
    ensures RecountTo(a, n) == RecountTo(b, n)
  {
    if n == 0 {
    } else {
      RecountSame(a, b, n - 1);
    }
  }

  /** Writing one verdict moves the recount by that verdict. */
  lemma {:induction false} RecountOneMore(rows: seq<Row>, i: nat, v: Verdict, n: nat)
    requires i < n <= |rows| && Pending(rows[i])
    ensures RecountTo(rows[i := Done(rows[i], v)], n) == Add(RecountTo(rows, n), Tally(Done(rows[i], v)))
  {
    var updated := rows[i := Done(rows[i], v)];
    if i == n - 1 {
      RecountSame(updated, rows, n - 1);
    } else {
      RecountOneMore(rows, i, v, n - 1);
    }
  }

  lemma {:induction false} RecountMonotone(start: seq<Row>, rows: seq<Row>, verify: Engine, n: nat)
    requires OnTheWay(start, rows, verify) && n <= |start|
    ensures RecountTo(start, n).processed <= RecountTo(rows, n).processed
  {
    if n == 0 {
    } else {
      RecountMonotone(start, rows, verify, n - 1);
    }
  }

  // ---- What rows and counters say, column by column ----

  /** What a verdict leaves in the status column. */
  predicate Tells(status: StoredStatus, v: Verdict) {
    (forall s :: status == Has(s) <==> v == Verified(s)) && (status == NoStatus <==> v == EngineError)
  }

  /** The row with its verdict in place; only `processed` and `status` changed. */
  predicate Carries(before: Row, after: Row, v: Verdict) {
    && after.processed && Tells(after.status, v)
    && after.email == before.email && after.isDuplicate == before.isDuplicate
  }

  /** Every row that was neither a duplicate nor processed carries its verdict, and no other row changed. */
  predicate VerdictsInPlace(start: seq<Row>, rows: seq<Row>, verify: Engine) {
    && |rows| == |start|
    && forall i :: 0 <= i < |start| ==>
         if start[i].isDuplicate || start[i].processed then rows[i] == start[i]
         else Carries(start[i], rows[i], verify(i))
  }

  predicate IsOf(r: Row, status: StoredStatus) {
    !r.isDuplicate && r.processed && r.status == status
  }

  /** The processed rows, duplicates apart, among the first `n`. */
  function ProcessedRows(rows: seq<Row>, n: nat): set<nat>
    requires n <= |rows|
  {
    set i | 0 <= i < n && !rows[i].isDuplicate && rows[i].processed
  }

  /** Those of them with this status. */
  function RowsWith(rows: seq<Row>, n: nat, status: StoredStatus): set<nat>
    requires n <= |rows|
  {
    set i | 0 <= i < n && IsOf(rows[i], status)
  }

  /** Each counter is the number of rows it stands for. */
  predicate CountRows(c: Counters, rows: seq<Row>, n: nat)
    requires n <= |rows|
  {
    && c.processed == |ProcessedRows(rows, n)|
    && c.valid == |RowsWith(rows, n, Has(Deliverable))|
    && c.invalid == |RowsWith(rows, n, Has(Undeliverable))|
    && c.risky == |RowsWith(rows, n, Has(Risky))|
    && c.unknown == |RowsWith(rows, n, Has(Unknown))|
    && c.error == |RowsWith(rows, n, NoStatus)|
  }

  /** What a job that ran to its end leaves behind. */
  predicate EndsRight(start: seq<Row>, rows: seq<Row>, counters: Counters, verify: Engine) {
    VerdictsInPlace(start, rows, verify) && CountRows(counters, rows, |rows|)
  }

  /** Being on the way, column by column: each row is as it was, or was pending and carries its verdict. */
  lemma OnTheWayTells(start: seq<Row>, rows: seq<Row>, verify: Engine)
    ensures OnTheWay(start, rows, verify) <==>
      && |rows| == |start|
      && forall i :: 0 <= i < |start| ==>
           || rows[i] == start[i]
           || (!start[i].isDuplicate && !start[i].processed && Carries(start[i], rows[i], verify(i)))
  {
  }

  lemma OneMoreProcessed(rows: seq<Row>, n: nat)
    requires 0 < n <= |rows|
    ensures |ProcessedRows(rows, n)| == |ProcessedRows(rows, n - 1)| +
      if !rows[n - 1].isDuplicate && rows[n - 1].processed then 1 else 0
  {
    if !rows[n - 1].isDuplicate && rows[n - 1].processed {
      assert ProcessedRows(rows, n) == ProcessedRows(rows, n - 1) + {n - 1};
    } else {
      assert ProcessedRows(rows, n) == ProcessedRows(rows, n - 1);
    }
  }

  lemma OneMoreWith(rows: seq<Row>, n: nat, status: StoredStatus)
    requires 0 < n <= |rows|
    ensures |RowsWith(rows, n, status)| == |RowsWith(rows, n - 1, status)| + if IsOf(rows[n - 1], status) then 1 else 0
  {
    if IsOf(rows[n - 1], status) {
      assert RowsWith(rows, n, status) == RowsWith(rows, n - 1, status) + {n - 1};
    } else {
      assert RowsWith(rows, n, status) == RowsWith(rows, n - 1, status);
    }
  }

  lemma OneMoreRow(c: Counters, rows: seq<Row>, n: nat)
    requires 0 < n <= |rows| && CountRows(c, rows, n - 1)
    ensures CountRows(Add(c, Tally(rows[n - 1])), rows, n)
  {
    OneMoreProcessed(rows, n);
    OneMoreWith(rows, n, Has(Deliverable));
    OneMoreWith(rows, n, Has(Undeliverable));
    OneMoreWith(rows, n, Has(Risky));
    OneMoreWith(rows, n, Has(Unknown));
    OneMoreWith(rows, n, NoStatus);
  }

  lemma NoRows(rows: seq<Row>)
    ensures CountRows(ZERO, rows, 0)
  {
    assert ProcessedRows(rows, 0) == {};
    assert forall status :: RowsWith(rows, 0, status) == {};
  }

  /** The recount is the number of rows of each kind. */
  lemma {:induction false} RecountCountsRows(rows: seq<Row>, n: nat)
    requires n <= |rows|
    ensures CountRows(RecountTo(rows, n), rows, n)
  {
    if n == 0 {
      NoRows(rows);
    } else {
      RecountCountsRows(rows, n - 1);
      OneMoreRow(RecountTo(rows, n - 1), rows, n);
    }
  }

  lemma AllVerifiedEndsRight(start: seq<Row>, verify: Engine)
    ensures var rows := AllVerified(start, verify); EndsRight(start, rows, Recount(rows), verify)
  {
    var rows := AllVerified(start, verify);
    RecountCountsRows(rows, |rows|);
  }

  // ---- The rows still to verify ----

  /** `filter((r) => !r.isDuplicate && !r.processedAt)` over the first `n` rows, as indices in row order. */
  function ToVerifyTo(rows: seq<Row>, n: nat): seq<nat>
    requires n <= |rows|
  {
    if n == 0 then []
    else ToVerifyTo(rows, n - 1) + (if Pending(rows[n - 1]) then [n - 1] else [])
  }

  function ToVerify(rows: seq<Row>): seq<nat> {
    ToVerifyTo(rows, |rows|)
  }

  predicate Ascending(s: seq<nat>) {
    forall i, j :: 0 <= i < j < |s| ==> s[i] < s[j]
  }

  lemma {:induction false} ToVerifyIsPending(rows: seq<Row>, n: nat)
    requires n <= |rows|
    ensures Ascending(ToVerifyTo(rows, n))
    ensures forall k :: k in ToVerifyTo(rows, n) <==> 0 <= k < n && Pending(rows[k])
  {
    if n == 0 {
    } else {
      var before := ToVerifyTo(rows, n - 1);
      ToVerifyIsPending(rows, n - 1);
      assert forall i :: 0 <= i < |before| ==> before[i] in before;
    }
  }

  /** `alreadyDone.length + toVerify.length`, for the first `n` rows. */
  function NonDuplicates(rows: seq<Row>, n: nat): nat
    requires n <= |rows|
  {
    if n == 0 then 0 else NonDuplicates(rows, n - 1) + B(!rows[n - 1].isDuplicate)
  }

  lemma {:induction false} DoneAndToDo(rows: seq<Row>, n: nat)
    requires n <= |rows|
    ensures RecountTo(rows, n).processed + |ToVerifyTo(rows, n)| == NonDuplicates(rows, n)
  {
    if n == 0 {
    } else {
      DoneAndToDo(rows, n - 1);
    }
  }

  lemma AllOfThemVerified(rows: seq<Row>, verify: Engine)
    ensures WithVerdicts(rows, ToVerify(rows), verify) == AllVerified(rows, verify)
  {
    ToVerifyIsPending(rows, |rows|);
  }

  /** Verdicts for some of the pending rows are a point on the way. */
  lemma SomeVerifiedIsOnTheWay(rows: seq<Row>, n: nat, verify: Engine)
    requires n <= |ToVerify(rows)|
    ensures OnTheWay(rows, WithVerdicts(rows, ToVerify(rows)[..n], verify), verify)
  {
    ToVerifyIsPending(rows, |rows|);
    forall i | 0 <= i < |rows| && i in ToVerify(rows)[..n] ensures Pending(rows[i]) {
      assert i in ToVerify(rows);
    }
  }

  lemma NextVerdict(rows: seq<Row>, n: nat, verify: Engine)
    requires n < |ToVerify(rows)|
    ensures var k := ToVerify(rows)[n];
      var before := WithVerdicts(rows, ToVerify(rows)[..n], verify);
      && k < |rows| && Pending(before[k])
      && WithVerdicts(rows, ToVerify(rows)[..n + 1], verify) == before[k := Done(before[k], verify(k))]
  {
    var all := ToVerify(rows);
    ToVerifyIsPending(rows, |rows|);
    assert all[n] in all;
    assert all[n] !in all[..n];
    assert all[..n + 1] == all[..n] + [all[n]];
  }

  // ---- Accumulated updates ----

  /** One accumulated row update. */
  datatype RowUpdate = RowUpdate(row: nat, status: StoredStatus)

  predicate InRange(updates: seq<RowUpdate>, n: nat) {
    forall u :: u in updates ==> u.row < n
  }

  function WriteRow(r: Row, u: RowUpdate): Row {
    r.(processed := true, status := u.status)
  }

  /** The rows once the first `k` updates are written. */
  function Written(rows: seq<Row>, updates: seq<RowUpdate>, k: nat): (r: seq<Row>)
    requires k <= |updates| && InRange(updates, |rows|)
    ensures |r| == |rows|
  {
    if k == 0 then rows
    else
      var before := Written(rows, updates, k - 1);
      var u := updates[k - 1];
      assert u in updates;
      before[u.row := WriteRow(before[u.row], u)]
  }

  lemma {:induction false} WrittenSnoc(rows: seq<Row>, updates: seq<RowUpdate>, u: RowUpdate, k: nat)
    requires k <= |updates| && InRange(updates, |rows|) && u.row < |rows|
    ensures InRange(updates + [u], |rows|) && Written(rows, updates + [u], k) == Written(rows, updates, k)
  {
    if k == 0 {
    } else {
      WrittenSnoc(rows, updates, u, k - 1);
    }
  }

  /** `processedCount++` and the counter of the verdict. */
  function CountVerdict(c: Counters, v: Verdict): Counters {
    var d := c.(processed := c.processed + 1);
    match v
    case EngineError => d.(error := d.error + 1)
    case Verified(Deliverable) => d.(valid := d.valid + 1)
    case Verified(Undeliverable) => d.(invalid := d.invalid + 1)
    case Verified(Risky) => d.(risky := d.risky + 1)
    case Verified(Unknown) => d.(unknown := d.unknown + 1)
  }

  lemma CountVerdictIsTally(c: Counters, r: Row, v: Verdict)
    requires Pending(r)
    ensures CountVerdict(c, v) == Add(c, Tally(Done(r, v)))
  {
  }

  /** How many of the calls gave this verdict. */
  function Given(calls: seq<nat>, verify: Engine, v: Verdict): nat {
    if calls == [] then 0
    else Given(calls[..|calls| - 1], verify, v) + (if verify(calls[|calls| - 1]) == v then 1 else 0)
  }

  /** The counters after the verdicts of `calls`. */
  predicate CountedUp(before: Counters, c: Counters, calls: seq<nat>, verify: Engine) {
    && c.processed == before.processed + |calls|
    && c.valid == before.valid + Given(calls, verify, Verified(Deliverable))
    && c.invalid == before.invalid + Given(calls, verify, Verified(Undeliverable))
    && c.risky == before.risky + Given(calls, verify, Verified(Risky))
    && c.unknown == before.unknown + Given(calls, verify, Verified(Unknown))
    && c.error == before.error + Given(calls, verify, EngineError)
  }

  lemma OneMoreGiven(calls: seq<nat>, k: nat, verify: Engine, v: Verdict)
    ensures Given(calls + [k], verify, v) == Given(calls, verify, v) + if verify(k) == v then 1 else 0
  {
    assert (calls + [k])[..|calls|] == calls;
  }

  lemma OneMoreCounted(before: Counters, c: Counters, calls: seq<nat>, k: nat, verify: Engine)
    requires CountedUp(before, c, calls, verify)
    ensures CountedUp(before, CountVerdict(c, verify(k)), calls + [k], verify)
  {
    OneMoreGiven(calls, k, verify, Verified(Deliverable));
    OneMoreGiven(calls, k, verify, Verified(Undeliverable));
    OneMoreGiven(calls, k, verify, Verified(Risky));
    OneMoreGiven(calls, k, verify, Verified(Unknown));
    OneMoreGiven(calls, k, verify, EngineError);
  }

  /** One update for each of the calls, in order, with what its verdict leaves in the status column. */
  predicate UpdatesTell(updates: seq<RowUpdate>, calls: seq<nat>, verify: Engine) {
    && |updates| == |calls|
    && forall j :: 0 <= j < |calls| ==> updates[j].row == calls[j] && Tells(updates[j].status, verify(calls[j]))
  }

  /** What a chunk has gathered from `calls`. */
  predicate Gathered(updates: seq<RowUpdate>, before: Counters, c: Counters, calls: seq<nat>, verify: Engine) {
    UpdatesTell(updates, calls, verify) && CountedUp(before, c, calls, verify)
  }

  lemma OneMoreGathered(updates: seq<RowUpdate>, before: Counters, c: Counters, calls: seq<nat>, k: nat,
                        verify: Engine)
    requires Gathered(updates, before, c, calls, verify)
    ensures Gathered(updates + [RowUpdate(k, Stored(verify(k)))], before, CountVerdict(c, verify(k)), calls + [k],
                     verify)
  {
    OneMoreCounted(before, c, calls, k, verify);
  }

  /** The in-memory state inside a chunk: the updates bring the stored rows to the verdicts of the first
      `n` rows to verify, and the counters recount exactly those. */
  ghost predicate InStep(start: seq<Row>, stored: seq<Row>, updates: seq<RowUpdate>, c: Counters, n: nat,
                         verify: Engine)
  {
    && n <= |ToVerify(start)| && |stored| == |start| && InRange(updates, |stored|)
    && Written(stored, updates, |updates|) == WithVerdicts(start, ToVerify(start)[..n], verify)
    && c == Recount(WithVerdicts(start, ToVerify(start)[..n], verify))
  }

  lemma OneMoreUpdate(start: seq<Row>, stored: seq<Row>, updates: seq<RowUpdate>, c: Counters, n: nat, verify: Engine)
    requires n < |ToVerify(start)| && InStep(start, stored, updates, c, n, verify)
    ensures var k := ToVerify(start)[n];
      InStep(start, stored, updates + [RowUpdate(k, Stored(verify(k)))], CountVerdict(c, verify(k)), n + 1, verify)
  {
    var k := ToVerify(start)[n];
    var before := WithVerdicts(start, ToVerify(start)[..n], verify);
    NextVerdict(start, n, verify);
    WrittenSnoc(stored, updates, RowUpdate(k, Stored(verify(k))), |updates|);
    RecountOneMore(before, k, verify(k), |before|);
    CountVerdictIsTally(c, before[k], verify(k));
  }

  /** A chunk from `from` after row `n - 1`: in step, and the updates and counters are those of its calls. */
  ghost predicate InChunk(start: seq<Row>, stored: seq<Row>, before: Counters, from: nat, updates: seq<RowUpdate>,
                          c: Counters, n: nat, verify: Engine)
  {
    && InStep(start, stored, updates, c, n, verify) && from <= n
    && Gathered(updates, before, c, ToVerify(start)[from..n], verify)
  }

  lemma OneMoreInChunk(start: seq<Row>, stored: seq<Row>, before: Counters, from: nat, updates: seq<RowUpdate>,
                       c: Counters, n: nat, verify: Engine)
    requires n < |ToVerify(start)| && InChunk(start, stored, before, from, updates, c, n, verify)
    ensures var k := ToVerify(start)[n];
      && InChunk(start, stored, before, from, updates + [RowUpdate(k, Stored(verify(k)))], CountVerdict(c, verify(k)),
                 n + 1, verify)
      && ToVerify(start)[from..n + 1] == ToVerify(start)[from..n] + [k]
  {
    var k := ToVerify(start)[n];
    assert ToVerify(start)[from..n + 1] == ToVerify(start)[from..n] + [k];
    OneMoreUpdate(start, stored, updates, c, n, verify);
    OneMoreGathered(updates, before, c, ToVerify(start)[from..n], k, verify);
  }

  // ---- What every attempt promises ----

  /** Stored counters balance and never run ahead of the rows. */
  ghost predicate Sound(rows: seq<Row>, counters: Counters) {
    Balanced(counters) && counters.processed <= Recount(rows).processed
  }

  /** From one state of the database to a later one: rows move only along the uninterrupted run, progress
      does not go back, and the engine saw each row at most once and only rows without a verdict. */
  ghost predicate Promises(start: seq<Row>, was: Counters, rows: seq<Row>, counters: Counters, calls: seq<nat>,
                           verify: Engine)
  {
    && Sound(rows, counters)
    && OnTheWay(start, rows, verify)
    && was.processed <= counters.processed
    && Ascending(calls)
    && forall k :: k in calls ==> k < |start| && Pending(start[k])
  }

  /** With verdicts for the first `stored` rows written and the first `called` rows given to the engine. */
  lemma AttemptKeepsPromises(start: seq<Row>, was: Counters, stored: nat, called: nat, counters: Counters,
                             verify: Engine)
    requires stored <= called <= |ToVerify(start)|
    requires was.processed <= counters.processed
    requires Sound(WithVerdicts(start, ToVerify(start)[..stored], verify), counters)
    ensures Promises(start, was, WithVerdicts(start, ToVerify(start)[..stored], verify), counters,
                     ToVerify(start)[..called], verify)
  {
    SomeVerifiedIsOnTheWay(start, stored, verify);
    ToVerifyIsPending(start, |start|);
    var calls := ToVerify(start)[..called];
    forall k | k in calls ensures k < |start| && Pending(start[k]) {
      assert k in ToVerify(start);
    }
  }

  lemma NothingVerifiedYet(start: seq<Row>, verify: Engine)
    ensures WithVerdicts(start, ToVerify(start)[..0], verify) == start
    ensures InStep(start, start, [], Recount(start), 0, verify)
    ensures Balanced(Recount(start))
    ensures Recount(start).processed + |ToVerify(start)| == NonDuplicates(start, |start|)
  {
    assert WithVerdicts(start, ToVerify(start)[..0], verify) == start;
    RecountBalances(start, |start|);
    DoneAndToDo(start, |start|);
  }

  lemma {:induction false} FewToVerify(rows: seq<Row>, n: nat)
    requires n <= |rows|
    ensures |ToVerifyTo(rows, n)| <= n
  {
    if n == 0 {
    } else {
      FewToVerify(rows, n - 1);
    }
  }

  lemma NonDuplicatesStay(start: seq<Row>, rows: seq<Row>, verify: Engine, n: nat)
    requires OnTheWay(start, rows, verify) && n <= |start|
    ensures NonDuplicates(rows, n) == NonDuplicates(start, n)
  {
  }

  /** Once every row to verify has its verdict, the rows are those of the uninterrupted run. */
  lemma AllVerdictsWritten(start: seq<Row>, verify: Engine)
    ensures WithVerdicts(start, ToVerify(start)[..|ToVerify(start)|], verify) == AllVerified(start, verify)
  {
    assert ToVerify(start)[..|ToVerify(start)|] == ToVerify(start);
    AllOfThemVerified(start, verify);
  }

  // ---- The worker ----

  datatype JobStatus = Queued | Processing | Completed

  datatype Outcome = Died | StoppedByCancel | Finished

  datatype ChunksEnd = AllRun | CancelRead | DiedThere

  /** What the database holds for a job, and the usage billed to its key. */
  class Job {
    var rows: seq<Row>
    var status: JobStatus
    var counters: Counters
    var duplicateCount: int
    var billed: nat
    /** Rows handed to the verification engine so far, in order. */
    ghost var engineCalls: seq<nat>

    constructor (rows: seq<Row>)
      ensures this.rows == rows && counters == ZERO && billed == 0 && engineCalls == []
    {
      this.rows, status, counters, duplicateCount, billed, engineCalls := rows, Queued, ZERO, 0, 0, [];
    }

    /** `recoverStalledJobs`: a job left processing goes back to the queue with its counts. */
    method RecoverStalled()
      modifies this`status
      ensures status == if old(status) == Processing then Queued else old(status)
    {
      if status == Processing {
        status := Queued;
      }
    }

    /** `flushRowUpdates`: one transaction for all accumulated updates. */
    method Flush(updates: seq<RowUpdate>)
      requires InRange(updates, |rows|)
      modifies this`rows
      ensures rows == Written(old(rows), updates, |updates|)
    {
      for k := 0 to |updates|
        invariant rows == Written(old(rows), updates, k)
      {
        assert updates[k] in updates;
        var u := updates[k];
        rows := rows[u.row := WriteRow(rows[u.row], u)];
      }
    }

    /** Verifies the rows `from..upto` of `toVerify`, counting verdicts and accumulating row updates. */
    method VerifyChunk(ghost start: seq<Row>, toVerify: seq<nat>, from: nat, upto: nat, verify: Engine,
                       before: Counters)
      returns (updates: seq<RowUpdate>, c: Counters)
      requires toVerify == ToVerify(start) && from <= upto <= |toVerify|
      requires InStep(start, rows, [], before, from, verify)
      modifies this`engineCalls
      ensures InStep(start, rows, updates, c, upto, verify)
      ensures Gathered(updates, before, c, toVerify[from..upto], verify)
      ensures engineCalls == old(engineCalls) + toVerify[from..upto]
    {
      updates, c := [], before;
      assert toVerify[from..from] == [];
      for i := from to upto
        invariant InChunk(start, rows, before, from, updates, c, i, verify)
        invariant engineCalls == old(engineCalls) + toVerify[from..i]
      {
        var k := toVerify[i];
        OneMoreInChunk(start, rows, before, from, updates, c, i, verify);
        var v := verify(k);
        engineCalls := engineCalls + [k];
        c := CountVerdict(c, v);
        updates := updates + [RowUpdate(k, Stored(v))];
      }
    }

    /** Where an attempt that began at `start` stands: verdicts for `stored` rows written, `called` rows
        given to the engine, and stored counters that lag at most behind the rows. */
    ghost predicate At(start: seq<Row>, was: Counters, calls: seq<nat>, stored: nat, called: nat, verify: Engine)
      reads this
    {
      && stored <= called <= |ToVerify(start)|
      && rows == WithVerdicts(start, ToVerify(start)[..stored], verify)
      && engineCalls == calls + ToVerify(start)[..called]
      && was.processed <= counters.processed
      && Sound(rows, counters)
    }

    lemma PromisesAt(start: seq<Row>, was: Counters, calls: seq<nat>, stored: nat, called: nat, verify: Engine)
      requires At(start, was, calls, stored, called, verify)
      ensures |calls| <= |engineCalls| && engineCalls[..|calls|] == calls
      ensures engineCalls[|calls|..] == ToVerify(start)[..called]
      ensures Promises(start, was, rows, counters, engineCalls[|calls|..], verify)
    {
      AttemptKeepsPromises(start, was, stored, called, counters, verify);
    }

    /** Writes the accumulated updates and then the counters, unless the process dies first. */
    method WriteProgress(ghost start: seq<Row>, ghost was: Counters, ghost calls: seq<nat>,
                         ghost from: nat, ghost upto: nat, updates: seq<RowUpdate>, c: Counters,
                         lifetime: nat, verify: Engine)
      returns (left: nat, died: bool)
      requires At(start, was, calls, from, upto, verify) && InStep(start, rows, updates, c, upto, verify)
      requires counters.processed <= c.processed
      modifies this`rows, this`counters
      ensures exists stored: nat :: At(start, was, calls, stored, upto, verify)
      ensures died ==> lifetime < 2
      ensures !died ==> left + 2 == lifetime && At(start, was, calls, upto, upto, verify)
      ensures !died ==> InStep(start, rows, [], c, upto, verify) && counters == c
    {
      left, died := lifetime, true;
      if left == 0 {
        return;
      }
      left := left - 1;
      RecountBalances(WithVerdicts(start, ToVerify(start)[..upto], verify), |start|);
      Flush(updates);
      assert At(start, was, calls, upto, upto, verify);
      if left == 0 {
        return;
      }
      left, died := left - 1, false;
      counters := c;
      assert At(start, was, calls, upto, upto, verify);
    }

    /** At the top of the chunk loop: the accumulator is empty and the counters in memory recount the
        persisted rows; the stored counters are the same, unless no chunk ran yet. */
    ghost predicate AtChunk(start: seq<Row>, was: Counters, calls: seq<nat>, i: nat, c: Counters, verify: Engine)
      reads this
    {
      && At(start, was, calls, i, i, verify)
      && InStep(start, rows, [], c, i, verify)
      && c == Recount(rows)
      && c.processed == Recount(start).processed + i
      && (counters == c || (i == 0 && counters == was))
    }

    lemma AtFirstChunk(verify: Engine)
      requires Sound(rows, counters)
      ensures AtChunk(rows, counters, engineCalls, 0, Recount(rows), verify)
      ensures Recount(rows).processed + |ToVerify(rows)| == NonDuplicates(rows, |rows|)
      ensures |ToVerify(rows)| <= |rows|
    {
      NothingVerifiedYet(rows, verify);
      FewToVerify(rows, |rows|);
    }

    lemma WrittenIsAtChunk(start: seq<Row>, was: Counters, calls: seq<nat>, i: nat, c: Counters, verify: Engine)
      requires At(start, was, calls, i, i, verify) && InStep(start, rows, [], c, i, verify) && counters == c
      requires c.processed == Recount(start).processed + i
      ensures AtChunk(start, was, calls, i, c, verify)
    {
    }

    lemma ChunkIsNext(toVerify: seq<nat>, from: nat, upto: nat)
      requires from <= upto <= |toVerify|
      ensures toVerify[..upto] == toVerify[..from] + toVerify[from..upto]
    {
    }

    /** The next chunk, verified: where it ends, and what it gathered. */
    method NextChunk(ghost start: seq<Row>, toVerify: seq<nat>, from: nat, verify: Engine, before: Counters)
      returns (upto: nat, updates: seq<RowUpdate>, c: Counters)
      requires toVerify == ToVerify(start) && from < |toVerify|
      requires InStep(start, rows, [], before, from, verify)
      modifies this`engineCalls
      ensures from < upto <= |toVerify| && (upto == |toVerify| || upto == from + EMAIL_CONCURRENCY)
      ensures InStep(start, rows, updates, c, upto, verify)
      ensures |updates| == upto - from && c.processed == before.processed + |updates|
      ensures engineCalls == old(engineCalls) + toVerify[from..upto]
    {
      upto := if from + EMAIL_CONCURRENCY <= |toVerify| then from + EMAIL_CONCURRENCY else |toVerify|;
      updates, c := VerifyChunk(start, toVerify, from, upto, verify, before);
    }

    /** One chunk: verify it and, as `shouldFlush` always comes out true, write it. */
    method RunChunk(ghost start: seq<Row>, ghost was: Counters, ghost calls: seq<nat>, toVerify: seq<nat>,
                    from: nat, before: Counters, totalToVerify: nat, lifetime: nat, verify: Engine)
      returns (upto: nat, c: Counters, left: nat, died: bool)
      requires AtChunk(start, was, calls, from, before, verify)
      requires toVerify == ToVerify(start) && from < |toVerify|
      requires totalToVerify == Recount(start).processed + |toVerify|
      modifies this`rows, this`counters, this`engineCalls
      ensures from < upto <= |toVerify|
      ensures exists stored: nat :: At(start, was, calls, stored, upto, verify)
      ensures died ==> lifetime < 2
      ensures !died ==> left + 2 == lifetime && AtChunk(start, was, calls, upto, c, verify)
    {
      var rowUpdates;
      upto, rowUpdates, c := NextChunk(start, toVerify, from, verify, before);
      ChunkIsNext(toVerify, from, upto);
      assert At(start, was, calls, from, upto, verify);
      left, died := lifetime, false;
      var shouldFlush := |rowUpdates| >= PROGRESS_FLUSH_INTERVAL || c.processed == totalToVerify;
      assert shouldFlush && |rowUpdates| > 0;
      if shouldFlush && |rowUpdates| > 0 {
        left, died := WriteProgress(start, was, calls, from, upto, rowUpdates, c, left, verify);
      }
      if !died {
        WrittenIsAtChunk(start, was, calls, upto, c, verify);
      }
    }

    /** Step 8 and the billing that follows it. */
    method Complete(ghost start: seq<Row>, ghost was: Counters, ghost calls: seq<nat>, c: Counters,
                    totalToVerify: nat, verify: Engine)
      requires AtChunk(start, was, calls, |ToVerify(start)|, c, verify)
      requires totalToVerify == NonDuplicates(start, |start|)
      modifies this`status, this`counters, this`duplicateCount, this`billed
      ensures At(start, was, calls, |ToVerify(start)|, |ToVerify(start)|, verify)
      ensures rows == AllVerified(start, verify) && counters == Recount(rows) && status == Completed
      ensures duplicateCount == |rows| - NonDuplicates(rows, |rows|)
      ensures billed == old(billed) + Recount(rows).processed
    {
      AllVerdictsWritten(start, verify);
      PromisesAt(start, was, calls, |ToVerify(start)|, |ToVerify(start)|, verify);
      NonDuplicatesStay(start, rows, verify, |rows|);
      RecountBalances(rows, |rows|);
      status, counters, duplicateCount := Completed, c, |rows| - totalToVerify;
      billed := billed + c.processed;
    }

    /** Stopping for a cancel at a chunk boundary: nothing is pending in memory, so only the bill is left. */
    method StopForCancel(ghost start: seq<Row>, ghost was: Counters, ghost calls: seq<nat>, ghost i: nat, c: Counters,
                         verify: Engine)
      requires AtChunk(start, was, calls, i, c, verify)
      modifies this`billed
      ensures |calls| <= |engineCalls| && engineCalls[..|calls|] == calls
      ensures Promises(start, was, rows, counters, engineCalls[|calls|..], verify)
      ensures rows == WithVerdicts(start, engineCalls[|calls|..], verify)
      ensures counters == Recount(rows) || (rows == start && counters == was)
      ensures billed == old(billed) + Recount(rows).processed
    {
      PromisesAt(start, was, calls, i, i, verify);
      NothingVerifiedYet(start, verify);
      billed := billed + c.processed;
    }

    /** Where the chunk loop ended, if not at the last chunk, and everything it promises there. */
    ghost predicate EndsAt(start: seq<Row>, was: Counters, calls: seq<nat>, end: ChunksEnd, c: Counters, verify: Engine)
      reads this
    {
      match end
      case AllRun => AtChunk(start, was, calls, |ToVerify(start)|, c, verify)
      case CancelRead => exists i: nat :: AtChunk(start, was, calls, i, c, verify)
      case DiedThere => exists stored: nat, called: nat :: At(start, was, calls, stored, called, verify)
    }

    /** The chunk loop; a cancel is looked for before each chunk. */
    method RunChunks(ghost start: seq<Row>, ghost was: Counters, ghost calls: seq<nat>, toVerify: seq<nat>,
                     first: Counters, totalToVerify: nat, lifetime: nat, cancelSeen: nat -> bool, verify: Engine)
      returns (end: ChunksEnd, c: Counters, left: nat)
      requires AtChunk(start, was, calls, 0, first, verify) && toVerify == ToVerify(start)
      requires totalToVerify == Recount(start).processed + |toVerify|
      modifies this`rows, this`counters, this`engineCalls
      ensures EndsAt(start, was, calls, end, c, verify)
      ensures end.AllRun? ==> lifetime <= left + 2 * |toVerify|
      ensures end.DiedThere? ==> lifetime < 2 * |toVerify|
      ensures end.CancelRead? ==> exists n: nat :: cancelSeen(n)
      ensures toVerify != [] && cancelSeen(0) ==> end.CancelRead? && rows == old(rows)
    {
      c, left := first, lifetime;
      var i, chunk := 0, 0;
      while i < |toVerify|
        invariant 0 <= i <= |toVerify| && chunk <= i
        invariant if i == 0 then chunk == 0 && rows == old(rows) else !cancelSeen(0)
        invariant AtChunk(start, was, calls, i, c, verify)
        invariant left + 2 * chunk == lifetime
      {
        if cancelSeen(chunk) {
          return CancelRead, c, left;
        }
        var died;
        i, c, left, died := RunChunk(start, was, calls, toVerify, i, c, totalToVerify, left, verify);
        if died {
          return DiedThere, c, 0;
        }
        chunk := chunk + 1;
      }
      end := AllRun;
    }

    /** What follows the chunk loop: the bill of a cancelled job, the completion and its bill, or nothing. */
    method EndAttempt(ghost start: seq<Row>, ghost was: Counters, ghost calls: seq<nat>, end: ChunksEnd, c: Counters,
                      totalToVerify: nat, left: nat, verify: Engine)
      returns (outcome: Outcome)
      requires EndsAt(start, was, calls, end, c, verify)
      requires totalToVerify == NonDuplicates(start, |start|)
      modifies this`status, this`counters, this`duplicateCount, this`billed
      ensures |calls| <= |engineCalls| && engineCalls[..|calls|] == calls
      ensures Promises(start, was, rows, counters, engineCalls[|calls|..], verify)
      ensures outcome.Finished? ==> end.AllRun? && rows == AllVerified(start, verify) && status == Completed
      ensures outcome.Finished? ==> counters == Recount(rows) && duplicateCount == |rows| - NonDuplicates(rows, |rows|)
      ensures outcome.StoppedByCancel? ==>
        end.CancelRead? && rows == WithVerdicts(start, engineCalls[|calls|..], verify)
      ensures outcome.StoppedByCancel? ==> counters == Recount(rows) || (rows == start && counters == was)
      ensures billed == old(billed) + if outcome.Died? then 0 else Recount(rows).processed
      ensures outcome.Died? ==> end.DiedThere? || (end.AllRun? && left == 0)
      ensures end.CancelRead? ==> outcome.StoppedByCancel?
    {
      match end
      case CancelRead =>
        ghost var i: nat :| AtChunk(start, was, calls, i, c, verify);
        StopForCancel(start, was, calls, i, c, verify);
        outcome := StoppedByCancel;
      case DiedThere =>
        ghost var stored: nat, called: nat :| At(start, was, calls, stored, called, verify);
        PromisesAt(start, was, calls, stored, called, verify);
        outcome := Died;
      case AllRun =>
        ghost var all := |ToVerify(start)|;
        PromisesAt(start, was, calls, all, all, verify);
        if left == 0 {
          return Died;
        }
        Complete(start, was, calls, c, totalToVerify, verify);
        PromisesAt(start, was, calls, all, all, verify);
        outcome := Finished;
    }

    /** One attempt. The process dies when it is about to make durable write number `lifetime + 1`, at the
        latest the one that completes the job; `cancelSeen(n)` tells whether the job reads as cancelled
        before chunk `n`. Billing follows the completing write at once. */
    method ProcessBulkJob(verify: Engine, lifetime: nat, cancelSeen: nat -> bool) returns (outcome: Outcome)
      requires Sound(rows, counters)
      modifies this
      ensures old(engineCalls) <= engineCalls
      ensures Promises(old(rows), old(counters), rows, counters, engineCalls[|old(engineCalls)|..], verify)
      ensures outcome.Finished? ==>
        && rows == AllVerified(old(rows), verify) && counters == Recount(rows) && status == Completed
        && duplicateCount == |rows| - NonDuplicates(rows, |rows|)
        && billed == old(billed) + Recount(rows).processed
      ensures outcome.Finished? ==> EndsRight(old(rows), rows, counters, verify)
      ensures outcome.StoppedByCancel? ==>
        && rows == WithVerdicts(old(rows), engineCalls[|old(engineCalls)|..], verify)
        && (counters == Recount(rows) || (rows == old(rows) && counters == old(counters)))
        && billed == old(billed) + Recount(rows).processed
      ensures outcome.Died? ==> billed == old(billed)
      ensures (forall n: nat :: !cancelSeen(n)) ==> !outcome.StoppedByCancel?
      ensures lifetime >= 2 * |old(rows)| + 2 ==> !outcome.Died?
      ensures lifetime >= 1 && cancelSeen(0) && ToVerify(old(rows)) != [] ==>
        outcome.StoppedByCancel? && rows == old(rows)
    {
      ghost var start, was, calls := rows, counters, engineCalls;
      AtFirstChunk(verify);
      PromisesAt(start, was, calls, 0, 0, verify);
      if lifetime == 0 {
        return Died;
      }
      status := Processing;

      var toVerify := ToVerify(rows);
      var totalToVerify := NonDuplicates(rows, |rows|);
      var end, c, left :=
        RunChunks(start, was, calls, toVerify, Recount(rows), totalToVerify, lifetime - 1, cancelSeen, verify);
      outcome := EndAttempt(start, was, calls, end, c, totalToVerify, left, verify);
      AllVerifiedEndsRight(start, verify);
    }
  }

  /** One delivery of the job to a worker: how long the process lives, and what it reads about a cancel. */
  datatype Delivery = Delivery(lifetime: nat, cancelSeen: nat -> bool)

  ghost predicate NotCancelled(delivery: Delivery) {
    forall n: nat :: !delivery.cancelSeen(n)
  }

  ghost predicate NeverCancelled(deliveries: seq<Delivery>) {
    forall k :: 0 <= k < |deliveries| ==> NotCancelled(deliveries[k])
  }

  ghost predicate OnlyPending(start: seq<Row>, calls: seq<nat>) {
    forall k :: k in calls ==> k < |start| && Pending(start[k])
  }

  /** One attempt of the history: the rows stored when it began, and the rows it gave to the engine. */
  datatype Leg = Leg(rows: seq<Row>, calls: seq<nat>)

  /** The attempts lead from `start` to `rows`: each takes up where the one before left the rows, moves them along
      the uninterrupted run, and gives the engine only rows without a verdict, each once. */
  ghost predicate Chained(start: seq<Row>, legs: seq<Leg>, rows: seq<Row>, verify: Engine) {
    if legs == [] then
      rows == start
    else
      var last := legs[|legs| - 1];
      && Chained(start, legs[..|legs| - 1], last.rows, verify)
      && OnTheWay(last.rows, rows, verify) && OnlyPending(last.rows, last.calls) && Ascending(last.calls)
  }

  function AllCalls(legs: seq<Leg>): seq<nat> {
    if legs == [] then [] else AllCalls(legs[..|legs| - 1]) + legs[|legs| - 1].calls
  }

  lemma {:induction false} ChainIsOnTheWay(start: seq<Row>, legs: seq<Leg>, rows: seq<Row>, verify: Engine)
    requires Chained(start, legs, rows, verify)
    ensures OnTheWay(start, rows, verify)
  {
    if legs == [] {
    } else {
      var last := legs[|legs| - 1];
      ChainIsOnTheWay(start, legs[..|legs| - 1], last.rows, verify);
      OnTheWayIsTransitive(start, last.rows, rows, verify);
    }
  }

  /** Any stretch of the history is one too. */
  lemma {:induction false} ChainBetween(start: seq<Row>, legs: seq<Leg>, rows: seq<Row>, verify: Engine, i: nat)
    requires Chained(start, legs, rows, verify) && i < |legs|
    ensures Chained(legs[i].rows, legs[i..], rows, verify)
  {
    var n := |legs| - 1;
    assert legs[i..][..n - i] == legs[..n][i..];
    if i == n {
    } else {
      ChainBetween(start, legs[..n], legs[n].rows, verify, i);
    }
  }

  /** A row whose verdict an earlier attempt stored is not verified by a later one, and keeps that verdict. */
  lemma {:induction false} StoredIsNotVerifiedAgain(start: seq<Row>, legs: seq<Leg>, rows: seq<Row>, verify: Engine,
                                                    i: nat, j: nat, k: nat)
    requires Chained(start, legs, rows, verify) && i <= j < |legs|
    requires k < |legs[i].rows| && legs[i].rows[k].processed
    ensures |rows| == |legs[i].rows| && k !in legs[j].calls && rows[k] == legs[i].rows[k]
    decreases |legs|
  {
    var n := |legs| - 1;
    ChainBetween(start, legs, rows, verify, i);
    ChainIsOnTheWay(legs[i].rows, legs[i..], rows, verify);
    if j == n {
      ChainBetween(start, legs, rows, verify, j);
      if i < n {
        StoredIsNotVerifiedAgain(start, legs[..n], legs[n].rows, verify, i, i, k);
      }
    } else {
      StoredIsNotVerifiedAgain(start, legs[..n], legs[n].rows, verify, i, j, k);
    }
  }

  lemma OneMoreLeg(start: seq<Row>, legs: seq<Leg>, before: seq<Row>, leg: Leg, after: seq<Row>, verify: Engine)
    requires Chained(start, legs, before, verify) && leg.rows == before && OnTheWay(before, after, verify)
    requires OnlyPending(before, leg.calls) && Ascending(leg.calls)
    ensures Chained(start, legs + [leg], after, verify) && AllCalls(legs + [leg]) == AllCalls(legs) + leg.calls
  {
    assert (legs + [leg])[..|legs|] == legs;
  }

  function Sum(bills: seq<nat>): nat {
    if bills == [] then 0 else Sum(bills[..|bills| - 1]) + bills[|bills| - 1]
  }

  lemma SumSnoc(bills: seq<nat>, b: nat)
    ensures Sum(bills + [b]) == Sum(bills) + b
  {
    assert (bills + [b])[..|bills|] == bills;
  }

  predicate AllZero(bills: seq<nat>) {
    forall i :: 0 <= i < |bills| ==> bills[i] == 0
  }

  lemma {:induction false} SumIsZero(bills: seq<nat>)
    ensures Sum(bills) == 0 <==> AllZero(bills)
  {
    if bills == [] {
    } else {
      var init, last := bills[..|bills| - 1], bills[|bills| - 1];
      SumIsZero(init);
      assert bills == init + [last];
      assert AllZero(bills) <==> AllZero(init) && last == 0;
    }
  }

  /** No bill before the last one charged anything. */
  predicate NothingBilledBefore(bills: seq<nat>) {
    bills == [] || AllZero(bills[..|bills| - 1])
  }

  /** What a run of attempts leaves of the bill: the sum of the bills, the last one for all that is processed if
      the last attempt ended; so every processed row is billed exactly once exactly when no earlier attempt that
      stopped had anything to bill. */
  ghost predicate BillFits(was: nat, billed: nat, bills: seq<nat>, outcome: Outcome, processed: nat) {
    && billed == was + Sum(bills)
    && (!outcome.Died? ==> bills != [] && bills[|bills| - 1] == processed)
    && (!outcome.Died? ==> (billed == was + processed <==> NothingBilledBefore(bills)))
  }

  /** An attempt that ends adds a bill for all that is processed. */
  function Billed(bills: seq<nat>, outcome: Outcome, processed: nat): seq<nat> {
    if outcome.Died? then bills else bills + [processed]
  }

  lemma OneMoreBill(was: nat, billed: nat, bills: seq<nat>, processed: nat, outcome: Outcome)
    requires billed == was + Sum(bills) + if outcome.Died? then 0 else processed
    ensures BillFits(was, billed, Billed(bills, outcome, processed), outcome, processed)
  {
    if !outcome.Died? {
      SumSnoc(bills, processed);
      SumIsZero(bills);
      assert (bills + [processed])[..|bills|] == bills;
    }
  }

  /** One attempt of a job on its way from `start`, after the sweep if an earlier attempt left it processing. */
  method Attempt(job: Job, ghost start: seq<Row>, verify: Engine, delivery: Delivery)
    returns (outcome: Outcome, ghost leg: Leg)
    requires Sound(job.rows, job.counters) && OnTheWay(start, job.rows, verify)
    modifies job
    ensures Sound(job.rows, job.counters) && OnTheWay(old(job.rows), job.rows, verify)
    ensures old(job.counters).processed <= job.counters.processed
    ensures leg.rows == old(job.rows) && job.engineCalls == old(job.engineCalls) + leg.calls
    ensures OnlyPending(leg.rows, leg.calls) && Ascending(leg.calls)
    ensures outcome.Finished? ==>
      job.rows == AllVerified(start, verify) && job.counters == Recount(job.rows) && job.status == Completed
    ensures job.billed == old(job.billed) + if outcome.Died? then 0 else Recount(job.rows).processed
    ensures NotCancelled(delivery) ==> !outcome.StoppedByCancel?
    ensures delivery.lifetime >= 2 * |start| + 2 ==> !outcome.Died?
  {
    ghost var rows, before := job.rows, job.engineCalls;
    job.RecoverStalled();
    outcome := job.ProcessBulkJob(verify, delivery.lifetime, delivery.cancelSeen);
    ResumeRefines(start, rows, verify);
    leg := Leg(rows, job.engineCalls[|before|..]);
  }

  /** One more attempt of a history that began at `start`, with `callsBefore` already verified. */
  method OneMoreAttempt(job: Job, ghost start: seq<Row>, verify: Engine, delivery: Delivery,
                        ghost callsBefore: seq<nat>, ghost legs: seq<Leg>)
    returns (outcome: Outcome, ghost newLegs: seq<Leg>)
    requires Sound(job.rows, job.counters) && Chained(start, legs, job.rows, verify)
    requires job.engineCalls == callsBefore + AllCalls(legs)
    modifies job
    ensures Sound(job.rows, job.counters) && Chained(start, newLegs, job.rows, verify)
    ensures job.engineCalls == callsBefore + AllCalls(newLegs)
    ensures old(job.counters).processed <= job.counters.processed
    ensures outcome.Finished? ==>
      job.rows == AllVerified(start, verify) && job.counters == Recount(job.rows) && job.status == Completed
    ensures job.billed == old(job.billed) + if outcome.Died? then 0 else Recount(job.rows).processed
    ensures NotCancelled(delivery) ==> !outcome.StoppedByCancel?
    ensures delivery.lifetime >= 2 * |start| + 2 ==> !outcome.Died?
  {
    ghost var before := job.rows;
    ghost var leg;
    ChainIsOnTheWay(start, legs, before, verify);
    outcome, leg := Attempt(job, start, verify, delivery);
    OneMoreLeg(start, legs, before, leg, job.rows, verify);
    newLegs := legs + [leg];
  }

  /** Where a history of attempts stands that began with `start`, `calls` and `billed`. */
  ghost predicate Stands(job: Job, start: seq<Row>, calls: seq<nat>, billed: nat, outcome: Outcome, bills: seq<nat>,
                         legs: seq<Leg>, verify: Engine)
    reads job
  {
    && Sound(job.rows, job.counters) && Chained(start, legs, job.rows, verify)
    && job.engineCalls == calls + AllCalls(legs)
    && BillFits(billed, job.billed, bills, outcome, Recount(job.rows).processed)
  }

  /** What a finished history leaves. */
  ghost predicate Ended(job: Job, start: seq<Row>, verify: Engine)
    reads job
  {
    && job.rows == AllVerified(start, verify) && job.counters == Recount(job.rows) && job.status == Completed
    && EndsRight(start, job.rows, job.counters, verify)
  }

  /** The next attempt of the history, and its bill if it ends. */
  method Continue(job: Job, ghost start: seq<Row>, verify: Engine, delivery: Delivery, ghost calls: seq<nat>,
                  ghost billed: nat, ghost before: Outcome, ghost bills: seq<nat>, ghost legs: seq<Leg>)
    returns (outcome: Outcome, ghost newBills: seq<nat>, ghost newLegs: seq<Leg>)
    requires Stands(job, start, calls, billed, before, bills, legs, verify)
    modifies job
    ensures Stands(job, start, calls, billed, outcome, newBills, newLegs, verify)
    ensures old(job.counters).processed <= job.counters.processed
    ensures outcome.Finished? ==> Ended(job, start, verify)
    ensures outcome.Died? ==> newBills == bills && job.billed == old(job.billed)
    ensures bills == [] ==> job.billed == billed + if outcome.Died? then 0 else Recount(job.rows).processed
    ensures |newBills| <= |bills| + 1
    ensures NotCancelled(delivery) ==> !outcome.StoppedByCancel?
    ensures delivery.lifetime >= 2 * |start| + 2 ==> !outcome.Died?
  {
    outcome, newLegs := OneMoreAttempt(job, start, verify, delivery, calls, legs);
    OneMoreBill(billed, job.billed, bills, Recount(job.rows).processed, outcome);
    newBills := Billed(bills, outcome, Recount(job.rows).processed);
    AllVerifiedEndsRight(start, verify);
  }

  /** The queue's view: attempts that die at any write, each swept up and resumed by the next, until one
      completes or stops for a cancel; `again` is whether the sweep also takes up a job that stopped for a
      cancel, because its status reads processing. Whatever the crashes, a job that completes ends as one
      uninterrupted run would have ended it. Until an attempt ends nothing is billed; unless a stopped job is
      taken up again, each processed row is billed exactly once; and if one is, exactly when it stopped before
      anything was processed. */
  method RunDespiteCrashes(job: Job, verify: Engine, deliveries: seq<Delivery>, again: bool)
    returns (outcome: Outcome, ghost bills: seq<nat>, ghost legs: seq<Leg>)
    requires Sound(job.rows, job.counters)
    modifies job
    ensures Stands(job, old(job.rows), old(job.engineCalls), old(job.billed), outcome, bills, legs, verify)
    ensures old(job.counters).processed <= job.counters.processed
    ensures outcome.Finished? ==> Ended(job, old(job.rows), verify)
    ensures !again ==> job.billed == old(job.billed) + if outcome.Died? then 0 else Recount(job.rows).processed
    ensures NeverCancelled(deliveries) ==> |bills| <= 1 && !outcome.StoppedByCancel?
    ensures |deliveries| > 0 && deliveries[|deliveries| - 1].lifetime >= 2 * |old(job.rows)| + 2 ==> !outcome.Died?
  {
    ghost var start, calls, billed, was := job.rows, job.engineCalls, job.billed, job.counters.processed;
    outcome, bills, legs := Died, [], [];
    var n := 0;
    while n < |deliveries|
      invariant 0 <= n <= |deliveries| && !outcome.Finished?
      invariant Stands(job, start, calls, billed, outcome, bills, legs, verify)
      invariant was <= job.counters.processed
      invariant !again || NeverCancelled(deliveries) ==> outcome.Died? && bills == [] && job.billed == billed
      invariant n > 0 && outcome.Died? ==> deliveries[n - 1].lifetime < 2 * |start| + 2
    {
      outcome, bills, legs := Continue(job, start, verify, deliveries[n], calls, billed, outcome, bills, legs);
      if outcome.Finished? || (outcome.StoppedByCancel? && !again) {
        return;
      }
      n := n + 1;
    }
  }

  /** A job taken up again after its cancel, with rows left to verify, is stopped and billed a second time. */
  method CancelledTwice(job: Job, verify: Engine)
    requires Sound(job.rows, job.counters) && ToVerify(job.rows) != []
    modifies job
    ensures job.rows == old(job.rows)
    ensures job.billed == old(job.billed) + 2 * Recount(old(job.rows)).processed
  {
    var first := job.ProcessBulkJob(verify, 1, _ => true);
    job.RecoverStalled();
    var second := job.ProcessBulkJob(verify, 1, _ => true);
  }
}
