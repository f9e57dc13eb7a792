/** The jobs table and the worker that drives it (internal/platform/jobs).

    Times are integer nanoseconds. Job and worker ids are integers: only their
    order and equality matter. The row-level functions in the first half are the
    specification that both the worker class below and the concurrent lease
    protocol in module JobLease are built on. */
module JobTable {
  import opened Wrappers
  import opened Keys

  type JobId = int
  type WorkerId = int

  const DEFAULT_MAX_ATTEMPTS := 5
  const MAX_INT64 := 0x7fff_ffff_ffff_ffff

  datatype Status = Pending | Running | Succeeded | Failed

  datatype Job = Job(
    jobType: string,
    payload: Option<string>,
    status: Status,
    attempts: int,
    maxAttempts: int,
    runAt: int,
    lockedAt: Option<int>,
    lockedBy: Option<WorkerId>,
    lastError: Option<string>,
    completedAt: Option<int>)
  {
    predicate Terminal() {
      status == Succeeded || status == Failed
    }
  }

  /** What a handler reports: success, or an error that may be permanent. */
  datatype RunResult = Done | Error(message: string, permanent: bool)

  // ----- retry delay -----

  function Seconds(n: int): int {
    n * 1_000_000_000
  }

  function Pow2(n: nat): (p: int)
    ensures p >= 1
  {
    if n == 0 then 1 else 2 * Pow2(n - 1)
  }

  /** The retry delay, clamped before the shift as the source does. */
  function Backoff(attempt: int): int {
    var a := if attempt < 1 then 1 else attempt;
    var b := if a > 20 then 20 else a;
    var d := Seconds(Pow2(b));
    if d > Seconds(600) then Seconds(600) else d
  }

  lemma {:induction false} Pow2Monotone(a: nat, b: nat)
    requires a <= b
    ensures Pow2(a) <= Pow2(b)
    decreases b - a
  {
    if a < b {
      Pow2Monotone(a, b - 1);
    }
  }

  lemma Pow2Of10()
    ensures Pow2(10) == 1024
  {
    assert Pow2(5) == 32;
    assert Pow2(8) == 8 * Pow2(5);
  }

  /** The clamp at 20 never shows in the result: the delay is two to the attempt,
      at least the first power and at most ten minutes, for every integer. The
      shifted value fits 64 bits before the cap is applied. */
  lemma BackoffClosedForm(attempt: int)
    ensures var power := Pow2(if attempt < 1 then 1 else attempt);
            Backoff(attempt) == Seconds(if power < 600 then power else 600)
    ensures Seconds(2) <= Backoff(attempt) <= Seconds(600)
    ensures Seconds(Pow2(if attempt < 1 then 1 else if attempt > 20 then 20 else attempt)) <= MAX_INT64
  {
    Pow2Of10();
    assert Pow2(20) == 1024 * Pow2(10) by {
      assert Pow2(15) == 32 * Pow2(10);
      assert Pow2(18) == 8 * Pow2(15);
    }
    var a: nat := if attempt < 1 then 1 else attempt;
    var b: nat := if a > 20 then 20 else a;
    Pow2Monotone(1, b);
    Pow2Monotone(b, 20);
    if a > 20 {
      Pow2Monotone(20, a);
    }
  }

  // ----- the claim -----

  predicate Runnable(j: Job, now: int, lockTimeout: int) {
    || (j.status == Pending && j.runAt <= now)
    || (j.status == Running && j.lockedAt.Some? && j.lockedAt.value < now - lockTimeout)
  }

  function KeyOf(rows: map<JobId, Job>, id: JobId): Key
    requires id in rows
  {
    Key(rows[id].runAt, id)
  }

  /** Sort keys of the runnable rows, leaving out the ones skipped as locked. */
  function RunnableKeys(rows: map<JobId, Job>, now: int, lockTimeout: int, skipped: set<JobId> := {}): set<Key> {
    set id | id in rows && Runnable(rows[id], now, lockTimeout) && id !in skipped :: KeyOf(rows, id)
  }

  function Claimed(j: Job, w: WorkerId, now: int): Job {
    j.(status := Running, lockedAt := Some(now), lockedBy := Some(w), attempts := j.attempts + 1)
  }

  // ----- recording the outcome -----

  datatype Statement =
    | SucceedSQL(now: int)
    | FailSQL(now: int, error: string)
    | RetrySQL(runAt: int, error: string)

  /** The statement the worker picks from the row it claimed, not the current row. */
  function StatementFor(attempts: int, maxAttempts: int, res: RunResult, now: int): Statement {
    match res
    case Done => SucceedSQL(now)
    case Error(message, permanent) =>
      if permanent || attempts >= maxAttempts then FailSQL(now, message)
      else RetrySQL(now + Backoff(attempts), message)
  }

  function Executed(s: Statement, j: Job): Job {
    match s
    case SucceedSQL(now) =>
      j.(status := Succeeded, completedAt := Some(now), lockedAt := None, lockedBy := None, payload := None,
         lastError := None)
    case FailSQL(now, error) =>
      j.(status := Failed, completedAt := Some(now), lockedAt := None, lockedBy := None, payload := None,
         lastError := Some(error))
    case RetrySQL(runAt, error) =>
      j.(status := Pending, runAt := runAt, lockedAt := None, lockedBy := None, lastError := Some(error))
  }

  predicate Owns(rows: map<JobId, Job>, id: JobId, w: WorkerId) {
    id in rows && rows[id].lockedBy == Some(w)
  }

  // ----- what one run over a job does to its row -----

  type Handlers = map<string, (JobId, Job) -> RunResult>

  function Execute(handlers: Handlers, id: JobId, j: Job): RunResult {
    if j.jobType in handlers then handlers[j.jobType](id, j)
    else Error("unknown job type", true)
  }

  /** Claimed and finished at one instant by one worker. */
  function Settled(handlers: Handlers, id: JobId, j: Job, w: WorkerId, now: int): Job {
    var c := Claimed(j, w, now);
    Executed(StatementFor(c.attempts, c.maxAttempts, Execute(handlers, id, c), now), c)
  }

  lemma SettledNotRunnable(handlers: Handlers, id: JobId, j: Job, w: WorkerId, now: int, lockTimeout: int)
    ensures !Runnable(Settled(handlers, id, j, w, now), now, lockTimeout)
  {
    BackoffClosedForm(j.attempts + 1);
  }

  /** What an outcome does to the columns of a row, from the attempt and the limit that
      the worker read at its claim: the job ends at a success, at a permanent error and
      at its last attempt, and then without its payload; otherwise it is due again after
      the delay. */
  predicate Recorded(before: Job, after: Job, attempts: int, maxAttempts: int, res: RunResult, now: int) {
    && after.jobType == before.jobType && after.attempts == before.attempts && after.maxAttempts == before.maxAttempts
    && after.lockedAt == None && after.lockedBy == None
    && (after.status == Succeeded <==> res.Done?)
    && (after.status == Failed <==> res.Error? && (res.permanent || attempts >= maxAttempts))
    && (after.status == Pending <==> res.Error? && !res.permanent && attempts < maxAttempts)
    && after.lastError == (if res.Error? then Some(res.message) else None)
    && if after.status == Pending
       then after.payload == before.payload && after.completedAt == before.completedAt
            && after.runAt == now + Backoff(attempts)
       else after.payload == None && after.completedAt == Some(now) && after.runAt == before.runAt
  }

  lemma OutcomeIsRecorded(j: Job, attempts: int, maxAttempts: int, res: RunResult, now: int)
    ensures Recorded(j, Executed(StatementFor(attempts, maxAttempts, res, now), j), attempts, maxAttempts, res, now)
  {
  }

  /** What a run against a frozen clock leaves of a row: as it was if the job was not
      run; a failed job if nothing handles its type, at whatever attempt; otherwise what
      its handler's answer to the claimed row says. */
  predicate RanTo(handlers: Handlers, id: JobId, before: Job, after: Job, ran: bool, w: WorkerId, now: int) {
    var claimed :=
      before.(status := Running, lockedAt := Some(now), lockedBy := Some(w), attempts := before.attempts + 1);
    if !ran then after == before
    else if before.jobType !in handlers then
      after.status == Failed && after.attempts == claimed.attempts && after.completedAt == Some(now)
    else
      Recorded(claimed, after, claimed.attempts, claimed.maxAttempts, handlers[before.jobType](id, claimed), now)
  }

  function KeysOf(rows: map<JobId, Job>, ids: seq<JobId>): (r: seq<Key>)
    requires forall id :: id in ids ==> id in rows
    ensures |r| == |ids|
    ensures forall i :: 0 <= i < |ids| ==> r[i] == KeyOf(rows, ids[i])
  {
    seq(|ids|, i requires 0 <= i < |ids| => KeyOf(rows, ids[i]))
  }

  function AllSettled(handlers: Handlers, rows: map<JobId, Job>, w: WorkerId, now: int,
                      lockTimeout: int): map<JobId, Job> {
    map id | id in rows ::
      if Runnable(rows[id], now, lockTimeout) then Settled(handlers, id, rows[id], w, now) else rows[id]
  }

  /** Pending and due, or running under a lock older than the timeout. */
  predicate Due(j: Job, now: int, lockTimeout: int) {
    match j.status
    case Pending => now >= j.runAt
    case Running => j.lockedAt.Some? && now - j.lockedAt.value > lockTimeout
    case _ => false
  }

  lemma DueIsRunnable(rows: map<JobId, Job>, now: int, lockTimeout: int)
    ensures RunnableKeys(rows, now, lockTimeout) == {} <==> forall j :: j in rows ==> !Due(rows[j], now, lockTimeout)
    ensures forall j :: j in rows ==>
              (Due(rows[j], now, lockTimeout) <==> KeyOf(rows, j) in RunnableKeys(rows, now, lockTimeout))
  {
    forall j | j in rows
      ensures Due(rows[j], now, lockTimeout) <==> KeyOf(rows, j) in RunnableKeys(rows, now, lockTimeout)
    {
      assert Due(rows[j], now, lockTimeout) <==> Runnable(rows[j], now, lockTimeout);
    }
    if RunnableKeys(rows, now, lockTimeout) != {} {
      var k :| k in RunnableKeys(rows, now, lockTimeout);
      assert Due(rows[k.minor], now, lockTimeout);
    }
  }

  datatype EnqueueError = TypeRequired | TooFewAttempts | PayloadNotEncodable | DuplicateId

  /** The jobs table. Each method is one SQL statement. */
  class Table {
    var rows: map<JobId, Job>

    constructor ()
      ensures rows == map[]
    {
      rows := map[];
    }

    /** Inserts a pending job. The id and the encoded payload are chosen by the
        caller here; an id that exists violates the primary key. */
    method Enqueue(id: JobId, jobType: string, encoded: Option<string>, clock: int, runAt: Option<int>,
                   maxAttempts: Option<int>)
      returns (r: Result<Job, EnqueueError>)
      modifies this
      ensures jobType == "" ==> r == Err(TypeRequired)
      ensures r.Err? ==> rows == old(rows)
      ensures r.Ok? <==> && jobType != "" && (maxAttempts.Some? ==> maxAttempts.value >= 1)
                         && encoded.Some? && id !in old(rows)
      ensures r.Ok? ==>
                && rows == old(rows)[id := r.value]
                && r.value.status == Pending && r.value.attempts == 0 && r.value.lockedBy == None
                && r.value.maxAttempts == (if maxAttempts.Some? then maxAttempts.value else 5) >= 1
                && r.value.runAt == (if runAt.Some? then runAt.value else clock)
                && r.value.payload == encoded && r.value.jobType == jobType
                && r.value.lockedAt == None && r.value.lastError == None && r.value.completedAt == None
    {
      var attempts := DEFAULT_MAX_ATTEMPTS;
      if maxAttempts.Some? {
        attempts := maxAttempts.value;
      }
      if jobType == "" {
        return Err(TypeRequired);
      }
      if attempts < 1 {
        return Err(TooFewAttempts);
      }
      if encoded == None {
        return Err(PayloadNotEncodable);
      }
      var at := clock;
      if runAt.Some? {
        at := runAt.value;
      }
      if id in rows {
        return Err(DuplicateId);
      }
      var job := Job(jobType, encoded, Pending, 0, attempts, at, None, None, None, None);
      rows := rows[id := job];
      return Ok(job);
    }

    /** The claim: the first runnable row by (run_at, id), if any. */
    method Claim(w: WorkerId, now: int, lockTimeout: int) returns (claimed: Option<(JobId, Job)>)
      modifies this
      ensures claimed.None? <==> RunnableKeys(old(rows), now, lockTimeout) == {}
      ensures claimed.None? ==> rows == old(rows)
      ensures claimed.Some? ==>
                var (id, job) := claimed.value;
                && id in old(rows)
                && KeyOf(old(rows), id) == First(RunnableKeys(old(rows), now, lockTimeout))
                && job == Claimed(old(rows)[id], w, now)
                && rows == old(rows)[id := job]
      ensures claimed.None? <==> forall j :: j in old(rows) ==> !Due(old(rows)[j], now, lockTimeout)
      ensures claimed.Some? ==>
                var (id, job) := claimed.value;
                var row := old(rows)[id];
                && Due(row, now, lockTimeout)
                && (forall j :: j in old(rows) && Due(old(rows)[j], now, lockTimeout) ==>
                      row.runAt < old(rows)[j].runAt || (row.runAt == old(rows)[j].runAt && id <= j))
                && job == Job(row.jobType, row.payload, Running, row.attempts + 1, row.maxAttempts, row.runAt,
                              Some(now), Some(w), row.lastError, row.completedAt)
    {
      DueIsRunnable(rows, now, lockTimeout);
      var keys := RunnableKeys(rows, now, lockTimeout);
      if keys == {} {
        return None;
      }
      var id := First(keys).minor;
      var job := Claimed(rows[id], w, now);
      rows := rows[id := job];
      return Some((id, job));
    }

    /** One outcome statement, guarded by the lock holder. */
    method Exec(s: Statement, id: JobId, w: WorkerId) returns (affected: nat)
      modifies this
      ensures affected == if Owns(old(rows), id, w) then 1 else 0
      ensures rows == if Owns(old(rows), id, w) then old(rows)[id := Executed(s, old(rows)[id])] else old(rows)
    {
      if id in rows && rows[id].lockedBy == Some(w) {
        rows := rows[id := Executed(s, rows[id])];
        return 1;
      }
      return 0;
    }
  }

  /** A worker with its handlers and its two outcome counters. */
  class Worker {
    const id: WorkerId
    const lockTimeout: int
    const handlers: Handlers
    const db: Table
    var succeeded: nat
    var failed: nat

    constructor (id: WorkerId, lockTimeout: int, handlers: Handlers, db: Table)
      ensures this.id == id && this.lockTimeout == lockTimeout && this.handlers == handlers && this.db == db
      ensures succeeded == 0 && failed == 0
    {
      this.id, this.lockTimeout, this.handlers, this.db := id, lockTimeout, handlers, db;
      succeeded, failed := 0, 0;
    }

    /** Records an outcome; a counter moves only with a row that changed. */
    method Finish(jobId: JobId, claimed: Job, res: RunResult, now: int) returns (leaseLost: bool)
      modifies this, db
      ensures leaseLost <==> jobId !in old(db.rows) || old(db.rows)[jobId].lockedBy != Some(id)
      ensures leaseLost ==> db.rows == old(db.rows) && succeeded == old(succeeded) && failed == old(failed)
      ensures !leaseLost ==>
                && db.rows ==
                   old(db.rows)[jobId := Executed(StatementFor(claimed.attempts, claimed.maxAttempts, res, now),
                                                  old(db.rows)[jobId])]
                && succeeded == old(succeeded) + (if res.Done? then 1 else 0)
                && failed == old(failed) + (if res.Done? then 0 else 1)
                && Recorded(old(db.rows)[jobId], db.rows[jobId], claimed.attempts, claimed.maxAttempts, res, now)
      ensures !leaseLost && res.Error? ==>
                && db.rows[jobId].lastError == Some(res.message)
                && (db.rows[jobId].status == Failed <==> res.permanent || claimed.attempts >= claimed.maxAttempts)
    {
      if jobId in db.rows {
        OutcomeIsRecorded(db.rows[jobId], claimed.attempts, claimed.maxAttempts, res, now);
      }
      if res.Done? {
        var n := db.Exec(SucceedSQL(now), jobId, id);
        if n != 1 {
          return true;
        }
        succeeded := succeeded + 1;
        return false;
      }
      var exhausted := claimed.attempts >= claimed.maxAttempts;
      if res.permanent || exhausted {
        var n := db.Exec(FailSQL(now, res.message), jobId, id);
        if n != 1 {
          return true;
        }
        failed := failed + 1;
        return false;
      }
      var delay := Backoff(claimed.attempts);
      var n := db.Exec(RetrySQL(now + delay, res.message), jobId, id);
      if n != 1 {
        return true;
      }
      failed := failed + 1;
      return false;
    }

    /** Claims and runs one job; false when nothing was runnable. */
    method ProcessOne(claimNow: int, finishNow: int) returns (processed: bool, ghost ran: Option<JobId>)
      modifies this, db
      ensures processed == ran.Some?
      ensures !processed <==> RunnableKeys(old(db.rows), claimNow, lockTimeout) == {}
      ensures !processed ==> db.rows == old(db.rows) && succeeded == old(succeeded) && failed == old(failed)
      ensures processed ==>
                var j := ran.value;
                && j in old(db.rows)
                && KeyOf(old(db.rows), j) == First(RunnableKeys(old(db.rows), claimNow, lockTimeout))
                && var c := Claimed(old(db.rows)[j], id, claimNow);
                && var res := Execute(handlers, j, c);
                && db.rows ==
                   old(db.rows)[j := Executed(StatementFor(c.attempts, c.maxAttempts, res, finishNow), c)]
                && succeeded + failed == old(succeeded + failed) + 1
    {
      var claimed := db.Claim(id, claimNow, lockTimeout);
      if claimed.None? {
        return false, None;
      }
      var (jobId, job) := claimed.value;
      var res := Execute(handlers, jobId, job);
      var lost := Finish(jobId, job, res, finishNow);
      return true, Some(jobId);
    }

    /** Runs jobs until none is runnable, against a frozen clock. It runs exactly
        the jobs runnable at the start, each once, in (run_at, id) order, and
        leaves every other row alone. */
    method RunOnce(now: int) returns (n: nat, ghost ran: seq<JobId>)
      modifies this, db
      ensures n == |RunnableKeys(old(db.rows), now, lockTimeout)| == |ran|
      ensures forall j :: j in ran ==> j in old(db.rows)
      ensures KeysOf(old(db.rows), ran) == Sorted(RunnableKeys(old(db.rows), now, lockTimeout))
      ensures db.rows == AllSettled(handlers, old(db.rows), id, now, lockTimeout)
      ensures forall j :: j in old(db.rows) ==>
                j in db.rows && (j in ran <==> Due(old(db.rows)[j], now, lockTimeout))
                && RanTo(handlers, j, old(db.rows)[j], db.rows[j], j in ran, id, now)
      ensures succeeded + failed == old(succeeded + failed) + n
    {
      n, ran := 0, [];
      ghost var rows0 := db.rows;
      while true
        invariant n == |ran|
        invariant Midway(handlers, rows0, db.rows, ran, id, now, lockTimeout)
        invariant succeeded + failed == old(succeeded + failed) + n
        decreases |RunnableKeys(db.rows, now, lockTimeout)|
      {
        ghost var before := db.rows;
        var processed, job := ProcessOne(now, now);
        if !processed {
          MidwayEnd(handlers, rows0, before, ran, id, now, lockTimeout);
          SettledRows(handlers, rows0, ran, id, now, lockTimeout);
          return;
        }
        ghost var j := job.value;
        MidwayStep(handlers, rows0, before, ran, j, id, now, lockTimeout);
        n := n + 1;
        ran := ran + [j];
      }
    }
  }

  /** The row of one job at any point of a run: untouched while still runnable,
      settled or untouched for good once not. */
  ghost predicate RowMidway(handlers: Handlers, j: JobId, row0: Job, row: Job, w: WorkerId, now: int,
                            lockTimeout: int) {
    row == if Runnable(row0, now, lockTimeout) && !Runnable(row, now, lockTimeout)
           then Settled(handlers, j, row0, w, now) else row0
  }

  /** A run against a frozen clock after the jobs in `ran`: the keys that ran,
      followed by the keys still runnable, are the initial ones in order. */
  ghost predicate Midway(handlers: Handlers, rows0: map<JobId, Job>, rows: map<JobId, Job>, ran: seq<JobId>,
                         w: WorkerId, now: int, lockTimeout: int) {
    && (forall j :: j in ran ==> j in rows0)
    && KeysOf(rows0, ran) + Sorted(RunnableKeys(rows, now, lockTimeout)) ==
       Sorted(RunnableKeys(rows0, now, lockTimeout))
    && rows.Keys == rows0.Keys
    && forall j :: j in rows0 ==> RowMidway(handlers, j, rows0[j], rows[j], w, now, lockTimeout)
  }

  lemma MidwayEnd(handlers: Handlers, rows0: map<JobId, Job>, rows: map<JobId, Job>, ran: seq<JobId>, w: WorkerId,
                  now: int, lockTimeout: int)
    requires Midway(handlers, rows0, rows, ran, w, now, lockTimeout)
    requires RunnableKeys(rows, now, lockTimeout) == {}
    ensures rows == AllSettled(handlers, rows0, w, now, lockTimeout)
    ensures KeysOf(rows0, ran) == Sorted(RunnableKeys(rows0, now, lockTimeout))
    ensures |ran| == |RunnableKeys(rows0, now, lockTimeout)|
  {
    var all := AllSettled(handlers, rows0, w, now, lockTimeout);
    forall j | j in rows0 ensures rows[j] == all[j] {
      assert KeyOf(rows, j) !in RunnableKeys(rows, now, lockTimeout);
      assert RowMidway(handlers, j, rows0[j], rows[j], w, now, lockTimeout);
    }
  }

  lemma SettledRows(handlers: Handlers, rows0: map<JobId, Job>, ran: seq<JobId>, w: WorkerId, now: int,
                    lockTimeout: int)
    requires forall j :: j in ran ==> j in rows0
    requires KeysOf(rows0, ran) == Sorted(RunnableKeys(rows0, now, lockTimeout))
    ensures var rows := AllSettled(handlers, rows0, w, now, lockTimeout);
            forall j :: j in rows0 ==>
              && (j in ran <==> Due(rows0[j], now, lockTimeout))
              && RanTo(handlers, j, rows0[j], rows[j], j in ran, w, now)
  {
    SortedIsAscending(RunnableKeys(rows0, now, lockTimeout));
    DueIsRunnable(rows0, now, lockTimeout);
    forall j | j in rows0
      ensures j in ran <==> Due(rows0[j], now, lockTimeout)
      ensures RanTo(handlers, j, rows0[j], AllSettled(handlers, rows0, w, now, lockTimeout)[j], j in ran, w, now)
    {
      RanAreRunnable(rows0, ran, now, lockTimeout, j);
      var c := Claimed(rows0[j], w, now);
      OutcomeIsRecorded(c, c.attempts, c.maxAttempts, Execute(handlers, j, c), now);
    }
  }

  lemma RanAreRunnable(rows0: map<JobId, Job>, ran: seq<JobId>, now: int, lockTimeout: int, j: JobId)
    requires (forall i :: i in ran ==> i in rows0) && j in rows0
    requires KeysOf(rows0, ran) == Sorted(RunnableKeys(rows0, now, lockTimeout))
    ensures j in ran <==> Runnable(rows0[j], now, lockTimeout)
  {
    SortedIsAscending(RunnableKeys(rows0, now, lockTimeout));
    if j in ran {
      var i :| 0 <= i < |ran| && ran[i] == j;
      assert KeysOf(rows0, ran)[i] in RunnableKeys(rows0, now, lockTimeout);
    }
    if Runnable(rows0[j], now, lockTimeout) {
      assert KeyOf(rows0, j) in KeysOf(rows0, ran);
      var i :| 0 <= i < |ran| && KeysOf(rows0, ran)[i] == KeyOf(rows0, j);
      assert ran[i] == j;
    }
  }

  lemma MidwayStep(handlers: Handlers, rows0: map<JobId, Job>, rows: map<JobId, Job>, ran: seq<JobId>, j: JobId,
                   w: WorkerId, now: int, lockTimeout: int)
    requires Midway(handlers, rows0, rows, ran, w, now, lockTimeout)
    requires RunnableKeys(rows, now, lockTimeout) != {}
    requires j in rows && KeyOf(rows, j) == First(RunnableKeys(rows, now, lockTimeout))
    ensures Midway(handlers, rows0, rows[j := Settled(handlers, j, rows[j], w, now)], ran + [j], w, now, lockTimeout)
    ensures |RunnableKeys(rows[j := Settled(handlers, j, rows[j], w, now)], now, lockTimeout)|
            < |RunnableKeys(rows, now, lockTimeout)|
  {
    var keys := RunnableKeys(rows, now, lockTimeout);
    assert KeyOf(rows, j) in keys && Runnable(rows[j], now, lockTimeout);
    assert RowMidway(handlers, j, rows0[j], rows[j], w, now, lockTimeout);
    var after := rows[j := Settled(handlers, j, rows[j], w, now)];
    SettledNotRunnable(handlers, j, rows[j], w, now, lockTimeout);
    SettleRemovesKey(handlers, rows, j, w, now, lockTimeout);
    forall i | i in rows0 ensures RowMidway(handlers, i, rows0[i], after[i], w, now, lockTimeout) {
      assert RowMidway(handlers, i, rows0[i], rows[i], w, now, lockTimeout);
    }
    SortedStep(keys);
    KeysOfSnoc(rows0, ran, j, Sorted(keys - {First(keys)}));
  }

  lemma KeysOfSnoc(rows: map<JobId, Job>, ids: seq<JobId>, j: JobId, rest: seq<Key>)
    requires forall i :: i in ids ==> i in rows
    requires j in rows
    ensures KeysOf(rows, ids + [j]) + rest == KeysOf(rows, ids) + ([KeyOf(rows, j)] + rest)
  {
    assert KeysOf(rows, ids + [j]) == KeysOf(rows, ids) + [KeyOf(rows, j)];
  }

  /** Settling the first runnable job takes exactly its key out of the runnable set. */
  lemma SettleRemovesKey(handlers: Handlers, rows: map<JobId, Job>, j: JobId, w: WorkerId, now: int, lockTimeout: int)
    requires j in rows && Runnable(rows[j], now, lockTimeout)
    ensures RunnableKeys(rows[j := Settled(handlers, j, rows[j], w, now)], now, lockTimeout)
         == RunnableKeys(rows, now, lockTimeout) - {KeyOf(rows, j)}
  {
    var after := rows[j := Settled(handlers, j, rows[j], w, now)];
    SettledNotRunnable(handlers, j, rows[j], w, now, lockTimeout);
    forall k
      ensures k in RunnableKeys(after, now, lockTimeout)
              <==> k in RunnableKeys(rows, now, lockTimeout) - {KeyOf(rows, j)}
    {
      if k in RunnableKeys(rows, now, lockTimeout) - {KeyOf(rows, j)} {
        assert k.minor != j && KeyOf(after, k.minor) == k;
      }
    }
  }
}
