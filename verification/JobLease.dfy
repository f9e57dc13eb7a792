/** The lease protocol: many workers act on one jobs table through the claim and
    the guarded outcome statements, with any delay and any clock in between, and
    an execution can vanish at any point. A run is a sequence of steps. */
module JobLease {
  import opened Wrappers
  import opened Keys
  import opened JobTable
  import opened Totals

  /** A claimed job between the claim and the outcome statement, with the values
      the worker read at the claim. */
  datatype Exec = Exec(job: JobId, worker: WorkerId, attempts: int, maxAttempts: int, claimedAt: int)

  /** How often a job was reclaimed and sent back for a retry. */
  datatype History = History(reclaims: nat, retries: nat)

  /** Outcomes per job or per worker. A failure is a retry or the end of the job. */
  datatype Tally = Tally(succeeded: map<int, int>, failed: map<int, int>)

  /** `recorded` counts the outcomes written to each job, `counters` are the
      workers' metrics, and `unacked` counts, per worker, outcome statements that
      took effect although the worker never saw the answer. */
  datatype State = State(
    rows: map<JobId, Job>,
    history: map<JobId, History>,
    recorded: Tally,
    execs: map<nat, Exec>,
    counters: Tally,
    unacked: Tally)

  datatype Step =
    | Enqueue(id: JobId, job: Job)
    | Claim(exec: nat, worker: WorkerId, now: int, skipped: set<JobId>)
    | Finish(exec: nat, now: int, res: RunResult, acked: bool)
    | Crash(exec: nat)

  function Init(): State {
    State(map[], map[], Tally(map[], map[]), map[], Tally(map[], map[]), Tally(map[], map[]))
  }

  predicate FreshRow(j: Job) {
    && j.status == Pending && j.attempts == 0 && j.maxAttempts >= 1 && j.payload.Some?
    && j.lockedAt == None && j.lockedBy == None && j.completedAt == None
  }

  predicate Enabled(s: State, step: Step) {
    match step
    case Enqueue(id, job) => id !in s.rows && FreshRow(job)
    case Claim(e, _, _, _) => e !in s.execs
    case Finish(e, _, _, _) => e in s.execs
    case Crash(e) => e in s.execs
  }

  function One(b: bool): int {
    if b then 1 else 0
  }

  function Counted(t: Tally, k: int, success: bool): Tally {
    if success then Tally(Bumped(t.succeeded, k), t.failed) else Tally(t.succeeded, Bumped(t.failed, k))
  }

  /** A retry counts as such; the end of a job does not. */
  function Record(h: History, stmt: Statement): History {
    if stmt.RetrySQL? then h.(retries := h.retries + 1) else h
  }

  /** The claim of the first runnable row that no other transaction has locked. */
  function ApplyClaim(s: State, lockTimeout: int, e: nat, w: WorkerId, now: int, skipped: set<JobId>): State {
    var keys := RunnableKeys(s.rows, now, lockTimeout, skipped);
    if keys == {} then s else
      var id := First(keys).minor;
      var job := Claimed(s.rows[id], w, now);
      var reclaim := s.rows[id].status == Running && id in s.history;
      State(
        s.rows[id := job],
        if reclaim then s.history[id := s.history[id].(reclaims := s.history[id].reclaims + 1)] else s.history,
        s.recorded,
        s.execs[e := Exec(id, w, job.attempts, job.maxAttempts, now)],
        s.counters,
        s.unacked)
  }

  /** The outcome statement of one execution: it takes effect if the worker still
      holds the row's lock. */
  function Outcome(s: State, x: Exec, now: int, res: RunResult, acked: bool): State {
    if !Owns(s.rows, x.job, x.worker) then s else
      var stmt := StatementFor(x.attempts, x.maxAttempts, res, now);
      State(
        s.rows[x.job := Executed(stmt, s.rows[x.job])],
        if x.job in s.history then s.history[x.job := Record(s.history[x.job], stmt)] else s.history,
        Counted(s.recorded, x.job, res.Done?),
        s.execs,
        if acked then Counted(s.counters, x.worker, res.Done?) else s.counters,
        if acked then s.unacked else Counted(s.unacked, x.worker, res.Done?))
  }

  function Ended(s: State, e: nat): State {
    State(s.rows, s.history, s.recorded, s.execs - {e}, s.counters, s.unacked)
  }

  function Apply(s: State, lockTimeout: int, step: Step): State
    requires Enabled(s, step)
  {
    match step
    case Enqueue(id, job) => 
      State(s.rows[id := job], s.history[id := History(0, 0)], s.recorded, s.execs, s.counters, s.unacked)
    case Claim(e, w, now, skipped) => ApplyClaim(s, lockTimeout, e, w, now, skipped)
    case Finish(e, now, res, acked) => Outcome(Ended(s, e), s.execs[e], now, res, acked)
    case Crash(e) => Ended(s, e)
  }

  /** The state after a run, if every step was enabled. */
  function Run(lockTimeout: int, steps: seq<Step>): Option<State> {
    if steps == [] then Some(Init()) else
      var before := Run(lockTimeout, steps[..|steps| - 1]);
      var last := steps[|steps| - 1];
      if before.Some? && Enabled(before.value, last) then Some(Apply(before.value, lockTimeout, last)) else None
  }

  // ----- conservation, for any concurrency and any clocks -----

  /** A row agrees with what was recorded about it. */
  predicate RowConserved(j: Job, h: History, successes: int, failures: int) {
    && j.attempts == successes + failures + h.reclaims + One(j.status == Running)
    && successes == One(j.status == Succeeded)
    && failures == h.retries + One(j.status == Failed)
    && (j.lockedAt.Some? <==> j.status == Running)
    && (j.lockedBy.Some? <==> j.status == Running)
    && (j.payload.None? <==> j.Terminal())
    && (j.completedAt.Some? <==> j.Terminal())
    && j.maxAttempts >= 1
  }

  predicate RowsConserved(s: State) {
    && s.history.Keys == s.rows.Keys
    && s.recorded.succeeded.Keys <= s.rows.Keys && s.recorded.failed.Keys <= s.rows.Keys
    && (forall id :: id in s.rows ==>
        RowConserved(s.rows[id], s.history[id], CountOf(s.recorded.succeeded, id), CountOf(s.recorded.failed, id)))
    && (forall e :: e in s.execs ==> s.execs[e].job in s.rows)
  }

  /** The workers' counters and the unacknowledged outcomes add up to the
      outcomes recorded on the jobs. */
  ghost predicate CountersConserved(s: State) {
    && Total(s.counters.succeeded) + Total(s.unacked.succeeded) == Total(s.recorded.succeeded)
    && Total(s.counters.failed) + Total(s.unacked.failed) == Total(s.recorded.failed)
  }

  lemma OutcomeKeepsCounters(s: State, x: Exec, now: int, res: RunResult, acked: bool)
    requires CountersConserved(s)
    ensures CountersConserved(Outcome(s, x, now, res, acked))
  {
    CountedTotals(s.recorded, x.job, res.Done?);
    CountedTotals(s.counters, x.worker, res.Done?);
    CountedTotals(s.unacked, x.worker, res.Done?);
  }

  lemma CountedTotals(t: Tally, k: int, success: bool)
    ensures Total(Counted(t, k, success).succeeded) == Total(t.succeeded) + One(success)
    ensures Total(Counted(t, k, success).failed) == Total(t.failed) + One(!success)
  {
    TotalBumped(t.succeeded, k);
    TotalBumped(t.failed, k);
  }

  lemma OutcomeKeepsRow(j: Job, h: History, successes: int, failures: int, x: Exec, res: RunResult, now: int)
    requires RowConserved(j, h, successes, failures) && j.status == Running
    ensures var stmt := StatementFor(x.attempts, x.maxAttempts, res, now);
            RowConserved(Executed(stmt, j), Record(h, stmt), successes + One(res.Done?), failures + One(!res.Done?))
  {
  }

  lemma OutcomeKeepsRows(s: State, x: Exec, now: int, res: RunResult, acked: bool)
    requires RowsConserved(s)
    ensures RowsConserved(Outcome(s, x, now, res, acked))
  {
    if Owns(s.rows, x.job, x.worker) {
      assert RowConserved(s.rows[x.job], s.history[x.job], CountOf(s.recorded.succeeded, x.job),
                          CountOf(s.recorded.failed, x.job));
      OutcomeKeepsRow(s.rows[x.job], s.history[x.job], CountOf(s.recorded.succeeded, x.job),
                      CountOf(s.recorded.failed, x.job), x, res, now);
    }
  }

  lemma ClaimKeepsRows(s: State, lockTimeout: int, e: nat, w: WorkerId, now: int, skipped: set<JobId>)
    requires RowsConserved(s)
    ensures RowsConserved(ApplyClaim(s, lockTimeout, e, w, now, skipped))
  {
    var keys := RunnableKeys(s.rows, now, lockTimeout, skipped);
    if keys != {} {
      assert First(keys) in keys;
    }
  }

  lemma StepConserves(s: State, lockTimeout: int, step: Step)
    requires RowsConserved(s) && CountersConserved(s) && Enabled(s, step)
    ensures RowsConserved(Apply(s, lockTimeout, step)) && CountersConserved(Apply(s, lockTimeout, step))
  {
    match step
    case Enqueue(id, job) =>
    case Claim(e, w, now, skipped) => ClaimKeepsRows(s, lockTimeout, e, w, now, skipped);
    case Finish(e, now, res, acked) =>
      OutcomeKeepsRows(Ended(s, e), s.execs[e], now, res, acked);
      OutcomeKeepsCounters(Ended(s, e), s.execs[e], now, res, acked);
    case Crash(e) =>
  }

  /** Every reachable state conserves attempts, outcomes and counters, for any
      concurrency, any clocks and any crashes. */
  lemma {:induction false} QueueConservation(lockTimeout: int, steps: seq<Step>)
    requires Run(lockTimeout, steps).Some?
    ensures RowsConserved(Run(lockTimeout, steps).value)
    ensures CountersConserved(Run(lockTimeout, steps).value)
    decreases |steps|
  {
    if steps == [] {
    } else {
      QueueConservation(lockTimeout, steps[..|steps| - 1]);
      var s := Run(lockTimeout, steps[..|steps| - 1]).value;
      StepConserves(s, lockTimeout, steps[|steps| - 1]);
    }
  }

  lemma TerminalStep(s: State, lockTimeout: int, step: Step, id: JobId)
    requires RowsConserved(s) && Enabled(s, step)
    requires id in s.rows && s.rows[id].Terminal()
    ensures id in Apply(s, lockTimeout, step).rows && Apply(s, lockTimeout, step).rows[id] == s.rows[id]
  {
    assert RowConserved(s.rows[id], s.history[id], CountOf(s.recorded.succeeded, id), CountOf(s.recorded.failed, id));
    if step.Claim? {
      var keys := RunnableKeys(s.rows, step.now, lockTimeout, step.skipped);
      assert keys != {} ==> First(keys) in keys;
    }
  }

  /** A terminal row never changes again, whatever stale executions still finish. */
  lemma {:induction false} TerminalForever(lockTimeout: int, steps: seq<Step>, i: nat, id: JobId)
    requires i <= |steps| && Run(lockTimeout, steps).Some?
    requires Run(lockTimeout, steps[..i]).Some?
    requires id in Run(lockTimeout, steps[..i]).value.rows && Run(lockTimeout, steps[..i]).value.rows[id].Terminal()
    ensures var rows := Run(lockTimeout, steps).value.rows;
            id in rows && rows[id] == Run(lockTimeout, steps[..i]).value.rows[id]
    decreases |steps|
  {
    if i == |steps| {
      assert steps[..i] == steps;
    } else {
      var front := steps[..|steps| - 1];
      assert front[..i] == steps[..i];
      TerminalForever(lockTimeout, front, i, id);
      QueueConservation(lockTimeout, front);
      TerminalStep(Run(lockTimeout, front).value, lockTimeout, steps[|steps| - 1], id);
    }
  }

  /** The job ends with this outcome. */
  predicate Ends(x: Exec, res: RunResult) {
    res.Done? || res.permanent || x.attempts >= x.maxAttempts
  }

  /** A success, a permanent error and an error of the last attempt that are recorded end
      the job, at whatever attempt, and no later step of any run changes that. */
  lemma EndedForGood(lockTimeout: int, steps: seq<Step>, e: nat, now: int, res: RunResult, acked: bool, more: seq<Step>)
    requires Run(lockTimeout, steps).Some? && e in Run(lockTimeout, steps).value.execs
    requires var s := Run(lockTimeout, steps).value;
             Owns(s.rows, s.execs[e].job, s.execs[e].worker) && Ends(s.execs[e], res)
    requires Run(lockTimeout, steps + [Finish(e, now, res, acked)] + more).Some?
    ensures var x := Run(lockTimeout, steps).value.execs[e];
            var rows := Run(lockTimeout, steps + [Finish(e, now, res, acked)] + more).value.rows;
            && x.job in rows && rows[x.job].status == (if res.Done? then Succeeded else Failed)
            && rows[x.job].lastError == (if res.Done? then None else Some(res.message))
            && rows[x.job].completedAt == Some(now)
  {
    var s := Run(lockTimeout, steps).value;
    var x := s.execs[e];
    var ended := steps + [Finish(e, now, res, acked)];
    RunSnoc(lockTimeout, steps, Finish(e, now, res, acked));
    OutcomeIsRecorded(s.rows[x.job], x.attempts, x.maxAttempts, res, now);
    assert (ended + more)[..|ended|] == ended;
    TerminalForever(lockTimeout, ended + more, |ended|, x.job);
  }

  /** The first due row, by (run_at, id), that no other claim has locked. */
  ghost predicate IsNext(rows: map<JobId, Job>, id: JobId, now: int, lockTimeout: int, skipped: set<JobId>) {
    && id in rows && id !in skipped && Due(rows[id], now, lockTimeout)
    && forall j :: j in rows && j !in skipped && Due(rows[j], now, lockTimeout) ==>
         rows[id].runAt < rows[j].runAt || (rows[id].runAt == rows[j].runAt && id <= j)
  }

  /** In any state any worker may claim, whatever its clock says and whatever other
      claims have locked: it takes the first row that is left, or nothing if there is
      none. */
  lemma ClaimsTheNext(s: State, lockTimeout: int, e: nat, w: WorkerId, now: int, skipped: set<JobId>)
    requires e !in s.execs
    ensures Enabled(s, Claim(e, w, now, skipped))
    ensures var s' := Apply(s, lockTimeout, Claim(e, w, now, skipped));
            if forall id :: id in s.rows && id !in skipped ==> !Due(s.rows[id], now, lockTimeout) then s' == s
            else
              && s'.execs.Keys == s.execs.Keys + {e} && (forall f :: f in s.execs ==> s'.execs[f] == s.execs[f])
              && var x := s'.execs[e];
                 && IsNext(s.rows, x.job, now, lockTimeout, skipped)
                 && s'.rows == s.rows[x.job := Claimed(s.rows[x.job], w, now)]
                 && x == Exec(x.job, w, s.rows[x.job].attempts + 1, s.rows[x.job].maxAttempts, now)
  {
    var keys := RunnableKeys(s.rows, now, lockTimeout, skipped);
    forall id | id in s.rows
      ensures id !in skipped && Due(s.rows[id], now, lockTimeout) <==> KeyOf(s.rows, id) in keys
    {
    }
    if keys != {} {
      var k := First(keys);
      assert k in keys && KeyOf(s.rows, k.minor) == k;
    }
  }

  /** Any execution may finish after any delay, by any clock and with any result, or
      vanish; if its worker still holds the row, the outcome is recorded in it, and
      nothing else changes in the table. */
  lemma FinishesAnyTime(s: State, lockTimeout: int, e: nat, now: int, res: RunResult, acked: bool)
    requires e in s.execs
    ensures Enabled(s, Crash(e)) && Apply(s, lockTimeout, Crash(e)).rows == s.rows
    ensures Enabled(s, Finish(e, now, res, acked))
    ensures var x, rows := s.execs[e], Apply(s, lockTimeout, Finish(e, now, res, acked)).rows;
            if x.job !in s.rows || s.rows[x.job].lockedBy != Some(x.worker) then rows == s.rows
            else
              && rows.Keys == s.rows.Keys && (forall j :: j in rows && j != x.job ==> rows[j] == s.rows[j])
              && Recorded(s.rows[x.job], rows[x.job], x.attempts, x.maxAttempts, res, now)
  {
    var x := s.execs[e];
    if x.job in s.rows {
      OutcomeIsRecorded(s.rows[x.job], x.attempts, x.maxAttempts, res, now);
    }
  }

  // ----- lost leases, for runs where a worker never re-claims its own job in flight -----

  /** No worker id claims a job it still has an execution of in flight. */
  predicate OneLease(s: State, lockTimeout: int, step: Step) {
    step.Claim? ==>
      var keys := RunnableKeys(s.rows, step.now, lockTimeout, step.skipped);
      keys != {} ==> forall e :: e in s.execs ==>
        !(s.execs[e].job == First(keys).minor && s.execs[e].worker == step.worker)
  }

  predicate OneLeaseRun(lockTimeout: int, steps: seq<Step>) {
    steps == [] ||
    var before := Run(lockTimeout, steps[..|steps| - 1]);
    && OneLeaseRun(lockTimeout, steps[..|steps| - 1])
    && (before.Some? ==> OneLease(before.value, lockTimeout, steps[|steps| - 1]))
  }

  /** An execution either holds the row exactly as it claimed it, or the row has
      been claimed again since and is no longer locked by this worker. */
  predicate ExecConsistent(x: Exec, j: Job) {
    && x.maxAttempts == j.maxAttempts
    && x.attempts <= j.attempts
    && (x.attempts == j.attempts ==>
        j.status == Running && j.lockedBy == Some(x.worker) && j.lockedAt == Some(x.claimedAt))
    && (x.attempts < j.attempts ==> j.lockedBy != Some(x.worker))
  }

  predicate WithinBudget(j: Job, h: History) {
    && (j.status == Pending ==> j.attempts < j.maxAttempts)
    && h.retries < j.maxAttempts
    && j.attempts <= j.maxAttempts + h.reclaims
  }

  predicate ExecsConsistent(s: State) {
    forall e :: e in s.execs ==> s.execs[e].job in s.rows && ExecConsistent(s.execs[e], s.rows[s.execs[e].job])
  }

  predicate ExecsDistinct(s: State) {
    forall e, f :: e in s.execs && f in s.execs && e != f ==>
      s.execs[e].job != s.execs[f].job || s.execs[e].worker != s.execs[f].worker
  }

  predicate RowsWithinBudget(s: State) {
    forall id :: id in s.rows ==> id in s.history && WithinBudget(s.rows[id], s.history[id])
  }

  predicate Leased(s: State) {
    RowsConserved(s) && ExecsConsistent(s) && ExecsDistinct(s) && RowsWithinBudget(s)
  }

  /** An execution of another lease does not notice an outcome. */
  lemma OutcomeKeepsExec(s: State, x: Exec, y: Exec, now: int, res: RunResult, acked: bool)
    requires x.job in s.rows && ExecConsistent(x, s.rows[x.job])
    requires y.job in s.rows && ExecConsistent(y, s.rows[y.job])
    requires x.job != y.job || x.worker != y.worker
    ensures var s' := Outcome(s, x, now, res, acked);
            y.job in s'.rows && ExecConsistent(y, s'.rows[y.job])
  {
  }

  lemma OutcomeKeepsBudget(j: Job, h: History, successes: int, failures: int, x: Exec, res: RunResult, now: int)
    requires RowConserved(j, h, successes, failures) && WithinBudget(j, h) && j.status == Running
    requires x.attempts == j.attempts && x.maxAttempts == j.maxAttempts
    ensures var stmt := StatementFor(x.attempts, x.maxAttempts, res, now);
            WithinBudget(Executed(stmt, j), Record(h, stmt))
  {
  }

  lemma OutcomeKeepsBudgets(s: State, x: Exec, now: int, res: RunResult, acked: bool)
    requires RowsConserved(s) && RowsWithinBudget(s)
    requires x.job in s.rows && ExecConsistent(x, s.rows[x.job])
    ensures RowsWithinBudget(Outcome(s, x, now, res, acked))
  {
    if Owns(s.rows, x.job, x.worker) {
      assert RowConserved(s.rows[x.job], s.history[x.job], CountOf(s.recorded.succeeded, x.job),
                          CountOf(s.recorded.failed, x.job));
      assert WithinBudget(s.rows[x.job], s.history[x.job]);
      OutcomeKeepsBudget(s.rows[x.job], s.history[x.job], CountOf(s.recorded.succeeded, x.job),
                         CountOf(s.recorded.failed, x.job), x, res, now);
    }
  }

  lemma FinishKeepsLeases(s: State, e: nat, now: int, res: RunResult, acked: bool)
    requires Leased(s) && e in s.execs
    ensures Leased(Outcome(Ended(s, e), s.execs[e], now, res, acked))
  {
    var s1 := Ended(s, e);
    var x := s.execs[e];
    OutcomeKeepsRows(s1, x, now, res, acked);
    OutcomeKeepsBudgets(s1, x, now, res, acked);
    forall f | f in s1.execs
      ensures var s' := Outcome(s1, x, now, res, acked);
              s1.execs[f].job in s'.rows && ExecConsistent(s1.execs[f], s'.rows[s1.execs[f].job])
    {
      OutcomeKeepsExec(s1, x, s1.execs[f], now, res, acked);
    }
  }

  lemma ClaimKeepsLeases(s: State, lockTimeout: int, e: nat, w: WorkerId, now: int, skipped: set<JobId>)
    requires Leased(s) && e !in s.execs
    requires OneLease(s, lockTimeout, Claim(e, w, now, skipped))
    ensures RowsConserved(ApplyClaim(s, lockTimeout, e, w, now, skipped))
    ensures ExecsConsistent(ApplyClaim(s, lockTimeout, e, w, now, skipped))
    ensures ExecsDistinct(ApplyClaim(s, lockTimeout, e, w, now, skipped))
    ensures RowsWithinBudget(ApplyClaim(s, lockTimeout, e, w, now, skipped))
  {
    ClaimKeepsRows(s, lockTimeout, e, w, now, skipped);
    var keys := RunnableKeys(s.rows, now, lockTimeout, skipped);
    if keys != {} {
      var id := First(keys).minor;
      assert First(keys) in keys;
      assert RowConserved(s.rows[id], s.history[id], CountOf(s.recorded.succeeded, id), CountOf(s.recorded.failed, id));
      assert WithinBudget(s.rows[id], s.history[id]);
    }
  }

  lemma LeasedStep(s: State, lockTimeout: int, step: Step)
    requires Leased(s) && Enabled(s, step) && OneLease(s, lockTimeout, step)
    ensures Leased(Apply(s, lockTimeout, step))
  {
    match step
    case Enqueue(id, job) =>
    case Claim(e, w, now, skipped) => ClaimKeepsLeases(s, lockTimeout, e, w, now, skipped);
    case Finish(e, now, res, acked) => FinishKeepsLeases(s, e, now, res, acked);
    case Crash(e) =>
  }

  lemma {:induction false} LeasedAlways(lockTimeout: int, steps: seq<Step>)
    requires Run(lockTimeout, steps).Some? && OneLeaseRun(lockTimeout, steps)
    ensures Leased(Run(lockTimeout, steps).value)
    decreases |steps|
  {
    if steps != [] {
      LeasedAlways(lockTimeout, steps[..|steps| - 1]);
      LeasedStep(Run(lockTimeout, steps[..|steps| - 1]).value, lockTimeout, steps[|steps| - 1]);
    }
  }

  /** A finish records its outcome exactly when the job has not been claimed again
      since: then the row leaves `running` and one counter moves by one. After a
      reclaim it changes no row, no history and no counter. */
  lemma LostLeaseIsHarmless(lockTimeout: int, steps: seq<Step>, e: nat, now: int, res: RunResult, acked: bool)
    requires Run(lockTimeout, steps).Some? && OneLeaseRun(lockTimeout, steps)
    requires e in Run(lockTimeout, steps).value.execs
    ensures var s := Run(lockTimeout, steps).value;
            var s' := Apply(s, lockTimeout, Finish(e, now, res, acked));
            var x := s.execs[e];
            && x.job in s.rows
            && if s.rows[x.job].attempts != x.attempts then s' == Ended(s, e)
               else && x.job in s'.rows && s'.rows[x.job].status != Running
                    && s'.recorded == Counted(s.recorded, x.job, res.Done?)
                    && (acked ==> s'.counters == Counted(s.counters, x.worker, res.Done?))
                    && (!acked ==> s'.unacked == Counted(s.unacked, x.worker, res.Done?))
  {
    LeasedAlways(lockTimeout, steps);
    var s := Run(lockTimeout, steps).value;
    OutcomeTakesEffect(Ended(s, e), s.execs[e], now, res, acked);
  }

  lemma OutcomeTakesEffect(s: State, x: Exec, now: int, res: RunResult, acked: bool)
    requires x.job in s.rows && ExecConsistent(x, s.rows[x.job])
    ensures var s' := Outcome(s, x, now, res, acked);
            if s.rows[x.job].attempts != x.attempts then s' == s
            else && x.job in s'.rows && s'.rows[x.job].status != Running
                 && s'.recorded == Counted(s.recorded, x.job, res.Done?)
                 && (acked ==> s'.counters == Counted(s.counters, x.worker, res.Done?))
                 && (!acked ==> s'.unacked == Counted(s.unacked, x.worker, res.Done?))
  {
  }

  /** A pending row always has an attempt left; retries stay below max_attempts;
      only reclaims can push attempts past it. */
  lemma RetryBudget(lockTimeout: int, steps: seq<Step>, id: JobId)
    requires Run(lockTimeout, steps).Some? && OneLeaseRun(lockTimeout, steps)
    requires id in Run(lockTimeout, steps).value.rows
    ensures var s := Run(lockTimeout, steps).value;
            && id in s.history
            && (s.rows[id].status == Pending ==> s.rows[id].attempts < s.rows[id].maxAttempts)
            && s.history[id].retries <= s.rows[id].maxAttempts - 1
            && s.rows[id].attempts <= s.rows[id].maxAttempts + s.history[id].reclaims
  {
    LeasedAlways(lockTimeout, steps);
    var s := Run(lockTimeout, steps).value;
    assert WithinBudget(s.rows[id], s.history[id]);
  }

  lemma RunSnoc(lockTimeout: int, steps: seq<Step>, last: Step)
    requires Run(lockTimeout, steps).Some? && Enabled(Run(lockTimeout, steps).value, last)
    ensures Run(lockTimeout, steps + [last]) == Some(Apply(Run(lockTimeout, steps).value, lockTimeout, last))
  {
    assert (steps + [last])[..|steps|] == steps;
  }

  /** The hypothesis of the lease results is needed: the guard compares worker ids,
      which all loops of one worker share, so a slow execution can record its
      outcome on the lease of its sibling and leave an exhausted job pending. */
  lemma SiblingLoopsBreakTheBudget(lockTimeout: int) returns (steps: seq<Step>)
    ensures Run(lockTimeout, steps).Some? && !OneLeaseRun(lockTimeout, steps)
    ensures exists id :: id in Run(lockTimeout, steps).value.rows
              && var j := Run(lockTimeout, steps).value.rows[id];
                 j.status == Pending && j.attempts >= j.maxAttempts
  {
    var late := if lockTimeout < 0 then 0 else lockTimeout + 1;
    var job := Job("t", Some("p"), Pending, 0, 2, 0, None, None, None, None);
    assert Sorted({Key(0, 7)}) == [Key(0, 7)];
    steps := [];
    RunSnoc(lockTimeout, steps, Enqueue(7, job));
    steps := steps + [Enqueue(7, job)];
    var s := Run(lockTimeout, steps).value;
    assert s.rows == map[7 := job];
    assert RunnableKeys(s.rows, 0, lockTimeout, {}) == {Key(0, 7)};
    RunSnoc(lockTimeout, steps, Claim(0, 1, 0, {}));
    steps := steps + [Claim(0, 1, 0, {})];
    s := Run(lockTimeout, steps).value;
    var once := Claimed(job, 1, 0);
    assert s.rows == map[7 := once] && s.execs == map[0 := Exec(7, 1, 1, 2, 0)];
    assert RunnableKeys(s.rows, late, lockTimeout, {}) == {Key(0, 7)};
    assert !OneLease(s, lockTimeout, Claim(1, 1, late, {})) by {
      assert 0 in s.execs;
    }
    RunSnoc(lockTimeout, steps, Claim(1, 1, late, {}));
    var again := steps + [Claim(1, 1, late, {})];
    assert again[..|steps|] == steps && !OneLeaseRun(lockTimeout, again);
    s := Run(lockTimeout, again).value;
    var twice := Claimed(once, 1, late);
    assert s.rows == map[7 := twice] && s.execs[0] == Exec(7, 1, 1, 2, 0);
    var finish := Finish(0, late, Error("e", false), true);
    RunSnoc(lockTimeout, again, finish);
    steps := again + [finish];
    assert steps[..|again|] == again;
    assert Run(lockTimeout, steps).value.rows[7] == Executed(StatementFor(1, 2, Error("e", false), late), twice);
  }
}
