/** The lease protocol on one nondecreasing clock, where every execution ends at
    most `bound` after its claim: by its outcome statement, or by its worker dying.

    The bound counts from the worker's reading of its clock, which the claim stores:
    the statement itself may take effect later. The source bounds a handler by
    JobTimeout and then gives the outcome statement a few seconds more, so the bound
    that holds of a deployment is the parameter. */
module JobTimedLease {
  import opened Wrappers
  import opened Keys
  import opened JobTable
  import opened JobLease

  datatype Timed = Timed(state: State, clock: int)

  datatype TimedStep = Tick(elapsed: nat) | Act(step: Step)

  predicate InTime(s: State, clock: int, bound: int) {
    forall e :: e in s.execs ==> clock <= s.execs[e].claimedAt + bound
  }

  /** A statement takes effect at `clock` with a time read before, a claim within the
      bound of its execution. */
  predicate ReadsClock(step: Step, clock: int, bound: int) {
    match step
    case Claim(_, _, now, _) => now <= clock <= now + bound
    case Finish(_, now, _, _) => now <= clock
    case _ => true
  }

  /** Time passes only while every execution in flight is within its bound. */
  predicate TimedEnabled(t: Timed, bound: int, step: TimedStep) {
    match step
    case Tick(elapsed) => InTime(t.state, t.clock + elapsed, bound)
    case Act(a) => Enabled(t.state, a) && ReadsClock(a, t.clock, bound)
  }

  function TimedApply(t: Timed, lockTimeout: int, bound: int, step: TimedStep): Timed
    requires TimedEnabled(t, bound, step)
  {
    match step
    case Tick(elapsed) => Timed(t.state, t.clock + elapsed)
    case Act(a) => Timed(Apply(t.state, lockTimeout, a), t.clock)
  }

  function TimedRun(lockTimeout: int, bound: int, steps: seq<TimedStep>): Option<Timed> {
    if steps == [] then Some(Timed(Init(), 0)) else
      var before := TimedRun(lockTimeout, bound, steps[..|steps| - 1]);
      var last := steps[|steps| - 1];
      if before.Some? && TimedEnabled(before.value, bound, last)
      then Some(TimedApply(before.value, lockTimeout, bound, last)) else None
  }

  /** This execution holds the row: its lock, its exact attempt, its claim time. */
  predicate Holds(x: Exec, rows: map<JobId, Job>) {
    && x.job in rows
    && rows[x.job].status == Running
    && rows[x.job].lockedBy == Some(x.worker)
    && rows[x.job].attempts == x.attempts
    && rows[x.job].maxAttempts == x.maxAttempts
    && rows[x.job].lockedAt == Some(x.claimedAt)
  }

  /** Each job has at most one execution, and that one holds the row. */
  predicate Exclusive(s: State) {
    && (forall e :: e in s.execs ==> Holds(s.execs[e], s.rows))
    && (forall e, f :: e in s.execs && f in s.execs && s.execs[e].job == s.execs[f].job ==> e == f)
  }

  lemma ClaimStaysExclusive(s: State, clock: int, lockTimeout: int, bound: int, e: nat, w: WorkerId, now: int,
                            skipped: set<JobId>)
    requires Exclusive(s) && InTime(s, clock, bound) && 0 <= bound <= lockTimeout && e !in s.execs
    requires now <= clock <= now + bound
    ensures Exclusive(ApplyClaim(s, lockTimeout, e, w, now, skipped))
    ensures InTime(ApplyClaim(s, lockTimeout, e, w, now, skipped), clock, bound)
    ensures OneLease(s, lockTimeout, Claim(e, w, now, skipped))
  {
    var keys := RunnableKeys(s.rows, now, lockTimeout, skipped);
    if keys != {} {
      var id := First(keys).minor;
      assert First(keys) in keys;
      forall f | f in s.execs ensures s.execs[f].job != id {
        assert Holds(s.execs[f], s.rows);
      }
    }
  }

  lemma OutcomeStaysExclusive(s: State, x: Exec, y: Exec, now: int, res: RunResult, acked: bool)
    requires x.job in s.rows && y.job != x.job && Holds(y, s.rows)
    ensures Holds(y, Outcome(s, x, now, res, acked).rows)
  {
  }

  lemma StepStaysExclusive(s: State, clock: int, lockTimeout: int, bound: int, step: Step)
    requires Exclusive(s) && InTime(s, clock, bound) && 0 <= bound <= lockTimeout
    requires Enabled(s, step) && ReadsClock(step, clock, bound)
    ensures Exclusive(Apply(s, lockTimeout, step)) && InTime(Apply(s, lockTimeout, step), clock, bound)
    ensures OneLease(s, lockTimeout, step)
  {
    match step
    case Enqueue(id, job) =>
    case Claim(e, w, now, skipped) => ClaimStaysExclusive(s, clock, lockTimeout, bound, e, w, now, skipped);
    case Finish(e, now, res, acked) =>
      var x := s.execs[e];
      var s1 := Ended(s, e);
      assert Holds(x, s.rows);
      forall f | f in s1.execs ensures Holds(s1.execs[f], Outcome(s1, x, now, res, acked).rows) {
        assert Holds(s.execs[f], s.rows);
        OutcomeStaysExclusive(s1, x, s1.execs[f], now, res, acked);
      }
    case Crash(e) =>
  }

  /** The untimed steps of a timed run. */
  function Untimed(steps: seq<TimedStep>): seq<Step> {
    if steps == [] then [] else
      var last := steps[|steps| - 1];
      Untimed(steps[..|steps| - 1]) + if last.Act? then [last.step] else []
  }

  /** If the bound fits the lock timeout, every timed run is exclusive throughout,
      and it is a run of the untimed protocol in which no worker re-claims a job it
      has in flight, so everything proved of those runs applies. */
  lemma {:induction false} TimedRunsAreExclusive(lockTimeout: int, bound: int, steps: seq<TimedStep>)
    requires 0 <= bound <= lockTimeout
    requires TimedRun(lockTimeout, bound, steps).Some?
    ensures var t := TimedRun(lockTimeout, bound, steps).value;
            && Exclusive(t.state) && InTime(t.state, t.clock, bound)
            && Run(lockTimeout, Untimed(steps)) == Some(t.state)
            && OneLeaseRun(lockTimeout, Untimed(steps))
    decreases |steps|
  {
    if steps != [] {
      var front, last := steps[..|steps| - 1], steps[|steps| - 1];
      TimedRunsAreExclusive(lockTimeout, bound, front);
      var t := TimedRun(lockTimeout, bound, front).value;
      if last.Act? {
        StepStaysExclusive(t.state, t.clock, lockTimeout, bound, last.step);
        assert Untimed(steps)[..|Untimed(front)|] == Untimed(front);
      } else {
        assert Untimed(steps) == Untimed(front);
      }
    }
  }

  lemma RunSnoc(lockTimeout: int, bound: int, steps: seq<TimedStep>, last: TimedStep)
    requires TimedRun(lockTimeout, bound, steps).Some?
    requires TimedEnabled(TimedRun(lockTimeout, bound, steps).value, bound, last)
    ensures TimedRun(lockTimeout, bound, steps + [last]) ==
            Some(TimedApply(TimedRun(lockTimeout, bound, steps).value, lockTimeout, bound, last))
  {
    assert (steps + [last])[..|steps|] == steps;
  }

  /** A moment when a claim made at 0 is stale. */
  function Late(lockTimeout: int): nat {
    if lockTimeout < 0 then 0 else lockTimeout + 1
  }

  function NewJob(maxAttempts: int): Job {
    Job("t", Some("p"), Pending, 0, maxAttempts, 0, None, None, None, None)
  }

  /** A job claimed at 0, and again when that claim is stale but its execution still
      within its bound. */
  function TwoClaims(lockTimeout: int, maxAttempts: int, second: WorkerId): seq<TimedStep> {
    [Act(Enqueue(7, NewJob(maxAttempts))), Act(Claim(0, 1, 0, {})), Tick(Late(lockTimeout)),
     Act(Claim(1, second, Late(lockTimeout), {}))]
  }

  lemma TwoClaimsHappen(lockTimeout: int, bound: int, maxAttempts: int, second: WorkerId)
    requires 0 <= bound && lockTimeout < bound && maxAttempts >= 1
    ensures TimedRun(lockTimeout, bound, TwoClaims(lockTimeout, maxAttempts, second)).Some?
    ensures var t := TimedRun(lockTimeout, bound, TwoClaims(lockTimeout, maxAttempts, second)).value;
            var late := Late(lockTimeout);
            && t.clock == late
            && t.state.rows == map[7 := Claimed(Claimed(NewJob(maxAttempts), 1, 0), second, late)]
            && t.state.execs == map[0 := Exec(7, 1, 1, maxAttempts, 0), 1 := Exec(7, second, 2, maxAttempts, late)]
  {
    var late, job := Late(lockTimeout), NewJob(maxAttempts);
    var enqueue, claim, tick, again :=
      Act(Enqueue(7, job)), Act(Claim(0, 1, 0, {})), Tick(late), Act(Claim(1, second, late, {}));
    assert Sorted({Key(0, 7)}) == [Key(0, 7)];
    RunSnoc(lockTimeout, bound, [], enqueue);
    var s := TimedRun(lockTimeout, bound, [] + [enqueue]).value.state;
    assert s.rows == map[7 := job];
    assert RunnableKeys(s.rows, 0, lockTimeout, {}) == {Key(0, 7)};
    RunSnoc(lockTimeout, bound, [] + [enqueue], claim);
    s := TimedRun(lockTimeout, bound, [] + [enqueue] + [claim]).value.state;
    assert s.rows == map[7 := Claimed(job, 1, 0)] && s.execs == map[0 := Exec(7, 1, 1, maxAttempts, 0)];
    RunSnoc(lockTimeout, bound, [] + [enqueue] + [claim], tick);
    assert RunnableKeys(s.rows, late, lockTimeout, {}) == {Key(0, 7)};
    RunSnoc(lockTimeout, bound, [] + [enqueue] + [claim] + [tick], again);
    assert [] + [enqueue] + [claim] + [tick] + [again] == TwoClaims(lockTimeout, maxAttempts, second);
  }

  /** Two workers hold one job. */
  lemma OverlapHappens(lockTimeout: int, bound: int)
    requires 0 <= bound && lockTimeout < bound
    ensures var run := TimedRun(lockTimeout, bound, TwoClaims(lockTimeout, 1, 2));
            run.Some? && !Exclusive(run.value.state) && 7 in run.value.state.rows &&
              run.value.state.rows[7].attempts == 2
  {
    TwoClaimsHappen(lockTimeout, bound, 1, 2);
    var s := TimedRun(lockTimeout, bound, TwoClaims(lockTimeout, 1, 2)).value.state;
    assert s.execs[0].job == s.execs[1].job;
  }

  /** Mutual exclusion holds in every timed run exactly when executions end within
      the lock timeout. */
  lemma MutualExclusionIff(lockTimeout: int, bound: int)
    requires 0 <= bound
    ensures (forall steps :: TimedRun(lockTimeout, bound, steps).Some? ==>
               Exclusive(TimedRun(lockTimeout, bound, steps).value.state))
            <==> bound <= lockTimeout
  {
    if bound <= lockTimeout {
      forall steps | TimedRun(lockTimeout, bound, steps).Some?
        ensures Exclusive(TimedRun(lockTimeout, bound, steps).value.state)
      {
        TimedRunsAreExclusive(lockTimeout, bound, steps);
      }
    } else {
      OverlapHappens(lockTimeout, bound);
    }
  }
}
