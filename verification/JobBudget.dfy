/** Which deployments keep the retry budget: exactly those whose executions end
    within the lock timeout. */
module JobBudget {
  import opened Keys
  import opened Wrappers
  import opened JobTable
  import opened JobLease
  import opened JobTimedLease

  // ----- a retry budget that survives sibling loops -----

  /** Finishing any execution now either records its outcome or, if the job was claimed
      again since, changes nothing. */
  ghost predicate LostLeasesAreHarmless(s: State) {
    forall e, now, res, acked :: e in s.execs ==> FinishIsExact(s, e, now, res, acked)
  }

  ghost predicate FinishIsExact(s: State, e: nat, now: int, res: RunResult, acked: bool)
    requires e in s.execs
  {
    var x := s.execs[e];
    var s' := Outcome(Ended(s, e), x, now, res, acked);
    && x.job in s.rows
    && if s.rows[x.job].attempts != x.attempts then s' == Ended(s, e)
       else x.job in s'.rows && s'.rows[x.job].status != Running && s'.recorded == Counted(s.recorded, x.job, res.Done?)
  }

  /** Two loops of one worker hold a job; the first one's failure is recorded on the
      lease of the second and leaves the exhausted job pending. */
  lemma SiblingLoopsInTime(lockTimeout: int, bound: int)
    requires 0 <= bound && lockTimeout < bound
    ensures var late := Late(lockTimeout);
            var claims := TimedRun(lockTimeout, bound, TwoClaims(lockTimeout, 2, 1));
            var finished := TimedRun(lockTimeout, bound,
                                     TwoClaims(lockTimeout, 2, 1) + [Act(Finish(0, late, Error("e", false), true))]);
            && claims.Some? && !LostLeasesAreHarmless(claims.value.state)
            && finished.Some? && !RowsWithinBudget(finished.value.state)
  {
    var late, steps, failed := Late(lockTimeout), TwoClaims(lockTimeout, 2, 1), Error("e", false);
    TwoClaimsHappen(lockTimeout, bound, 2, 1);
    var s := TimedRun(lockTimeout, bound, steps).value.state;
    var twice := Claimed(Claimed(NewJob(2), 1, 0), 1, late);
    assert s.rows[7] == twice && s.execs[0] == Exec(7, 1, 1, 2, 0);
    var after := Outcome(Ended(s, 0), s.execs[0], late, failed, true);
    assert after.rows[7] == Executed(StatementFor(1, 2, failed, late), twice);
    assert !FinishIsExact(s, 0, late, failed, true) by {
      assert after.rows[7].status == Pending;
    }
    JobTimedLease.RunSnoc(lockTimeout, bound, steps, Act(Finish(0, late, failed, true)));
  }

  /** The retry budget is kept in every timed run exactly if executions end within the
      lock timeout, however many loops share a worker id. */
  lemma RetryBudgetIff(lockTimeout: int, bound: int)
    requires 0 <= bound
    ensures (forall steps :: TimedRun(lockTimeout, bound, steps).Some? ==>
               RowsWithinBudget(TimedRun(lockTimeout, bound, steps).value.state))
            <==> bound <= lockTimeout
  {
    if bound <= lockTimeout {
      forall steps | TimedRun(lockTimeout, bound, steps).Some?
        ensures RowsWithinBudget(TimedRun(lockTimeout, bound, steps).value.state)
      {
        TimedRunsAreExclusive(lockTimeout, bound, steps);
        LeasedAlways(lockTimeout, Untimed(steps));
      }
    } else {
      SiblingLoopsInTime(lockTimeout, bound);
    }
  }

  /** So is the harmlessness of lost leases. */
  lemma LostLeaseIff(lockTimeout: int, bound: int)
    requires 0 <= bound
    ensures (forall steps :: TimedRun(lockTimeout, bound, steps).Some? ==>
               LostLeasesAreHarmless(TimedRun(lockTimeout, bound, steps).value.state))
            <==> bound <= lockTimeout
  {
    if bound <= lockTimeout {
      forall steps | TimedRun(lockTimeout, bound, steps).Some?
        ensures LostLeasesAreHarmless(TimedRun(lockTimeout, bound, steps).value.state)
      {
        TimedRunsAreExclusive(lockTimeout, bound, steps);
        LeasedIsHarmless(lockTimeout, Untimed(steps));
      }
    } else {
      SiblingLoopsInTime(lockTimeout, bound);
    }
  }

  lemma LeasedIsHarmless(lockTimeout: int, steps: seq<Step>)
    requires Run(lockTimeout, steps).Some? && OneLeaseRun(lockTimeout, steps)
    ensures LostLeasesAreHarmless(Run(lockTimeout, steps).value)
  {
    var s := Run(lockTimeout, steps).value;
    forall e, now, res, acked | e in s.execs ensures FinishIsExact(s, e, now, res, acked) {
      LostLeaseIsHarmless(lockTimeout, steps, e, now, res, acked);
    }
  }

  // ----- attempts without crashes -----

  predicate CrashFree(steps: seq<TimedStep>) {
    forall i :: 0 <= i < |steps| ==> !(steps[i].Act? && steps[i].step.Crash?)
  }

  predicate WithinMax(s: State) {
    forall id :: id in s.rows ==> s.rows[id].attempts <= s.rows[id].maxAttempts
  }

  predicate Executing(s: State, id: JobId) {
    exists e :: e in s.execs && s.execs[e].job == id
  }

  /** Nothing was reclaimed, and every running row has its execution. */
  predicate NeverReclaimed(s: State) {
    && (forall id :: id in s.history ==> s.history[id].reclaims == 0)
    && (forall id :: id in s.rows && s.rows[id].status == Running ==> Executing(s, id))
  }

  lemma ExecutingIsNotStale(s: State, clock: int, lockTimeout: int, bound: int, id: JobId, now: int)
    requires Exclusive(s) && InTime(s, clock, bound) && bound <= lockTimeout && now <= clock
    requires id in s.rows && Executing(s, id)
    ensures !Runnable(s.rows[id], now, lockTimeout)
  {
    var e :| e in s.execs && s.execs[e].job == id;
    assert Holds(s.execs[e], s.rows);
  }

  lemma ClaimReclaimsNothing(s: State, clock: int, lockTimeout: int, bound: int, e: nat, w: WorkerId, now: int,
                             skipped: set<JobId>)
    requires Exclusive(s) && InTime(s, clock, bound) && 0 <= bound <= lockTimeout && e !in s.execs
    requires now <= clock && NeverReclaimed(s)
    ensures NeverReclaimed(ApplyClaim(s, lockTimeout, e, w, now, skipped))
  {
    var keys := RunnableKeys(s.rows, now, lockTimeout, skipped);
    if keys != {} {
      var id := First(keys).minor;
      assert First(keys) in keys;
      forall running | running in s.rows && s.rows[running].status == Running
        ensures !Runnable(s.rows[running], now, lockTimeout)
      {
        ExecutingIsNotStale(s, clock, lockTimeout, bound, running, now);
      }
      var s' := ApplyClaim(s, lockTimeout, e, w, now, skipped);
      assert s'.history == s.history && s'.execs[e].job == id;
      forall other | other in s'.rows && s'.rows[other].status == Running && other != id ensures Executing(s', other) {
        var f :| f in s.execs && s.execs[f].job == other;
        assert s'.execs[f].job == other;
      }
    }
  }

  lemma OutcomeReclaimsNothing(s: State, e: nat, now: int, res: RunResult, acked: bool)
    requires Exclusive(s) && NeverReclaimed(s) && e in s.execs
    ensures NeverReclaimed(Outcome(Ended(s, e), s.execs[e], now, res, acked))
  {
    var x := s.execs[e];
    assert Holds(x, s.rows);
    var s' := Outcome(Ended(s, e), x, now, res, acked);
    forall id | id in s'.rows && s'.rows[id].status == Running ensures Executing(s', id) {
      assert id != x.job;
      var f :| f in s.execs && s.execs[f].job == id;
      assert f in s'.execs;
    }
  }

  lemma StepReclaimsNothing(s: State, clock: int, lockTimeout: int, bound: int, step: Step)
    requires Exclusive(s) && InTime(s, clock, bound) && 0 <= bound <= lockTimeout
    requires Enabled(s, step) && ReadsClock(step, clock, bound) && !step.Crash? && NeverReclaimed(s)
    ensures NeverReclaimed(Apply(s, lockTimeout, step))
  {
    match step
    case Enqueue(id, job) =>
      var s' := Apply(s, lockTimeout, step);
      forall other | other in s'.rows && s'.rows[other].status == Running ensures Executing(s', other) {
        var f :| f in s.execs && s.execs[f].job == other;
        assert f in s'.execs;
      }
    case Claim(e, w, now, skipped) => ClaimReclaimsNothing(s, clock, lockTimeout, bound, e, w, now, skipped);
    case Finish(e, now, res, acked) => OutcomeReclaimsNothing(s, e, now, res, acked);
    case Crash(e) =>
  }

  lemma {:induction false} CrashFreeReclaimsNothing(lockTimeout: int, bound: int, steps: seq<TimedStep>)
    requires 0 <= bound <= lockTimeout
    requires TimedRun(lockTimeout, bound, steps).Some? && CrashFree(steps)
    ensures NeverReclaimed(TimedRun(lockTimeout, bound, steps).value.state)
    decreases |steps|
  {
    if steps != [] {
      var front, last := steps[..|steps| - 1], steps[|steps| - 1];
      CrashFreeReclaimsNothing(lockTimeout, bound, front);
      TimedRunsAreExclusive(lockTimeout, bound, front);
      var t := TimedRun(lockTimeout, bound, front).value;
      if last.Act? {
        StepReclaimsNothing(t.state, t.clock, lockTimeout, bound, last.step);
      }
    }
  }

  /** Without crashes no job is attempted more than max_attempts times in any timed run,
      exactly if executions end within the lock timeout. */
  lemma CrashFreeBudgetIff(lockTimeout: int, bound: int)
    requires 0 <= bound
    ensures (forall steps :: TimedRun(lockTimeout, bound, steps).Some? && CrashFree(steps)
                             ==> WithinMax(TimedRun(lockTimeout, bound, steps).value.state))
            <==> bound <= lockTimeout
  {
    if bound <= lockTimeout {
      forall steps | TimedRun(lockTimeout, bound, steps).Some? && CrashFree(steps)
        ensures WithinMax(TimedRun(lockTimeout, bound, steps).value.state)
      {
        CrashFreeReclaimsNothing(lockTimeout, bound, steps);
        TimedRunsAreExclusive(lockTimeout, bound, steps);
        LeasedAlways(lockTimeout, Untimed(steps));
        WithinBudgetIsWithinMax(TimedRun(lockTimeout, bound, steps).value.state);
      }
    } else {
      TwoClaimsHappen(lockTimeout, bound, 1, 2);
      var steps := TwoClaims(lockTimeout, 1, 2);
      assert CrashFree(steps);
      assert !WithinMax(TimedRun(lockTimeout, bound, steps).value.state) by {
        assert 7 in TimedRun(lockTimeout, bound, steps).value.state.rows;
      }
    }
  }

  lemma WithinBudgetIsWithinMax(s: State)
    requires RowsWithinBudget(s) && NeverReclaimed(s)
    ensures WithinMax(s)
  {
    forall id | id in s.rows ensures s.rows[id].attempts <= s.rows[id].maxAttempts {
      assert WithinBudget(s.rows[id], s.history[id]);
    }
  }

  // ----- with crashes, the bound is attained -----

  /** One job, one execution in flight, after `failures` recorded failures and `reclaims`
      reclaims of crashed executions. */
  predicate InFlight(s: State, max: int, failures: nat, reclaims: nat) {
    var attempts := failures + reclaims + 1;
    && s.rows.Keys == {7} && s.rows[7].status == Running
    && s.rows[7].maxAttempts == max && s.rows[7].attempts == attempts
    && s.rows[7].lockedBy == Some(1) && s.rows[7].lockedAt.Some?
    && s.history == map[7 := History(reclaims, failures)]
    && s.execs.Keys == {0} && s.execs[0].job == 7 && s.execs[0].worker == 1
    && s.execs[0].attempts == attempts && s.execs[0].maxAttempts == max
  }

  /** A claim of the only row, at a time when it is runnable. */
  lemma ClaimsTheRow(s: State, lockTimeout: int, now: int)
    requires s.rows.Keys == {7} && Runnable(s.rows[7], now, lockTimeout) && 7 in s.history && s.execs == map[]
    ensures var job := Claimed(s.rows[7], 1, now);
            var s' := ApplyClaim(s, lockTimeout, 0, 1, now, {});
            && s'.rows == map[7 := job] && s'.execs == map[0 := Exec(7, 1, job.attempts, job.maxAttempts, now)]
            && s'.history == if s.rows[7].status == Running
                             then s.history[7 := s.history[7].(reclaims := s.history[7].reclaims + 1)] else s.history
  {
    var key := KeyOf(s.rows, 7);
    assert RunnableKeys(s.rows, now, lockTimeout, {}) == {key};
    SortedIsAscending({key});
  }

  lemma FirstClaim(lockTimeout: int, max: int) returns (steps: seq<Step>)
    requires max >= 1
    ensures Run(lockTimeout, steps).Some? && OneLeaseRun(lockTimeout, steps)
    ensures InFlight(Run(lockTimeout, steps).value, max, 0, 0)
  {
    var enqueue, claim := Enqueue(7, NewJob(max)), Claim(0, 1, 0, {});
    JobLease.RunSnoc(lockTimeout, [], enqueue);
    steps := [] + [enqueue];
    var s := Run(lockTimeout, steps).value;
    assert s.rows == map[7 := NewJob(max)] && s.execs == map[] && s.history == map[7 := History(0, 0)];
    ClaimsTheRow(s, lockTimeout, 0);
    LeaseSnoc(lockTimeout, [], enqueue);
    LeaseSnoc(lockTimeout, steps, claim);
    steps := steps + [claim];
  }

  lemma LeaseSnoc(lockTimeout: int, steps: seq<Step>, last: Step)
    requires Run(lockTimeout, steps).Some? && OneLeaseRun(lockTimeout, steps)
    requires Enabled(Run(lockTimeout, steps).value, last) && OneLease(Run(lockTimeout, steps).value, lockTimeout, last)
    ensures Run(lockTimeout, steps + [last]) == Some(Apply(Run(lockTimeout, steps).value, lockTimeout, last))
    ensures OneLeaseRun(lockTimeout, steps + [last])
  {
    assert (steps + [last])[..|steps|] == steps;
  }

  /** One failure sends the job back and the next claim takes it again. */
  lemma FailAndClaim(lockTimeout: int, s: State, max: int, failures: nat) returns (finish: Step, claim: Step)
    requires InFlight(s, max, failures, 0) && failures + 1 < max
    ensures finish.Finish? && claim.Claim? && Enabled(s, finish)
    ensures var s1 := Apply(s, lockTimeout, finish);
            s1.execs == map[] && Enabled(s1, claim) && InFlight(Apply(s1, lockTimeout, claim), max, failures + 1, 0)
  {
    finish := Finish(0, 0, Error("e", false), true);
    var s1 := Apply(s, lockTimeout, finish);
    assert s1.execs == map[];
    claim := Claim(0, 1, s1.rows[7].runAt, {});
    ClaimsTheRow(s1, lockTimeout, s1.rows[7].runAt);
  }

  /** A crashed execution is reclaimed once its lease is stale. */
  lemma CrashAndClaim(lockTimeout: int, s: State, max: int, failures: nat, reclaims: nat) returns (claim: Step)
    requires InFlight(s, max, failures, reclaims)
    ensures claim.Claim? && Enabled(s, Crash(0))
    ensures var s1 := Apply(s, lockTimeout, Crash(0));
            s1.execs == map[] && Enabled(s1, claim) &&
              InFlight(Apply(s1, lockTimeout, claim), max, failures, reclaims + 1)
  {
    var s1 := Apply(s, lockTimeout, Crash(0));
    assert s1.execs == map[];
    var late := s1.rows[7].lockedAt.value + lockTimeout + 1;
    claim := Claim(0, 1, late, {});
    ClaimsTheRow(s1, lockTimeout, late);
  }

  lemma {:induction false} FailuresHappen(lockTimeout: int, max: int, failures: nat) returns (steps: seq<Step>)
    requires failures < max
    ensures Run(lockTimeout, steps).Some? && OneLeaseRun(lockTimeout, steps)
    ensures InFlight(Run(lockTimeout, steps).value, max, failures, 0)
  {
    if failures == 0 {
      steps := FirstClaim(lockTimeout, max);
    } else {
      steps := FailuresHappen(lockTimeout, max, failures - 1);
      var finish, claim := FailAndClaim(lockTimeout, Run(lockTimeout, steps).value, max, failures - 1);
      LeaseSnoc(lockTimeout, steps, finish);
      LeaseSnoc(lockTimeout, steps + [finish], claim);
      steps := steps + [finish] + [claim];
    }
  }

  /** The bound on attempts is sharp: every max_attempts and every number of reclaims
      has a run, even one in which no worker id holds a job twice, that attains it. */
  lemma {:induction false} BudgetIsAttained(lockTimeout: int, max: int, reclaims: nat) returns (steps: seq<Step>)
    requires max >= 1
    ensures Run(lockTimeout, steps).Some? && OneLeaseRun(lockTimeout, steps)
    ensures var s := Run(lockTimeout, steps).value;
            && 7 in s.rows && 7 in s.history && s.rows[7].maxAttempts == max && s.history[7].reclaims == reclaims
            && s.rows[7].attempts == max + reclaims
  {
    steps := CrashesHappen(lockTimeout, max, reclaims);
  }

  lemma {:induction false} CrashesHappen(lockTimeout: int, max: int, reclaims: nat) returns (steps: seq<Step>)
    requires max >= 1
    ensures Run(lockTimeout, steps).Some? && OneLeaseRun(lockTimeout, steps)
    ensures InFlight(Run(lockTimeout, steps).value, max, max - 1, reclaims)
  {
    if reclaims == 0 {
      steps := FailuresHappen(lockTimeout, max, max - 1);
    } else {
      steps := CrashesHappen(lockTimeout, max, reclaims - 1);
      var claim := CrashAndClaim(lockTimeout, Run(lockTimeout, steps).value, max, max - 1, reclaims - 1);
      LeaseSnoc(lockTimeout, steps, Crash(0));
      LeaseSnoc(lockTimeout, steps + [Crash(0)], claim);
      steps := steps + [Crash(0)] + [claim];
    }
  }
}
