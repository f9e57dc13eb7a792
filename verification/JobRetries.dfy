/** The life of one job whose handler always fails and which never loses its lease. */
module JobRetries {
  import opened Wrappers
  import opened JobTable

  /** One execution: who claimed it, when, when it finished, and the error. */
  datatype Round = Round(worker: WorkerId, claimedAt: int, finishedAt: int, message: string)

  /** The row after one failed execution. */
  function AfterRound(j: Job, r: Round): Job {
    var c := Claimed(j, r.worker, r.claimedAt);
    Executed(StatementFor(c.attempts, c.maxAttempts, Error(r.message, false), r.finishedAt), c)
  }

  function AfterRounds(j: Job, rounds: seq<Round>): Job {
    if rounds == [] then j
    else AfterRound(AfterRounds(j, rounds[..|rounds| - 1]), rounds[|rounds| - 1])
  }

  /** Every round claims a pending job that is due. */
  predicate Legal(j: Job, rounds: seq<Round>) {
    rounds == [] ||
    var before := AfterRounds(j, rounds[..|rounds| - 1]);
    && Legal(j, rounds[..|rounds| - 1])
    && before.status == Pending
    && before.runAt <= rounds[|rounds| - 1].claimedAt
  }

  /** The waiting time the finished rounds scheduled before the next attempt. */
  function DelayTotal(j: Job, rounds: seq<Round>): int {
    if rounds == [] then 0
    else
      var after := AfterRounds(j, rounds);
      DelayTotal(j, rounds[..|rounds| - 1])
      + if after.status == Pending then after.runAt - rounds[|rounds| - 1].finishedAt else 0
  }

  predicate Fresh(j: Job) {
    j.status == Pending && j.attempts == 0 && j.maxAttempts >= 1
  }

  function ScheduledAfter(retries: nat): int {
    Seconds(if retries <= 9 then Pow2(retries + 1) - 2 else 1022 + 600 * (retries - 9))
  }

  lemma ScheduledStep(retries: nat)
    ensures ScheduledAfter(0) == 0
    ensures ScheduledAfter(retries + 1) == ScheduledAfter(retries) + Backoff(retries + 1)
  {
    Pow2Of10();
    BackoffClosedForm(retries + 1);
    if retries + 1 <= 9 {
      Pow2Monotone(retries + 1, 9);
    } else {
      Pow2Monotone(10, retries + 1);
    }
  }

  lemma {:induction false} RoundByRound(j: Job, rounds: seq<Round>)
    requires Fresh(j) && Legal(j, rounds)
    ensures |rounds| <= j.maxAttempts
    ensures AfterRounds(j, rounds).attempts == |rounds|
    ensures AfterRounds(j, rounds).maxAttempts == j.maxAttempts
    ensures AfterRounds(j, rounds).status == if |rounds| < j.maxAttempts then Pending else Failed
    ensures DelayTotal(j, rounds) == ScheduledAfter(if |rounds| < j.maxAttempts then |rounds| else j.maxAttempts - 1)
    decreases |rounds|
  {
    if rounds == [] {
      ScheduledStep(0);
    } else {
      RoundByRound(j, rounds[..|rounds| - 1]);
      ScheduledStep(|rounds| - 1);
    }
  }

  /** A job that always fails runs exactly max_attempts times: short of that it
      can be claimed again as soon as it is due, at that point it is failed and
      cleared, and no legal run is longer. The delays scheduled in between add up
      to 2^m - 2 seconds, with every delay past the ninth capped at ten minutes. */
  lemma AlwaysFailing(j: Job, rounds: seq<Round>, next: Round)
    requires Fresh(j) && Legal(j, rounds)
    ensures |rounds| <= j.maxAttempts
    ensures |rounds| < j.maxAttempts && AfterRounds(j, rounds).runAt <= next.claimedAt ==> Legal(j, rounds + [next])
    ensures |rounds| == j.maxAttempts ==>
              var final := AfterRounds(j, rounds);
              && final.status == Failed && final.payload == None
              && DelayTotal(j, rounds) ==
                   Seconds(if j.maxAttempts <= 10 then Pow2(j.maxAttempts) - 2 else 1022 + 600 * (j.maxAttempts - 10))
  {
    RoundByRound(j, rounds);
    assert (rounds + [next])[..|rounds|] == rounds;
  }
}
