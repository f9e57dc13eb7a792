/** Token safety in every interleaving of signups, resends, reset requests,
    verifications and resets, with aborts at any point. */
module AuthSafety {
  import opened Wrappers
  import opened AuthTokens
  import opened AuthInvariant
  import opened AuthCommit

  lemma IssuingStepKeeps(s: State, cooldown: int, step: Step)
    requires Inv(s, cooldown) && Enabled(s, cooldown, step)
    requires step.LockUser? || step.CheckCooldown? || step.Stamp? || step.RetireStart? || step.RetireOne? ||
               step.InsertToken?
    ensures Inv(Apply(s, cooldown, step), cooldown)
  {
    match step
    case LockUser(x) =>
      LockFits(s, cooldown, x);
      WithKeeps(s, cooldown, x, AfterLock(s.txns[x]));
    case CheckCooldown(x) =>
      PhaseFits(s, cooldown, x, step);
      WithKeeps(s, cooldown, x, AtPhase(s.txns[x], Checked, s.clock));
    case Stamp(x) =>
      PhaseFits(s, cooldown, x, step);
      WithKeeps(s, cooldown, x, Apply(s, cooldown, step).txns[x]);
    case RetireStart(x) =>
      RetireFits(s, cooldown, x);
      WithKeeps(s, cooldown, x, Retire(s.txns[x], s.db));
    case RetireOne(x, k) =>
      RetireRowFits(s, cooldown, x, k);
      WithKeeps(s, cooldown, x, RetireRow(s.txns[x], s.db, k));
    case InsertToken(x, k, expiresAt) =>
      InsertFits(s, cooldown, x, k, expiresAt);
      WithKeeps(s, cooldown, x, Insert(s.txns[x], k, expiresAt));
  }

  lemma EffectStepKeeps(s: State, cooldown: int, step: Step)
    requires Inv(s, cooldown) && Enabled(s, cooldown, step)
    requires step.EnqueueTokenMail? || step.EnqueueWelcome? || step.ConsumeToken? || step.MarkVerified? ||
               step.SetPassword?
    ensures Inv(Apply(s, cooldown, step), cooldown)
  {
    match step
    case EnqueueTokenMail(x) =>
      PostFits(s, cooldown, x, step);
      WithKeeps(s, cooldown, x, Apply(s, cooldown, step).txns[x]);
    case EnqueueWelcome(x) =>
      PostFits(s, cooldown, x, step);
      WithKeeps(s, cooldown, x, Apply(s, cooldown, step).txns[x]);
    case ConsumeToken(x, at) =>
      ConsumeFits(s, cooldown, x, at);
      WithKeeps(s, cooldown, x, AfterConsume(s.txns[x], s.db, at));
    case MarkVerified(x, _) =>
      RowFits(s, cooldown, x, step);
      WithKeeps(s, cooldown, x, Apply(s, cooldown, step).txns[x]);
    case SetPassword(x, _) =>
      RowFits(s, cooldown, x, step);
      WithKeeps(s, cooldown, x, Apply(s, cooldown, step).txns[x]);
  }

  lemma BeginKeeps(s: State, cooldown: int, step: Step)
    requires Inv(s, cooldown) && Enabled(s, cooldown, step)
    requires step.BeginSignup? || step.BeginIssue? || step.BeginConsume?
    ensures Inv(Apply(s, cooldown, step), cooldown)
  {
    BeginFits(s, cooldown, step.x, step);
    WithKeeps(s, cooldown, step.x, Apply(s, cooldown, step).txns[step.x]);
  }

  lemma StepKeeps(s: State, cooldown: int, step: Step)
    requires Inv(s, cooldown) && Enabled(s, cooldown, step)
    ensures Inv(Apply(s, cooldown, step), cooldown)
  {
    if step.Tick? {
      TickKeeps(s, cooldown, step);
    } else if step.Commit? {
      CommitKeeps(s, cooldown, step.x);
    } else if step.BeginSignup? || step.BeginIssue? || step.BeginConsume? {
      BeginKeeps(s, cooldown, step);
    } else if step.EnqueueTokenMail? || step.EnqueueWelcome? || step.ConsumeToken? || step.MarkVerified? ||
      step.SetPassword? {
      EffectStepKeeps(s, cooldown, step);
    } else if !step.Abort? {
      IssuingStepKeeps(s, cooldown, step);
    }
  }

  lemma TickKeeps(s: State, cooldown: int, step: Step)
    requires Inv(s, cooldown) && step.Tick?
    ensures Inv(Apply(s, cooldown, step), cooldown)
  {
  }

  lemma CommitKeeps(s: State, cooldown: int, x: TxnId)
    requires Inv(s, cooldown) && x in s.txns && s.txns[x].phase == Done
    ensures Inv(Apply(s, cooldown, Commit(x)), cooldown)
  {
    var t, s' := s.txns[x], Apply(s, cooldown, Commit(x));
    assert TxnOk(s.db, cooldown, s.clock, t);
    CommitKeepsDb(s.db, cooldown, s.clock, t);
    forall y | y in s'.txns ensures TxnOk(s'.db, cooldown, s'.clock, s'.txns[y]) {
      assert TxnOk(s.db, cooldown, s.clock, s.txns[y]) && Disjoint(t, s.txns[y]);
      if Issues(s.txns[y].op) {
        CommitKeepsIssuing(s.db, cooldown, s.clock, t, s.txns[y]);
      } else {
        CommitKeepsConsuming(s.db, cooldown, s.clock, t, s.txns[y]);
      }
    }
  }

  lemma {:induction false} RunKeeps(cooldown: int, steps: seq<Step>)
    requires Run(cooldown, steps).Some?
    ensures Inv(Run(cooldown, steps).value, cooldown)
    decreases |steps|
  {
    if steps != [] {
      RunKeeps(cooldown, steps[..|steps| - 1]);
      StepKeeps(Run(cooldown, steps[..|steps| - 1]).value, cooldown, steps[|steps| - 1]);
    } else {
      StartIsFine(cooldown);
    }
  }

  lemma StartIsFine(cooldown: int)
    ensures Inv(START, cooldown)
  {
  }

  // ----- the guarantees -----

  /** Each user has at most one committed unconsumed token per kind, and it is the last
      one issued, in commit order. */
  lemma OneLiveToken(cooldown: int, steps: seq<Step>, a: TokenId, b: TokenId)
    requires Run(cooldown, steps).Some?
    ensures var db := Run(cooldown, steps).value.db;
            a in db.tokens && Live(db, db.tokens[a].slot, a) ==>
              && IsLast(IssuedTo(db, db.tokens[a].slot), a)
              && (Live(db, db.tokens[a].slot, b) ==> a == b)
  {
    RunKeeps(cooldown, steps);
  }

  /** A token is spent or retired by at most one committed transaction, never both, and
      only a consumed one was. */
  lemma SingleUse(cooldown: int, steps: seq<Step>, k: TokenId)
    requires Run(cooldown, steps).Some?
    ensures var db := Run(cooldown, steps).value.db;
            db.spent[k] + db.retired[k] == (if k in db.tokens && db.tokens[k].consumedAt != None then 1 else 0)
  {
    RunKeeps(cooldown, steps);
  }

  /** No token is ever spent at or after its expiry. */
  lemma SpentBeforeExpiry(cooldown: int, steps: seq<Step>, k: TokenId)
    requires Run(cooldown, steps).Some?
    ensures var db := Run(cooldown, steps).value.db;
            db.spent[k] > 0 ==>
              k in db.tokens && db.tokens[k].consumedAt.Some? && db.tokens[k].consumedAt.value < db.tokens[k].expiresAt
  {
    RunKeeps(cooldown, steps);
    var db := Run(cooldown, steps).value.db;
    assert db.spent[k] + db.retired[k] == One(Used(db, k));
    assert k in db.tokens && db.spent[k] > 0 ==> InTime(db.tokens[k]);
  }

  /** What was spent or retired stays so, whatever happens next. */
  lemma UsedStaysUsed(cooldown: int, steps: seq<Step>, step: Step, k: TokenId)
    requires Run(cooldown, steps).Some? && Enabled(Run(cooldown, steps).value, cooldown, step)
    requires Used(Run(cooldown, steps).value.db, k)
    ensures var before, after := Run(cooldown, steps).value.db, Apply(Run(cooldown, steps).value, cooldown, step).db;
            Used(after, k) && after.tokens[k] == before.tokens[k] && after.spent[k] == before.spent[k] &&
              after.retired[k] == before.retired[k]
  {
    RunKeeps(cooldown, steps);
    var s := Run(cooldown, steps).value;
    StepKeeps(s, cooldown, step);
    if step.Commit? {
      assert TxnOk(s.db, cooldown, s.clock, s.txns[step.x]);
      CommittedToken(s.db, cooldown, s.clock, s.txns[step.x], k);
      assert Accounted(s.db) && Accounted(Apply(s, cooldown, step).db);
      assert s.db.spent[k] + s.db.retired[k] == One(Used(s.db, k));
      assert Apply(s, cooldown, step).db.spent[k] + Apply(s, cooldown, step).db.retired[k] == 1;
    }
  }

  /** One mail per committed token, of its kind; one welcome mail per verified user. */
  lemma OutboxIsExact(cooldown: int, steps: seq<Step>, mail: Mail)
    requires Run(cooldown, steps).Some?
    ensures var db := Run(cooldown, steps).value.db;
            db.outbox[mail] == match mail
              case TokenMail(kind, k) => if k in db.tokens && db.tokens[k].slot.kind == kind then 1 else 0
              case Welcome(u) => if u in db.users && db.users[u].verifiedAt != None then 1 else 0
  {
    RunKeeps(cooldown, steps);
    var db := Run(cooldown, steps).value.db;
    assert db.outbox[mail] == Due(db, mail);
  }

  /** A user is verified exactly if one of their verification tokens was spent. */
  lemma VerifiedMeansSpent(cooldown: int, steps: seq<Step>, u: UserId)
    requires Run(cooldown, steps).Some?
    ensures var db := Run(cooldown, steps).value.db;
            (u in db.users && db.users[u].verifiedAt != None)
            <==> exists k :: k in db.tokens && SpentFor(db, u, k)
  {
    RunKeeps(cooldown, steps);
    var db := Run(cooldown, steps).value.db;
    assert Verified(db, u) <==> exists k :: k in db.tokens && SpentFor(db, u, k);
  }

  /** A reset request that ran all its statements on these committed rows. */
  function RequestedOn(db: Db, u: UserId, now: int, k: TokenId, expiresAt: int): Txn {
    var locked := AfterLock(Txn(Forgot, u, Clocked, false, now, {}, 0, map[], None, multiset{}));
    Post(Insert(Retire(locked, db), k, expiresAt), TokenMail(AuthTokens.Reset, k))
  }

  /** Why the user row has to stay locked from retiring to committing: two reset requests
      that are each fine alone, but ran side by side, leave two live tokens. */
  lemma WithoutTheUserLock(db: Db, cooldown: int, u: UserId, now: int, a: TokenId, b: TokenId, expiresAt: int)
    requires DbOk(db, cooldown) && u in db.users && a != b && a !in db.tokens && b !in db.tokens
    requires forall k :: !Live(db, Slot(u, AuthTokens.Reset), k)
    ensures var t, o := RequestedOn(db, u, now, a, expiresAt), RequestedOn(db, u, now, b, expiresAt);
            var both := Committed(Committed(db, t), o);
            && TxnOk(db, cooldown, now, t) && TxnOk(db, cooldown, now, o) && !Disjoint(t, o)
            && Live(both, Slot(u, AuthTokens.Reset), a) && Live(both, Slot(u, AuthTokens.Reset), b) && !LastIsLive(both)
  {
  }

  // ----- resend throttling -----

  function CreatedAt(db: Db, k: TokenId): int {
    if k in db.tokens then db.tokens[k].createdAt else 0
  }

  /** The times of a user's verification tokens, in the order issued. */
  function IssueTimes(db: Db, u: UserId): (r: seq<int>)
    ensures |r| == |IssuedTo(db, Slot(u, AuthTokens.Verification))|
  {
    var all := IssuedTo(db, Slot(u, AuthTokens.Verification));
    seq(|all|, i requires 0 <= i < |all| => CreatedAt(db, all[i]))
  }

  ghost predicate TimesApart(times: seq<int>, cooldown: int) {
    forall i, j :: 0 <= i < j < |times| ==> times[j] - times[i] >= cooldown
  }

  /** How many of the times lie in the closed span from a to b. */
  function CountIn(times: seq<int>, a: int, b: int): nat {
    if times == [] then 0
    else CountIn(times[..|times| - 1], a, b) + if a <= times[|times| - 1] <= b then 1 else 0
  }

  /** The least time between the first and the last of c times that are a cool-down
      apart. */
  function Reach(c: nat, cooldown: int): int {
    if c <= 1 then 0 else Reach(c - 1, cooldown) + cooldown
  }

  lemma {:induction false} SpanHolds(times: seq<int>, cooldown: int, a: int, b: int)
    requires TimesApart(times, cooldown)
    ensures CountIn(times, a, b) > 0 ==>
              exists m :: 0 <= m < |times| && a + Reach(CountIn(times, a, b), cooldown) <= times[m] <= b
    decreases |times|
  {
    if times != [] {
      var n := |times| - 1;
      SpanHolds(times[..n], cooldown, a, b);
      var c := CountIn(times[..n], a, b);
      if c > 0 {
        var m :| 0 <= m < n && a + Reach(c, cooldown) <= times[..n][m] <= b;
        assert times[n] - times[m] >= cooldown;
      }
    }
  }

  /** So it takes more than q cool-downs to fit q + 2 of them. */
  lemma {:induction false} ReachIsLong(c: nat, cooldown: int, q: nat)
    requires cooldown >= 1 && c >= q + 2
    ensures Reach(c, cooldown) >= (q + 1) * cooldown
    decreases q
  {
    ReachGrows(c, cooldown);
    if q > 0 {
      ReachIsLong(c - 1, cooldown, q - 1);
    }
  }

  lemma {:induction false} ReachGrows(c: nat, cooldown: int)
    requires cooldown >= 1 && c >= 2
    ensures Reach(c, cooldown) >= Reach(c - 1, cooldown) + cooldown >= cooldown
    decreases c
  {
    if c > 2 {
      ReachGrows(c - 1, cooldown);
    }
  }

  lemma SpanBound(times: seq<int>, cooldown: int, a: int, b: int)
    requires TimesApart(times, cooldown) && cooldown >= 1 && a <= b
    ensures CountIn(times, a, b) <= (b - a) / cooldown + 1
  {
    SpanHolds(times, cooldown, a, b);
    var c, q: nat := CountIn(times, a, b), (b - a) / cooldown;
    Quotient(b - a, cooldown);
    if c >= q + 2 {
      ReachIsLong(c, cooldown, q);
      assert false;
    }
  }

  lemma Quotient(n: int, d: int)
    requires d >= 1
    ensures n < (n / d + 1) * d
  {
  }

  /** Any two verification tokens of a user were created a cool-down apart, so a closed
      span of length b - a holds at most (b - a) / cooldown + 1 of them. */
  lemma ResendsAreThrottled(cooldown: int, steps: seq<Step>, u: UserId, a: int, b: int)
    requires Run(cooldown, steps).Some? && cooldown >= 1 && a <= b
    ensures var times := IssueTimes(Run(cooldown, steps).value.db, u);
            TimesApart(times, cooldown) && CountIn(times, a, b) <= (b - a) / cooldown + 1
  {
    RunKeeps(cooldown, steps);
    var db := Run(cooldown, steps).value.db;
    TimesAreApart(db, cooldown, u);
    SpanBound(IssueTimes(db, u), cooldown, a, b);
  }

  lemma TimesAreApart(db: Db, cooldown: int, u: UserId)
    requires IssuedExact(db) && Spaced(db, cooldown)
    ensures TimesApart(IssueTimes(db, u), cooldown)
  {
    var slot := Slot(u, AuthTokens.Verification);
    var all := IssuedTo(db, slot);
    assert SpacedOut(db, cooldown, all);
    forall i, j | 0 <= i < j < |all| ensures IssueTimes(db, u)[j] - IssueTimes(db, u)[i] >= cooldown {
      assert all[i] in all && all[j] in all;
      assert Listed(db, slot, all[i]) && Listed(db, slot, all[j]);
    }
  }
}
