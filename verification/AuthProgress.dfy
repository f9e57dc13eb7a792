/** What a transaction of the token protocol can wait for: a row that another one holds,
    and nothing else. Together with the checks that refuse it, that is exactly when each
    of its statements is possible. */
module AuthProgress {
  import opened Wrappers
  import opened AuthTokens
  import opened AuthInvariant
  import opened AuthSafety

  /** Another open transaction holds the row of the user. */
  predicate UserHeld(s: State, x: TxnId, u: UserId) {
    exists y :: y in s.txns && y != x && s.txns[y].locked && s.txns[y].user == u
  }

  /** Another open transaction has written the token. */
  predicate TokenHeld(s: State, x: TxnId, k: TokenId) {
    exists y :: y in s.txns && y != x && k in s.txns[y].writes
  }

  /** Which phases each kind of transaction goes through. */
  predicate PhaseFits(t: Txn) {
    match t.phase
    case Opened => t.op != Signup
    case Clocked => t.op == Forgot
    case Locked => t.op == Signup || t.op == Resend
    case Checked => t.op == Resend
    case Consumed => !Issues(t.op)
    case Marked => t.op == AuthTokens.VerifyEmail
    case Done => true
    case _ => Issues(t.op)
  }

  lemma {:induction false} PhasesFit(cooldown: int, steps: seq<Step>, x: TxnId)
    requires Run(cooldown, steps).Some? && x in Run(cooldown, steps).value.txns
    ensures PhaseFits(Run(cooldown, steps).value.txns[x])
    decreases |steps|
  {
    if steps != [] {
      var front, step := steps[..|steps| - 1], steps[|steps| - 1];
      if x in Run(cooldown, front).value.txns {
        PhasesFit(cooldown, front, x);
      }
      StepFits(Run(cooldown, front).value, cooldown, step, x);
    }
  }

  lemma StepFits(s: State, cooldown: int, step: Step, x: TxnId)
    requires Enabled(s, cooldown, step) && (x in s.txns ==> PhaseFits(s.txns[x]))
    ensures x in Apply(s, cooldown, step).txns ==> PhaseFits(Apply(s, cooldown, step).txns[x])
  {
  }

  /** A transaction that issues a token proceeds in every reachable state, except that
      it waits for the row of its user and for the rows it retires, and that it ends if
      there is no such user, if the user is verified, or within the cool-down. */
  lemma IssuingProceeds(cooldown: int, steps: seq<Step>, x: TxnId)
    requires Run(cooldown, steps).Some? && x in Run(cooldown, steps).value.txns
    requires Issues(Run(cooldown, steps).value.txns[x].op)
    ensures var s := Run(cooldown, steps).value;
            var t := s.txns[x];
            && Enabled(s, cooldown, Abort(x))
            && match t.phase
               case Opened =>
                 if t.op == Forgot then Enabled(s, cooldown, Stamp(x))
                 else Enabled(s, cooldown, LockUser(x)) <==>
                      t.user in s.db.users && s.db.users[t.user].verifiedAt == None && !UserHeld(s, x, t.user)
               case Clocked => Enabled(s, cooldown, LockUser(x)) <==> t.user in s.db.users && !UserHeld(s, x, t.user)
               case Locked =>
                 if t.op == Signup then Enabled(s, cooldown, Stamp(x))
                 else Enabled(s, cooldown, CheckCooldown(x)) <==>
                      forall k :: k in s.db.tokens && s.db.tokens[k].slot == Slot(t.user, AuthTokens.Verification) ==>
                        s.clock - s.db.tokens[k].createdAt >= cooldown
               case Checked => Enabled(s, cooldown, Stamp(x))
               case Stamped => Enabled(s, cooldown, RetireStart(x))
               case Retiring =>
                 && (forall k :: k in t.pending ==> (Enabled(s, cooldown, RetireOne(x, k)) <==> !TokenHeld(s, x, k)))
                 && (t.pending == {} ==> forall k, at :: NewToken(s, k) ==> Enabled(s, cooldown, InsertToken(x, k, at)))
               case Inserted => Enabled(s, cooldown, EnqueueTokenMail(x))
               case _ => t.phase == Done && Enabled(s, cooldown, Commit(x))
  {
    PhasesFit(cooldown, steps, x);
  }

  /** One that consumes a token waits for the row of the token, and ends unless the token
      is of its kind, unconsumed and not expired. */
  lemma ConsumingStarts(s: State, cooldown: int, x: TxnId, at: int)
    requires x in s.txns && !Issues(s.txns[x].op) && s.txns[x].phase == Opened && at <= s.clock
    ensures var t := s.txns[x];
            Enabled(s, cooldown, ConsumeToken(x, at)) <==>
              && t.token in s.db.tokens && !TokenHeld(s, x, t.token)
              && var k := s.db.tokens[t.token];
                 && k.consumedAt == None && at < k.expiresAt
                 && k.slot.kind ==
                    (if t.op == AuthTokens.VerifyEmail then AuthTokens.Verification else AuthTokens.Reset)
  {
  }

  /** Then it proceeds, except that it waits for the row of the user to change it. */
  lemma ConsumingProceeds(cooldown: int, steps: seq<Step>, x: TxnId, at: int, password: int)
    requires Run(cooldown, steps).Some? && x in Run(cooldown, steps).value.txns
    requires !Issues(Run(cooldown, steps).value.txns[x].op) && Run(cooldown, steps).value.txns[x].phase != Opened
    ensures var s := Run(cooldown, steps).value;
            var t := s.txns[x];
            && Enabled(s, cooldown, Abort(x)) && t.user in s.db.users
            && match t.phase
               case Consumed =>
                 if t.op == AuthTokens.VerifyEmail
                 then Enabled(s, cooldown, MarkVerified(x, at)) <==>
                      s.db.users[t.user].verifiedAt != None || !UserHeld(s, x, t.user)
                 else Enabled(s, cooldown, SetPassword(x, password)) <==> !UserHeld(s, x, t.user)
               case Marked => Enabled(s, cooldown, EnqueueWelcome(x))
               case _ => t.phase == Done && Enabled(s, cooldown, Commit(x))
  {
    PhasesFit(cooldown, steps, x);
    RunKeeps(cooldown, steps);
    ConsumerProceeds(Run(cooldown, steps).value, cooldown, x, at, password);
  }

  lemma ConsumerProceeds(s: State, cooldown: int, x: TxnId, at: int, password: int)
    requires x in s.txns && !Issues(s.txns[x].op) && PhaseFits(s.txns[x]) && s.txns[x].phase != Opened
    requires TxnOk(s.db, cooldown, s.clock, s.txns[x])
    ensures var t := s.txns[x];
            && Enabled(s, cooldown, Abort(x)) && t.user in s.db.users
            && match t.phase
               case Consumed =>
                 if t.op == AuthTokens.VerifyEmail
                 then Enabled(s, cooldown, MarkVerified(x, at)) <==>
                      s.db.users[t.user].verifiedAt != None || !UserHeld(s, x, t.user)
                 else Enabled(s, cooldown, SetPassword(x, password)) <==> !UserHeld(s, x, t.user)
               case Marked => Enabled(s, cooldown, EnqueueWelcome(x))
               case _ => t.phase == Done && Enabled(s, cooldown, Commit(x))
  {
  }

  /** Any transaction can begin at any time beside those that are open, and time can
      pass between any two statements. */
  lemma AnyoneBegins(s: State, cooldown: int, x: TxnId, op: Op, u: UserId, k: TokenId, password: int, elapsed: nat)
    requires x !in s.txns
    ensures (op == Resend || op == Forgot) ==> Enabled(s, cooldown, BeginIssue(x, op, u))
    ensures !Issues(op) ==> Enabled(s, cooldown, BeginConsume(x, op, k))
    ensures NewUser(s, u) ==> Enabled(s, cooldown, BeginSignup(x, u, password))
    ensures Enabled(s, cooldown, Tick(elapsed))
  {
  }
}
