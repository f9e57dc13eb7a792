/** What every interleaving of the token transactions keeps. */
module AuthInvariant {
  import opened Wrappers
  import opened AuthTokens

  // ----- the committed rows -----

  ghost predicate UsersExist(db: Db) {
    forall k :: k in db.tokens ==> db.tokens[k].slot.user in db.users
  }

  /** The issued lists hold exactly the committed tokens. */
  ghost predicate IssuedExact(db: Db) {
    forall s, k :: Listed(db, s, k)
  }

  ghost predicate Listed(db: Db, s: Slot, k: TokenId) {
    k in IssuedTo(db, s) <==> k in db.tokens && db.tokens[k].slot == s
  }

  /** An unconsumed token is the last one its slot was issued. */
  ghost predicate LastIsLive(db: Db) {
    forall k :: k in db.tokens && db.tokens[k].consumedAt == None ==> IsLast(IssuedTo(db, db.tokens[k].slot), k)
  }

  ghost predicate IsLast(all: seq<TokenId>, k: TokenId) {
    all != [] && all[|all| - 1] == k
  }

  ghost function One(b: bool): nat {
    if b then 1 else 0
  }

  ghost predicate Used(db: Db, k: TokenId) {
    k in db.tokens && db.tokens[k].consumedAt != None
  }

  /** Every consumed token was either spent once or retired once, no other ever was. */
  ghost predicate Accounted(db: Db) {
    forall k :: db.spent[k] + db.retired[k] == One(Used(db, k))
  }

  /** A spent token was consumed before it expired. */
  ghost predicate SpentInTime(db: Db) {
    forall k :: k in db.tokens && db.spent[k] > 0 ==> InTime(db.tokens[k])
  }

  ghost predicate InTime(token: Token) {
    token.consumedAt.Some? && token.consumedAt.value < token.expiresAt
  }

  ghost predicate Verified(db: Db, u: UserId) {
    u in db.users && db.users[u].verifiedAt != None
  }

  ghost function Due(db: Db, mail: Mail): nat {
    match mail
    case TokenMail(kind, k) => One(k in db.tokens && db.tokens[k].slot.kind == kind)
    case Welcome(u) => One(Verified(db, u))
  }

  /** The outbox holds one mail per committed token, one welcome per verified user, and
      nothing else. */
  ghost predicate OutboxExact(db: Db) {
    forall mail :: db.outbox[mail] == Due(db, mail)
  }

  ghost predicate SpentFor(db: Db, u: UserId, k: TokenId) {
    k in db.tokens && db.tokens[k].slot == Slot(u, AuthTokens.Verification) && db.spent[k] == 1
  }

  ghost predicate VerifiedBySpending(db: Db) {
    forall u :: Verified(db, u) <==> exists k :: k in db.tokens && SpentFor(db, u, k)
  }

  /** Verification tokens of a user, in the order issued, are a cool-down apart. */
  ghost predicate Spaced(db: Db, cooldown: int) {
    forall u :: SpacedOut(db, cooldown, IssuedTo(db, Slot(u, AuthTokens.Verification)))
  }

  ghost predicate SpacedOut(db: Db, cooldown: int, all: seq<TokenId>) {
    forall i, j :: 0 <= i < j < |all| && all[i] in db.tokens && all[j] in db.tokens ==>
      db.tokens[all[j]].createdAt - db.tokens[all[i]].createdAt >= cooldown
  }

  ghost predicate DbOk(db: Db, cooldown: int) {
    && UsersExist(db) && IssuedExact(db) && LastIsLive(db) && Accounted(db)
    && SpentInTime(db) && OutboxExact(db) && VerifiedBySpending(db) && Spaced(db, cooldown)
  }

  // ----- an open transaction -----

  /** A committed, unconsumed row of the slot, rewritten as consumed. */
  ghost predicate Retired(db: Db, slot: Slot, k: TokenId, row: Token) {
    Live(db, slot, k) && row.consumedAt.Some? && row == Consume(db.tokens[k], row.consumedAt.value)
  }

  ghost predicate LiveWithin(db: Db, slot: Slot, keys: set<TokenId>) {
    forall k :: k in db.tokens && Live(db, slot, k) ==> k in keys
  }

  ghost predicate HasInserted(t: Txn) {
    t.phase == Inserted || t.phase == Done
  }

  ghost predicate IssueOk(db: Db, cooldown: int, clock: int, t: Txn) {
    var slot := SlotOf(t);
    && t.phase !in {Consumed, Marked} && (t.phase == Clocked ==> t.op == Forgot) && t.now <= clock
    && (t.locked <==> t.phase != Opened && t.phase != Clocked)
    && (if t.op == Signup then t.locked && t.user !in db.users && t.row.Some? && t.row.value.verifiedAt == None
        else t.row == None && (t.locked ==> t.user in db.users))
    && (t.op == Resend && t.phase != Opened && t.phase != Locked ==> CooledDown(db, cooldown, t.user, t.now))
    && (t.phase != Retiring && !HasInserted(t) ==> t.writes == map[])
    && (t.phase == Retiring ==> LiveWithin(db, slot, t.pending + t.writes.Keys))
    && (forall k :: k in t.writes && !(HasInserted(t) && k == t.token) ==> Retired(db, slot, k, t.writes[k]))
    && (HasInserted(t) ==> LiveWithin(db, slot, t.writes.Keys) && OwnToken(db, t))
    && t.mails == if t.phase == Done then multiset{TokenMail(KindOf(t.op), t.token)} else multiset{}
  }

  ghost predicate OwnToken(db: Db, t: Txn) {
    && t.token in t.writes && t.token !in db.tokens
    && t.writes[t.token].slot == SlotOf(t) && t.writes[t.token].createdAt == t.now
    && t.writes[t.token].consumedAt == None
  }

  ghost predicate ConsumeOk(db: Db, t: Txn) {
    && t.phase in {Opened, Consumed, Marked, Done}
    && (t.phase == Opened ==> t.writes == map[] && t.row == None && t.mails == multiset{} && !t.locked)
    && (t.phase != Opened ==>
          && t.writes.Keys == {t.token} && Retired(db, SlotOf(t), t.token, t.writes[t.token])
          && InTime(t.writes[t.token])
          && t.user in db.users && RowOk(db.users[t.user], t))
  }

  /** The effect that goes with the token: verified for the first time, with a welcome
      mail; verified before; or a new password. */
  ghost predicate RowOk(user: User, t: Txn) {
    match t.phase
    case Consumed => t.row == None && t.mails == multiset{} && !t.locked
    case Marked => t.op == VerifyEmail && FirstTime(user, t) && t.mails == multiset{}
    case Done =>
      if t.op == ResetPassword
      then t.locked && t.row.Some? && t.row.value.verifiedAt == user.verifiedAt && t.mails == multiset{}
      else if t.row.Some? then FirstTime(user, t) && t.mails == multiset{Welcome(t.user)}
      else user.verifiedAt != None && t.mails == multiset{}
    case _ => true
  }

  ghost predicate FirstTime(user: User, t: Txn) {
    t.locked && user.verifiedAt == None && t.row.Some? && t.row.value.verifiedAt != None
  }

  ghost predicate TxnOk(db: Db, cooldown: int, clock: int, t: Txn) {
    if Issues(t.op) then IssueOk(db, cooldown, clock, t) else ConsumeOk(db, t)
  }

  /** No two open transactions hold one row. */
  ghost predicate Disjoint(t: Txn, o: Txn) {
    t.writes.Keys !! o.writes.Keys && !(t.locked && o.locked && t.user == o.user)
  }

  ghost predicate Inv(s: State, cooldown: int) {
    && DbOk(s.db, cooldown)
    && (forall x :: x in s.txns ==> TxnOk(s.db, cooldown, s.clock, s.txns[x]))
    && (forall x, y :: x in s.txns && y in s.txns && x != y ==> Disjoint(s.txns[x], s.txns[y]))
  }

  // ----- statements -----

  /** One statement of x: its transaction stays well-formed and apart from the others. */
  ghost predicate Fits(s: State, cooldown: int, x: TxnId, t: Txn) {
    TxnOk(s.db, cooldown, s.clock, t) && forall y :: y in s.txns && y != x ==> Disjoint(t, s.txns[y])
  }

  lemma WithKeeps(s: State, cooldown: int, x: TxnId, t: Txn)
    requires Inv(s, cooldown) && Fits(s, cooldown, x, t)
    ensures Inv(With(s, x, t), cooldown)
  {
  }

  lemma LockFits(s: State, cooldown: int, x: TxnId)
    requires Inv(s, cooldown) && x in s.txns && CanLock(s, x)
    ensures Fits(s, cooldown, x, AfterLock(s.txns[x]))
  {
  }

  lemma PhaseFits(s: State, cooldown: int, x: TxnId, step: Step)
    requires Inv(s, cooldown) && Enabled(s, cooldown, step) && (step == CheckCooldown(x) || step == Stamp(x))
    ensures Fits(s, cooldown, x, Apply(s, cooldown, step).txns[x])
  {
  }

  lemma RetireFits(s: State, cooldown: int, x: TxnId)
    requires Inv(s, cooldown) && x in s.txns && s.txns[x].phase == Stamped
    ensures Fits(s, cooldown, x, Retire(s.txns[x], s.db))
  {
  }

  lemma RetireRowFits(s: State, cooldown: int, x: TxnId, k: TokenId)
    requires Inv(s, cooldown) && Enabled(s, cooldown, RetireOne(x, k))
    ensures Fits(s, cooldown, x, RetireRow(s.txns[x], s.db, k))
  {
  }

  lemma InsertFits(s: State, cooldown: int, x: TxnId, k: TokenId, expiresAt: int)
    requires Inv(s, cooldown) && Enabled(s, cooldown, InsertToken(x, k, expiresAt))
    ensures Fits(s, cooldown, x, Insert(s.txns[x], k, expiresAt))
  {
  }

  lemma PostFits(s: State, cooldown: int, x: TxnId, step: Step)
    requires Inv(s, cooldown) && Enabled(s, cooldown, step) &&
               (step == EnqueueTokenMail(x) || step == EnqueueWelcome(x))
    ensures Fits(s, cooldown, x, Apply(s, cooldown, step).txns[x])
  {
  }

  lemma ConsumeFits(s: State, cooldown: int, x: TxnId, at: int)
    requires Inv(s, cooldown) && x in s.txns && CanConsume(s, x, at)
    ensures Fits(s, cooldown, x, AfterConsume(s.txns[x], s.db, at))
  {
  }

  lemma RowFits(s: State, cooldown: int, x: TxnId, step: Step)
    requires Inv(s, cooldown) && Enabled(s, cooldown, step)
    requires (step.MarkVerified? || step.SetPassword?) && step.x == x
    ensures Fits(s, cooldown, x, Apply(s, cooldown, step).txns[x])
  {
  }

  lemma BeginFits(s: State, cooldown: int, x: TxnId, step: Step)
    requires Inv(s, cooldown) && Enabled(s, cooldown, step)
    requires (step.BeginSignup? || step.BeginIssue? || step.BeginConsume?) && step.x == x
    ensures Fits(s, cooldown, x, Apply(s, cooldown, step).txns[x])
  {
  }
}
