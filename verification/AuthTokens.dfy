/** Verification and reset tokens under concurrent transactions
    (internal/auth). READ COMMITTED, one statement at a time: a statement sees the
    committed rows and its own transaction's writes; a written or locked row stays
    locked until its transaction commits or aborts, and any transaction may abort at any
    time. Waiting for a lock is a statement that is not enabled yet. */
module AuthTokens {
  import opened Wrappers

  type UserId = int
  type TokenId = int
  type TxnId = int

  datatype Kind = Verification | Reset

  /** Whose token, and for what. */
  datatype Slot = Slot(user: UserId, kind: Kind)

  datatype Token = Token(slot: Slot, createdAt: int, expiresAt: int, consumedAt: Option<int>)

  datatype User = User(verifiedAt: Option<int>, password: int)

  datatype Mail = TokenMail(kind: Kind, token: TokenId) | Welcome(user: UserId)

  /** The committed rows, and three records of what committed transactions did: the
      tokens issued per slot in commit order, the tokens spent, the tokens retired. */
  datatype Db = Db(
    users: map<UserId, User>,
    tokens: map<TokenId, Token>,
    outbox: multiset<Mail>,
    issued: map<Slot, seq<TokenId>>,
    spent: multiset<TokenId>,
    retired: multiset<TokenId>)

  datatype Op = Signup | Resend | Forgot | VerifyEmail | ResetPassword

  datatype Phase = Opened | Clocked | Locked | Checked | Stamped | Retiring | Inserted | Consumed | Marked | Done

  /** An open transaction: `locked` says that it holds its user's row, `now` is the
      time it last read, `pending` the rows its retire statement has yet to visit,
      `token` the token it inserted or consumed, and `writes`, `row` and `mails` are its
      uncommitted token rows, user row and jobs. */
  datatype Txn = Txn(
    op: Op,
    user: UserId,
    phase: Phase,
    locked: bool,
    now: int,
    pending: set<TokenId>,
    token: TokenId,
    writes: map<TokenId, Token>,
    row: Option<User>,
    mails: multiset<Mail>)

  datatype State = State(db: Db, txns: map<TxnId, Txn>, clock: int)

  predicate Issues(op: Op) {
    op == Signup || op == Resend || op == Forgot
  }

  function KindOf(op: Op): Kind {
    if op == Forgot || op == ResetPassword then Reset else Verification
  }

  function SlotOf(t: Txn): Slot {
    Slot(t.user, KindOf(t.op))
  }

  function Consume(k: Token, at: int): Token {
    Token(k.slot, k.createdAt, k.expiresAt, Some(at))
  }

  predicate Live(db: Db, slot: Slot, k: TokenId) {
    k in db.tokens && db.tokens[k].slot == slot && db.tokens[k].consumedAt == None
  }

  function IssuedTo(db: Db, slot: Slot): seq<TokenId> {
    if slot in db.issued then db.issued[slot] else []
  }

  // ----- locks -----

  predicate UserFree(s: State, x: TxnId, u: UserId) {
    forall y :: y in s.txns && y != x ==> !(s.txns[y].locked && s.txns[y].user == u)
  }

  predicate TokenFree(s: State, x: TxnId, k: TokenId) {
    forall y :: y in s.txns && y != x ==> k !in s.txns[y].writes
  }

  /** An id no row has yet, committed or not. */
  predicate NewToken(s: State, k: TokenId) {
    k !in s.db.tokens && forall y :: y in s.txns ==> k !in s.txns[y].writes
  }

  predicate NewUser(s: State, u: UserId) {
    u !in s.db.users && forall y :: y in s.txns && s.txns[y].op == Signup ==> s.txns[y].user != u
  }

  // ----- statements -----

  /** Locks the user's row. For a resend the row read under the lock must be unverified. */
  predicate CanLock(s: State, x: TxnId)
    requires x in s.txns
  {
    var t := s.txns[x];
    && ((t.op == Resend && t.phase == Opened) || (t.op == Forgot && t.phase == Clocked))
    && t.user in s.db.users && UserFree(s, x, t.user)
    && (t.op == Resend ==> s.db.users[t.user].verifiedAt == None)
  }

  function AfterLock(t: Txn): Txn {
    Txn(t.op, t.user, if t.op == Resend then Locked else Stamped, true, t.now, t.pending, t.token, t.writes, t.row,
        t.mails)
  }

  /** All verification tokens of the user are at least the cool-down old. */
  predicate CooledDown(db: Db, cooldown: int, u: UserId, now: int) {
    forall k :: k in db.tokens && db.tokens[k].slot == Slot(u, Verification) ==>
      now - db.tokens[k].createdAt >= cooldown
  }

  function AtPhase(t: Txn, phase: Phase, now: int): Txn {
    Txn(t.op, t.user, phase, t.locked, now, t.pending, t.token, t.writes, t.row, t.mails)
  }

  /** Reading the time: of a resend and a signup under the lock, of a reset request
      before it. */
  predicate CanStamp(t: Txn) {
    || (t.op == Signup && t.phase == Locked)
    || (t.op == Resend && t.phase == Checked)
    || (t.op == Forgot && t.phase == Opened)
  }

  /** The rows the retire statement will visit: those its snapshot shows unconsumed. */
  function Retire(t: Txn, db: Db): Txn {
    Txn(t.op, t.user, Retiring, t.locked, t.now, (set k | k in db.tokens && Live(db, SlotOf(t), k)), t.token, t.writes,
        t.row, t.mails)
  }

  /** Visiting one row: it is updated if its committed version is still unconsumed. */
  function RetireRow(t: Txn, db: Db, k: TokenId): Txn {
    Txn(t.op, t.user, t.phase, t.locked, t.now, t.pending - {k}, t.token,
        if Live(db, SlotOf(t), k) then t.writes[k := Consume(db.tokens[k], t.now)] else t.writes, t.row, t.mails)
  }

  function Insert(t: Txn, k: TokenId, expiresAt: int): Txn {
    Txn(t.op, t.user, Inserted, t.locked, t.now, t.pending, k, t.writes[k := Token(SlotOf(t), t.now, expiresAt, None)],
        t.row, t.mails)
  }

  function Post(t: Txn, mail: Mail): Txn {
    Txn(t.op, t.user, Done, t.locked, t.now, t.pending, t.token, t.writes, t.row, t.mails + multiset{mail})
  }

  /** Consumes the token if it is of the right kind, unconsumed and not expired. */
  predicate CanConsume(s: State, x: TxnId, at: int)
    requires x in s.txns
  {
    var t := s.txns[x];
    && !Issues(t.op) && t.phase == Opened && at <= s.clock
    && t.token in s.db.tokens && TokenFree(s, x, t.token)
    && var k := s.db.tokens[t.token];
       k.slot.kind == KindOf(t.op) && k.consumedAt == None && k.expiresAt > at
  }

  function AfterConsume(t: Txn, db: Db, at: int): Txn
    requires t.token in db.tokens
  {
    Txn(t.op, db.tokens[t.token].slot.user, Consumed, t.locked, t.now, t.pending, t.token,
        map[t.token := Consume(db.tokens[t.token], at)], t.row, t.mails)
  }

  function WithRow(t: Txn, phase: Phase, row: User): Txn {
    Txn(t.op, t.user, phase, true, t.now, t.pending, t.token, t.writes, Some(row), t.mails)
  }

  // ----- the protocol -----

  datatype Step =
    | Tick(elapsed: nat)
    | BeginSignup(x: TxnId, user: UserId, password: int)
    | BeginIssue(x: TxnId, op: Op, user: UserId)
    | BeginConsume(x: TxnId, op: Op, token: TokenId)
    | LockUser(x: TxnId)
    | CheckCooldown(x: TxnId)
    | Stamp(x: TxnId)
    | RetireStart(x: TxnId)
    | RetireOne(x: TxnId, token: TokenId)
    | InsertToken(x: TxnId, token: TokenId, expiresAt: int)
    | EnqueueTokenMail(x: TxnId)
    | ConsumeToken(x: TxnId, at: int)
    | MarkVerified(x: TxnId, at: int)
    | EnqueueWelcome(x: TxnId)
    | SetPassword(x: TxnId, password: int)
    | Commit(x: TxnId)
    | Abort(x: TxnId)

  predicate Enabled(s: State, cooldown: int, step: Step) {
    match step
    case Tick(_) => true
    case BeginSignup(x, u, _) => x !in s.txns && NewUser(s, u)
    case BeginIssue(x, op, _) => x !in s.txns && (op == Resend || op == Forgot)
    case BeginConsume(x, op, _) => x !in s.txns && !Issues(op)
    case LockUser(x) => x in s.txns && CanLock(s, x)
    case CheckCooldown(x) =>
      x in s.txns && s.txns[x].op == Resend && s.txns[x].phase == Locked &&
        CooledDown(s.db, cooldown, s.txns[x].user, s.clock)
    case Stamp(x) => x in s.txns && CanStamp(s.txns[x])
    case RetireStart(x) => x in s.txns && s.txns[x].phase == Stamped
    case RetireOne(x, k) => x in s.txns && s.txns[x].phase == Retiring && k in s.txns[x].pending && TokenFree(s, x, k)
    case InsertToken(x, k, _) => x in s.txns && s.txns[x].phase == Retiring && s.txns[x].pending == {} && NewToken(s, k)
    case EnqueueTokenMail(x) => x in s.txns && s.txns[x].phase == Inserted
    case ConsumeToken(x, at) => x in s.txns && CanConsume(s, x, at)
    case MarkVerified(x, _) =>
      && x in s.txns && s.txns[x].op == VerifyEmail && s.txns[x].phase == Consumed && s.txns[x].user in s.db.users
      && (s.db.users[s.txns[x].user].verifiedAt == None ==> UserFree(s, x, s.txns[x].user))
    case EnqueueWelcome(x) => x in s.txns && s.txns[x].phase == Marked
    case SetPassword(x, _) =>
      && x in s.txns && s.txns[x].op == ResetPassword && s.txns[x].phase == Consumed
      && s.txns[x].user in s.db.users && UserFree(s, x, s.txns[x].user)
    case Commit(x) => x in s.txns && s.txns[x].phase == Done
    case Abort(x) => x in s.txns
  }

  function With(s: State, x: TxnId, t: Txn): State {
    State(s.db, s.txns[x := t], s.clock)
  }

  function Apply(s: State, cooldown: int, step: Step): State
    requires Enabled(s, cooldown, step)
  {
    match step
    case Tick(elapsed) => State(s.db, s.txns, s.clock + elapsed)
    case BeginSignup(x, u, password) =>
      With(s, x, Txn(Signup, u, Locked, true, s.clock, {}, 0, map[], Some(User(None, password)), multiset{}))
    case BeginIssue(x, op, u) => With(s, x, Txn(op, u, Opened, false, s.clock, {}, 0, map[], None, multiset{}))
    case BeginConsume(x, op, k) => With(s, x, Txn(op, 0, Opened, false, s.clock, {}, k, map[], None, multiset{}))
    case LockUser(x) => With(s, x, AfterLock(s.txns[x]))
    case CheckCooldown(x) => With(s, x, AtPhase(s.txns[x], Checked, s.clock))
    case Stamp(x) => With(s, x, AtPhase(s.txns[x], if s.txns[x].op == Forgot then Clocked else Stamped, s.clock))
    case RetireStart(x) => With(s, x, Retire(s.txns[x], s.db))
    case RetireOne(x, k) => With(s, x, RetireRow(s.txns[x], s.db, k))
    case InsertToken(x, k, expiresAt) => With(s, x, Insert(s.txns[x], k, expiresAt))
    case EnqueueTokenMail(x) => With(s, x, Post(s.txns[x], TokenMail(KindOf(s.txns[x].op), s.txns[x].token)))
    case ConsumeToken(x, at) => With(s, x, AfterConsume(s.txns[x], s.db, at))
    case MarkVerified(x, at) =>
      var t := s.txns[x];
      var row := s.db.users[t.user];
      if row.verifiedAt == None then With(s, x, WithRow(t, Marked, User(Some(at), row.password)))
      else With(s, x, AtPhase(t, Done, t.now))
    case EnqueueWelcome(x) => With(s, x, Post(s.txns[x], Welcome(s.txns[x].user)))
    case SetPassword(x, password) =>
      With(s, x, WithRow(s.txns[x], Done, User(s.db.users[s.txns[x].user].verifiedAt, password)))
    case Commit(x) => State(Committed(s.db, s.txns[x]), s.txns - {x}, s.clock)
    case Abort(x) => State(s.db, s.txns - {x}, s.clock)
  }

  function Committed(db: Db, t: Txn): Db {
    if Issues(t.op) then
      Db(if t.row.Some? then db.users[t.user := t.row.value] else db.users,
         db.tokens + t.writes,
         db.outbox + t.mails,
         db.issued[SlotOf(t) := IssuedTo(db, SlotOf(t)) + [t.token]],
         db.spent,
         db.retired + multiset(t.writes.Keys - {t.token}))
    else
      Db(if t.row.Some? then db.users[t.user := t.row.value] else db.users,
         db.tokens + t.writes,
         db.outbox + t.mails,
         db.issued,
         db.spent + multiset{t.token},
         db.retired)
  }

  const START := State(Db(map[], map[], multiset{}, map[], multiset{}, multiset{}), map[], 0)

  /** Any interleaving of transactions: the state after these steps, if all are possible. */
  function Run(cooldown: int, steps: seq<Step>): Option<State> {
    if steps == [] then Some(START) else
      var before, step := Run(cooldown, steps[..|steps| - 1]), steps[|steps| - 1];
      if before.Some? && Enabled(before.value, cooldown, step) then Some(Apply(before.value, cooldown, step)) else None
  }
}
