/** The auth services as transactions of repository statements, one transaction at a
    time (internal/auth). The user id stands for the email address. */
module AuthService {
  import opened Wrappers
  import opened AuthTokens
  import opened AuthInvariant
  import opened AuthCommit

  datatype AuthError =
    | WeakPassword | EmailTaken | UserNotFound | InvalidToken | AlreadyVerified | RateLimited
    | InvalidCredentials | MalformedHash

  type AccountId = int
  type SessionId = int

  datatype Session = Session(user: UserId, expiresAt: int, revokedAt: Option<int>)

  /** An account is named after the email address of the user who signed up. */
  datatype Account = Account(name: UserId)

  datatype Role = Owner | Member

  /** How long the two kinds of tokens and sessions live. */
  datatype Lifetimes = Lifetimes(verification: int, reset: int, session: int)

  // ----- what each service does to the rows -----

  function Retirements(db: Db, slot: Slot, now: int): map<TokenId, Token> {
    map k | k in db.tokens && Live(db, slot, k) :: Consume(db.tokens[k], now)
  }

  /** The retire statement: every unconsumed row of the slot is consumed. */
  function Rewritten(tokens: map<TokenId, Token>, slot: Slot, now: int): map<TokenId, Token> {
    map k | k in tokens ::
      if tokens[k].slot == slot && tokens[k].consumedAt == None then Consume(tokens[k], now) else tokens[k]
  }

  lemma Rewriting(db: Db, slot: Slot, now: int, k: TokenId, token: Token)
    ensures Rewritten(db.tokens, slot, now)[k := token] == db.tokens + Retirements(db, slot, now)[k := token]
  {
  }

  /** Retires the live tokens of the slot and issues token k, with its mail. */
  function Issued(db: Db, slot: Slot, now: int, k: TokenId, expiresAt: int): Db {
    var retirements := Retirements(db, slot, now);
    Db(db.users, db.tokens + retirements[k := Token(slot, now, expiresAt, None)],
       db.outbox + multiset{TokenMail(slot.kind, k)}, db.issued[slot := IssuedTo(db, slot) + [k]],
       db.spent, db.retired + multiset(retirements.Keys))
  }

  function WithUser(db: Db, u: UserId, row: User): Db {
    Db(db.users[u := row], db.tokens, db.outbox, db.issued, db.spent, db.retired)
  }

  predicate Consumable(db: Db, kind: Kind, k: TokenId, now: int) {
    k in db.tokens && db.tokens[k].slot.kind == kind && db.tokens[k].consumedAt == None && db.tokens[k].expiresAt > now
  }

  /** The token rows after an issue, column by column. */
  lemma IssuedColumns(db: Db, slot: Slot, now: int, k: TokenId, expiresAt: int, j: TokenId)
    requires k !in db.tokens
    ensures var tokens := Issued(db, slot, now, k, expiresAt).tokens;
            && tokens.Keys == db.tokens.Keys + {k} && tokens[k] == Token(slot, now, expiresAt, None)
            && (j in db.tokens ==>
                  var row := db.tokens[j];
                  tokens[j] == Token(row.slot, row.createdAt, row.expiresAt,
                                     if row.slot == slot && row.consumedAt == None then Some(now) else row.consumedAt))
  {
  }

  /** A token just issued is accepted for its purpose until it expires, the outstanding
      ones of its slot no longer are, and nothing changes for any other token. */
  lemma ConsumableAfterIssue(db: Db, slot: Slot, now: int, k: TokenId, expiresAt: int, kind: Kind, other: TokenId,
                             at: int)
    ensures Consumable(Issued(db, slot, now, k, expiresAt), kind, k, at) <==> kind == slot.kind && at < expiresAt
    ensures other != k ==>
              (Consumable(Issued(db, slot, now, k, expiresAt), kind, other, at)
               <==> Consumable(db, kind, other, at) && db.tokens[other].slot != slot)
  {
  }

  /** A token that is spent is not accepted again, and nothing changes for the others. */
  lemma ConsumableAfterSpending(db: Db, k: TokenId, now: int, kind: Kind, other: TokenId, at: int)
    requires k in db.tokens
    ensures Consumable(Spent(db, k, now), kind, other, at) <==> other != k && Consumable(db, kind, other, at)
  {
  }

  /** The service accepts exactly what the protocol lets a transaction consume. */
  lemma ConsumableIff(s: State, x: TxnId, at: int)
    requires x in s.txns && !Issues(s.txns[x].op) && s.txns[x].phase == Opened && at <= s.clock
    ensures CanConsume(s, x, at) <==>
            Consumable(s.db, KindOf(s.txns[x].op), s.txns[x].token, at) && TokenFree(s, x, s.txns[x].token)
  {
  }

  function Spent(db: Db, k: TokenId, now: int): Db
    requires k in db.tokens
  {
    Db(db.users, db.tokens[k := Consume(db.tokens[k], now)], db.outbox, db.issued, db.spent + multiset{k}, db.retired)
  }

  /** Verified for the first time, with a welcome mail; otherwise nothing. */
  function NowVerified(db: Db, u: UserId, at: int): Db {
    if u in db.users && db.users[u].verifiedAt == None
    then Db(db.users[u := User(Some(at), db.users[u].password)], db.tokens, db.outbox + multiset{Welcome(u)},
            db.issued, db.spent, db.retired)
    else db
  }

  predicate LiveFor(s: Session, u: UserId) {
    s.user == u && s.revokedAt == None
  }

  /** Between two states of the sessions, the live ones of u were revoked at this time
      and every other one is as it was; no live one of u is left. */
  predicate RevokedBetween(before: map<SessionId, Session>, after: map<SessionId, Session>, u: UserId, at: int) {
    && after.Keys == before.Keys
    && (forall i :: i in before && LiveFor(before[i], u) ==> after[i] == Session(u, before[i].expiresAt, Some(at)))
    && (forall i :: i in before && !LiveFor(before[i], u) ==> after[i] == before[i])
    && (forall i :: i in after ==> !LiveFor(after[i], u))
  }

  // ----- the same as finished transactions of the protocol -----

  /** The finished transaction that issues token k. */
  function Issuing(db: Db, op: Op, u: UserId, row: Option<User>, now: int, k: TokenId, expiresAt: int): Txn {
    var slot := Slot(u, KindOf(op));
    Txn(op, u, Done, true, now, {}, k, Retirements(db, slot, now)[k := Token(slot, now, expiresAt, None)], row,
        multiset{TokenMail(KindOf(op), k)})
  }

  /** The finished transaction that spends token k to verify its user. */
  function Verifying(db: Db, k: TokenId, at: int, verifiedAt: int): Txn
    requires k in db.tokens && db.tokens[k].slot.user in db.users
  {
    var u := db.tokens[k].slot.user;
    var first := db.users[u].verifiedAt == None;
    Txn(AuthTokens.VerifyEmail, u, Done, first, 0, {}, k, map[k := Consume(db.tokens[k], at)],
        if first then Some(User(Some(verifiedAt), db.users[u].password)) else None,
        if first then multiset{Welcome(u)} else multiset{})
  }

  /** The finished transaction that spends token k for a new password. */
  function Resetting(db: Db, k: TokenId, at: int, password: int): Txn
    requires k in db.tokens && db.tokens[k].slot.user in db.users
  {
    var u := db.tokens[k].slot.user;
    Txn(AuthTokens.ResetPassword, u, Done, true, 0, {}, k, map[k := Consume(db.tokens[k], at)],
        Some(User(db.users[u].verifiedAt, password)), multiset{})
  }

  lemma SameRetirements(db: Db, slot: Slot, now: int, k: TokenId, token: Token)
    requires k !in db.tokens
    ensures (Retirements(db, slot, now)[k := token]).Keys - {k} == Retirements(db, slot, now).Keys
  {
  }

  lemma IssuedIsCommitted(db: Db, op: Op, u: UserId, now: int, k: TokenId, expiresAt: int)
    requires (op == Resend || op == Forgot) && k !in db.tokens
    ensures Issued(db, Slot(u, KindOf(op)), now, k, expiresAt) ==
            Committed(db, Issuing(db, op, u, None, now, k, expiresAt))
  {
    SameRetirements(db, Slot(u, KindOf(op)), now, k, Token(Slot(u, KindOf(op)), now, expiresAt, None));
  }

  lemma IssuingIsFinished(db: Db, cooldown: int, op: Op, u: UserId, now: int, k: TokenId, expiresAt: int)
    requires (op == Resend || op == Forgot) && k !in db.tokens && u in db.users
    requires op == Resend ==> CooledDown(db, cooldown, u, now)
    ensures Finished(db, cooldown, now, Issuing(db, op, u, None, now, k, expiresAt))
  {
    assert IssueOk(db, cooldown, now, Issuing(db, op, u, None, now, k, expiresAt));
  }

  /** Issuing a token to a known user keeps the rows in order. */
  lemma IssuedKeeps(db: Db, cooldown: int, op: Op, u: UserId, now: int, k: TokenId, expiresAt: int)
    requires DbOk(db, cooldown) && (op == Resend || op == Forgot) && k !in db.tokens && u in db.users
    requires op == Resend ==> CooledDown(db, cooldown, u, now)
    ensures Finished(db, cooldown, now, Issuing(db, op, u, None, now, k, expiresAt))
    ensures Issued(db, Slot(u, KindOf(op)), now, k, expiresAt) ==
            Committed(db, Issuing(db, op, u, None, now, k, expiresAt))
    ensures DbOk(Issued(db, Slot(u, KindOf(op)), now, k, expiresAt), cooldown)
  {
    IssuedIsCommitted(db, op, u, now, k, expiresAt);
    IssuingIsFinished(db, cooldown, op, u, now, k, expiresAt);
    CommitKeepsDb(db, cooldown, now, Issuing(db, op, u, None, now, k, expiresAt));
  }

  lemma SignupKeeps(db: Db, cooldown: int, u: UserId, password: int, now: int, k: TokenId, expiresAt: int)
    requires DbOk(db, cooldown) && k !in db.tokens && u !in db.users
    ensures var t := Issuing(db, AuthTokens.Signup, u, Some(User(None, password)), now, k, expiresAt);
            var after := Issued(WithUser(db, u, User(None, password)), Slot(u, AuthTokens.Verification), now, k,
                                expiresAt);
            Finished(db, cooldown, now, t) && after == Committed(db, t) && DbOk(after, cooldown)
  {
    var slot, row := Slot(u, AuthTokens.Verification), User(None, password);
    assert Retirements(WithUser(db, u, row), slot, now) == Retirements(db, slot, now);
    SameRetirements(db, slot, now, k, Token(slot, now, expiresAt, None));
    CommitKeepsDb(db, cooldown, now, Issuing(db, AuthTokens.Signup, u, Some(row), now, k, expiresAt));
  }

  lemma VerifyingKeeps(db: Db, cooldown: int, k: TokenId, at: int, verifiedAt: int)
    requires DbOk(db, cooldown) && Consumable(db, AuthTokens.Verification, k, at)
    ensures db.tokens[k].slot.user in db.users
    ensures var t := Verifying(db, k, at, verifiedAt);
            var after := NowVerified(Spent(db, k, at), db.tokens[k].slot.user, verifiedAt);
            Finished(db, cooldown, at, t) && after == Committed(db, t) && DbOk(after, cooldown)
  {
    var t := Verifying(db, k, at, verifiedAt);
    assert db.tokens + t.writes == db.tokens[k := Consume(db.tokens[k], at)];
    CommitKeepsDb(db, cooldown, at, t);
  }

  lemma ResettingKeeps(db: Db, cooldown: int, k: TokenId, at: int, password: int)
    requires DbOk(db, cooldown) && Consumable(db, AuthTokens.Reset, k, at)
    ensures db.tokens[k].slot.user in db.users
    ensures var u := db.tokens[k].slot.user;
            var t := Resetting(db, k, at, password);
            var after := WithUser(Spent(db, k, at), u, User(db.users[u].verifiedAt, password));
            Finished(db, cooldown, at, t) && after == Committed(db, t) && DbOk(after, cooldown)
  {
    var t := Resetting(db, k, at, password);
    assert db.tokens + t.writes == db.tokens[k := Consume(db.tokens[k], at)];
    CommitKeepsDb(db, cooldown, at, t);
  }

  // ----- the latest token -----

  predicate IsLatest<K>(times: map<K, int>, k: K) {
    k in times && forall x :: x in times ==> times[x] <= times[k]
  }

  lemma LatestExists<K>(times: map<K, int>)
    requires times.Keys != {}
    ensures exists k :: k in times.Keys && IsLatest(times, k)
    decreases |times|
  {
    var k :| k in times.Keys;
    var rest := times - {k};
    assert times.Keys == rest.Keys + {k};
    if rest.Keys == {} {
      assert forall x :: x in times ==> x in times.Keys;
      assert IsLatest(times, k);
    } else {
      LatestExists(rest);
      var l :| l in rest.Keys && IsLatest(rest, l);
      assert forall x :: x in times ==> x == k || x in rest;
      assert IsLatest(times, if times[k] > times[l] then k else l);
    }
  }

  /** ORDER BY ... DESC LIMIT 1 */
  method Latest<K>(times: map<K, int>) returns (k: K)
    requires times.Keys != {}
    ensures IsLatest(times, k)
  {
    LatestExists(times);
    k :| k in times.Keys && IsLatest(times, k);
  }

  class Service {
    const cooldown: int
    const lifetimes: Lifetimes
    var users: map<UserId, User>
    var tokens: map<TokenId, Token>
    var outbox: multiset<Mail>
    var sessions: map<SessionId, Session>
    var accounts: map<AccountId, Account>
    var members: map<(AccountId, UserId), Role>
    ghost var issued: map<Slot, seq<TokenId>>
    ghost var spent: multiset<TokenId>
    ghost var retired: multiset<TokenId>

    ghost function Contents(): Db
      reads this
    {
      Db(users, tokens, outbox, issued, spent, retired)
    }

    constructor (cooldown: int, lifetimes: Lifetimes)
      ensures Contents() == START.db && sessions == map[] && accounts == map[] && members == map[]
      ensures this.cooldown == cooldown && this.lifetimes == lifetimes
    {
      this.cooldown, this.lifetimes := cooldown, lifetimes;
      users, tokens, outbox := map[], map[], multiset{};
      sessions, accounts, members := map[], map[], map[];
      issued, spent, retired := map[], multiset{}, multiset{};
    }

    // ----- statements -----

    /** Retires the live tokens of the slot, inserts the new one and enqueues its mail;
        nothing for an unknown user. */
    method CreateToken(slot: Slot, now: int, expiresAt: int, k: TokenId) returns (ok: bool)
      requires k !in tokens
      modifies this`tokens, this`issued, this`retired, this`outbox
      ensures ok <==> slot.user in users
      ensures ok ==> Contents() == Issued(old(Contents()), slot, now, k, expiresAt)
      ensures !ok ==> Contents() == old(Contents())
    {
      if slot.user !in users {
        return false;
      }
      ghost var before := Contents();
      ghost var retirements := Retirements(before, slot, now);
      Rewriting(before, slot, now, k, Token(slot, now, expiresAt, None));
      tokens := Rewritten(tokens, slot, now)[k := Token(slot, now, expiresAt, None)];
      retired := retired + multiset(retirements.Keys);
      issued := issued[slot := IssuedTo(before, slot) + [k]];
      outbox := outbox + multiset{TokenMail(slot.kind, k)};
      return true;
    }

    /** The user of the token, if it can be consumed. */
    method ConsumeToken(kind: Kind, k: TokenId, now: int) returns (user: Option<UserId>)
      modifies this`tokens, this`spent
      ensures user.Some? <==>
                && k in old(tokens) && old(tokens)[k].slot.kind == kind
                && old(tokens)[k].consumedAt == None && now < old(tokens)[k].expiresAt
      ensures user.Some? <==> Consumable(old(Contents()), kind, k, now)
      ensures user.None? ==> Contents() == old(Contents())
      ensures user.Some? ==> user.value == old(tokens)[k].slot.user && Contents() == Spent(old(Contents()), k, now)
      ensures user.Some? ==>
                var row := old(tokens)[k];
                tokens == old(tokens)[k := Token(row.slot, row.createdAt, row.expiresAt, Some(now))]
    {
      if k !in tokens || tokens[k].slot.kind != kind || tokens[k].consumedAt != None || tokens[k].expiresAt <= now {
        return None;
      }
      user := Some(tokens[k].slot.user);
      tokens := tokens[k := Consume(tokens[k], now)];
      spent := spent + multiset{k};
    }

    /** False when the user was already verified. */
    method MarkEmailVerified(u: UserId, at: int) returns (first: bool)
      modifies this`users
      ensures first <==> u in old(users) && old(users)[u].verifiedAt == None
      ensures users == if first then old(users)[u := User(Some(at), old(users)[u].password)] else old(users)
    {
      first := u in users && users[u].verifiedAt == None;
      if first {
        users := users[u := User(Some(at), users[u].password)];
      }
    }

    method UpdatePasswordHash(u: UserId, hash: int) returns (ok: bool)
      modifies this`users
      ensures ok <==> u in old(users)
      ensures users == if ok then old(users)[u := User(old(users)[u].verifiedAt, hash)] else old(users)
    {
      ok := u in users;
      if ok {
        users := users[u := User(users[u].verifiedAt, hash)];
      }
    }

    /** Replaces the hash if it is still the one that was verified. */
    method RehashPassword(u: UserId, verified: int, hash: int) returns (changed: bool)
      modifies this`users
      ensures changed <==> u in old(users) && old(users)[u].password == verified
      ensures users == if changed then old(users)[u := User(old(users)[u].verifiedAt, hash)] else old(users)
    {
      changed := u in users && users[u].password == verified;
      if changed {
        users := users[u := User(users[u].verifiedAt, hash)];
      }
    }

    /** Ends one session; an unknown one, or one that was ended before, stays as it is. */
    method RevokeSession(i: SessionId, at: int)
      modifies this`sessions
      ensures sessions.Keys == old(sessions).Keys
      ensures forall j :: j in sessions ==>
                sessions[j] == if j == i && old(sessions)[j].revokedAt == None
                               then Session(old(sessions)[j].user, old(sessions)[j].expiresAt, Some(at))
                               else old(sessions)[j]
    {
      if i in sessions && sessions[i].revokedAt == None {
        sessions := sessions[i := Session(sessions[i].user, sessions[i].expiresAt, Some(at))];
      }
    }

    /** Ends every live session of a user and counts them. */
    method RevokeUserSessions(u: UserId, at: int) returns (count: nat)
      modifies this`sessions
      ensures RevokedBetween(old(sessions), sessions, u, at)
      ensures sessions.Keys == old(sessions).Keys
      ensures forall i :: i in sessions ==>
                var row := old(sessions)[i];
                sessions[i] == Session(row.user, row.expiresAt,
                                       if row.user == u && row.revokedAt == None then Some(at) else row.revokedAt)
      ensures count == |set i | i in old(sessions) && LiveFor(old(sessions)[i], u)|
    {
      var live := set i | i in sessions && LiveFor(sessions[i], u);
      sessions := map i | i in sessions ::
        if i in live then Session(u, sessions[i].expiresAt, Some(at)) else sessions[i];
      count := |live|;
    }

    /** When the user's most recent verification token was created: enough to tell
        whether every one of them is a cool-down old. */
    method LatestVerificationTokenAt(u: UserId) returns (at: Option<int>)
      ensures forall now :: CooledDown(Contents(), cooldown, u, now) <==> at.None? || now - at.value >= cooldown
      ensures at.None? <==> forall k :: k in tokens ==> tokens[k].slot != Slot(u, AuthTokens.Verification)
      ensures at.Some? ==>
                && (exists k :: k in tokens && tokens[k].slot == Slot(u, AuthTokens.Verification)
                                && tokens[k].createdAt == at.value)
                && (forall k :: k in tokens && tokens[k].slot == Slot(u, AuthTokens.Verification) ==>
                      tokens[k].createdAt <= at.value)
    {
      var times := map k | k in tokens && tokens[k].slot == Slot(u, AuthTokens.Verification) :: tokens[k].createdAt;
      assert forall k :: k in tokens && tokens[k].slot == Slot(u, AuthTokens.Verification) ==> k in times;
      if times.Keys == {} {
        assert forall k :: k in times ==> k in times.Keys;
        return None;
      }
      var k := Latest(times);
      return Some(times[k]);
    }

    // ----- services -----

    /** A live session. */
    method CreateSession(u: UserId, expiresAt: int, i: SessionId)
      requires i !in sessions
      modifies this`sessions
      ensures sessions == old(sessions)[i := Session(u, expiresAt, None)]
      ensures Contents() == old(Contents())
    {
      sessions := sessions[i := Session(u, expiresAt, None)];
    }

    /** An account and its owner. */
    method OpenAccount(account: AccountId, u: UserId)
      requires account !in accounts
      modifies this`accounts, this`members
      ensures accounts == old(accounts)[account := Account(u)] && members == old(members)[(account, u) := Owner]
      ensures Contents() == old(Contents())
    {
      accounts := accounts[account := Account(u)];
      members := members[(account, u) := Owner];
    }

    /** An unverified user. */
    method CreateUser(u: UserId, hash: int)
      modifies this`users
      ensures users == old(users)[u := User(None, hash)]
      ensures Contents() == WithUser(old(Contents()), u, User(None, hash))
    {
      users := users[u := User(None, hash)];
    }

    /** A token for a known user. */
    method IssueToken(slot: Slot, now: int, expiresAt: int, k: TokenId, ghost before: Db)
      requires k !in tokens && slot.user in users && Contents() == before
      modifies this`tokens, this`issued, this`retired, this`outbox
      ensures Contents() == Issued(before, slot, now, k, expiresAt)
    {
      var ok := CreateToken(slot, now, expiresAt, k);
    }

    /** The user with an account, its owner, the first token with its mail, and a
        session: all of it or nothing. */
    method Signup(u: UserId, hash: Option<int>, now: int, later: int, k: TokenId, account: AccountId,
                  session: SessionId)
      returns (error: Option<AuthError>)
      requires k !in tokens && account !in accounts && session !in sessions
      modifies this
      ensures error == if hash.None? then Some(WeakPassword) else if u in old(users) then Some(EmailTaken) else None
      ensures error.Some? ==>
                && Contents() == old(Contents())
                && accounts == old(accounts) && members == old(members) && sessions == old(sessions)
      ensures error.None? ==>
                && Contents() == Issued(WithUser(old(Contents()), u, User(None, hash.value)),
                                        Slot(u, AuthTokens.Verification),
                                        now, k, now + lifetimes.verification)
                && accounts == old(accounts)[account := Account(u)]
                && members == old(members)[(account, u) := Owner]
                && sessions == old(sessions)[session := Session(u, later + lifetimes.session, None)]
    {
      if hash.None? {
        return Some(WeakPassword);
      }
      if u in users {
        return Some(EmailTaken);
      }
      ghost var before := WithUser(Contents(), u, User(None, hash.value));
      CreateUser(u, hash.value);
      OpenAccount(account, u);
      IssueToken(Slot(u, AuthTokens.Verification), now, now + lifetimes.verification, k, before);
      CreateSession(u, later + lifetimes.session, session);
      return None;
    }

    /** A session for the right password, and a fresh hash if the stored one is weak and
        a new one could be made. An unknown user and a wrong password look the same. */
    method Login(u: UserId, accepts: int -> Option<bool>, weak: int -> bool, upgrade: Option<int>, now: int,
                 session: SessionId)
      returns (error: Option<AuthError>)
      requires session !in sessions
      modifies this`users, this`sessions
      ensures error == if u !in old(users) then Some(InvalidCredentials)
                       else match accepts(old(users)[u].password)
                            case None => Some(MalformedHash)
                            case Some(ok) => if ok then None else Some(InvalidCredentials)
      ensures error.Some? ==> users == old(users) && sessions == old(sessions)
      ensures error.None? ==>
                && sessions == old(sessions)[session := Session(u, now + lifetimes.session, None)]
                && users == if weak(old(users)[u].password) && upgrade.Some?
                            then old(users)[u := User(old(users)[u].verifiedAt, upgrade.value)] else old(users)
    {
      if u !in users {
        return Some(InvalidCredentials);
      }
      var user := users[u];
      var answer := accepts(user.password);
      if answer.None? {
        return Some(MalformedHash);
      }
      if !answer.value {
        return Some(InvalidCredentials);
      }
      if weak(user.password) && upgrade.Some? {
        var changed := RehashPassword(u, user.password, upgrade.value);
      }
      CreateSession(u, now + lifetimes.session, session);
      return None;
    }

    /** A fresh token for an unverified user, at most once per cool-down. The clock is
        read for the check and again for the token. */
    method ResendVerification(u: UserId, now: int, later: int, k: TokenId) returns (error: Option<AuthError>)
      requires k !in tokens && now <= later
      modifies this`tokens, this`issued, this`retired, this`outbox
      ensures error == if u !in users then Some(UserNotFound)
                       else if users[u].verifiedAt != None then Some(AlreadyVerified)
                       else if !CooledDown(old(Contents()), cooldown, u, now) then Some(RateLimited) else None
      ensures error == Some(RateLimited) <==>
                && u in users && users[u].verifiedAt == None
                && exists j :: j in old(tokens) && old(tokens)[j].slot == Slot(u, AuthTokens.Verification)
                               && now - old(tokens)[j].createdAt < cooldown
      ensures error.Some? ==> Contents() == old(Contents())
      ensures error.None? ==>
                Contents() == Issued(old(Contents()), Slot(u, AuthTokens.Verification), later, k,
                                     later + lifetimes.verification)
    {
      if u !in users {
        return Some(UserNotFound);
      }
      if users[u].verifiedAt != None {
        return Some(AlreadyVerified);
      }
      var last := LatestVerificationTokenAt(u);
      assert CooledDown(Contents(), cooldown, u, now) <==> last.None? || now - last.value >= cooldown;
      if last.Some? && now - last.value < cooldown {
        return Some(RateLimited);
      }
      IssueToken(Slot(u, AuthTokens.Verification), later, later + lifetimes.verification, k, Contents());
      return None;
    }

    /** Says nothing about whether the user exists. */
    method ForgotPassword(u: UserId, now: int, k: TokenId)
      requires k !in tokens
      modifies this`tokens, this`issued, this`retired, this`outbox
      ensures Contents() == if u in users
                            then Issued(old(Contents()), Slot(u, AuthTokens.Reset), now, k, now + lifetimes.reset)
                            else old(Contents())
    {
      if u in users {
        IssueToken(Slot(u, AuthTokens.Reset), now, now + lifetimes.reset, k, Contents());
      }
    }

    /** The token and its effect together; a welcome mail the first time only. A token
        of the wrong shape is none. */
    method VerifyEmail(token: Option<TokenId>, now: int, later: int) returns (error: Option<AuthError>)
      modifies this`tokens, this`spent, this`users, this`outbox
      ensures error.None? <==> token.Some? && Consumable(old(Contents()), AuthTokens.Verification, token.value, now)
      ensures error.Some? ==> error == Some(InvalidToken) && Contents() == old(Contents())
      ensures error.None? ==>
                var k := token.value;
                Contents() == NowVerified(Spent(old(Contents()), k, now), old(tokens)[k].slot.user, later)
    {
      if token.None? {
        return Some(InvalidToken);
      }
      var user := ConsumeToken(AuthTokens.Verification, token.value, now);
      if user.None? {
        return Some(InvalidToken);
      }
      var first := MarkEmailVerified(user.value, later);
      if first {
        outbox := outbox + multiset{Welcome(user.value)};
      }
      return None;
    }

    /** The token, the new password and the end of every live session together. */
    method ResetPassword(token: Option<TokenId>, hash: Option<int>, now: int, later: int)
      returns (error: Option<AuthError>)
      requires UsersExist(Contents())
      modifies this`tokens, this`spent, this`users, this`sessions
      ensures error == if token.None? then Some(InvalidToken) else if hash.None? then Some(WeakPassword)
                       else if Consumable(old(Contents()), AuthTokens.Reset, token.value, now) then None
                       else Some(InvalidToken)
      ensures error.Some? ==> Contents() == old(Contents()) && sessions == old(sessions)
      ensures error.None? ==>
                var k := token.value;
                var u := old(tokens)[k].slot.user;
                && u in old(users)
                && Contents() == WithUser(Spent(old(Contents()), k, now), u, User(old(users)[u].verifiedAt, hash.value))
                && RevokedBetween(old(sessions), sessions, u, later)
    {
      if token.None? {
        return Some(InvalidToken);
      }
      if hash.None? {
        return Some(WeakPassword);
      }
      var user := ConsumeToken(AuthTokens.Reset, token.value, now);
      if user.None? {
        return Some(InvalidToken);
      }
      var ok := UpdatePasswordHash(user.value, hash.value);
      var count := RevokeUserSessions(user.value, later);
      return None;
    }
  }
}
