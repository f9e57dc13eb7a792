/** Passwords and sessions under concurrent logins, resets and logouts (internal/auth).
    READ COMMITTED, one statement at a time, as for the security tokens. A login runs its
    statements on the pool, each on its own; a reset and the end of all sessions hold the
    rows they wrote until they commit. A hash stands for the one password it was made of. */
module AuthSessions {
  import opened Wrappers

  type UserId = int
  type SessionId = int
  type LoginId = int
  type TxnId = int
  type Hash = int
  type Password = int

  /** The password each hash was made of. */
  type Made = Hash -> Password

  /** `generation` counts the passwords its user had been given when the login, or the
      signup, read the one it was opened with. */
  datatype Session = Session(user: UserId, generation: nat, revokedAt: Option<int>)

  /** The committed rows, and a record of the passwords given to each user by committed
      signups and resets, in commit order. */
  datatype Db = Db(users: map<UserId, Hash>, sessions: map<SessionId, Session>, given: map<UserId, seq<Password>>)

  /** A login between reading the user and opening the session, with the hash that
      accepted the password. */
  datatype Login = Login(user: UserId, verified: Hash, password: Password, generation: nat)

  datatype Op = ResetPassword | LogoutAll

  datatype Phase = Begun | Ready | Revoking

  /** A new password and its hash. */
  datatype Change = Change(hash: Hash, password: Password)

  /** An open transaction: its uncommitted user row, the sessions its revoke statement
      saw, those it has yet to visit, and its uncommitted session rows. A change holds
      the row of the user. */
  datatype Txn = Txn(
    op: Op,
    user: UserId,
    phase: Phase,
    change: Option<Change>,
    at: int,
    seen: set<SessionId>,
    pending: set<SessionId>,
    writes: map<SessionId, Session>)

  datatype State = State(db: Db, logins: map<LoginId, Login>, txns: map<TxnId, Txn>)

  const START := State(Db(map[], map[], map[]), map[], map[])

  predicate Live(db: Db, i: SessionId) {
    i in db.sessions && db.sessions[i].revokedAt == None
  }

  predicate LiveOf(db: Db, u: UserId, i: SessionId) {
    Live(db, i) && db.sessions[i].user == u
  }

  function Revoke(session: Session, at: int): Session {
    Session(session.user, session.generation, Some(at))
  }

  // ----- locks -----

  predicate UserFree(s: State, x: TxnId, u: UserId) {
    forall y :: y in s.txns && y != x ==> !(s.txns[y].change.Some? && s.txns[y].user == u)
  }

  predicate UserUnlocked(s: State, u: UserId) {
    forall y :: y in s.txns ==> !(s.txns[y].change.Some? && s.txns[y].user == u)
  }

  predicate SessionFree(s: State, x: TxnId, i: SessionId) {
    forall y :: y in s.txns && y != x ==> i !in s.txns[y].writes
  }

  predicate SessionUnlocked(s: State, i: SessionId) {
    forall y :: y in s.txns ==> i !in s.txns[y].writes
  }

  // ----- statements -----

  function SignedUp(db: Db, u: UserId, change: Change, i: SessionId): Db {
    Db(db.users[u := change.hash], db.sessions[i := Session(u, 1, None)], db.given[u := [change.password]])
  }

  /** The upgrade of a hash, conditional on the one that was verified. */
  function Rehashed(db: Db, login: Login, h: Hash): Db {
    if login.user in db.users && db.users[login.user] == login.verified
    then Db(db.users[login.user := h], db.sessions, db.given) else db
  }

  function WithSession(db: Db, i: SessionId, session: Session): Db {
    Db(db.users, db.sessions[i := session], db.given)
  }

  function Ended(db: Db, i: SessionId, at: int): Db {
    if Live(db, i) then WithSession(db, i, Revoke(db.sessions[i], at)) else db
  }

  function SetChange(t: Txn, change: Change): Txn {
    Txn(t.op, t.user, Ready, Some(change), t.at, t.seen, t.pending, t.writes)
  }

  /** The revoke statement sees the sessions of its user and will visit the live ones. */
  function Start(t: Txn, db: Db, at: int): Txn {
    var seen := set i | i in db.sessions && db.sessions[i].user == t.user;
    Txn(t.op, t.user, Revoking, t.change, at, seen, (set i | i in seen && Live(db, i)), t.writes)
  }

  /** Visiting one row: it is updated if its committed version is still live. */
  function Visit(t: Txn, db: Db, i: SessionId): Txn {
    Txn(t.op, t.user, t.phase, t.change, t.at, t.seen, t.pending - {i},
        if Live(db, i) then t.writes[i := Revoke(db.sessions[i], t.at)] else t.writes)
  }

  function Committed(db: Db, t: Txn): Db {
    if t.change.Some? && t.user in db.given then
      Db(db.users[t.user := t.change.value.hash], db.sessions + t.writes,
         db.given[t.user := db.given[t.user] + [t.change.value.password]])
    else Db(db.users, db.sessions + t.writes, db.given)
  }

  // ----- the protocol -----

  datatype Step =
    | Signup(user: UserId, change: Change, session: SessionId)
    | ReadUser(login: LoginId, user: UserId, password: Password)
    | Rehash(login: LoginId, hash: Hash)
    | OpenSession(login: LoginId, session: SessionId)
    | GiveUp(login: LoginId)
    | Logout(session: SessionId, at: int)
    | Begin(x: TxnId, op: Op, user: UserId)
    | SetPassword(x: TxnId, change: Change)
    | RevokeStart(x: TxnId, at: int)
    | RevokeOne(x: TxnId, session: SessionId)
    | Commit(x: TxnId)
    | Abort(x: TxnId)

  predicate Enabled(made: Made, s: State, step: Step) {
    match step
    case Signup(u, change, i) => u !in s.db.users && i !in s.db.sessions && made(change.hash) == change.password
    case ReadUser(l, u, p) => l !in s.logins && u in s.db.users && u in s.db.given && made(s.db.users[u]) == p
    case Rehash(l, h) => l in s.logins && UserUnlocked(s, s.logins[l].user) && made(h) == s.logins[l].password
    case OpenSession(l, i) => l in s.logins && i !in s.db.sessions
    case GiveUp(l) => l in s.logins
    case Logout(i, _) => i in s.db.sessions && SessionUnlocked(s, i)
    case Begin(x, _, u) => x !in s.txns && u in s.db.users
    case SetPassword(x, change) =>
      x in s.txns && s.txns[x].phase == Begun && UserFree(s, x, s.txns[x].user) && made(change.hash) == change.password
    case RevokeStart(x, _) => x in s.txns && s.txns[x].phase == Ready
    case RevokeOne(x, i) => x in s.txns && s.txns[x].phase == Revoking && i in s.txns[x].pending && SessionFree(s, x, i)
    case Commit(x) => x in s.txns && s.txns[x].phase == Revoking && s.txns[x].pending == {}
    case Abort(x) => x in s.txns
  }

  function With(s: State, x: TxnId, t: Txn): State {
    State(s.db, s.logins, s.txns[x := t])
  }

  function Apply(made: Made, s: State, step: Step): State
    requires Enabled(made, s, step)
  {
    match step
    case Signup(u, change, i) => State(SignedUp(s.db, u, change, i), s.logins, s.txns)
    case ReadUser(l, u, p) =>
      State(s.db, s.logins[l := Login(u, s.db.users[u], p, |s.db.given[u]|)], s.txns)
    case Rehash(l, h) => State(Rehashed(s.db, s.logins[l], h), s.logins, s.txns)
    case OpenSession(l, i) =>
      State(WithSession(s.db, i, Session(s.logins[l].user, s.logins[l].generation, None)), s.logins - {l}, s.txns)
    case GiveUp(l) => State(s.db, s.logins - {l}, s.txns)
    case Logout(i, at) => State(Ended(s.db, i, at), s.logins, s.txns)
    case Begin(x, op, u) =>
      With(s, x, Txn(op, u, if op == ResetPassword then Begun else Ready, None, 0, {}, {}, map[]))
    case SetPassword(x, change) => With(s, x, SetChange(s.txns[x], change))
    case RevokeStart(x, at) => With(s, x, Start(s.txns[x], s.db, at))
    case RevokeOne(x, i) => With(s, x, Visit(s.txns[x], s.db, i))
    case Commit(x) => State(Committed(s.db, s.txns[x]), s.logins, s.txns - {x})
    case Abort(x) => State(s.db, s.logins, s.txns - {x})
  }

  function Run(made: Made, steps: seq<Step>): Option<State> {
    if steps == [] then Some(START) else
      var before := Run(made, steps[..|steps| - 1]);
      var last := steps[|steps| - 1];
      if before.Some? && Enabled(made, before.value, last) then Some(Apply(made, before.value, last)) else None
  }

  // ----- the invariant -----

  /** The stored hash is of the password last given to the user. */
  predicate UserOk(made: Made, db: Db, u: UserId) {
    && u in db.users && u in db.given && db.given[u] != []
    && made(db.users[u]) == db.given[u][|db.given[u]| - 1]
  }

  predicate OfGeneration(db: Db, u: UserId, generation: nat) {
    u in db.given && 1 <= generation <= |db.given[u]|
  }

  predicate DbOk(made: Made, db: Db) {
    && db.given.Keys == db.users.Keys
    && (forall u :: u in db.users ==> UserOk(made, db, u))
    && (forall i :: i in db.sessions ==> OfGeneration(db, db.sessions[i].user, db.sessions[i].generation))
  }

  /** The verified hash is of the password, which was the user's when it was read. */
  predicate LoginOk(made: Made, db: Db, login: Login) {
    && login.user in db.users && made(login.verified) == login.password
    && OfGeneration(db, login.user, login.generation)
    && db.given[login.user][login.generation - 1] == login.password
  }

  /** Every session the revoke statement saw is revoked, rewritten, or yet to be visited. */
  predicate Covered(db: Db, t: Txn, i: SessionId) {
    i in db.sessions && db.sessions[i].user == t.user && (Live(db, i) ==> i in t.pending || i in t.writes)
  }

  predicate TxnOk(made: Made, db: Db, t: Txn) {
    && t.user in db.users
    && (t.change.Some? <==> t.op == ResetPassword && t.phase != Begun) && (t.phase == Begun ==> t.op == ResetPassword)
    && (t.change.Some? ==> made(t.change.value.hash) == t.change.value.password)
    && (t.phase != Revoking ==> t.writes == map[])
    && (forall i :: i in t.writes ==>
        i in t.seen && LiveOf(db, t.user, i) && t.writes[i] == Revoke(db.sessions[i], t.at))
    && t.pending <= t.seen
    && (forall i :: i in t.seen ==> Covered(db, t, i))
  }

  /** No two open transactions hold one row. */
  predicate Disjoint(t: Txn, o: Txn) {
    t.writes.Keys !! o.writes.Keys && !(t.change.Some? && o.change.Some? && t.user == o.user)
  }

  predicate Inv(made: Made, s: State) {
    && DbOk(made, s.db)
    && (forall l :: l in s.logins ==> LoginOk(made, s.db, s.logins[l]))
    && (forall x :: x in s.txns ==> TxnOk(made, s.db, s.txns[x]))
    && (forall x, y :: x in s.txns && y in s.txns && x != y ==> Disjoint(s.txns[x], s.txns[y]))
  }

  // ----- every step keeps it -----

  /** Changed rows that keep the logins and the transactions in order. */
  lemma DbKeeps(made: Made, s: State, db: Db)
    requires Inv(made, s) && DbOk(made, db)
    requires forall l :: l in s.logins ==> LoginOk(made, db, s.logins[l])
    requires forall x :: x in s.txns ==> TxnOk(made, db, s.txns[x])
    ensures Inv(made, State(db, s.logins, s.txns))
  {
  }

  lemma SignupKeeps(made: Made, s: State, u: UserId, change: Change, i: SessionId)
    requires Inv(made, s) && Enabled(made, s, Signup(u, change, i))
    ensures Inv(made, Apply(made, s, Signup(u, change, i)))
  {
    DbKeeps(made, s, SignedUp(s.db, u, change, i));
  }

  lemma LoginKeeps(made: Made, s: State, step: Step)
    requires Inv(made, s) && Enabled(made, s, step) && (step.ReadUser? || step.GiveUp?)
    ensures Inv(made, Apply(made, s, step))
  {
  }

  lemma RehashKeeps(made: Made, s: State, l: LoginId, h: Hash)
    requires Inv(made, s) && Enabled(made, s, Rehash(l, h))
    ensures Inv(made, Apply(made, s, Rehash(l, h)))
  {
    DbKeeps(made, s, Rehashed(s.db, s.logins[l], h));
  }

  lemma OpenKeeps(made: Made, s: State, l: LoginId, i: SessionId)
    requires Inv(made, s) && Enabled(made, s, OpenSession(l, i))
    ensures Inv(made, Apply(made, s, OpenSession(l, i)))
  {
    assert LoginOk(made, s.db, s.logins[l]);
    DbKeeps(made, s, WithSession(s.db, i, Session(s.logins[l].user, s.logins[l].generation, None)));
  }

  lemma LogoutKeeps(made: Made, s: State, i: SessionId, at: int)
    requires Inv(made, s) && Enabled(made, s, Logout(i, at))
    ensures Inv(made, Apply(made, s, Logout(i, at)))
  {
    DbKeeps(made, s, Ended(s.db, i, at));
  }

  /** A statement of x: its transaction stays well-formed and apart from the others. */
  lemma WithKeeps(made: Made, s: State, x: TxnId, t: Txn)
    requires Inv(made, s) && TxnOk(made, s.db, t) && forall y :: y in s.txns && y != x ==> Disjoint(t, s.txns[y])
    ensures Inv(made, With(s, x, t))
  {
  }

  lemma SetKeeps(made: Made, s: State, x: TxnId, change: Change)
    requires Inv(made, s) && Enabled(made, s, SetPassword(x, change))
    ensures Inv(made, Apply(made, s, SetPassword(x, change)))
  {
    assert TxnOk(made, s.db, s.txns[x]);
    WithKeeps(made, s, x, SetChange(s.txns[x], change));
  }

  lemma StartKeeps(made: Made, s: State, x: TxnId, at: int)
    requires Inv(made, s) && Enabled(made, s, RevokeStart(x, at))
    ensures Inv(made, Apply(made, s, RevokeStart(x, at)))
  {
    assert TxnOk(made, s.db, s.txns[x]);
    WithKeeps(made, s, x, Start(s.txns[x], s.db, at));
  }

  lemma VisitKeeps(made: Made, s: State, x: TxnId, i: SessionId)
    requires Inv(made, s) && Enabled(made, s, RevokeOne(x, i))
    ensures Inv(made, Apply(made, s, RevokeOne(x, i)))
  {
    var t := s.txns[x];
    assert TxnOk(made, s.db, t) && Covered(s.db, t, i);
    forall j | j in t.seen ensures Covered(s.db, Visit(t, s.db, i), j) {
      assert Covered(s.db, t, j);
    }
    WithKeeps(made, s, x, Visit(t, s.db, i));
  }

  lemma BeginKeeps(made: Made, s: State, step: Step)
    requires Inv(made, s) && Enabled(made, s, step) && (step.Begin? || step.Abort?)
    ensures Inv(made, Apply(made, s, step))
  {
  }

  /** What a commit changes does not concern the rows of the other transactions. */
  lemma CommitKeeps(made: Made, s: State, x: TxnId)
    requires Inv(made, s) && Enabled(made, s, Commit(x))
    ensures Inv(made, Apply(made, s, Commit(x)))
  {
    var t, db' := s.txns[x], Committed(s.db, s.txns[x]);
    assert TxnOk(made, s.db, t);
    CommitKeepsDb(made, s.db, t);
    forall l | l in s.logins ensures LoginOk(made, db', s.logins[l]) {
      assert LoginOk(made, s.db, s.logins[l]);
    }
    forall y | y in s.txns && y != x ensures TxnOk(made, db', s.txns[y]) {
      CommitKeepsTxn(made, s.db, t, s.txns[y]);
    }
  }

  lemma CommitKeepsDb(made: Made, db: Db, t: Txn)
    requires DbOk(made, db) && TxnOk(made, db, t)
    ensures DbOk(made, Committed(db, t))
  {
  }

  lemma CommitKeepsTxn(made: Made, db: Db, t: Txn, o: Txn)
    requires DbOk(made, db) && TxnOk(made, db, t) && TxnOk(made, db, o) && Disjoint(t, o)
    ensures TxnOk(made, Committed(db, t), o)
  {
    forall i | i in o.seen ensures Covered(Committed(db, t), o, i) {
      assert Covered(db, o, i);
    }
  }

  lemma StepKeeps(made: Made, s: State, step: Step)
    requires Inv(made, s) && Enabled(made, s, step)
    ensures Inv(made, Apply(made, s, step))
  {
    match step
    case Signup(u, change, i) => SignupKeeps(made, s, u, change, i);
    case ReadUser(_, _, _) => LoginKeeps(made, s, step);
    case Rehash(l, h) => RehashKeeps(made, s, l, h);
    case OpenSession(l, i) => OpenKeeps(made, s, l, i);
    case GiveUp(_) => LoginKeeps(made, s, step);
    case Logout(i, at) => LogoutKeeps(made, s, i, at);
    case SetPassword(x, change) => SetKeeps(made, s, x, change);
    case RevokeStart(x, at) => StartKeeps(made, s, x, at);
    case RevokeOne(x, i) => VisitKeeps(made, s, x, i);
    case Commit(x) => CommitKeeps(made, s, x);
    case Begin(_, _, _) => BeginKeeps(made, s, step);
    case Abort(_) => BeginKeeps(made, s, step);
  }

  lemma {:induction false} RunKeeps(made: Made, steps: seq<Step>)
    requires Run(made, steps).Some?
    ensures Inv(made, Run(made, steps).value)
    decreases |steps|
  {
    if steps != [] {
      RunKeeps(made, steps[..|steps| - 1]);
      StepKeeps(made, Run(made, steps[..|steps| - 1]).value, steps[|steps| - 1]);
    }
  }

  // ----- what can happen -----

  predicate UserHeld(s: State, x: TxnId, u: UserId) {
    exists y :: y in s.txns && y != x && s.txns[y].change.Some? && s.txns[y].user == u
  }

  predicate SessionHeld(s: State, x: TxnId, i: SessionId) {
    exists y :: y in s.txns && y != x && i in s.txns[y].writes
  }

  /** In every reachable state a login succeeds exactly with the password of the stored
      hash; it may open its session, or give up, at any later time, and it upgrades the
      hash exactly if that is still the one it verified, waiting for nothing but a reset
      that holds the row. */
  lemma LoginsProceed(made: Made, steps: seq<Step>, l: LoginId, u: UserId, p: Password, h: Hash, i: SessionId)
    requires Run(made, steps).Some?
    ensures var s := Run(made, steps).value;
            && (l !in s.logins ==>
                  (Enabled(made, s, ReadUser(l, u, p)) <==> u in s.db.users && made(s.db.users[u]) == p))
            && (l in s.logins ==>
                  var login := s.logins[l];
                  && Enabled(made, s, GiveUp(l)) && (Enabled(made, s, OpenSession(l, i)) <==> i !in s.db.sessions)
                  && (i !in s.db.sessions ==> LiveOf(Apply(made, s, OpenSession(l, i)).db, login.user, i))
                  && (Enabled(made, s, Rehash(l, h)) <==>
                        made(h) == login.password
                        && forall y :: y in s.txns && s.txns[y].change.Some? ==> s.txns[y].user != login.user)
                  && (Enabled(made, s, Rehash(l, h)) ==>
                        Apply(made, s, Rehash(l, h)).db.users ==
                        if login.user in s.db.users && s.db.users[login.user] == login.verified
                        then s.db.users[login.user := h] else s.db.users))
  {
    RunKeeps(made, steps);
  }

  /** A logout ends the session whenever no other transaction has written its row; a
      reset and the end of all sessions wait for nothing but rows that others hold. */
  lemma RevocationsProceed(made: Made, s: State, x: TxnId, i: SessionId, at: int, change: Change)
    requires Inv(made, s)
    ensures i in s.db.sessions ==>
              && (Enabled(made, s, Logout(i, at)) <==> forall y :: y in s.txns ==> i !in s.txns[y].writes)
              && (Enabled(made, s, Logout(i, at)) ==> !Live(Apply(made, s, Logout(i, at)).db, i))
    ensures x !in s.txns ==>
              forall op, u :: u in s.db.users ==> Enabled(made, s, Begin(x, op, u))
    ensures x in s.txns ==>
              var t := s.txns[x];
              && Enabled(made, s, Abort(x))
              && match t.phase
                 case Begun =>
                   t.op == ResetPassword
                   && (Enabled(made, s, SetPassword(x, change)) <==>
                         made(change.hash) == change.password && !UserHeld(s, x, t.user))
                 case Ready => Enabled(made, s, RevokeStart(x, at))
                 case Revoking =>
                   && (i in t.pending ==> (Enabled(made, s, RevokeOne(x, i)) <==> !SessionHeld(s, x, i)))
                   && (t.pending == {} ==> Enabled(made, s, Commit(x)))
  {
    if x in s.txns {
      assert TxnOk(made, s.db, s.txns[x]);
    }
  }

  // ----- passwords -----

  /** In every reachable state each stored hash is of the password that its user was
      last given: no login brings back one that was replaced. */
  lemma StoredHashIsCurrent(made: Made, steps: seq<Step>, u: UserId)
    requires Run(made, steps).Some?
    ensures var db := Run(made, steps).value.db;
            && (u in db.users <==> u in db.given)
            && (u in db.users ==> db.given[u] != [] && made(db.users[u]) == db.given[u][|db.given[u]| - 1])
  {
    RunKeeps(made, steps);
    var db := Run(made, steps).value.db;
    assert u in db.users ==> UserOk(made, db, u);
  }

  /** The upgrade of a hash without the comparison. */
  function PlainRehashed(db: Db, login: Login, h: Hash): Db {
    if login.user in db.users then Db(db.users[login.user := h], db.sessions, db.given) else db
  }

  lemma RunSnoc(made: Made, steps: seq<Step>, last: Step)
    requires Run(made, steps).Some? && Enabled(made, Run(made, steps).value, last)
    ensures Run(made, steps + [last]) == Some(Apply(made, Run(made, steps).value, last))
  {
    assert (steps + [last])[..|steps|] == steps;
  }

  /** A login reads the user; the password is replaced; the login upgrades the hash. */
  function Read(): seq<Step> {
    [Signup(7, Change(10, 1), 3), ReadUser(4, 7, 1)]
  }

  function Replace(): seq<Step> {
    [Begin(5, ResetPassword, 7), SetPassword(5, Change(20, 2)), RevokeStart(5, 100), RevokeOne(5, 3), Commit(5)]
  }

  lemma ReadHappens(made: Made)
    requires made(10) == 1
    ensures Run(made, Read()) ==
            Some(State(Db(map[7 := 10], map[3 := Session(7, 1, None)], map[7 := [1]]), map[4 := Login(7, 10, 1, 1)],
                       map[]))
  {
    RunSnoc(made, [], Read()[0]);
    RunSnoc(made, [] + [Read()[0]], Read()[1]);
    assert [] + [Read()[0]] + [Read()[1]] == Read();
  }

  /** The reset before its commit. */
  function Replacing(): Txn {
    Txn(ResetPassword, 7, Revoking, Some(Change(20, 2)), 100, {3}, {}, map[3 := Session(7, 1, Some(100))])
  }

  /** One statement of the only open transaction. */
  lemma Next(made: Made, steps: seq<Step>, s: State, x: TxnId, t: Txn, step: Step, t': Txn)
    requires Run(made, steps) == Some(State(s.db, s.logins, map[x := t]))
    requires Enabled(made, State(s.db, s.logins, map[x := t]), step)
    requires Apply(made, State(s.db, s.logins, map[x := t]), step) == State(s.db, s.logins, map[x := t][x := t'])
    ensures Run(made, steps + [step]) == Some(State(s.db, s.logins, map[x := t']))
  {
    RunSnoc(made, steps, step);
    assert map[x := t][x := t'] == map[x := t'];
  }

  lemma ReplaceRuns(made: Made, before: seq<Step>, s: State)
    requires made(20) == 2 && Run(made, before) == Some(s) && s.txns == map[]
    requires s.db == Db(map[7 := 10], map[3 := Session(7, 1, None)], map[7 := [1]])
    ensures Run(made, before + Replace()[..4]) == Some(State(s.db, s.logins, map[5 := Replacing()]))
  {
    var a, b, c, d := Replace()[0], Replace()[1], Replace()[2], Replace()[3];
    var begun := Txn(ResetPassword, 7, Begun, None, 0, {}, {}, map[]);
    var changed := SetChange(begun, Change(20, 2));
    var started := Txn(ResetPassword, 7, Revoking, Some(Change(20, 2)), 100, {3}, {3}, map[]);
    RunSnoc(made, before, a);
    assert s.txns[5 := begun] == map[5 := begun];
    Next(made, before + [a], s, 5, begun, b, changed);
    StartsWith(s.db, changed, started);
    Next(made, before + [a] + [b], s, 5, changed, c, started);
    assert Visit(started, s.db, 3) == Replacing();
    Next(made, before + [a] + [b] + [c], s, 5, started, d, Replacing());
    assert before + [a] + [b] + [c] + [d] == before + Replace()[..4];
  }

  lemma StartsWith(db: Db, t: Txn, started: Txn)
    requires db.sessions == map[3 := Session(7, 1, None)] && t.user == 7
    requires started == Txn(t.op, 7, Revoking, t.change, 100, {3}, {3}, t.writes)
    ensures Start(t, db, 100) == started
  {
    assert (set i | i in db.sessions && db.sessions[i].user == t.user) == {3};
    assert (set i | i in {3} && Live(db, i)) == {3};
  }

  function Replaced(): State {
    State(Db(map[7 := 20], map[3 := Session(7, 1, Some(100))], map[7 := [1, 2]]), map[4 := Login(7, 10, 1, 1)], map[])
  }

  lemma ReplacedHappens(made: Made)
    requires made(10) == 1 && made(20) == 2
    ensures Run(made, Read() + Replace()) == Some(Replaced())
  {
    ReadHappens(made);
    var s := Run(made, Read()).value;
    ReplaceRuns(made, Read(), s);
    RunSnoc(made, Read() + Replace()[..4], Commit(5));
    assert Read() + Replace()[..4] + [Commit(5)] == Read() + Replace();
    ReplacingCommits();
    assert map[5 := Replacing()] - {5} == map[];
  }

  lemma ReplacingCommits()
    ensures Committed(Db(map[7 := 10], map[3 := Session(7, 1, None)], map[7 := [1]]), Replacing()) == Replaced().db
  {
    assert map[3 := Session(7, 1, None)] + map[3 := Session(7, 1, Some(100))] == map[3 := Session(7, 1, Some(100))];
    assert [1] + [2] == [1, 2];
    assert map[7 := 10][7 := 20] == map[7 := 20] && map[7 := [1]][7 := [1, 2]] == map[7 := [1, 2]];
  }

  /** The comparison is needed: without it the late upgrade stores a hash of the
      replaced password, and with it the hash stays. */
  lemma WithoutTheComparison(made: Made)
    requires made(10) == 1 && made(20) == 2 && made(11) == 1
    ensures Run(made, Read() + Replace()).Some?
    ensures var s := Run(made, Read() + Replace()).value;
            && 4 in s.logins && Enabled(made, s, Rehash(4, 11)) && s.db.given == map[7 := [1, 2]]
            && PlainRehashed(s.db, s.logins[4], 11).users == map[7 := 11]
            && Apply(made, s, Rehash(4, 11)).db.users == map[7 := 20]
  {
    ReplacedHappens(made);
  }

  // ----- revoked sessions -----

  lemma {:induction false} Prefix(made: Made, steps: seq<Step>, n: nat)
    requires Run(made, steps).Some? && n <= |steps|
    ensures Run(made, steps[..n]).Some?
    ensures n < |steps| ==>
              && Enabled(made, Run(made, steps[..n]).value, steps[n])
              && Run(made, steps[..n + 1]) == Some(Apply(made, Run(made, steps[..n]).value, steps[n]))
    decreases |steps|
  {
    if n < |steps| {
      var front := steps[..|steps| - 1];
      if n < |front| {
        Prefix(made, front, n);
        assert front[..n] == steps[..n] && front[..n + 1] == steps[..n + 1];
      } else {
        assert steps[..n] == front && steps[..n + 1] == steps;
      }
    } else {
      assert steps[..n] == steps;
    }
  }

  /** Revoked once and for all. */
  lemma RevokedStays(made: Made, s: State, step: Step, i: SessionId)
    requires Inv(made, s) && Enabled(made, s, step) && RevokedIn(s.db, i)
    ensures var db := Apply(made, s, step).db; i in db.sessions && db.sessions[i] == s.db.sessions[i]
  {
    if step.Commit? {
      assert TxnOk(made, s.db, s.txns[step.x]);
    }
  }

  lemma {:induction false} RevokedForever(made: Made, steps: seq<Step>, n: nat, i: SessionId)
    requires Run(made, steps).Some? && n <= |steps|
    requires Run(made, steps[..n]).Some? && RevokedIn(Run(made, steps[..n]).value.db, i)
    ensures var before, after := Run(made, steps[..n]).value.db, Run(made, steps).value.db;
            i in after.sessions && after.sessions[i] == before.sessions[i]
    decreases |steps|
  {
    if n == |steps| {
      assert steps[..n] == steps;
    } else {
      var front := steps[..|steps| - 1];
      assert front[..n] == steps[..n];
      RevokedForever(made, front, n, i);
      RunKeeps(made, front);
      RevokedStays(made, Run(made, front).value, steps[|steps| - 1], i);
    }
  }

  /** If x is still open, its revoke statement saw the session. */
  predicate Saw(s: State, x: TxnId, i: SessionId) {
    x in s.txns ==> s.txns[x].phase == Revoking && i in s.txns[x].seen
  }

  lemma SawStays(made: Made, s: State, step: Step, x: TxnId, i: SessionId)
    requires Saw(s, x, i) && Enabled(made, s, step) && !(step.Begin? && step.x == x)
    ensures Saw(Apply(made, s, step), x, i)
  {
  }

  predicate SawAt(made: Made, steps: seq<Step>, n: nat, x: TxnId, i: SessionId)
    requires n <= |steps|
  {
    Run(made, steps[..n]).Some? && Saw(Run(made, steps[..n]).value, x, i)
  }

  lemma SawNext(made: Made, steps: seq<Step>, n: nat, x: TxnId, i: SessionId)
    requires Run(made, steps).Some? && n < |steps| && SawAt(made, steps, n, x, i)
    requires !(steps[n].Begin? && steps[n].x == x)
    ensures SawAt(made, steps, n + 1, x, i)
  {
    Prefix(made, steps, n);
    SawStays(made, Run(made, steps[..n]).value, steps[n], x, i);
  }

  lemma {:induction false} StillSeen(made: Made, steps: seq<Step>, m: nat, n: nat, x: TxnId, i: SessionId)
    requires Run(made, steps).Some? && m <= n <= |steps| && SawAt(made, steps, m, x, i)
    requires forall l :: m <= l < n ==> !(steps[l].Begin? && steps[l].x == x)
    ensures SawAt(made, steps, n, x, i)
    decreases n
  {
    if m < n {
      StillSeen(made, steps, m, n - 1, x, i);
      SawNext(made, steps, n - 1, x, i);
    }
  }

  /** After n steps x is open and its user has the session. */
  predicate HasAt(made: Made, steps: seq<Step>, n: nat, x: TxnId, i: SessionId)
    requires n <= |steps|
  {
    Run(made, steps[..n]).Some? &&
    var s := Run(made, steps[..n]).value;
    x in s.txns && i in s.db.sessions && s.db.sessions[i].user == s.txns[x].user
  }

  predicate RevokedIn(db: Db, i: SessionId) {
    i in db.sessions && db.sessions[i].revokedAt.Some?
  }

  /** The revoke statement sees the sessions its user has. */
  lemma StartSees(made: Made, steps: seq<Step>, m: nat, x: TxnId, at: int, i: SessionId)
    requires Run(made, steps).Some? && m < |steps| && steps[m] == RevokeStart(x, at)
    requires HasAt(made, steps, m, x, i)
    ensures SawAt(made, steps, m + 1, x, i)
  {
    Prefix(made, steps, m);
  }

  /** The commit revokes what the statement saw. */
  lemma CommitRevokes(made: Made, steps: seq<Step>, n: nat, x: TxnId, i: SessionId)
    requires Run(made, steps).Some? && n < |steps| && steps[n] == Commit(x) && SawAt(made, steps, n, x, i)
    ensures Run(made, steps[..n + 1]).Some? && RevokedIn(Run(made, steps[..n + 1]).value.db, i)
  {
    Prefix(made, steps, n);
    RunKeeps(made, steps[..n]);
    var s := Run(made, steps[..n]).value;
    CommittedRevokes(made, s.db, s.txns[x], i);
  }

  lemma CommittedRevokes(made: Made, db: Db, t: Txn, i: SessionId)
    requires TxnOk(made, db, t) && t.pending == {} && i in t.seen
    ensures RevokedIn(Committed(db, t), i)
  {
    assert Covered(db, t, i);
  }

  /** Every session that a user had when the revoke statement of a reset, or of the end
      of all sessions, began is revoked from its commit on, whatever ran in between. */
  lemma RevocationIsComplete(made: Made, steps: seq<Step>, m: nat, n: nat, x: TxnId, at: int, i: SessionId)
    requires Run(made, steps).Some? && m < n < |steps|
    requires steps[m] == RevokeStart(x, at) && steps[n] == Commit(x)
    requires forall l :: m < l < n ==> !(steps[l].Begin? && steps[l].x == x)
    requires HasAt(made, steps, m, x, i)
    ensures RevokedIn(Run(made, steps).value.db, i)
  {
    StartSees(made, steps, m, x, at, i);
    StillSeen(made, steps, m + 1, n, x, i);
    CommitRevokes(made, steps, n, x, i);
    RevokedForever(made, steps, n + 1, i);
  }

  // ----- sessions of replaced passwords -----

  /** Every live session was opened with the current password of its user. */
  ghost predicate SessionsCurrent(db: Db) {
    forall i :: Live(db, i) ==> OfCurrent(db, db.sessions[i])
  }

  predicate OfCurrent(db: Db, session: Session) {
    session.user in db.given && session.generation == |db.given[session.user]|
  }

  /** A login opens its session before the password it read is replaced, and a reset
      commits with no session live that was opened since its revoke statement. */
  ghost predicate Prompt(s: State, step: Step) {
    match step
    case OpenSession(l, _) =>
      l in s.logins && s.logins[l].user in s.db.given && s.logins[l].generation == |s.db.given[s.logins[l].user]|
    case Commit(x) =>
      x in s.txns
      && (s.txns[x].op == ResetPassword ==> forall i :: LiveOf(s.db, s.txns[x].user, i) ==> i in s.txns[x].seen)
    case _ => true
  }

  /** A step keeps live sessions current exactly if it is prompt. */
  lemma PromptStepIff(made: Made, s: State, step: Step)
    requires Inv(made, s) && Enabled(made, s, step) && SessionsCurrent(s.db)
    ensures SessionsCurrent(Apply(made, s, step).db) <==> Prompt(s, step)
  {
    match step
    case OpenSession(l, i) =>
      assert LoginOk(made, s.db, s.logins[l]);
      OpenedIff(s.db, i, Session(s.logins[l].user, s.logins[l].generation, None));
    case Commit(x) =>
      assert TxnOk(made, s.db, s.txns[x]);
      CommittedIff(made, s.db, s.txns[x]);
    case Signup(u, change, i) =>
      SignedUpKeeps(made, s.db, u, change, i);
    case Logout(i, at) =>
    case _ =>
  }

  lemma OpenedIff(db: Db, i: SessionId, session: Session)
    requires SessionsCurrent(db) && i !in db.sessions && session.revokedAt == None
    ensures SessionsCurrent(WithSession(db, i, session)) <==> OfCurrent(db, session)
  {
    var after := WithSession(db, i, session);
    assert Live(after, i) && after.sessions[i] == session;
    forall j | Live(after, j) && j != i ensures OfCurrent(after, after.sessions[j]) {
      assert Live(db, j);
    }
  }

  lemma SignedUpKeeps(made: Made, db: Db, u: UserId, change: Change, i: SessionId)
    requires DbOk(made, db) && SessionsCurrent(db) && u !in db.users && i !in db.sessions
    ensures SessionsCurrent(SignedUp(db, u, change, i))
  {
    var after := SignedUp(db, u, change, i);
    forall j | Live(after, j) ensures OfCurrent(after, after.sessions[j]) {
      if j != i {
        assert Live(db, j) && OfCurrent(db, db.sessions[j]);
      }
    }
  }

  lemma CommittedIff(made: Made, db: Db, t: Txn)
    requires DbOk(made, db) && TxnOk(made, db, t) && t.phase == Revoking && t.pending == {} && SessionsCurrent(db)
    ensures SessionsCurrent(Committed(db, t)) <==>
            (t.op == ResetPassword ==> forall i :: LiveOf(db, t.user, i) ==> i in t.seen)
  {
    var after := Committed(db, t);
    forall i ensures Live(after, i) <==> Live(db, i) && i !in t.writes {
    }
    forall i | Live(after, i) ensures after.sessions[i] == db.sessions[i] && OfCurrent(db, db.sessions[i]) {
    }
    if t.op == ResetPassword {
      forall i | LiveOf(db, t.user, i) ensures i in t.seen <==> i in t.writes {
        assert i in t.seen ==> Covered(db, t, i);
      }
      forall i | Live(after, i) ensures OfCurrent(after, after.sessions[i]) <==> after.sessions[i].user != t.user {
      }
    }
  }

  ghost predicate CurrentAt(made: Made, steps: seq<Step>, n: nat)
    requires n <= |steps|
  {
    Run(made, steps[..n]).Some? && SessionsCurrent(Run(made, steps[..n]).value.db)
  }

  ghost predicate PromptAt(made: Made, steps: seq<Step>, n: nat)
    requires n < |steps|
  {
    Run(made, steps[..n]).Some? && Prompt(Run(made, steps[..n]).value, steps[n])
  }

  lemma NextIff(made: Made, steps: seq<Step>, n: nat)
    requires Run(made, steps).Some? && n < |steps| && CurrentAt(made, steps, n)
    ensures CurrentAt(made, steps, n + 1) <==> PromptAt(made, steps, n)
  {
    Prefix(made, steps, n);
    RunKeeps(made, steps[..n]);
    PromptStepIff(made, Run(made, steps[..n]).value, steps[n]);
  }

  lemma {:induction false} PromptKeepsCurrent(made: Made, steps: seq<Step>, n: nat)
    requires Run(made, steps).Some? && n <= |steps| && forall m :: 0 <= m < n ==> PromptAt(made, steps, m)
    ensures CurrentAt(made, steps, n)
    decreases n
  {
    if n == 0 {
      assert steps[..0] == [];
    } else {
      PromptKeepsCurrent(made, steps, n - 1);
      NextIff(made, steps, n - 1);
    }
  }

  /** Throughout a run every live session belongs to the current password of its user,
      exactly if every step of the run is prompt. */
  lemma SessionsCurrentIff(made: Made, steps: seq<Step>)
    requires Run(made, steps).Some?
    ensures (forall n :: 0 <= n <= |steps| ==> CurrentAt(made, steps, n)) <==>
            (forall n :: 0 <= n < |steps| ==> PromptAt(made, steps, n))
  {
    if forall n :: 0 <= n < |steps| ==> PromptAt(made, steps, n) {
      forall n | 0 <= n <= |steps| ensures CurrentAt(made, steps, n) {
        PromptKeepsCurrent(made, steps, n);
      }
    }
    if forall n :: 0 <= n <= |steps| ==> CurrentAt(made, steps, n) {
      forall n | 0 <= n < |steps| ensures PromptAt(made, steps, n) {
        NextIff(made, steps, n);
      }
    }
  }

  /** There are runs that are not prompt: the login reads the user, the password is
      replaced, and the session opened then is live although its password is not current. */
  lemma LateLogin(made: Made)
    requires made(10) == 1 && made(20) == 2
    ensures var steps := Read() + Replace() + [OpenSession(4, 6)];
            Run(made, steps).Some? && Live(Run(made, steps).value.db, 6) && !SessionsCurrent(Run(made, steps).value.db)
  {
    ReplacedHappens(made);
    RunSnoc(made, Read() + Replace(), OpenSession(4, 6));
    var after := WithSession(Replaced().db, 6, Session(7, 1, None));
    assert Live(after, 6) && !OfCurrent(after, after.sessions[6]);
  }
}
