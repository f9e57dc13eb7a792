/** The services are runs of the protocol: with no other transaction open, the
    statements of a service lead to exactly the rows the service leaves. */
module AuthSerial {
  import opened Wrappers
  import opened AuthTokens
  import opened AuthInvariant
  import opened AuthService

  /** These steps are possible one after another and lead from s to r. */
  predicate Leads(s: State, cooldown: int, steps: seq<Step>, r: State)
    decreases |steps|
  {
    if steps == [] then s == r
    else Enabled(s, cooldown, steps[0]) && Leads(Apply(s, cooldown, steps[0]), cooldown, steps[1..], r)
  }

  lemma First(s: State, cooldown: int, step: Step, mid: State, rest: seq<Step>, r: State)
    requires Enabled(s, cooldown, step) && Apply(s, cooldown, step) == mid && Leads(mid, cooldown, rest, r)
    ensures Leads(s, cooldown, [step] + rest, r)
  {
    assert ([step] + rest)[1..] == rest;
  }

  /** Only one transaction is open. */
  function Only(db: Db, x: TxnId, t: Txn, clock: int): State {
    State(db, map[x := t], clock)
  }

  function Idle(db: Db, clock: int): State {
    State(db, map[], clock)
  }

  /** One statement of the only open transaction. */
  lemma Next(db: Db, cooldown: int, x: TxnId, t: Txn, clock: int, step: Step, t': Txn, rest: seq<Step>, r: State)
    requires Enabled(Only(db, x, t, clock), cooldown, step)
    requires Apply(Only(db, x, t, clock), cooldown, step) == With(Only(db, x, t, clock), x, t')
    requires Leads(Only(db, x, t', clock), cooldown, rest, r)
    ensures Leads(Only(db, x, t, clock), cooldown, [step] + rest, r)
  {
    assert map[x := t][x := t'] == map[x := t'];
    First(Only(db, x, t, clock), cooldown, step, Only(db, x, t', clock), rest, r);
  }

  lemma {:induction false} Then(s: State, cooldown: int, a: seq<Step>, mid: State, b: seq<Step>, r: State)
    requires Leads(s, cooldown, a, mid) && Leads(mid, cooldown, b, r)
    ensures Leads(s, cooldown, a + b, r)
    decreases |a|
  {
    if a == [] {
      assert a + b == b;
    } else {
      Then(Apply(s, cooldown, a[0]), cooldown, a[1..], mid, b, r);
      assert (a + b)[1..] == a[1..] + b;
    }
  }

  /** Two statements of the only open transaction. */
  lemma Both(db: Db, cooldown: int, x: TxnId, t: Txn, clock: int, a: Step, mid: Txn, b: Step, r: Txn)
    requires Enabled(Only(db, x, t, clock), cooldown, a)
    requires Apply(Only(db, x, t, clock), cooldown, a) == With(Only(db, x, t, clock), x, mid)
    requires Enabled(Only(db, x, mid, clock), cooldown, b)
    requires Apply(Only(db, x, mid, clock), cooldown, b) == With(Only(db, x, mid, clock), x, r)
    ensures Leads(Only(db, x, t, clock), cooldown, [a, b], Only(db, x, r, clock))
  {
    Next(db, cooldown, x, mid, clock, b, r, [], Only(db, x, r, clock));
    Next(db, cooldown, x, t, clock, a, mid, [b], Only(db, x, r, clock));
    assert [b] + [] == [b] && [a] + [b] == [a, b];
  }

  lemma CommitLeads(db: Db, cooldown: int, x: TxnId, t: Txn, clock: int)
    requires t.phase == Done
    ensures Leads(Only(db, x, t, clock), cooldown, [Commit(x)], Idle(Committed(db, t), clock))
  {
    assert map[x := t] - {x} == map[];
    First(Only(db, x, t, clock), cooldown, Commit(x), Idle(Committed(db, t), clock), [], Idle(Committed(db, t), clock));
  }

  /** Retired rows are rewritten; the new one is inserted, its mail enqueued. */
  lemma InsertLeads(db: Db, cooldown: int, x: TxnId, t: Txn, clock: int, k: TokenId, expiresAt: int)
    requires t.phase == Retiring && t.pending == {} && k !in db.tokens && k !in t.writes
    ensures var r := Post(Insert(t, k, expiresAt), TokenMail(KindOf(t.op), k));
            Leads(Only(db, x, t, clock), cooldown, [InsertToken(x, k, expiresAt), EnqueueTokenMail(x), Commit(x)],
                  Idle(Committed(db, r), clock))
  {
    var inserted := Insert(t, k, expiresAt);
    var posted := Post(inserted, TokenMail(KindOf(t.op), k));
    var r := Idle(Committed(db, posted), clock);
    CommitLeads(db, cooldown, x, posted, clock);
    assert map[x := inserted][x := posted] == map[x := posted] && map[x := t][x := inserted] == map[x := inserted];
    First(Only(db, x, inserted, clock), cooldown, EnqueueTokenMail(x), Only(db, x, posted, clock), [Commit(x)], r);
    First(Only(db, x, t, clock), cooldown, InsertToken(x, k, expiresAt), Only(db, x, inserted, clock),
          [EnqueueTokenMail(x), Commit(x)], r);
  }

  /** What leads on from a reachable state is reachable. */
  lemma {:induction false} LeadsRuns(cooldown: int, before: seq<Step>, steps: seq<Step>, r: State)
    requires Run(cooldown, before).Some? && Leads(Run(cooldown, before).value, cooldown, steps, r)
    ensures Run(cooldown, before + steps) == Some(r)
    decreases |steps|
  {
    if steps == [] {
      assert before + steps == before;
    } else {
      assert (before + [steps[0]])[..|before|] == before;
      LeadsRuns(cooldown, before + [steps[0]], steps[1..], r);
      assert before + [steps[0]] + steps[1..] == before + steps;
    }
  }

  /** What a transaction commits does not depend on the time it last read. */
  lemma SameCommit(db: Db, t: Txn, o: Txn)
    requires t.op == o.op && t.user == o.user && t.token == o.token && t.writes == o.writes && t.row == o.row
    requires t.mails == o.mails
    ensures Committed(db, t) == Committed(db, o)
  {
  }

  // ----- issuing -----

  /** The live token of a slot: at most one, and the last one issued. */
  function LiveToken(db: Db, slot: Slot): Option<TokenId> {
    var all := IssuedTo(db, slot);
    if all != [] && Live(db, slot, all[|all| - 1]) then Some(all[|all| - 1]) else None
  }

  lemma LiveTokenIsTheOnlyOne(db: Db, slot: Slot, k: TokenId)
    requires LastIsLive(db)
    ensures Live(db, slot, k) <==> LiveToken(db, slot) == Some(k)
  {
    assert Live(db, slot, k) ==> IsLast(IssuedTo(db, slot), k);
  }

  /** The statements of createToken and the mail, from the time read on. */
  function IssueSteps(db: Db, x: TxnId, slot: Slot, k: TokenId, expiresAt: int): seq<Step> {
    RetireSteps(x, LiveToken(db, slot)) + [InsertToken(x, k, expiresAt), EnqueueTokenMail(x), Commit(x)]
  }

  /** The transaction once its retire statement is done. */
  function AfterRetiring(db: Db, t: Txn): Txn {
    Txn(t.op, t.user, Retiring, t.locked, t.now, {}, t.token, Retirements(db, SlotOf(t), t.now), t.row, t.mails)
  }

  /** The retire statement: it starts, and rewrites the live token if there is one. */
  function RetireSteps(x: TxnId, live: Option<TokenId>): seq<Step> {
    [RetireStart(x)] + if live.Some? then [RetireOne(x, live.value)] else []
  }

  /** With this live token, what the retire statement finds and what it leaves. */
  lemma RetiresTheLiveToken(db: Db, t: Txn, live: Option<TokenId>)
    requires LastIsLive(db) && t.writes == map[] && live == LiveToken(db, SlotOf(t))
    ensures live.Some? ==> live.value in db.tokens && live.value in Retire(t, db).pending
    ensures live.None? ==> Retire(t, db) == AfterRetiring(db, t)
    ensures live.Some? ==> RetireRow(Retire(t, db), db, live.value) == AfterRetiring(db, t)
  {
    forall j ensures Live(db, SlotOf(t), j) <==> live == Some(j) {
      LiveTokenIsTheOnlyOne(db, SlotOf(t), j);
    }
    if live.None? {
      assert Retire(t, db).pending == {} && Retirements(db, SlotOf(t), t.now) == map[];
    } else {
      assert Retire(t, db).pending == {live.value};
      assert Retirements(db, SlotOf(t), t.now) == map[live.value := Consume(db.tokens[live.value], t.now)];
    }
  }

  lemma RetireLeads(db: Db, cooldown: int, x: TxnId, t: Txn, clock: int, live: Option<TokenId>)
    requires LastIsLive(db) && t.phase == Stamped && t.writes == map[] && live == LiveToken(db, SlotOf(t))
    ensures Leads(Only(db, x, t, clock), cooldown, RetireSteps(x, live), Only(db, x, AfterRetiring(db, t), clock))
  {
    var retiring, r := Retire(t, db), AfterRetiring(db, t);
    RetiresTheLiveToken(db, t, live);
    if live.None? {
      Next(db, cooldown, x, t, clock, RetireStart(x), retiring, [], Only(db, x, r, clock));
    } else {
      Both(db, cooldown, x, t, clock, RetireStart(x), retiring, RetireOne(x, live.value), r);
      assert [RetireStart(x)] + [RetireOne(x, live.value)] == [RetireStart(x), RetireOne(x, live.value)];
    }
  }

  lemma IssueLeads(db: Db, cooldown: int, x: TxnId, t: Txn, clock: int, k: TokenId, expiresAt: int)
    requires LastIsLive(db) && t.phase == Stamped && t.locked && Issues(t.op) && t.writes == map[]
    requires t.mails == multiset{} && k !in db.tokens
    ensures Leads(Only(db, x, t, clock), cooldown, IssueSteps(db, x, SlotOf(t), k, expiresAt),
                  Idle(Committed(db, Issuing(db, t.op, t.user, t.row, t.now, k, expiresAt)), clock))
  {
    var retired := AfterRetiring(db, t);
    var live := LiveToken(db, SlotOf(t));
    RetireLeads(db, cooldown, x, t, clock, live);
    InsertLeads(db, cooldown, x, retired, clock, k, expiresAt);
    SameCommit(db, Post(Insert(retired, k, expiresAt), TokenMail(KindOf(t.op), k)),
               Issuing(db, t.op, t.user, t.row, t.now, k, expiresAt));
    Then(Only(db, x, t, clock), cooldown, RetireSteps(x, live), Only(db, x, retired, clock),
         [InsertToken(x, k, expiresAt), EnqueueTokenMail(x), Commit(x)],
         Idle(Committed(db, Issuing(db, t.op, t.user, t.row, t.now, k, expiresAt)), clock));
  }

  lemma SignupBegins(db: Db, cooldown: int, x: TxnId, u: UserId, password: int, clock: int)
    requires u !in db.users
    ensures var stamped := Txn(AuthTokens.Signup, u, Stamped, true, clock, {}, 0, map[], Some(User(None, password)),
                               multiset{});
            Leads(Idle(db, clock), cooldown, [BeginSignup(x, u, password), Stamp(x)], Only(db, x, stamped, clock))
  {
    var begun := Txn(AuthTokens.Signup, u, Locked, true, clock, {}, 0, map[], Some(User(None, password)), multiset{});
    var stamped := AtPhase(begun, Stamped, clock);
    Next(db, cooldown, x, begun, clock, Stamp(x), stamped, [], Only(db, x, stamped, clock));
    First(Idle(db, clock), cooldown, BeginSignup(x, u, password), Only(db, x, begun, clock), [Stamp(x)],
          Only(db, x, stamped, clock));
    assert [Stamp(x)] + [] == [Stamp(x)] &&
           [BeginSignup(x, u, password)] + [Stamp(x)] == [BeginSignup(x, u, password), Stamp(x)];
  }

  /** Begin and read the time, then issue. */
  lemma SignupIsARun(db: Db, cooldown: int, x: TxnId, u: UserId, password: int, clock: int, k: TokenId, expiresAt: int)
    requires DbOk(db, cooldown) && u !in db.users && k !in db.tokens
    ensures Leads(Idle(db, clock), cooldown,
                  [BeginSignup(x, u, password), Stamp(x)]
                    + IssueSteps(db, x, Slot(u, AuthTokens.Verification), k, expiresAt),
                  Idle(Issued(WithUser(db, u, User(None, password)), Slot(u, AuthTokens.Verification), clock, k,
                              expiresAt), clock))
  {
    var stamped := Txn(AuthTokens.Signup, u, Stamped, true, clock, {}, 0, map[], Some(User(None, password)),
                       multiset{});
    SignupKeeps(db, cooldown, u, password, clock, k, expiresAt);
    SignupBegins(db, cooldown, x, u, password, clock);
    IssueLeads(db, cooldown, x, stamped, clock, k, expiresAt);
    Then(Idle(db, clock), cooldown, [BeginSignup(x, u, password), Stamp(x)], Only(db, x, stamped, clock),
         IssueSteps(db, x, Slot(u, AuthTokens.Verification), k, expiresAt),
         Idle(Issued(WithUser(db, u, User(None, password)), Slot(u, AuthTokens.Verification), clock, k, expiresAt),
              clock));
  }

  lemma ForgotBegins(db: Db, cooldown: int, x: TxnId, u: UserId, clock: int)
    requires u in db.users
    ensures var locked := Txn(Forgot, u, Stamped, true, clock, {}, 0, map[], None, multiset{});
            Leads(Idle(db, clock), cooldown, [BeginIssue(x, Forgot, u), Stamp(x), LockUser(x)],
                  Only(db, x, locked, clock))
  {
    var begun := Txn(Forgot, u, Opened, false, clock, {}, 0, map[], None, multiset{});
    var clocked := AtPhase(begun, Clocked, clock);
    var locked := AfterLock(clocked);
    Both(db, cooldown, x, begun, clock, Stamp(x), clocked, LockUser(x), locked);
    First(Idle(db, clock), cooldown, BeginIssue(x, Forgot, u), Only(db, x, begun, clock), [Stamp(x), LockUser(x)],
          Only(db, x, locked, clock));
    assert [BeginIssue(x, Forgot, u)] + [Stamp(x), LockUser(x)] == [BeginIssue(x, Forgot, u), Stamp(x), LockUser(x)];
  }

  /** Begin, read the time and lock the user, then issue. */
  lemma ForgotIsARun(db: Db, cooldown: int, x: TxnId, u: UserId, clock: int, k: TokenId, expiresAt: int)
    requires LastIsLive(db) && u in db.users && k !in db.tokens
    ensures Leads(Idle(db, clock), cooldown,
                  [BeginIssue(x, Forgot, u), Stamp(x), LockUser(x)]
                    + IssueSteps(db, x, Slot(u, AuthTokens.Reset), k, expiresAt),
                  Idle(Issued(db, Slot(u, AuthTokens.Reset), clock, k, expiresAt), clock))
  {
    var locked := Txn(Forgot, u, Stamped, true, clock, {}, 0, map[], None, multiset{});
    IssuedIsCommitted(db, Forgot, u, clock, k, expiresAt);
    ForgotBegins(db, cooldown, x, u, clock);
    IssueLeads(db, cooldown, x, locked, clock, k, expiresAt);
    Then(Idle(db, clock), cooldown, [BeginIssue(x, Forgot, u), Stamp(x), LockUser(x)], Only(db, x, locked, clock),
         IssueSteps(db, x, Slot(u, AuthTokens.Reset), k, expiresAt),
         Idle(Issued(db, Slot(u, AuthTokens.Reset), clock, k, expiresAt), clock));
  }

  function ResendSteps(x: TxnId, u: UserId, elapsed: nat, issue: seq<Step>): seq<Step> {
    [BeginIssue(x, Resend, u), LockUser(x), CheckCooldown(x)] + ([Tick(elapsed), Stamp(x)] + issue)
  }

  function ResendStamped(u: UserId, now: int): Txn {
    Txn(Resend, u, Stamped, true, now, {}, 0, map[], None, multiset{})
  }

  /** The statements that issue the fresh verification token. */
  function ResendIssuing(db: Db, x: TxnId, u: UserId, k: TokenId, expiresAt: int): seq<Step> {
    IssueSteps(db, x, Slot(u, AuthTokens.Verification), k, expiresAt)
  }

  /** What a resend leaves. */
  function Resent(db: Db, u: UserId, now: int, k: TokenId, expiresAt: int): State {
    Idle(Issued(db, Slot(u, AuthTokens.Verification), now, k, expiresAt), now)
  }

  lemma ResendIssues(db: Db, cooldown: int, x: TxnId, u: UserId, now: int, k: TokenId, expiresAt: int, steps: seq<Step>,
                     r: State)
    requires LastIsLive(db) && k !in db.tokens
    requires steps == ResendIssuing(db, x, u, k, expiresAt) && r == Resent(db, u, now, k, expiresAt)
    ensures Leads(Only(db, x, ResendStamped(u, now), now), cooldown, steps, r)
  {
    IssuedIsCommitted(db, Resend, u, now, k, expiresAt);
    IssueLeads(db, cooldown, x, ResendStamped(u, now), now, k, expiresAt);
  }

  lemma ResendBegins(db: Db, cooldown: int, x: TxnId, u: UserId, clock: int)
    requires u in db.users && db.users[u].verifiedAt == None && CooledDown(db, cooldown, u, clock)
    ensures var checked := Txn(Resend, u, Checked, true, clock, {}, 0, map[], None, multiset{});
            Leads(Idle(db, clock), cooldown, [BeginIssue(x, Resend, u), LockUser(x), CheckCooldown(x)],
                  Only(db, x, checked, clock))
  {
    var begun := Txn(Resend, u, Opened, false, clock, {}, 0, map[], None, multiset{});
    var locked := AfterLock(begun);
    var checked := AtPhase(locked, Checked, clock);
    Both(db, cooldown, x, begun, clock, LockUser(x), locked, CheckCooldown(x), checked);
    First(Idle(db, clock), cooldown, BeginIssue(x, Resend, u), Only(db, x, begun, clock),
          [LockUser(x), CheckCooldown(x)], Only(db, x, checked, clock));
    assert [BeginIssue(x, Resend, u)] + [LockUser(x), CheckCooldown(x)] ==
           [BeginIssue(x, Resend, u), LockUser(x), CheckCooldown(x)];
  }

  lemma ResendStamps(db: Db, cooldown: int, x: TxnId, u: UserId, clock: int, elapsed: nat)
    ensures var checked := Txn(Resend, u, Checked, true, clock, {}, 0, map[], None, multiset{});
            var stamped := Txn(Resend, u, Stamped, true, clock + elapsed, {}, 0, map[], None, multiset{});
            Leads(Only(db, x, checked, clock), cooldown, [Tick(elapsed), Stamp(x)],
                  Only(db, x, stamped, clock + elapsed))
  {
    var checked := Txn(Resend, u, Checked, true, clock, {}, 0, map[], None, multiset{});
    var stamped := AtPhase(checked, Stamped, clock + elapsed);
    Next(db, cooldown, x, checked, clock + elapsed, Stamp(x), stamped, [], Only(db, x, stamped, clock + elapsed));
    First(Only(db, x, checked, clock), cooldown, Tick(elapsed), Only(db, x, checked, clock + elapsed), [Stamp(x)],
          Only(db, x, stamped, clock + elapsed));
    assert [Stamp(x)] + [] == [Stamp(x)] && [Tick(elapsed)] + [Stamp(x)] == [Tick(elapsed), Stamp(x)];
  }

  lemma ResendContinues(db: Db, cooldown: int, x: TxnId, u: UserId, clock: int, elapsed: nat, steps: seq<Step>,
                        r: State)
    requires u in db.users && db.users[u].verifiedAt == None && CooledDown(db, cooldown, u, clock)
    requires Leads(Only(db, x, ResendStamped(u, clock + elapsed), clock + elapsed), cooldown, steps, r)
    ensures Leads(Idle(db, clock), cooldown, ResendSteps(x, u, elapsed, steps), r)
  {
    var checked := Txn(Resend, u, Checked, true, clock, {}, 0, map[], None, multiset{});
    ResendStamps(db, cooldown, x, u, clock, elapsed);
    Then(Only(db, x, checked, clock), cooldown, [Tick(elapsed), Stamp(x)],
         Only(db, x, ResendStamped(u, clock + elapsed), clock + elapsed), steps, r);
    ResendBegins(db, cooldown, x, u, clock);
    Then(Idle(db, clock), cooldown, [BeginIssue(x, Resend, u), LockUser(x), CheckCooldown(x)],
         Only(db, x, checked, clock), [Tick(elapsed), Stamp(x)] + steps, r);
  }

  /** Begin, lock the user and check the cool-down; read the time again; issue. */
  lemma ResendIsARun(db: Db, cooldown: int, x: TxnId, u: UserId, clock: int, elapsed: nat, k: TokenId, expiresAt: int)
    requires LastIsLive(db) && u in db.users && db.users[u].verifiedAt == None && CooledDown(db, cooldown, u, clock)
    requires k !in db.tokens
    ensures Leads(Idle(db, clock), cooldown, ResendSteps(x, u, elapsed, ResendIssuing(db, x, u, k, expiresAt)),
                  Resent(db, u, clock + elapsed, k, expiresAt))
  {
    var steps, r := ResendIssuing(db, x, u, k, expiresAt), Resent(db, u, clock + elapsed, k, expiresAt);
    ResendIssues(db, cooldown, x, u, clock + elapsed, k, expiresAt, steps, r);
    ResendContinues(db, cooldown, x, u, clock, elapsed, steps, r);
  }

  // ----- consuming -----

  /** The transaction once it has consumed the token. */
  function Consuming(db: Db, op: Op, k: TokenId, at: int, clock: int): Txn
    requires k in db.tokens
  {
    AfterConsume(Txn(op, 0, Opened, false, clock, {}, k, map[], None, multiset{}), db, at)
  }

  lemma ConsumeLeads(db: Db, cooldown: int, x: TxnId, op: Op, k: TokenId, at: int, clock: int)
    requires !Issues(op) && Consumable(db, KindOf(op), k, at) && at <= clock
    ensures Leads(Idle(db, clock), cooldown, [BeginConsume(x, op, k), ConsumeToken(x, at)],
                  Only(db, x, Consuming(db, op, k, at, clock), clock))
  {
    var begun := Txn(op, 0, Opened, false, clock, {}, k, map[], None, multiset{});
    var consumed := Consuming(db, op, k, at, clock);
    Next(db, cooldown, x, begun, clock, ConsumeToken(x, at), consumed, [], Only(db, x, consumed, clock));
    First(Idle(db, clock), cooldown, BeginConsume(x, op, k), Only(db, x, begun, clock), [ConsumeToken(x, at)],
          Only(db, x, consumed, clock));
    assert [ConsumeToken(x, at)] + [] == [ConsumeToken(x, at)];
    assert [BeginConsume(x, op, k)] + [ConsumeToken(x, at)] == [BeginConsume(x, op, k), ConsumeToken(x, at)];
  }

  lemma VerifyLeads(db: Db, cooldown: int, x: TxnId, t: Txn, k: TokenId, at: int, later: int, clock: int)
    requires k in db.tokens && db.tokens[k].slot.user in db.users
    requires t == Consuming(db, AuthTokens.VerifyEmail, k, at, clock)
    ensures var effect := if db.users[t.user].verifiedAt == None then [MarkVerified(x, later), EnqueueWelcome(x)]
              else [MarkVerified(x, later)];
            Leads(Only(db, x, t, clock), cooldown, effect + [Commit(x)],
                  Idle(Committed(db, Verifying(db, k, at, later)), clock))
  {
    var r := Idle(Committed(db, Verifying(db, k, at, later)), clock);
    if db.users[t.user].verifiedAt == None {
      var marked := WithRow(t, Marked, User(Some(later), db.users[t.user].password));
      var posted := Post(marked, Welcome(t.user));
      SameCommit(db, posted, Verifying(db, k, at, later));
      CommitLeads(db, cooldown, x, posted, clock);
      Both(db, cooldown, x, t, clock, MarkVerified(x, later), marked, EnqueueWelcome(x), posted);
      Then(Only(db, x, t, clock), cooldown, [MarkVerified(x, later), EnqueueWelcome(x)], Only(db, x, posted, clock),
           [Commit(x)], r);
    } else {
      var done := AtPhase(t, Done, t.now);
      SameCommit(db, done, Verifying(db, k, at, later));
      CommitLeads(db, cooldown, x, done, clock);
      Next(db, cooldown, x, t, clock, MarkVerified(x, later), done, [Commit(x)], r);
    }
  }

  /** Begin and consume; mark verified, with the welcome the first time; commit. */
  lemma VerifyIsARun(db: Db, cooldown: int, x: TxnId, k: TokenId, at: int, later: int, clock: int)
    requires DbOk(db, cooldown) && Consumable(db, AuthTokens.Verification, k, at) && at <= clock
    ensures db.tokens[k].slot.user in db.users
    ensures var u := db.tokens[k].slot.user;
            var effect := if db.users[u].verifiedAt == None then [MarkVerified(x, later), EnqueueWelcome(x)]
              else [MarkVerified(x, later)];
            Leads(Idle(db, clock), cooldown,
                  [BeginConsume(x, AuthTokens.VerifyEmail, k), ConsumeToken(x, at)] + (effect + [Commit(x)]),
                  Idle(NowVerified(Spent(db, k, at), u, later), clock))
  {
    VerifyingKeeps(db, cooldown, k, at, later);
    var u := db.tokens[k].slot.user;
    var consumed := Consuming(db, AuthTokens.VerifyEmail, k, at, clock);
    var effect := if db.users[u].verifiedAt == None then [MarkVerified(x, later), EnqueueWelcome(x)]
      else [MarkVerified(x, later)];
    var r := Idle(NowVerified(Spent(db, k, at), u, later), clock);
    VerifyLeads(db, cooldown, x, consumed, k, at, later, clock);
    ConsumeLeads(db, cooldown, x, AuthTokens.VerifyEmail, k, at, clock);
    Then(Idle(db, clock), cooldown, [BeginConsume(x, AuthTokens.VerifyEmail, k), ConsumeToken(x, at)],
         Only(db, x, consumed, clock), effect + [Commit(x)], r);
  }

  /** Begin and consume; set the password; commit. */
  lemma ResetIsARun(db: Db, cooldown: int, x: TxnId, k: TokenId, at: int, password: int, clock: int)
    requires DbOk(db, cooldown) && Consumable(db, AuthTokens.Reset, k, at) && at <= clock
    ensures db.tokens[k].slot.user in db.users
    ensures var u := db.tokens[k].slot.user;
            Leads(Idle(db, clock), cooldown, [BeginConsume(x, AuthTokens.ResetPassword, k), ConsumeToken(x, at)]
                  + ([SetPassword(x, password)] + [Commit(x)]),
                  Idle(WithUser(Spent(db, k, at), u, User(db.users[u].verifiedAt, password)), clock))
  {
    ResettingKeeps(db, cooldown, k, at, password);
    var u := db.tokens[k].slot.user;
    var consumed := Consuming(db, AuthTokens.ResetPassword, k, at, clock);
    var done := WithRow(consumed, Done, User(db.users[u].verifiedAt, password));
    var r := Idle(WithUser(Spent(db, k, at), u, User(db.users[u].verifiedAt, password)), clock);
    SameCommit(db, done, Resetting(db, k, at, password));
    CommitLeads(db, cooldown, x, done, clock);
    Next(db, cooldown, x, consumed, clock, SetPassword(x, password), done, [Commit(x)], r);
    ConsumeLeads(db, cooldown, x, AuthTokens.ResetPassword, k, at, clock);
    Then(Idle(db, clock), cooldown, [BeginConsume(x, AuthTokens.ResetPassword, k), ConsumeToken(x, at)],
         Only(db, x, consumed, clock),
         [SetPassword(x, password)] + [Commit(x)], r);
  }
}
