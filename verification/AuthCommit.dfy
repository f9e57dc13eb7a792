/** Committing a token transaction keeps the committed rows in order and does not
    disturb the other open transactions. */
module AuthCommit {
  import opened Wrappers
  import opened AuthTokens
  import opened AuthInvariant

  ghost predicate Finished(db: Db, cooldown: int, clock: int, t: Txn) {
    TxnOk(db, cooldown, clock, t) && t.phase == Done
  }

  lemma CommittedToken(db: Db, cooldown: int, clock: int, t: Txn, k: TokenId)
    requires Finished(db, cooldown, clock, t)
    ensures var db' := Committed(db, t);
            && (k in db'.tokens <==> k in db.tokens || (Issues(t.op) && k == t.token))
            && (k in db.tokens ==>
                  db'.tokens[k].slot == db.tokens[k].slot && db'.tokens[k].createdAt == db.tokens[k].createdAt)
            && (k in db.tokens && k !in t.writes ==> db'.tokens[k] == db.tokens[k])
            && (k in db.tokens && k in t.writes ==> db.tokens[k].consumedAt == None && db'.tokens[k].consumedAt != None)
            && (Issues(t.op) ==> t.token !in db.tokens && db'.tokens[t.token] == t.writes[t.token])
  {
    if Issues(t.op) {
      assert IssueOk(db, cooldown, clock, t);
    } else {
      assert ConsumeOk(db, t);
    }
  }

  lemma CommittedUsers(db: Db, cooldown: int, clock: int, t: Txn, u: UserId)
    requires Finished(db, cooldown, clock, t)
    ensures u in Committed(db, t).users <==> u in db.users || u == t.user
    ensures Verified(Committed(db, t), u) <==> Verified(db, u) || (t.op == VerifyEmail && u == t.user)
  {
    if Issues(t.op) {
      IssuerKeepsUsers(db, cooldown, clock, t, u);
    } else {
      SpenderKeepsUsers(db, t, u);
    }
  }

  lemma IssuerKeepsUsers(db: Db, cooldown: int, clock: int, t: Txn, u: UserId)
    requires Issues(t.op) && IssueOk(db, cooldown, clock, t) && t.phase == Done
    ensures u in Committed(db, t).users <==> u in db.users || u == t.user
    ensures Verified(Committed(db, t), u) <==> Verified(db, u)
  {
  }

  lemma SpenderKeepsUsers(db: Db, t: Txn, u: UserId)
    requires !Issues(t.op) && ConsumeOk(db, t) && t.phase == Done
    ensures u in Committed(db, t).users <==> u in db.users
    ensures Verified(Committed(db, t), u) <==> Verified(db, u) || (t.op == VerifyEmail && u == t.user)
    ensures t.user in db.users
  {
  }

  lemma KeepsUsersExist(db: Db, cooldown: int, clock: int, t: Txn)
    requires Finished(db, cooldown, clock, t) && UsersExist(db)
    ensures UsersExist(Committed(db, t))
  {
    forall k | k in Committed(db, t).tokens ensures Committed(db, t).tokens[k].slot.user in Committed(db, t).users {
      CommittedToken(db, cooldown, clock, t, k);
      CommittedUsers(db, cooldown, clock, t, Committed(db, t).tokens[k].slot.user);
    }
  }

  lemma IssuedNext(db: Db, t: Txn, s: Slot)
    ensures IssuedTo(Committed(db, t), s) == IssuedTo(db, s) + if Issues(t.op) && s == SlotOf(t) then [t.token] else []
  {
  }

  lemma KeepsIssuedExact(db: Db, cooldown: int, clock: int, t: Txn)
    requires Finished(db, cooldown, clock, t) && IssuedExact(db)
    ensures IssuedExact(Committed(db, t))
  {
    forall s, k ensures Listed(Committed(db, t), s, k) {
      assert Listed(db, s, k);
      ListedNext(db, cooldown, clock, t, s, k);
    }
  }

  lemma ListedNext(db: Db, cooldown: int, clock: int, t: Txn, s: Slot, k: TokenId)
    requires Finished(db, cooldown, clock, t) && Listed(db, s, k)
    ensures Listed(Committed(db, t), s, k)
  {
    CommittedToken(db, cooldown, clock, t, k);
    IssuedNext(db, t, s);
    InConcat(IssuedTo(db, s), if Issues(t.op) && s == SlotOf(t) then [t.token] else [], k);
  }

  lemma InConcat(a: seq<TokenId>, b: seq<TokenId>, k: TokenId)
    ensures k in a + b <==> k in a || k in b
  {
  }

  /** The retire statement and the user lock together leave only the new token alive. */
  lemma KeepsLastIsLive(db: Db, cooldown: int, clock: int, t: Txn)
    requires Finished(db, cooldown, clock, t) && LastIsLive(db)
    ensures LastIsLive(Committed(db, t))
  {
    var db' := Committed(db, t);
    forall k | k in db'.tokens && db'.tokens[k].consumedAt == None
      ensures IsLast(IssuedTo(db', db'.tokens[k].slot), k)
    {
      CommittedToken(db, cooldown, clock, t, k);
      LastNext(db, cooldown, clock, t, k);
    }
  }

  lemma LastNext(db: Db, cooldown: int, clock: int, t: Txn, k: TokenId)
    requires Finished(db, cooldown, clock, t)
    requires k in db.tokens && db.tokens[k].consumedAt == None ==> IsLast(IssuedTo(db, db.tokens[k].slot), k)
    requires k in Committed(db, t).tokens && Committed(db, t).tokens[k].consumedAt == None
    ensures IsLast(IssuedTo(Committed(db, t), Committed(db, t).tokens[k].slot), k)
  {
    CommittedToken(db, cooldown, clock, t, k);
    IssuedNext(db, t, Committed(db, t).tokens[k].slot);
    assert Issues(t.op) && k in db.tokens && Live(db, SlotOf(t), k) ==> k in t.writes;
  }

  lemma KeepsAccounted(db: Db, cooldown: int, clock: int, t: Txn)
    requires Finished(db, cooldown, clock, t) && Accounted(db)
    ensures Accounted(Committed(db, t))
  {
    var db' := Committed(db, t);
    forall k ensures db'.spent[k] + db'.retired[k] == One(Used(db', k)) {
      CommittedToken(db, cooldown, clock, t, k);
      assert db.spent[k] + db.retired[k] == One(Used(db, k));
    }
  }

  lemma KeepsSpentInTime(db: Db, cooldown: int, clock: int, t: Txn)
    requires Finished(db, cooldown, clock, t) && Accounted(db) && SpentInTime(db)
    ensures SpentInTime(Committed(db, t))
  {
    forall k | k in Committed(db, t).tokens && Committed(db, t).spent[k] > 0
      ensures InTime(Committed(db, t).tokens[k])
    {
      CommittedToken(db, cooldown, clock, t, k);
      assert db.spent[k] + db.retired[k] == One(Used(db, k));
    }
  }

  lemma TokenMailNext(db: Db, cooldown: int, clock: int, t: Txn, kind: Kind, k: TokenId)
    requires Finished(db, cooldown, clock, t) && db.outbox[TokenMail(kind, k)] == Due(db, TokenMail(kind, k))
    ensures Committed(db, t).outbox[TokenMail(kind, k)] == Due(Committed(db, t), TokenMail(kind, k))
  {
    CommittedToken(db, cooldown, clock, t, k);
    if Issues(t.op) {
      assert IssueOk(db, cooldown, clock, t);
    } else {
      assert ConsumeOk(db, t);
    }
  }

  lemma WelcomeNext(db: Db, cooldown: int, clock: int, t: Txn, u: UserId)
    requires Finished(db, cooldown, clock, t) && db.outbox[Welcome(u)] == Due(db, Welcome(u))
    ensures Committed(db, t).outbox[Welcome(u)] == Due(Committed(db, t), Welcome(u))
  {
    CommittedUsers(db, cooldown, clock, t, u);
  }

  lemma KeepsOutboxExact(db: Db, cooldown: int, clock: int, t: Txn)
    requires Finished(db, cooldown, clock, t) && OutboxExact(db)
    ensures OutboxExact(Committed(db, t))
  {
    forall mail ensures Committed(db, t).outbox[mail] == Due(Committed(db, t), mail) {
      match mail
      case TokenMail(kind, k) => TokenMailNext(db, cooldown, clock, t, kind, k);
      case Welcome(u) => WelcomeNext(db, cooldown, clock, t, u);
    }
  }

  /** A token counts as spent for a user if it did before or this transaction spends it. */
  lemma SpentNext(db: Db, cooldown: int, clock: int, t: Txn, u: UserId, k: TokenId)
    requires Finished(db, cooldown, clock, t) && Accounted(db)
    ensures k in Committed(db, t).tokens && SpentFor(Committed(db, t), u, k)
            <==> (k in db.tokens && SpentFor(db, u, k)) || (t.op == VerifyEmail && u == t.user && k == t.token)
  {
    CommittedToken(db, cooldown, clock, t, k);
    assert db.spent[k] + db.retired[k] == One(Used(db, k));
    if Issues(t.op) {
      assert IssueOk(db, cooldown, clock, t);
    } else {
      assert ConsumeOk(db, t);
    }
  }

  lemma KeepsVerifiedBySpending(db: Db, cooldown: int, clock: int, t: Txn)
    requires Finished(db, cooldown, clock, t) && Accounted(db) && VerifiedBySpending(db)
    ensures VerifiedBySpending(Committed(db, t))
  {
    var db' := Committed(db, t);
    forall u ensures Verified(db', u) <==> exists k :: k in db'.tokens && SpentFor(db', u, k) {
      CommittedUsers(db, cooldown, clock, t, u);
      forall k ensures k in db'.tokens && SpentFor(db', u, k)
                       <==> || (k in db.tokens && SpentFor(db, u, k))
                            || (t.op == VerifyEmail && u == t.user && k == t.token) {
        SpentNext(db, cooldown, clock, t, u, k);
      }
      SpenderExists(db, db', t, u);
    }
  }

  lemma SpenderExists(db: Db, db': Db, t: Txn, u: UserId)
    requires VerifiedBySpending(db)
    requires Verified(db', u) <==> Verified(db, u) || (t.op == VerifyEmail && u == t.user)
    requires forall k :: k in db'.tokens && SpentFor(db', u, k)
                         <==> || (k in db.tokens && SpentFor(db, u, k))
                              || (t.op == VerifyEmail && u == t.user && k == t.token)
    ensures Verified(db', u) <==> exists k :: k in db'.tokens && SpentFor(db', u, k)
  {
    assert Verified(db, u) <==> exists k :: k in db.tokens && SpentFor(db, u, k);
    if Verified(db, u) {
      var k :| k in db.tokens && SpentFor(db, u, k);
      assert k in db'.tokens && SpentFor(db', u, k);
    } else if t.op == VerifyEmail && u == t.user {
      assert t.token in db'.tokens && SpentFor(db', u, t.token);
    }
  }

  lemma KeepsSpaced(db: Db, cooldown: int, clock: int, t: Txn)
    requires Finished(db, cooldown, clock, t) && UsersExist(db) && IssuedExact(db) && Spaced(db, cooldown)
    ensures Spaced(Committed(db, t), cooldown)
  {
    forall u
      ensures SpacedOut(Committed(db, t), cooldown, IssuedTo(Committed(db, t), Slot(u, AuthTokens.Verification)))
    {
      SpacedNext(db, cooldown, clock, t, u);
    }
  }

  lemma SpacedNext(db: Db, cooldown: int, clock: int, t: Txn, u: UserId)
    requires Finished(db, cooldown, clock, t) && UsersExist(db) && IssuedExact(db)
    requires SpacedOut(db, cooldown, IssuedTo(db, Slot(u, AuthTokens.Verification)))
    ensures SpacedOut(Committed(db, t), cooldown, IssuedTo(Committed(db, t), Slot(u, AuthTokens.Verification)))
  {
    var db' := Committed(db, t);
    var slot := Slot(u, AuthTokens.Verification);
    var all, all' := IssuedTo(db, slot), IssuedTo(db', slot);
    IssuedNext(db, t, slot);
    forall i, j | 0 <= i < j < |all'| && all'[i] in db'.tokens && all'[j] in db'.tokens
      ensures db'.tokens[all'[j]].createdAt - db'.tokens[all'[i]].createdAt >= cooldown
    {
      assert all'[i] == all[i] && Listed(db, slot, all[i]);
      CommittedToken(db, cooldown, clock, t, all'[i]);
      CommittedToken(db, cooldown, clock, t, all'[j]);
      if j < |all| {
        assert all'[j] == all[j] && Listed(db, slot, all[j]);
      }
    }
  }

  lemma CommitKeepsDb(db: Db, cooldown: int, clock: int, t: Txn)
    requires Finished(db, cooldown, clock, t) && DbOk(db, cooldown)
    ensures DbOk(Committed(db, t), cooldown)
  {
    KeepsUsersExist(db, cooldown, clock, t);
    KeepsIssuedExact(db, cooldown, clock, t);
    KeepsLastIsLive(db, cooldown, clock, t);
    KeepsAccounted(db, cooldown, clock, t);
    KeepsSpentInTime(db, cooldown, clock, t);
    KeepsOutboxExact(db, cooldown, clock, t);
    KeepsVerifiedBySpending(db, cooldown, clock, t);
    KeepsSpaced(db, cooldown, clock, t);
  }

  /** A transaction that holds a user's row sees no new token of that user. */
  lemma NoNewTokens(db: Db, cooldown: int, clock: int, t: Txn, o: Txn, k: TokenId)
    requires Finished(db, cooldown, clock, t) && Disjoint(t, o) && o.locked
    requires k in Committed(db, t).tokens && Committed(db, t).tokens[k].slot.user == o.user
    ensures k in db.tokens && db.tokens[k].slot == Committed(db, t).tokens[k].slot
    ensures db.tokens[k].createdAt == Committed(db, t).tokens[k].createdAt
    ensures Live(Committed(db, t), db.tokens[k].slot, k) ==> Live(db, db.tokens[k].slot, k)
  {
    CommittedToken(db, cooldown, clock, t, k);
  }

  lemma CommitKeepsCooledDown(db: Db, cooldown: int, clock: int, t: Txn, o: Txn)
    requires Finished(db, cooldown, clock, t) && Disjoint(t, o) && o.locked && CooledDown(db, cooldown, o.user, o.now)
    ensures CooledDown(Committed(db, t), cooldown, o.user, o.now)
  {
    var db' := Committed(db, t);
    forall k | k in db'.tokens && db'.tokens[k].slot == Slot(o.user, AuthTokens.Verification)
      ensures o.now - db'.tokens[k].createdAt >= cooldown
    {
      NoNewTokens(db, cooldown, clock, t, o, k);
    }
  }

  lemma CommitKeepsLiveWithin(db: Db, cooldown: int, clock: int, t: Txn, o: Txn, keys: set<TokenId>)
    requires Finished(db, cooldown, clock, t) && Disjoint(t, o) && o.locked && LiveWithin(db, SlotOf(o), keys)
    ensures LiveWithin(Committed(db, t), SlotOf(o), keys)
  {
    var db' := Committed(db, t);
    forall k | k in db'.tokens && Live(db', SlotOf(o), k) ensures k in keys {
      NoNewTokens(db, cooldown, clock, t, o, k);
    }
  }

  lemma CommitKeepsRetired(db: Db, cooldown: int, clock: int, t: Txn, o: Txn, slot: Slot, k: TokenId)
    requires Finished(db, cooldown, clock, t) && Disjoint(t, o) && k in o.writes && Retired(db, slot, k, o.writes[k])
    ensures Retired(Committed(db, t), slot, k, o.writes[k])
  {
  }

  /** An open transaction that shares no row with the committing one does not notice. */
  lemma CommitKeepsIssuing(db: Db, cooldown: int, clock: int, t: Txn, o: Txn)
    requires Finished(db, cooldown, clock, t) && IssueOk(db, cooldown, clock, o) && Issues(o.op) && Disjoint(t, o)
    ensures IssueOk(Committed(db, t), cooldown, clock, o)
  {
    var db' := Committed(db, t);
    CommittedUsers(db, cooldown, clock, t, o.user);
    CommittedToken(db, cooldown, clock, t, o.token);
    forall k | k in o.writes && !(HasInserted(o) && k == o.token) ensures Retired(db', SlotOf(o), k, o.writes[k]) {
      CommitKeepsRetired(db, cooldown, clock, t, o, SlotOf(o), k);
    }
    if o.op == Resend && o.phase != Opened && o.phase != Locked {
      CommitKeepsCooledDown(db, cooldown, clock, t, o);
    }
    if o.phase == Retiring {
      CommitKeepsLiveWithin(db, cooldown, clock, t, o, o.pending + o.writes.Keys);
    }
    if HasInserted(o) {
      CommitKeepsLiveWithin(db, cooldown, clock, t, o, o.writes.Keys);
    }
  }

  lemma LockedRowStays(db: Db, cooldown: int, clock: int, t: Txn, o: Txn)
    requires Finished(db, cooldown, clock, t) && Disjoint(t, o) && o.locked && o.user in db.users
    ensures o.user in Committed(db, t).users && Committed(db, t).users[o.user] == db.users[o.user]
  {
    assert t.row.Some? ==> t.locked;
  }

  lemma CommitKeepsConsuming(db: Db, cooldown: int, clock: int, t: Txn, o: Txn)
    requires Finished(db, cooldown, clock, t) && ConsumeOk(db, o) && !Issues(o.op) && Disjoint(t, o)
    ensures ConsumeOk(Committed(db, t), o)
  {
    if o.phase != Opened {
      CommitKeepsRetired(db, cooldown, clock, t, o, SlotOf(o), o.token);
      CommittedUsers(db, cooldown, clock, t, o.user);
      if o.locked {
        LockedRowStays(db, cooldown, clock, t, o);
      }
    }
  }
}
