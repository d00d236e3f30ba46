/**
 When quota is handed out, and what that changes (src-core/src/quota.rs:253-637): one account,
 by the amount, and every event group of that account is out of date from then on.
 */
module Grants {
  import opened Basics
  import opened Books
  import opened Tables
  import opened Quota
  import opened EventGroups
  import opened Runs

  /** An account that is there is in service. */
  predicate Unhindered(b: Books, a: AccountId) {
    a in b.accounts ==> b.accounts[a].enabled && b.accounts[a].migration.Ready?
  }

  /** The holder of an active Key of an active user. */
  predicate Holder(db: Db, key: Id, user: Id) {
    key in db.site.keys && db.site.keys[key] == ApiKey(user, true, db.site.keys[key].maxConcurrency) && user in db.site.users
  }

  /** Nothing but this account has changed: it has the amount more to spend, and is there, in
      service, under its next version. */
  ghost predicate Granted(db: Db, t: Transaction, a: AccountId, amount: int) {
    t.Ok? &&
    var db', b := t.value.0, db.books;
    && db' == db.(books := db'.books) && db'.books.reservations == b.reservations
    && Shifts(b, db'.books, a, amount, 0, 0) && (forall c :: c != a ==> Shifts(b, db'.books, c, 0, 0, 0))
    && db'.books.accounts == b.accounts[a := Account(true, if a in b.accounts then b.accounts[a].version + 1 else 1, Ready)]
  }

  lemma GrantGrants(db: Db, a: AccountId, amount: int, reply: Reply)
    requires Unhindered(db.books, a)
    ensures Granted(db, Ok((db.(books := Grant(db.books, a, amount)), reply)), a, amount)
  {
    GrantFigures(db.books, a, amount, a);
    forall c | c != a ensures Shifts(db.books, Grant(db.books, a, amount), c, 0, 0, 0) { GrantFigures(db.books, a, amount, c); }
  }

  lemma PoolIsGrantedExactly(db: Db, user: Id, kind: Kind, amount: int)
    ensures var t := PoolGrant(db, user, kind, amount);
      && (t.Ok? <==> amount > 0 && user in db.site.users && Unhindered(db.books, CapOf(user, kind)))
      && (t.Ok? ==> Granted(db, t, CapOf(user, kind), amount))
  {
    hide Granted, Grant;
    if Unhindered(db.books, CapOf(user, kind)) { GrantGrants(db, CapOf(user, kind), amount, Done); }
  }

  lemma KeyIsGrantedExactly(db: Db, key: Id, kind: Kind, amount: int)
    ensures var t := KeyGrant(db, key, kind, amount);
      && (t.Ok? <==> amount > 0 && exists user :: Holder(db, key, user) && Unhindered(db.books, KeyOf(user, key, kind)))
      && forall user :: t.Ok? && Holder(db, key, user) ==> Granted(db, t, KeyOf(user, key, kind), amount)
  {
    hide Granted, Grant;
    if key in db.site.keys {
      var user := db.site.keys[key].user;
      assert OwnerOf(db, key).Ok? <==> Holder(db, key, user);
      if Unhindered(db.books, KeyOf(user, key, kind)) { GrantGrants(db, KeyOf(user, key, kind), amount, Done); }
    }
  }

  /** What the user's active Keys have bound, of the accounts in service. */
  lemma PoolKeysAre(db: Db, user: Id, kind: Kind, a: AccountId)
    ensures a in PoolKeys(db, user, kind) <==>
      && a in db.books.accounts && db.books.accounts[a].enabled
      && exists key :: a == KeyOf(user, key, kind) && key in db.site.keys && db.site.keys[key].user == user && db.site.keys[key].active
  {
    if a in PoolKeys(db, user, kind) { assert a == KeyOf(user, a.key, kind); }
  }

  /** A Key gets from the pool what its user's Keys have not bound yet, and no more. */
  lemma PoolIsAllocatedExactly(db: Db, key: Id, kind: Kind, amount: int, user: Id)
    requires Holder(db, key, user)
    ensures var t, pool, a := AllocateFromPool(db, key, kind, amount), CapOf(user, kind), KeyOf(user, key, kind);
      && (t.Ok? <==>
            && amount > 0 && pool in db.books.accounts && Unhindered(db.books, pool) && Unhindered(db.books, a)
            && amount + SumOf(Bound, db.books, PoolKeys(db, user, kind)) <= Available(db.books, pool))
      && (t.Ok? ==> Granted(db, t, a, amount))
  {
    hide Granted, Grant, SumOf, PoolKeys, Available;
    if Unhindered(db.books, KeyOf(user, key, kind)) { GrantGrants(db, KeyOf(user, key, kind), amount, Done); }
  }

  /** The same from an upstream snapshot, which must be at most five minutes old; the answer
      is what then remains. */
  lemma UpstreamIsAllocatedExactly(db: Db, key: Id, amount: int, s: Snapshot, now: int, user: Id)
    requires Holder(db, key, user)
    ensures var t, a, bound := AllocateFromUpstream(db, key, amount, s, now), KeyOf(user, key, Credits),
                               SumOf(BoundAtLeastZero, db.books, CreditKeys(db.books));
      && (t.Ok? <==>
            && amount > 0 && Unhindered(db.books, a) && 0 < s.updatedAt <= now <= s.updatedAt + 300_000
            && bound <= s.total && amount + bound <= s.total)
      && (t.Ok? ==> Granted(db, t, a, amount) && t.value.1 == Remaining(s.total - bound - amount))
  {
    hide Granted, Grant, SumOf, CreditKeys;
    var bound := SumOf(BoundAtLeastZero, db.books, CreditKeys(db.books));
    if Unhindered(db.books, KeyOf(user, key, Credits)) {
      GrantGrants(db, KeyOf(user, key, Credits), amount, Remaining(s.total - bound - amount));
    }
  }

  /** No quota for a Key that is unknown, revoked, or of a user who is not active. */
  lemma OnlyHoldersAreGranted(db: Db, op: Op)
    requires op.GrantFromPool? || op.GrantFromUpstream? || op.GrantKey?
    requires forall user :: !Holder(db, op.key, user)
    ensures Step(db, op).Err?
  {
    if op.key in db.site.keys { assert !Holder(db, op.key, db.site.keys[op.key].user); }
  }

  /** What each account adds to the two sums over Key accounts. */
  lemma BoundIsSummed(b: Books, s: set<AccountId>, a: AccountId)
    requires a in s
    ensures SumOf(Bound, b, s) == Available(b, a) + HeldOn(b, a) + SumOf(Bound, b, s - {a})
    ensures SumOf(BoundAtLeastZero, b, s)
         == (if Available(b, a) + HeldOn(b, a) > 0 then Available(b, a) + HeldOn(b, a) else 0) + SumOf(BoundAtLeastZero, b, s - {a})
    ensures SumOf(Bound, b, {}) == 0 && SumOf(BoundAtLeastZero, b, {}) == 0
  {
    SumSplit(Bound, b, s, a);
    SumSplit(BoundAtLeastZero, b, s, a);
  }

  /** A grant puts every event group of its account out of date. */
  lemma GrantMakesStale(b: Books, a: AccountId, amount: int, r: Id)
    requires r in b.reservations && WellGrouped(b, r) && Filed(b, r) && a in AccountsOf(b.reservations[r])
    requires VersionsCurrent(b, r)
    ensures !VersionsCurrent(Grant(b, a, amount), r)
  {
    var b' := Grant(b, a, amount);
    assert b'.ledger[..|b.ledger|] == b.ledger;
    assert Group(b'.ledger, r) == Group(b.ledger, r);
    var rows, n := Group(b.ledger, r), |AccountsOf(b.reservations[r])|;
    var k :| 0 <= k < n && AccountsOf(b.reservations[r])[k] == a;
    assert rows[..n][k] == rows[k] && rows[k].account == a;
    assert rows[k] in rows;
  }
}
