/**
 When Keys get their quota from their user's pool only, the pool covers them: together
 they can never spend more than it holds, so the user's cap turns no Key away that could
 pay for itself. Revoking Keys keeps this; re-enabling one need not, and when it does is
 stated exactly.
 */
module PoolCover {
  import opened Basics
  import opened Books
  import opened Tables
  import opened Quota
  import opened BillingOps
  import opened Coherence
  import opened Runs
  import opened Theorems
  import opened Allocation

  ghost function Spread(db: Db, user: Id, kind: Kind): int { SumOf(Spendable, db.books, PoolKeys(db, user, kind)) }

  ghost predicate Covered(db: Db, user: Id, kind: Kind) {
    CapOf(user, kind) in db.books.accounts ==> Spread(db, user, kind) <= Available(db.books, CapOf(user, kind))
  }

  ghost predicate PoolBacked(db: Db) {
    && (forall a :: a in db.books.accounts && a.KeyOf? ==>
          CapOf(a.user, a.kind) in db.books.accounts && a.key in db.site.keys && db.site.keys[a.key].user == a.user)
    && (forall r :: r in db.books.reservations ==> db.books.reservations[r].cap.Some?)
    && (forall a :: OverrunOn(db.books, a) == 0)
    && (forall u, k :: Covered(db, u, k))
  }

  // --------------------------------------------------------- moves of the books

  /** How a move must come about for the pool to stay covered. */
  ghost predicate PoolMove(db: Db, m: Move) {
    match m
    case PlaceRow(_, _) => PlacedByActiveKey(db, m)
    case ChargeRow(r, actual) => r in db.books.reservations && actual <= db.books.reservations[r].amount
    case GrantTo(KeyOf(u, key, k), amount) =>
      && db.KeyActive(u, key) && CapOf(u, k) in db.books.accounts
      && (KeyOf(u, key, k) in db.books.accounts ==> db.books.accounts[KeyOf(u, key, k)].enabled)
      && amount <= Available(db.books, CapOf(u, k)) - SumOf(Bound, db.books, PoolKeys(db, u, k))
    case _ => true
  }

  lemma NoNewOverrun(b: Books, m: Move, a: AccountId)
    requires Sound(b) && Allowed(b, m)
    requires m.ChargeRow? ==> m.actual <= b.reservations[m.request].amount
    ensures OverrunOn(Apply(b, m), a) == OverrunOn(b, a)
  {
    match m
    case GrantTo(c, amount) => FiguresAfterGrant(b, c, amount, a);
    case PlaceRow(r, x) => FiguresAfterEvents(b, Apply(b, m), r, x, Reserve, x.amount, -x.amount, a);
    case FreeRow(r) =>
      assert Filed(b, r);
      var x := b.reservations[r];
      FiguresAfterEvents(b, Apply(b, m), r, x, Release, x.amount, x.amount, a);
    case ChargeRow(r, actual) =>
      assert Filed(b, r);
      var x := b.reservations[r];
      FiguresAfterEvents(b, Apply(b, m), r, x, Commit, actual, x.amount - actual, a);
    case _ =>
  }

  lemma SpreadSame(db: Db, db': Db, u: Id, k: Kind)
    requires PoolKeys(db', u, k) == PoolKeys(db, u, k)
    requires forall a :: a in PoolKeys(db, u, k) ==> Available(db'.books, a) == Available(db.books, a)
    ensures Spread(db', u, k) == Spread(db, u, k)
  {
    SumsCompare(Spendable, db.books, Spendable, db'.books, PoolKeys(db, u, k));
    SumsCompare(Spendable, db'.books, Spendable, db.books, PoolKeys(db, u, k));
  }

  /** A reservation's rows shift its Key and its pool alike. */
  lemma RowMoveKeepsCover(db: Db, m: Move, x: Reservation, u: Id, k: Kind)
    requires Sound(db.books) && Allowed(db.books, m) && PoolMove(db, m) && PoolBacked(db)
    requires (m.PlaceRow? && x == m.row) || ((m.FreeRow? || m.ChargeRow?) && x == db.books.reservations[m.request])
    ensures x.cap.Some?
    ensures Covered(db.(books := Apply(db.books, m)), u, k)
  {
    hide Available, HeldOn, SumOf, OverrunOn, Conserved, Floored;
    var b, db', s, c := db.books, db.(books := Apply(db.books, m)), PoolKeys(db, u, k), CapOf(u, k);
    if m.PlaceRow? { assert x.keyAccount in b.accounts; } else { assert Filed(b, m.request); }
    assert PoolKeys(db', u, k) == s;
    forall a ensures Available(db'.books, a) == Available(b, a) + AvailableShift(b, m, a) { MoveShifts(b, m, a); }
    assert Covered(db, u, k);
    if c in b.accounts {
      if x.keyAccount in s {
        SumShifts(Spendable, b, db'.books, s, x.keyAccount);
      } else {
        SpreadSame(db, db', u, k);
      }
    }
  }

  lemma GrantKeepsCover(db: Db, c: AccountId, amount: int, u: Id, k: Kind)
    requires Sound(db.books) && LedgerPosted(db.books) && PoolBacked(db)
    requires amount > 0 && PoolMove(db, GrantTo(c, amount))
    ensures Covered(db.(books := Grant(db.books, c, amount)), u, k)
  {
    hide Available, HeldOn, SumOf, OverrunOn, Conserved, Floored;
    var b, db', s := db.books, db.(books := Grant(db.books, c, amount)), PoolKeys(db, u, k);
    forall a ensures Available(db'.books, a) == Available(b, a) + if a == c then amount else 0 { MoveShifts(b, GrantTo(c, amount), a); }
    assert Covered(db, u, k);
    if c.KeyOf? && c.user == u && c.kind == k {
      assert PoolKeys(db', u, k) == s + {c};
      forall a | a in s ensures FigureOf(Spendable, b, a) <= FigureOf(Bound, b, a) { HeldOnNonnegative(b, a); }
      SumsCompare(Spendable, b, Bound, b, s);
      SumShifts(Spendable, b, db'.books, s + {c}, c);
      if c !in b.accounts {
        UnpostedIsEmpty(b, c);
        SumSplit(Spendable, b, s + {c}, c);
        assert s + {c} - {c} == s;
      } else {
        assert s + {c} == s;
      }
    } else {
      assert PoolKeys(db', u, k) == s;
      SpreadSame(db, db', u, k);
      if c == CapOf(u, k) && c !in b.accounts {
        UnpostedIsEmpty(b, c);
        assert s == {};
        NoneSumsToZero(b);
      }
    }
  }

  lemma NoneSumsToZero(b: Books)
    ensures SumOf(Spendable, b, {}) == 0
  {
  }

  lemma MoveKeepsCover(db: Db, m: Move, u: Id, k: Kind)
    requires Sound(db.books) && LedgerPosted(db.books) && Allowed(db.books, m) && PoolMove(db, m) && PoolBacked(db)
    ensures Covered(db.(books := Apply(db.books, m)), u, k)
  {
    var db' := db.(books := Apply(db.books, m));
    match m
    case GrantTo(c, amount) => GrantKeepsCover(db, c, amount, u, k);
    case PlaceRow(_, x) => RowMoveKeepsCover(db, m, x, u, k);
    case FreeRow(r) => RowMoveKeepsCover(db, m, db.books.reservations[r], u, k);
    case ChargeRow(r, _) => RowMoveKeepsCover(db, m, db.books.reservations[r], u, k);
    case _ =>
      assert PoolKeys(db', u, k) == PoolKeys(db, u, k);
      forall a ensures Available(db'.books, a) == Available(db.books, a) { MoveShifts(db.books, m, a); }
      SpreadSame(db, db', u, k);
      assert Covered(db, u, k);
  }

  lemma MoveKeepsPoolBacked(db: Db, m: Move)
    requires Sound(db.books) && LedgerPosted(db.books) && Allowed(db.books, m) && PoolMove(db, m) && PoolBacked(db)
    ensures PoolBacked(db.(books := Apply(db.books, m)))
  {
    var b, b' := db.books, Apply(db.books, m);
    forall u, k ensures Covered(db.(books := b'), u, k) { MoveKeepsCover(db, m, u, k); }
    forall a ensures OverrunOn(b', a) == 0 { NoNewOverrun(b, m, a); }
    if m.PlaceRow? { assert m.row.On(m.row.keyAccount); }
  }

  // ------------------------------------------------------------- Keys come and go

  predicate Reenables(db: Db, op: Op) {
    op.SetKey? && op.row.active && op.key in db.site.keys && !db.site.keys[op.key].active
  }

  /** What the Key still has fits into what the pool has left. */
  ghost predicate FitsBack(db: Db, key: Id)
    requires key in db.site.keys
  {
    var u := db.site.keys[key].user;
    forall k :: KeyOf(u, key, k) in db.books.accounts && db.books.accounts[KeyOf(u, key, k)].enabled ==>
      Spread(db, u, k) + Available(db.books, KeyOf(u, key, k)) <= Available(db.books, CapOf(u, k))
  }

  lemma ReenabledSpread(db: Db, key: Id, row: ApiKey, k: Kind)
    requires PoolBacked(db) && Reenables(db, SetKey(key, row)) && row.user == db.site.keys[key].user
    ensures var db', a := Next(db, SetKey(key, row)), KeyOf(row.user, key, k);
      Spread(db', row.user, k)
        == Spread(db, row.user, k) + if a in db.books.accounts && db.books.accounts[a].enabled then Available(db.books, a) else 0
  {
    var db', a := Next(db, SetKey(key, row)), KeyOf(row.user, key, k);
    if a in db.books.accounts && db.books.accounts[a].enabled {
      assert PoolKeys(db', row.user, k) == PoolKeys(db, row.user, k) + {a};
      SumSplit(Spendable, db.books, PoolKeys(db', row.user, k), a);
      assert PoolKeys(db', row.user, k) - {a} == PoolKeys(db, row.user, k);
    } else {
      assert PoolKeys(db', row.user, k) == PoolKeys(db, row.user, k);
    }
  }

  /** Re-enabling a revoked Key keeps the pool covered if and only if what the Key still
      has fits into what the pool has left. The source does not check this. */
  lemma ReenablingKeepsCoverExactly(db: Db, key: Id, row: ApiKey)
    requires PoolBacked(db) && Reenables(db, SetKey(key, row)) && row.user == db.site.keys[key].user
    ensures PoolBacked(Next(db, SetKey(key, row))) <==> FitsBack(db, key)
  {
    var db', u := Next(db, SetKey(key, row)), row.user;
    forall k ensures Covered(db', u, k) <==>
      (KeyOf(u, key, k) in db.books.accounts && db.books.accounts[KeyOf(u, key, k)].enabled ==>
         Spread(db, u, k) + Available(db.books, KeyOf(u, key, k)) <= Available(db.books, CapOf(u, k)))
    {
      ReenabledSpread(db, key, row, k);
      assert Covered(db, u, k);
    }
    forall v, k | v != u ensures Covered(db', v, k) {
      assert PoolKeys(db', v, k) == PoolKeys(db, v, k);
      assert Covered(db, v, k);
    }
  }

  lemma SiteKeepsPoolBacked(db: Db, op: Op)
    requires Healthy(db) && PoolBacked(db) && SiteOp(op) && Admissible(db, op)
    requires Reenables(db, op) ==> FitsBack(db, op.key)
    ensures PoolBacked(Next(db, op))
  {
    var db' := Next(db, op);
    if Reenables(db, op) {
      ReenablingKeepsCoverExactly(db, op.key, op.row);
    } else {
      forall u, k ensures Covered(db', u, k) {
        assert PoolKeys(db', u, k) <= PoolKeys(db, u, k);
        forall a | a in PoolKeys(db, u, k) ensures Available(db.books, a) >= 0 { assert Floored(db.books, a) && OverrunOn(db.books, a) == 0; }
        PartOfSum(db.books, PoolKeys(db', u, k), PoolKeys(db, u, k));
        assert Covered(db, u, k);
      }
    }
  }

  // ----------------------------------------------------------------- any run

  /** Quota comes from the pool, receipts keep to their quotes, and a Key is re-enabled only
      if it fits back. */
  ghost predicate PoolOnly(db: Db, op: Op) {
    && !op.GrantKey? && !op.GrantFromUpstream?
    && (op.TakeReceipt? && Decisive(op.receipt) && op.receipt.request in db.billing.quotes ==>
          ChargeOf(op.receipt) <= db.billing.quotes[op.receipt.request].max)
    && (Reenables(db, op) ==> FitsBack(db, op.key))
  }

  ghost predicate PoolRun(db: Db, ops: seq<Op>)
    decreases |ops|
  {
    ops == [] || (PoolOnly(db, ops[0]) && PoolRun(Next(db, ops[0]), ops[1..]))
  }

  lemma SiteStays(db: Db, op: Op)
    requires !SiteOp(op)
    ensures Next(db, op).site == db.site
  {
    if op.ClaimHead? || op.ClaimOne? {
      if Next(db, op) != db { var q := ClaimOpShape(db, op); }
    }
    else if SubmissionOp(op) { SubmissionShape(db, op); }
    else { QuietStep(db, op); }
  }

  lemma PoolStepMoves(db: Db, op: Op) returns (m: Move)
    requires Healthy(db) && PoolBacked(db) && Admissible(db, op) && !SiteOp(op) && PoolOnly(db, op)
    ensures MovesBy(db, Next(db, op), m) && PoolMove(db, m)
  {
    m := StepMoves(db, op);
    if m.ChargeRow? && op.TakeReceipt? && m.request == op.receipt.request {
      assert Tied(db, m.request);
    }
  }

  lemma SameSiteAndBooks(db: Db, db': Db)
    requires PoolBacked(db) && db'.site == db.site && db'.books == db.books
    ensures PoolBacked(db')
  {
    forall u, k ensures Covered(db', u, k) {
      assert PoolKeys(db', u, k) == PoolKeys(db, u, k);
      assert Covered(db, u, k);
    }
  }

  lemma StepKeepsPoolBacked(db: Db, op: Op)
    requires Healthy(db) && PoolBacked(db) && Admissible(db, op) && PoolOnly(db, op)
    ensures PoolBacked(Next(db, op))
  {
    if SiteOp(op) {
      SiteKeepsPoolBacked(db, op);
    } else {
      SiteStays(db, op);
      var m := PoolStepMoves(db, op);
      MoveKeepsPoolBacked(db, m);
      SameSiteAndBooks(db.(books := Apply(db.books, m)), Next(db, op));
    }
  }

  lemma {:induction false} RunKeepsPoolBacked(db: Db, ops: seq<Op>)
    requires Healthy(db) && PoolBacked(db) && Legal(db, ops) && PoolRun(db, ops)
    ensures PoolBacked(Run(db, ops))
    decreases |ops|
  {
    if ops != [] {
      StepKeepsHealthy(db, ops[0]);
      StepKeepsPoolBacked(db, ops[0]);
      RunKeepsPoolBacked(Next(db, ops[0]), ops[1..]);
    }
  }

  lemma EmptyIsBacked()
    ensures PoolBacked(EmptyDb)
  {
    forall u, k ensures Covered(EmptyDb, u, k) {}
  }

  /** Pool cover: however Keys reserve, settle, get quota and are revoked, what the active
      Keys of a user can spend together never exceeds what the pool holds. */
  lemma PoolCoversItsKeys(ops: seq<Op>, u: Id, k: Kind)
    requires Legal(EmptyDb, ops) && PoolRun(EmptyDb, ops) && CapOf(u, k) in Reached(ops).books.accounts
    ensures SumOf(Spendable, Reached(ops).books, PoolKeys(Reached(ops), u, k)) <= Available(Reached(ops).books, CapOf(u, k))
  {
    EmptyIsHealthy();
    EmptyIsBacked();
    RunKeepsPoolBacked(EmptyDb, ops);
    assert Covered(Reached(ops), u, k);
  }

  /** So a reserve that is refused is refused by the Key's own balance, never by the cap. */
  lemma CapRefusesNobody(ops: seq<Op>, r: Id, u: Id, key: Id, k: Kind, amount: int)
    requires Legal(EmptyDb, ops) && PoolRun(EmptyDb, ops) && Reached(ops).KeyActive(u, key)
    ensures var reserve := ReserveDual(Reached(ops).books, r, u, key, k, amount);
      reserve.Ok? && reserve.value.Short? ==> Available(Reached(ops).books, KeyOf(u, key, k)) < amount
  {
    var db, a := Reached(ops), KeyOf(u, key, k);
    var reserve := ReserveDual(db.books, r, u, key, k, amount);
    if reserve.Ok? && reserve.value.Short? && CapOf(u, k) in db.books.accounts {
      PoolCoversItsKeys(ops, u, k);
      ReachedIsHealthy(ops);
      EmptyIsHealthy();
      EmptyIsBacked();
      RunKeepsPoolBacked(EmptyDb, ops);
      var s := PoolKeys(db, u, k);
      forall c | c in s ensures Available(db.books, c) >= 0 { assert Floored(db.books, c) && OverrunOn(db.books, c) == 0; }
      assert a in s;
      PartOfSum(db.books, {a}, s);
      SumSplit(Spendable, db.books, {a}, a);
      assert {a} - {a} == {};
    }
  }

  // ---------------------------------------------------- a Key comes back rich

  const TWO_KEYS: seq<Op> := [SetUser(1, true), SetKey(1, ApiKey(1, true, 1)), SetKey(2, ApiKey(1, true, 1))]
  const POOL_TO_ONE: seq<Op> := [GrantPool(1, Credits, 100), GrantFromPool(1, Credits, 100), SetKey(1, ApiKey(1, false, 1))]
  const POOL_TO_TWO: seq<Op> := [GrantFromPool(2, Credits, 100), SetKey(1, ApiKey(1, true, 1))]

  /** All that a pool holds may go to one Key when no other Key has any of it. */
  lemma WholePoolTo(db: Db, key: Id, k: Kind, amount: int)
    requires amount > 0 && key in db.site.keys && db.site.keys[key].active
    requires var u := db.site.keys[key].user;
      && u in db.site.users && CapOf(u, k) in db.books.accounts && ReadyCheck(db.books, CapOf(u, k)).Pass?
      && ReadyCheck(db.books, KeyOf(u, key, k)).Pass?
      && PoolKeys(db, u, k) == {} && Available(db.books, CapOf(u, k)) == amount
    ensures Next(db, GrantFromPool(key, k, amount)) == db.(books := Grant(db.books, KeyOf(db.site.keys[key].user, key, k), amount))
  {
    assert SumOf(Bound, db.books, {}) == 0;
  }

  ghost predicate Balances(b: Books, full: set<AccountId>) {
    && b.accounts.Keys == full && (forall a :: a in full ==> b.accounts[a] == Account(true, 1, Ready))
    && forall a :: Available(b, a) == if a in full then 100 else 0
  }

  lemma NewBalance(b: Books, full: set<AccountId>, c: AccountId)
    requires Balances(b, full) && c !in full
    ensures Balances(Grant(b, c, 100), full + {c})
  {
    forall a ensures Available(Grant(b, c, 100), a) == if a in full + {c} then 100 else 0 { FiguresAfterGrant(b, c, 100, a); }
  }

  lemma NothingAvailable()
    ensures forall a :: Available(NoBooks, a) == 0
  {
  }

  /** The pool goes to Key 1, which is then revoked ... */
  lemma PoolGoesToKeyOne(db: Db)
    requires db.site == Site({1}, map[1 := ApiKey(1, true, 1), 2 := ApiKey(1, true, 1)], map[]) && db.books == NoBooks
    ensures Legal(db, POOL_TO_ONE)
    ensures var next := Run(db, POOL_TO_ONE);
      && next.site == Site({1}, map[1 := ApiKey(1, false, 1), 2 := ApiKey(1, true, 1)], map[])
      && Balances(next.books, {CapOf(1, Credits), KeyOf(1, 1, Credits)})
  {
    hide SumOf, Run, Legal, Available, AllocateFromPool;
    RunOfThree(db, POOL_TO_ONE);
    var pooled := Next(db, POOL_TO_ONE[0]);
    NothingAvailable();
    assert Balances(NoBooks, {});
    NewBalance(NoBooks, {}, CapOf(1, Credits));
    assert pooled == db.(books := Grant(NoBooks, CapOf(1, Credits), 100));
    assert PoolKeys(pooled, 1, Credits) == {};
    WholePoolTo(pooled, 1, Credits, 100);
    NewBalance(pooled.books, {CapOf(1, Credits)}, KeyOf(1, 1, Credits));
    assert {CapOf(1, Credits)} + {KeyOf(1, 1, Credits)} == {CapOf(1, Credits), KeyOf(1, 1, Credits)};
  }

  /** ... and then, untouched, to Key 2, before Key 1 comes back. */
  lemma PoolGoesToKeyTwo(db: Db)
    requires db.site == Site({1}, map[1 := ApiKey(1, false, 1), 2 := ApiKey(1, true, 1)], map[])
    requires Balances(db.books, {CapOf(1, Credits), KeyOf(1, 1, Credits)})
    ensures Legal(db, POOL_TO_TWO)
    ensures !Covered(Run(db, POOL_TO_TWO), 1, Credits)
  {
    hide Available, SumOf, Run, Legal, Covered;
    RunOfTwo(db, POOL_TO_TWO);
    var c, full := KeyOf(1, 2, Credits), {CapOf(1, Credits), KeyOf(1, 1, Credits)};
    assert PoolKeys(db, 1, Credits) == {};
    WholePoolTo(db, 2, Credits, 100);
    NewBalance(db.books, full, c);
    TwoRichKeys(Run(db, POOL_TO_TWO));
  }

  lemma TwoRichKeys(next: Db)
    requires next.site.keys == map[1 := ApiKey(1, true, 1), 2 := ApiKey(1, true, 1)]
    requires Balances(next.books, {CapOf(1, Credits), KeyOf(1, 1, Credits)} + {KeyOf(1, 2, Credits)})
    ensures !Covered(next, 1, Credits)
  {
    hide Available;
    var a, c := KeyOf(1, 1, Credits), KeyOf(1, 2, Credits);
    assert PoolKeys(next, 1, Credits) == {a, c};
    SumSplit(Spendable, next.books, {a, c}, a);
    assert {a, c} - {a} == {c};
    SumSplit(Spendable, next.books, {c}, c);
    assert {c} - {c} == {};
    NoneSumsToZero(next.books);
  }

  /** A run that uses nothing but pool allocation and ends with Keys that can spend twice
      what the pool holds, because the last operation re-enables a revoked Key. */
  lemma ReenablingCanOverdrawThePool()
    ensures Legal(EmptyDb, TWO_KEYS + POOL_TO_ONE + POOL_TO_TWO)
    ensures !Covered(Reached(TWO_KEYS + POOL_TO_ONE + POOL_TO_TWO), 1, Credits)
  {
    RunsJoin(EmptyDb, TWO_KEYS + POOL_TO_ONE, POOL_TO_TWO);
    RunsJoin(EmptyDb, TWO_KEYS, POOL_TO_ONE);
    RunOfThree(EmptyDb, TWO_KEYS);
    var site := Run(EmptyDb, TWO_KEYS);
    assert site.site.keys == map[1 := ApiKey(1, true, 1), 2 := ApiKey(1, true, 1)];
    PoolGoesToKeyOne(site);
    PoolGoesToKeyTwo(Run(site, POOL_TO_ONE));
  }
}
