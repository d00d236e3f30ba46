/**
 How much quota may be handed out (src-core/src/quota.rs:378-564, 1314-1403). Allocation
 from the pool keeps what the Keys can spend within what their user can spend, and
 allocation from the upstream keeps what the Keys have bound within the upstream's total.
 Nothing stores either sum, so nothing but the operations themselves keeps the bounds.
 */
module Allocation {
  import opened Basics
  import opened Books
  import opened Tables
  import opened Quota
  import opened Runs
  import opened Theorems

  // --------------------------------------------------- figures under a move

  /** How far a move shifts an account's available and held figures. */
  function AvailableShift(b: Books, m: Move, a: AccountId): int
    requires (m.FreeRow? || m.ChargeRow?) ==> m.request in b.reservations
  {
    match m
    case GrantTo(c, amount) => if a == c then amount else 0
    case PlaceRow(_, x) => if x.On(a) then -x.amount else 0
    case FreeRow(r) => if b.reservations[r].On(a) then b.reservations[r].amount else 0
    case ChargeRow(r, actual) => if b.reservations[r].On(a) then b.reservations[r].amount - actual else 0
    case _ => 0
  }

  function HeldShift(b: Books, m: Move, a: AccountId): int
    requires (m.FreeRow? || m.ChargeRow?) ==> m.request in b.reservations
  {
    match m
    case PlaceRow(_, x) => if x.On(a) then x.amount else 0
    case FreeRow(r) => if b.reservations[r].On(a) then -b.reservations[r].amount else 0
    case ChargeRow(r, _) => if b.reservations[r].On(a) then -b.reservations[r].amount else 0
    case _ => 0
  }

  lemma MoveShifts(b: Books, m: Move, a: AccountId)
    requires Sound(b) && Allowed(b, m)
    ensures Available(Apply(b, m), a) == Available(b, a) + AvailableShift(b, m, a)
    ensures HeldOn(Apply(b, m), a) == HeldOn(b, a) + HeldShift(b, m, a)
  {
    match m
    case Stay =>
    case GrantTo(c, amount) => FiguresAfterGrant(b, c, amount, a);
    case PlaceRow(r, x) =>
      FiguresAfterEvents(b, Apply(b, m), r, x, Reserve, x.amount, -x.amount, a);
      HeldPut(b.reservations, a, r, x);
    case SuspendRows(rs) => HeldSame(b.reservations, Apply(b, m).reservations, a);
    case FreeRow(r) =>
      var x := b.reservations[r];
      assert Filed(b, r);
      FiguresAfterEvents(b, Apply(b, m), r, x, Release, x.amount, x.amount, a);
      HeldPut(b.reservations, a, r, Apply(b, m).reservations[r]);
    case ChargeRow(r, actual) =>
      var x := b.reservations[r];
      assert Filed(b, r);
      FiguresAfterEvents(b, Apply(b, m), r, x, Commit, actual, x.amount - actual, a);
      HeldPut(b.reservations, a, r, Apply(b, m).reservations[r]);
    case QuarantineAccounts(_) =>
  }

  lemma {:induction false} HeldNonnegative(rs: map<Id, Reservation>, a: AccountId)
    requires forall r :: r in rs ==> rs[r].amount > 0
    ensures HeldTotal(rs, a) >= 0
    decreases |rs|
  {
    if rs != map[] {
      var r :| r in rs;
      HeldSplit(rs, a, r);
      HeldNonnegative(rs - {r}, a);
    }
  }

  lemma HeldOnNonnegative(b: Books, a: AccountId)
    requires Sound(b)
    ensures HeldOn(b, a) >= 0
  {
    forall r | r in b.reservations ensures b.reservations[r].amount > 0 { assert Filed(b, r); }
    HeldNonnegative(b.reservations, a);
  }

  // ------------------------------------------------------------------- sums

  lemma {:induction false} SumsCompare(f: Figure, b: Books, g: Figure, b': Books, s: set<AccountId>)
    requires forall a :: a in s ==> FigureOf(f, b, a) <= FigureOf(g, b', a)
    ensures SumOf(f, b, s) <= SumOf(g, b', s)
    decreases |s|
  {
    if s != {} {
      var a :| a in s;
      SumSplit(f, b, s, a);
      SumSplit(g, b', s, a);
      SumsCompare(f, b, g, b', s - {a});
    }
  }

  /** Only c's figure changed. */
  lemma SumShifts(f: Figure, b: Books, b': Books, s: set<AccountId>, c: AccountId)
    requires c in s
    requires forall a :: a in s && a != c ==> FigureOf(f, b', a) == FigureOf(f, b, a)
    ensures SumOf(f, b', s) - FigureOf(f, b', c) == SumOf(f, b, s) - FigureOf(f, b, c)
  {
    SumSplit(f, b, s, c);
    SumSplit(f, b', s, c);
    SumsCompare(f, b, f, b', s - {c});
    SumsCompare(f, b', f, b, s - {c});
  }

  /** A part of a sum of nonnegative figures is no more than the whole. */
  lemma {:induction false} PartOfSum(b: Books, part: set<AccountId>, s: set<AccountId>)
    requires part <= s && forall a :: a in s ==> Available(b, a) >= 0
    ensures SumOf(Spendable, b, part) <= SumOf(Spendable, b, s)
    decreases |s|
  {
    if s != part {
      var a :| a in s && a !in part;
      SumSplit(Spendable, b, s, a);
      PartOfSum(b, part, s - {a});
    }
  }

  // -------------------------------------------------------- upstream ceiling

  /** What all Keys together have bound of the upstream's credits. */
  ghost function BoundCredits(b: Books): int { SumOf(BoundAtLeastZero, b, CreditKeys(b)) }

  /** An allocation answers with what is left of the snapshot, or less when it began by
      paying off the receiving Key's debt, and never binds more than the snapshot's total. */
  lemma AllocationRespectsSnapshot(db: Db, key: Id, amount: int, s: Snapshot, now: int)
    requires Sound(db.books) && LedgerPosted(db.books)
    requires AllocateFromUpstream(db, key, amount, s, now).Ok?
    ensures var tx, a := AllocateFromUpstream(db, key, amount, s, now), KeyOf(db.site.keys[key].user, key, Credits);
      var b' := After(db, tx).books;
      && BoundCredits(b') <= s.total
      && tx.value.1.Remaining? && 0 <= tx.value.1.credits <= s.total - BoundCredits(b')
      && (tx.value.1.credits == s.total - BoundCredits(b') <==> Commitment(db.books, a) >= 0)
  {
    var b, a := db.books, KeyOf(db.site.keys[key].user, key, Credits);
    var b' := Grant(b, a, amount);
    forall c ensures Commitment(b', c) == Commitment(b, c) + if c == a then amount else 0 {
      MoveShifts(b, GrantTo(a, amount), c);
    }
    assert CreditKeys(b') == CreditKeys(b) + {a};
    SumShifts(BoundAtLeastZero, b, b', CreditKeys(b'), a);
    if a !in b.accounts {
      UnpostedIsEmpty(b, a);
      SumSplit(BoundAtLeastZero, b, CreditKeys(b'), a);
      assert CreditKeys(b') - {a} == CreditKeys(b);
    } else {
      assert CreditKeys(b') == CreditKeys(b);
    }
  }

  lemma {:induction false} UnpostedTotal(m: Measure, a: AccountId, ledger: seq<Entry>)
    requires forall k :: 0 <= k < |ledger| ==> ledger[k].account != a
    ensures Total(m, a, ledger) == 0
  {
    if ledger != [] { UnpostedTotal(m, a, ledger[..|ledger| - 1]); }
  }

  lemma {:induction false} UnheldTotal(rs: map<Id, Reservation>, a: AccountId)
    requires forall r :: r in rs ==> !rs[r].On(a)
    ensures HeldTotal(rs, a) == 0
    decreases |rs|
  {
    if rs != map[] {
      var r :| r in rs;
      HeldSplit(rs, a, r);
      UnheldTotal(rs - {r}, a);
    }
  }

  lemma UnpostedIsEmpty(b: Books, a: AccountId)
    requires Sound(b) && LedgerPosted(b) && a !in b.accounts
    ensures Available(b, a) == 0 && HeldOn(b, a) == 0
  {
    UnpostedTotal(Deltas, a, b.ledger);
    forall r | r in b.reservations ensures !b.reservations[r].On(a) { assert Filed(b, r); }
    UnheldTotal(b.reservations, a);
  }

  /** Reserving, releasing, suspending, charging and receipts bind nothing more. */
  lemma OnlyGrantsBind(db: Db, op: Op)
    requires Healthy(db) && Admissible(db, op)
    requires op.GrantPool? || !Grants(op) || ReceiverOf(db, op).kind != Credits
    ensures BoundCredits(Next(db, op).books) <= BoundCredits(db.books)
  {
    var b := db.books;
    var m := StepMoves(db, op);
    var b' := Next(db, op).books;
    assert CreditKeys(b') == CreditKeys(b);
    forall a | a in CreditKeys(b) ensures FigureOf(BoundAtLeastZero, b', a) <= FigureOf(BoundAtLeastZero, b, a) {
      MoveShifts(b, m, a);
    }
    SumsCompare(BoundAtLeastZero, b', BoundAtLeastZero, b, CreditKeys(b));
  }

  predicate BindsNoCredits(ops: seq<Op>) {
    forall k :: 0 <= k < |ops| ==> !ops[k].GrantKey? && !ops[k].GrantFromPool? && !ops[k].GrantFromUpstream?
  }

  lemma {:induction false} BoundOnlyFalls(db: Db, ops: seq<Op>)
    requires Healthy(db) && Legal(db, ops) && BindsNoCredits(ops)
    ensures BoundCredits(Run(db, ops).books) <= BoundCredits(db.books)
    decreases |ops|
  {
    if ops != [] {
      OnlyGrantsBind(db, ops[0]);
      StepKeepsHealthy(db, ops[0]);
      BoundOnlyFalls(Next(db, ops[0]), ops[1..]);
    }
  }

  /** The upstream ceiling: from one allocation to the next, whatever clients and receipts
      do, the Keys' commitments stay within the snapshot the allocation was checked against. */
  lemma UpstreamCeiling(db: Db, key: Id, amount: int, s: Snapshot, now: int, ops: seq<Op>)
    requires Healthy(db)
    requires AllocateFromUpstream(db, key, amount, s, now).Ok?
    requires Legal(After(db, AllocateFromUpstream(db, key, amount, s, now)), ops) && BindsNoCredits(ops)
    ensures BoundCredits(Run(After(db, AllocateFromUpstream(db, key, amount, s, now)), ops).books) <= s.total
  {
    var op := GrantFromUpstream(key, amount, s, now);
    AllocationRespectsSnapshot(db, key, amount, s, now);
    StepKeepsHealthy(db, op);
    BoundOnlyFalls(Next(db, op), ops);
  }
}
