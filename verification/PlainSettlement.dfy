/**
 settle and settle_request close a reservation without looking for a lease or a job behind
 it (src-core/src/quota.rs:2356-2475). When that is harmless, and what it does when it is not.
 */
module PlainSettlement {
  import opened Basics
  import opened States
  import opened Books
  import opened Tables
  import opened Quota
  import opened Requests
  import opened Coherence
  import opened History
  import opened EventGroups
  import opened Theorems
  import opened Reports

  /** By itself a plain settlement never harms the books, whatever stands behind the reservation. */
  lemma PlainSettleKeepsSound(db: Db, p: Principal, r: Id, s: Settlement, goal: Option<RequestState>)
    requires Sound(db.books)
    ensures Sound(After(db, Settle(db, p, r, s, goal)).books)
  {
    if Settle(db, p, r, s, goal).Ok? && db.books.reservations[r].state.Held? {
      SettleShape(db, p, r, s, goal);
      SettlementIsSoundExactly(db.books, r, s);
    }
  }

  /** It keeps the state machines in agreement if and only if it closes nothing, or nothing
      but the request stands behind the reservation: no lease and no job. */
  lemma PlainSettleAgreesExactly(db: Db, p: Principal, r: Id, s: Settlement, goal: Option<RequestState>)
    requires AllAgree(db) && Settle(db, p, r, s, goal).Ok?
    ensures AllAgree(After(db, Settle(db, p, r, s, goal))) <==>
      !db.books.reservations[r].state.Held? || (r !in db.leases && r !in db.jobs)
  {
    var db' := After(db, Settle(db, p, r, s, goal));
    if db.books.reservations[r].state.Held? {
      SettleShape(db, p, r, s, goal);
      ApplySettlementTouches(db.books, r, s);
      assert Agrees(CaseOf(db, r));
      if r in db.leases || r in db.jobs {
        assert !Agrees(CaseOf(db', r));
      } else {
        SettleKeepsAgreement(db, p, r, s, goal);
      }
    }
  }

  predicate Closes(s: Settlement) { s.Released? || (s.Charged? && s.actual.Some?) }

  /** What closing a reservation past its live lease leaves behind. */
  lemma ClosedPastLease(db: Db, p: Principal, r: Id, s: Settlement)
    requires Healthy(db) && r in db.leases && db.leases[r].state.Live()
    requires Closes(s) && Settle(db, p, r, s, None).Ok?
    ensures r in db.books.reservations && r in db.requests
    ensures var x, b := db.books.reservations[r], After(db, Settle(db, p, r, s, None)).books;
      && After(db, Settle(db, p, r, s, None)) == db.(books := b)
      && Sound(b) && r in b.reservations && !b.reservations[r].Holds()
      && b.reservations[r] == x.(state := b.reservations[r].state)
  {
    assert Agrees(CaseOf(db, r));
    PlainSettleKeepsSound(db, p, r, s, None);
    ApplySettlementTouches(db.books, r, s);
  }

  lemma AppliedReportBreaksBooks(db: Db, q: Principal, r: Id, o: LeaseOutcome, now: int)
    requires Sound(db.books) && r in db.leases && db.leases[r].state.Live()
    requires r in db.books.reservations && !db.books.reservations[r].Holds()
    requires var tx := SettleLease(db, q, r, o, now, false); tx.Ok? && tx.value.1 == Applied(true)
    ensures !Conserved(After(db, SettleLease(db, q, r, o, now, false)).books, db.books.reservations[r].keyAccount)
  {
    SettledRows(db, r, o, UntilAfter(db.leases[r], o, now).value);
    SettlementIsSoundExactly(db.books, r, SettlementFor(o));
  }

  /** A reservation closed past its live lease: the books are in order still, but whatever
      is reported of the lease next, if the report is applied the Key's account no longer
      adds up. */
  lemma LateReportBreaksBooks(db: Db, p: Principal, r: Id, s: Settlement, q: Principal, o: LeaseOutcome, now: int)
    requires Healthy(db) && r in db.leases && db.leases[r].state.Live()
    requires Closes(s) && Settle(db, p, r, s, None).Ok?
    ensures r in db.books.reservations
    ensures var closed := After(db, Settle(db, p, r, s, None));
      var late := SettleLease(closed, q, r, o, now, false);
      && Sound(closed.books)
      && (late.Ok? && late.value.1 == Applied(true) ==>
            !Conserved(After(closed, late).books, db.books.reservations[r].keyAccount))
  {
    hide Settle, SettleLease, Sound, Conserved, Healthy;
    ClosedPastLease(db, p, r, s);
    var closed := After(db, Settle(db, p, r, s, None));
    var late := SettleLease(closed, q, r, o, now, false);
    if late.Ok? && late.value.1 == Applied(true) { AppliedReportBreaksBooks(closed, q, r, o, now); }
  }

  lemma LostCallIsApplied(db: Db, b: Books, p: Principal, r: Id, now: int)
    requires AllAgree(db) && r in db.leases && db.leases[r].state.Live() && Fits(now + DEFAULT_RECONCILE_TTL)
    requires r in db.books.reservations && OwnsReservation(db, p, r)
    requires r in b.reservations && b.reservations[r] == db.books.reservations[r].(state := b.reservations[r].state)
    ensures var late := SettleLease(db.(books := b), p, r, TransportUnknown, now, false);
      late.Ok? && late.value.1 == Applied(true)
  {
    assert Agrees(CaseOf(db, r)) && Tied(db, r);
  }

  /** Such a report is always at hand: that the upstream call was lost. */
  lemma LateReportIsApplied(db: Db, p: Principal, r: Id, s: Settlement, now: int)
    requires Healthy(db) && r in db.leases && db.leases[r].state.Live()
    requires Closes(s) && Settle(db, p, r, s, None).Ok? && Fits(now + DEFAULT_RECONCILE_TTL)
    ensures r in db.books.reservations
    ensures var closed := After(db, Settle(db, p, r, s, None));
      var late := SettleLease(closed, p, r, TransportUnknown, now, false);
      && late.Ok? && late.value.1 == Applied(true)
      && !Conserved(After(closed, late).books, db.books.reservations[r].keyAccount)
  {
    hide SettleLease, Conserved, AllAgree, Sound;
    ClosedPastLease(db, p, r, s);
    LostCallIsApplied(db, After(db, Settle(db, p, r, s, None)).books, p, r, now);
    LateReportBreaksBooks(db, p, r, s, p, TransportUnknown, now);
  }

  // ---------------------------------------------------- what a settlement does

  /** The request follows the final state it is given, if any, to the end. */
  predicate RequestEnds(db: Db, r: Id, goal: Option<RequestState>) {
    goal.None? || r !in db.requests || CanSettleAs(db.requests[r].state, goal.value)
  }

  /** A first settlement is taken exactly from the owner of the reservation, of an amount
      within it, towards a state the request can reach; it charges what it names, or gives
      all back, or keeps the hold. */
  lemma SettlesExactly(db: Db, p: Principal, r: Id, s: Settlement, goal: Option<RequestState>)
    requires Healthy(db) && r in db.books.reservations && db.books.reservations[r].state.Held?
    ensures var x, tx := db.books.reservations[r], Settle(db, p, r, s, goal);
      && (tx.Ok? <==>
            && Owner(db, p, r) && RequestEnds(db, r, goal)
            && (s.Charged? && s.actual.Some? ==> 0 <= s.actual.value <= x.amount))
      && (tx.Ok? ==>
            match s
            case Released => Pays(db.books, tx.value.0.books, x, x.amount, x.amount, 0)
            case Charged(Some(c)) => Pays(db.books, tx.value.0.books, x, x.amount - c, x.amount, c)
            case _ => Pays(db.books, tx.value.0.books, x, 0, 0, 0))
      && (tx.Ok? ==>
            tx.value.0 == db.(books := tx.value.0.books, requests := tx.value.0.requests)
            && r in db.requests
            && tx.value.0.requests == db.requests[r := db.requests[r].(state :=
                 if goal.None? || goal.value.Settled? then db.requests[r].state else RequestState.Settled)])
  {
    hide Healthy, Pays, Sound;
    HealthyBooks(db);
    HealthyCase(db, r);
    HeldRow(db, r);
    if ApplySettlement(db.books, r, s).Ok? { SettlementPays(db.books, r, s); }
    if r in db.requests { assert db.requests[r := db.requests[r].(state := db.requests[r].state)] == db.requests; }
  }

  lemma HeldRow(db: Db, r: Id)
    requires Agrees(CaseOf(db, r)) && r in db.books.reservations
    ensures r in db.requests
  {
  }

  // ------------------------------------------------------------------ replays

  lemma {:induction false} InGroup(ledger: seq<Entry>, r: Id, e: Entry)
    ensures e in Group(ledger, r) <==> e in ledger && e.group == Some(r)
  {
    if ledger != [] {
      var n := |ledger| - 1;
      InGroup(ledger[..n], r, e);
      assert ledger == ledger[..n] + [ledger[n]];
    }
  }

  /** While a reservation is open the ledger has no commit of it. */
  lemma OpenHasNoCommit(b: Books, r: Id, e: Entry)
    requires WellGrouped(b, r) && r in b.reservations && b.reservations[r].Holds() && e in b.ledger && e.group == Some(r)
    ensures !e.event.Commit?
  {
    InGroup(b.ledger, r, e);
    var rows, n := Group(b.ledger, r), |AccountsOf(b.reservations[r])|;
    var k :| 0 <= k < |rows| && rows[k] == e;
    assert rows[..n][k] == e;
  }

  lemma {:induction false} CommitIsFound(ledger: seq<Entry>, more: seq<Entry>, a: AccountId, r: Id)
    requires forall e :: e in ledger && e.group == Some(r) ==> !e.event.Commit?
    ensures CommittedAmount(ledger + more, a, r) == CommittedAmount(more, a, r)
  {
    if ledger == [] {
      assert ledger + more == more;
    } else {
      assert ledger[0] in ledger;
      assert (ledger + more)[1..] == ledger[1..] + more;
      CommitIsFound(ledger[1..], more, a, r);
    }
  }

  /** The two settlements say the same. */
  predicate SameAs(s: Settlement, z: Settlement) {
    match s
    case Released => z.Released?
    case Charged(Some(c)) => z == Charged(Some(c))
    case _ => z.Undecided? || z == Charged(None)
  }

  /** Settling twice is settling once, when both say the same, and otherwise a conflict:
      the first word stands. */
  lemma FirstWordStands(db: Db, p: Principal, r: Id, s: Settlement, goal: Option<RequestState>, z: Settlement, again: Option<RequestState>)
    requires Healthy(db) && r in db.books.reservations && db.books.reservations[r].state.Held? && Settle(db, p, r, s, goal).Ok?
    ensures var db' := After(db, Settle(db, p, r, s, goal));
      Settle(db', p, r, z, again) == if SameAs(s, z) then Ok((db', Done)) else Err(ReservationSettlementConflict)
  {
    hide Healthy;
    HealthyBooks(db);
    SettleShape(db, p, r, s, goal);
    ApplySettlementTouches(db.books, r, s);
    if s.Charged? && s.actual.Some? { ChargeIsOnRecord(db.books, r, s.actual.value); }
    StillOwned(db, p, r, s, goal);
  }

  lemma ChargeIsOnRecord(b: Books, r: Id, c: int)
    requires WellGrouped(b, r) && r in b.reservations && b.reservations[r].Holds()
    ensures CommittedAmount(Charge(b, r, c).ledger, b.reservations[r].keyAccount, r) == Some(c)
  {
    hide WellGrouped, Group;
    var x := b.reservations[r];
    forall e | e in b.ledger && e.group == Some(r) ensures !e.event.Commit? { OpenHasNoCommit(b, r, e); }
    CommitIsFound(b.ledger, Events(b, r, x, Commit, c, x.amount - c), x.keyAccount, r);
  }

  lemma StillOwned(db: Db, p: Principal, r: Id, s: Settlement, goal: Option<RequestState>)
    requires r in db.books.reservations && db.books.reservations[r].state.Held? && Settle(db, p, r, s, goal).Ok?
    ensures r in After(db, Settle(db, p, r, s, goal)).books.reservations && OwnsReservation(After(db, Settle(db, p, r, s, goal)), p, r)
  {
    SettleShape(db, p, r, s, goal);
    ApplySettlementTouches(db.books, r, s);
  }
}
