/** The recovery, queue and billing operations keep the store coherent. */
module CoherenceJobs {
  import opened Basics
  import opened States
  import opened Books
  import opened Tables
  import opened Quota
  import opened Requests
  import opened Jobs
  import opened BillingOps
  import opened Coherence

  // ---------------------------------------------------------------- recovery

  lemma ExpiredCase(db: Db, r: Id, now: int)
    requires Agrees(CaseOf(db, r)) && Tied(db, r)
    ensures Expired(db, r, now) ==> Recoverable(db, r)
    ensures Agrees(CaseOf(Recovered(db, now), r)) && Tied(Recovered(db, now), r)
  {
  }

  /** In a coherent store recovery cannot fail: every expired lease can be suspended
      together with its reservation, its request and its job. */
  lemma RecoveryKeepsAgreement(db: Db, now: int)
    requires AllAgree(db)
    ensures AllAgree(After(db, RecoverExpired(db, now)))
    ensures Fits(now + DEFAULT_RECONCILE_TTL) ==> RecoverExpired(db, now) == Ok((Recovered(db, now), Done))
  {
    forall r ensures Expired(db, r, now) ==> Recoverable(db, r) {
      assert Agrees(CaseOf(db, r)) && Tied(db, r);
      ExpiredCase(db, r, now);
    }
    forall r ensures Agrees(CaseOf(Recovered(db, now), r)) && Tied(Recovered(db, now), r) {
      assert Agrees(CaseOf(db, r)) && Tied(db, r);
      ExpiredCase(db, r, now);
    }
  }

  // ------------------------------------------------------------------- queue

  lemma ProvisionKeepsAgreement(db: Db, r: Id, now: int)
    requires AllAgree(db) && r in db.jobs && db.jobs[r].state.Queued? && r !in db.attempts
    requires Provision(db, r, now).Ok?
    ensures AllAgree(Provision(db, r, now).value)
  {
    var db' := Provision(db, r, now).value;
    assert Agrees(CaseOf(db, r)) && Tied(db, r);
    OthersAgree(db, db', r);
  }

  lemma ClaimKeepsAgreement(db: Db, r: Id, worker: Id, now: int)
    requires AllAgree(db) && r in db.jobs && db.jobs[r].state.Queued?
    ensures AllAgree(After(db, Claim(db, r, worker, now)))
  {
    var tx := Claim(db, r, worker, now);
    if tx.Ok? {
      var db' := After(db, tx);
      var db1 := if r !in db.attempts then Provision(db, r, now).value else db;
      if r !in db.attempts { ProvisionKeepsAgreement(db, r, now); }
      assert Agrees(CaseOf(db1, r)) && Tied(db1, r);
      OthersAgree(db1, db', r);
    }
  }

  lemma ClaimsKeepAgreement(db: Db, r: Id, worker: Id, now: int)
    requires AllAgree(db)
    ensures AllAgree(After(db, ClaimNext(db, worker, now)))
    ensures AllAgree(After(db, ClaimById(db, r, worker, now)))
  {
    var h := Pick(db);
    if h.Some? { ClaimKeepsAgreement(db, h.value, worker, now); }
    if Waiting(db, r) { ClaimKeepsAgreement(db, r, worker, now); }
  }

  lemma HeartbeatJobKeepsAgreement(db: Db, worker: Id, r: Id, now: int, ttl: int)
    requires AllAgree(db)
    ensures AllAgree(After(db, HeartbeatJob(db, worker, r, now, ttl)))
  {
    var db' := After(db, HeartbeatJob(db, worker, r, now, ttl));
    assert Agrees(CaseOf(db, r)) && Tied(db, r);
    OthersAgree(db, db', r);
  }

  lemma MarkRunningKeepsAgreement(db: Db, p: Principal, r: Id)
    requires AllAgree(db)
    ensures AllAgree(After(db, MarkRunning(db, p, r)))
  {
    var db' := After(db, MarkRunning(db, p, r));
    assert Agrees(CaseOf(db, r)) && Tied(db, r);
    OthersAgree(db, db', r);
  }

  lemma CancelVideoKeepsAgreement(db: Db, p: Principal, r: Id)
    requires AllAgree(db)
    ensures AllAgree(After(db, CancelVideo(db, p, r)))
  {
    var tx := CancelVideo(db, p, r);
    if tx.Ok? && (db.jobs[r].state.Queued? || db.jobs[r].state.Running?) {
      var db' := After(db, tx);
      assert Agrees(CaseOf(db, r)) && Tied(db, r);
      if r in db.attempts {
        assert db'.books == db.books;
        OthersAgree(db, db', r);
      } else {
        assert db'.books == Free(db.books, r);
        OthersAgree(db, db', r);
      }
    } else {
      assert Agrees(CaseOf(db, r));
      assert After(db, tx) == db;
    }
  }

  // ----------------------------------------------------------------- billing

  lemma QuoteShape(db: Db, r: Id, q: Quote, snapshot: Option<Snapshot>, now: int)
    requires ReserveQuote(db, r, q, snapshot, now).Ok? && r !in db.billing.quotes
    ensures r in db.requests && db.requests[r].state.Received? && r !in db.books.reservations
    ensures var db', x := After(db, ReserveQuote(db, r, q, snapshot, now)), db.requests[r];
      && ReserveDual(db.books, r, x.user, x.key, Credits, q.max).Ok?
      && ReserveDual(db.books, r, x.user, x.key, Credits, q.max).value == Placed(db'.books)
      && db' == db.(requests := db.requests[r := x.(state := RequestState.Reserved)], books := db'.books,
                    billing := db.billing.(quotes := db.billing.quotes[r := q]))
      && x.key !in db.billing.blocks
  {
  }

  lemma QuoteKeepsAgreement(db: Db, r: Id, q: Quote, snapshot: Option<Snapshot>, now: int)
    requires AllAgree(db)
    ensures AllAgree(After(db, ReserveQuote(db, r, q, snapshot, now)))
  {
    var tx := ReserveQuote(db, r, q, snapshot, now);
    if tx.Ok? && r !in db.billing.quotes {
      QuoteShape(db, r, q, snapshot, now);
      assert Agrees(CaseOf(db, r)) && Tied(db, r);
      OthersAgree(db, After(db, tx), r);
    } else {
      assert After(db, tx) == db;
    }
  }

  lemma SecondReceiptKeepsAgreement(db: Db, x: Receipt)
    requires AllAgree(db)
    requires x.request in db.requests && x.request in db.billing.quotes && x.request in db.billing.settlements
    ensures AllAgree(After(db, SecondReceipt(db, x)))
  {
    var db', r := After(db, SecondReceipt(db, x)), x.request;
    assert db' == db.(billing := db'.billing);
    assert db'.billing.quotes == db.billing.quotes;
    assert db'.billing.settlements.Keys == db.billing.settlements.Keys;
    assert Agrees(CaseOf(db, r)) && Tied(db, r);
    assert CaseOf(db', r) == CaseOf(db, r);
    OthersAgree(db, db', r);
  }

  lemma UndecidedReceiptKeepsAgreement(db: Db, x: Receipt)
    requires AllAgree(db) && x.request in db.requests && x.request in db.books.reservations
    requires x.request in db.billing.quotes && x.request !in db.billing.settlements
    ensures AllAgree(After(db, UndecidedReceipt(db, x)))
  {
    var r, tx := x.request, UndecidedReceipt(db, x);
    if tx.Ok? {
      assert Agrees(CaseOf(db, r)) && Tied(db, r);
      OthersAgree(db, After(db, tx), r);
    }
  }

  lemma DecisiveReceiptKeepsAgreement(db: Db, x: Receipt)
    requires AllAgree(db) && x.request in db.requests && x.request in db.books.reservations
    requires x.request in db.billing.quotes && x.request !in db.billing.settlements && Decisive(x)
    ensures AllAgree(After(db, DecisiveReceipt(db, x)))
  {
    var r, tx := x.request, DecisiveReceipt(db, x);
    if tx.Ok? {
      assert Agrees(CaseOf(db, r)) && Tied(db, r);
      OthersAgree(db, After(db, tx), r);
    }
  }

  lemma ReceiptKeepsAgreement(db: Db, x: Receipt)
    requires AllAgree(db)
    ensures AllAgree(After(db, ApplyReceipt(db, x)))
  {
    var r := x.request;
    if r in db.requests && r in db.billing.quotes && r in db.books.reservations {
      if r in db.billing.settlements { SecondReceiptKeepsAgreement(db, x); }
      else if !Decisive(x) { UndecidedReceiptKeepsAgreement(db, x); }
      else { DecisiveReceiptKeepsAgreement(db, x); }
    }
  }
}
