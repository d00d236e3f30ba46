/** What no operation ever undoes: rows stay, owners and amounts stay, states move along
    legal edges only, and the ledger is only appended to. */
module History {
  import opened Basics
  import opened States
  import opened Books
  import opened Tables
  import opened Quota
  import opened Requests
  import opened Jobs
  import opened BillingOps
  import opened Coherence
  import opened CoherenceJobs

  ghost predicate RequestAdvances(x: Request, y: Request) {
    y == x.(state := y.state) && x.state.Reaches(y.state)
  }

  ghost predicate JobAdvances(x: Job, y: Job) {
    y == x.(state := y.state, owner := y.owner, claimExpires := y.claimExpires) && x.state.Reaches(y.state)
  }

  predicate LeaseAdvances(x: Lease, y: Lease) {
    && y.account == x.account && y.kind == x.kind
    && (x.state.Succeeded? || x.state.Failed? ==> y.state == x.state)
    && (x.state.Unknown? ==> !y.state.Live())
    && (x.state.Active? ==> !y.state.Held?)
  }

  predicate ReservationAdvances(x: Reservation, y: Reservation) {
    && y == x.(state := y.state)
    && (x.state.Committed? || x.state.Released? ==> y.state == x.state)
    && (x.state.Unknown? ==> !y.state.Held?)
  }

  /** How the rows of one request may change. */
  ghost predicate RowAdvances(db: Db, db': Db, r: Id) {
    && (r in db.requests ==> r in db'.requests && RequestAdvances(db.requests[r], db'.requests[r]))
    && (r in db.jobs ==> r in db'.jobs && JobAdvances(db.jobs[r], db'.jobs[r]))
    && (r in db.leases ==> r in db'.leases && LeaseAdvances(db.leases[r], db'.leases[r]))
    && (r in db.attempts ==> r in db'.attempts && db'.attempts[r].account == db.attempts[r].account)
    && (r in db.books.reservations ==>
          r in db'.books.reservations && ReservationAdvances(db.books.reservations[r], db'.books.reservations[r]))
    // A finished lease leaves its reservation as it is, for good.
    && (r in db.books.reservations && r in db.leases && (db.leases[r].state.Succeeded? || db.leases[r].state.Failed?) ==>
          r in db'.books.reservations && db'.books.reservations[r] == db.books.reservations[r])
    && (r in db.billing.quotes ==> r in db'.billing.quotes && db'.billing.quotes[r] == db.billing.quotes[r])
    && (r in db.billing.settlements ==>
          r in db'.billing.settlements && db'.billing.settlements[r].actual == db.billing.settlements[r].actual)
  }

  ghost predicate Advances(db: Db, db': Db) {
    && db.books.ledger <= db'.books.ledger
    && (forall r :: RowAdvances(db, db', r))
    && (forall k :: k in db.idem ==> k in db'.idem && db'.idem[k] == db.idem[k])
    && (forall k :: k in db.billing.blocks ==> k in db'.billing.blocks && db'.billing.blocks[k] == db.billing.blocks[k])
  }

  lemma OthersAdvance(db: Db, db': Db, r: Id)
    requires OnlyTouches(db, db', r) && RowAdvances(db, db', r)
    requires db.books.ledger <= db'.books.ledger
    requires forall k :: k in db.idem ==> k in db'.idem && db'.idem[k] == db.idem[k]
    requires forall k :: k in db.billing.blocks ==> k in db'.billing.blocks && db'.billing.blocks[k] == db.billing.blocks[k]
    ensures Advances(db, db')
  {
    forall q ensures RowAdvances(db, db', q) {
      if q != r {
        assert SameRow(db.requests, db'.requests, q);
      }
    }
  }

  lemma AdvancesTransitively(a: Db, b: Db, c: Db)
    requires Advances(a, b) && Advances(b, c)
    ensures Advances(a, c)
  {
    forall r ensures RowAdvances(a, c, r) {
      assert RowAdvances(a, b, r) && RowAdvances(b, c, r);
    }
  }

  lemma Stays(db: Db)
    ensures Advances(db, db)
  {
  }

  // --------------------------------------------------------- step by step

  /** A new request's rows are all new. */
  lemma EntryAdvances(db: Db, s: Submission, r: Id, db': Db)
    requires s.Idem() !in db.idem && r !in db.requests && AllAgree(db)
    requires OnlyTouches(db, db', r) && db.books.ledger <= db'.books.ledger
    requires db'.idem == db.idem[s.Idem() := IdemRow(s.content, r)] && db'.billing == db.billing
    ensures Advances(db, db')
  {
    assert Agrees(CaseOf(db, r));
    OthersAdvance(db, db', r);
  }

  lemma BeginAdvances(db: Db, s: Submission, policy: Option<Kind>, needPolicy: bool, r: Id)
    requires AllAgree(db)
    ensures Advances(db, After(db, Begin(db, s, policy, needPolicy, r)))
  {
    var tx := Begin(db, s, policy, needPolicy, r);
    if tx.Ok? && s.Idem() !in db.idem {
      EntryAdvances(db, s, r, After(db, tx));
    } else {
      Stays(db);
    }
  }

  lemma PreflightAdvances(db: Db, s: Submission, r: Id, now: int)
    requires AllAgree(db)
    ensures Advances(db, After(db, PreflightReserve(db, s, r, now)))
  {
    var db' := After(db, PreflightReserve(db, s, r, now));
    if db' != db {
      EntryAdvances(db, s, r, db');
    } else {
      Stays(db);
    }
  }

  lemma PreflightLeaseAdvances(db: Db, p: Principal, s: Submission, t: Terms, policy: Option<Kind>,
                               job: Option<Id>, r: Id, now: int)
    requires AllAgree(db)
    ensures Advances(db, After(db, PreflightWithLease(db, p, s, t, policy, job, r, now)))
  {
    hide Admit, Advances, Agrees, Tied;
    var tx := PreflightWithLease(db, p, s, t, policy, job, r, now);
    if tx.Ok? && s.Idem() !in db.idem {
      LeasedShape(db, p, s, t, policy, job, r, now);
      EntryAdvances(db, s, r, After(db, tx));
    } else {
      assert After(db, tx) == db;
      Stays(db);
    }
  }

  lemma EnqueueAdvances(db: Db, p: Principal, s: Submission, t: Terms, policy: Option<Kind>,
                        job: Id, r: Id, now: int)
    requires AllAgree(db)
    ensures Advances(db, After(db, EnqueueVideo(db, p, s, t, policy, job, r, now)))
  {
    hide Admit, Advances, Agrees, Tied;
    var tx := EnqueueVideo(db, p, s, t, policy, job, r, now);
    if tx.Ok? && s.Idem() !in db.idem {
      EnqueuedShape(db, p, s, t, policy, job, r, now);
      EntryAdvances(db, s, r, After(db, tx));
    } else {
      assert After(db, tx) == db;
      Stays(db);
    }
  }

  lemma TransitionAdvances(db: Db, r: Id, expected: RequestState, next: RequestState)
    ensures Advances(db, After(db, Transition(db, r, expected, next)))
  {
    if Transition(db, r, expected, next).Ok? {
      EdgesLowerRank(expected, next, JobState.Created, JobState.Created);
      OthersAdvance(db, After(db, Transition(db, r, expected, next)), r);
    } else {
      Stays(db);
    }
  }

  lemma HeartbeatLeaseAdvances(db: Db, p: Principal, r: Id, now: int, ttl: int)
    ensures Advances(db, After(db, HeartbeatLease(db, p, r, now, ttl)))
  {
    hide Advances;
    OthersAdvance(db, After(db, HeartbeatLease(db, p, r, now, ttl)), r);
  }

  lemma CancelLeaseAdvances(db: Db, p: Principal, r: Id)
    ensures Advances(db, After(db, CancelLease(db, p, r)))
  {
    hide Advances;
    OthersAdvance(db, After(db, CancelLease(db, p, r)), r);
  }

  lemma SettlementAdvances(b: Books, r: Id, s: Settlement)
    requires r in b.reservations && b.reservations[r].Holds() && ApplySettlement(b, r, s).Ok?
    ensures var b' := ApplySettlement(b, r, s).value;
      && b.ledger <= b'.ledger
      && b'.reservations.Keys == b.reservations.Keys
      && (forall q :: q in b.reservations && q != r ==> b'.reservations[q] == b.reservations[q])
      && ReservationAdvances(b.reservations[r], b'.reservations[r])
  {
  }

  lemma SettleShape(db: Db, p: Principal, r: Id, s: Settlement, goal: Option<RequestState>)
    requires Settle(db, p, r, s, goal).Ok? && r in db.books.reservations && db.books.reservations[r].state.Held?
    ensures var db' := After(db, Settle(db, p, r, s, goal));
      && ApplySettlement(db.books, r, s).Ok?
      && db' == db.(books := ApplySettlement(db.books, r, s).value, requests := db'.requests)
      && (forall q :: q != r ==> SameRow(db.requests, db'.requests, q))
      && (r in db.requests ==> r in db'.requests && RequestAdvances(db.requests[r], db'.requests[r]))
  {
  }

  lemma SettleAdvances(db: Db, p: Principal, r: Id, s: Settlement, goal: Option<RequestState>)
    requires r !in db.leases
    ensures Advances(db, After(db, Settle(db, p, r, s, goal)))
  {
    var tx := Settle(db, p, r, s, goal);
    if tx.Ok? && r in db.books.reservations && db.books.reservations[r].state.Held? {
      SettleShape(db, p, r, s, goal);
      SettlementAdvances(db.books, r, s);
      OthersAdvance(db, After(db, tx), r);
    } else {
      assert After(db, tx) == db;
      Stays(db);
    }
  }

  lemma SettledRowAdvances(db: Db, db': Db, r: Id, o: LeaseOutcome)
    requires Agrees(CaseOf(db, r)) && r in db.leases && r in db.requests && r in db.books.reservations
    requires db.leases[r].state.Live() || (db.leases[r].state.Unknown? && !LeaseAfter(o).Unknown?)
    requires r in db'.requests && RequestAdvances(db.requests[r], db'.requests[r])
    requires r in db'.leases && db'.leases[r] == db.leases[r].(state := LeaseAfter(o), reconcileUntil := db'.leases[r].reconcileUntil)
    requires r in db.jobs ==> r in db'.jobs && JobAdvances(db.jobs[r], db'.jobs[r])
    requires r in db.attempts ==> r in db'.attempts && db'.attempts[r].account == db.attempts[r].account
    requires r in db'.books.reservations && ReservationAdvances(db.books.reservations[r], db'.books.reservations[r])
    requires db'.billing == db.billing
    ensures RowAdvances(db, db', r)
  {
  }

  lemma SettleRowsAdvances(db: Db, r: Id, o: LeaseOutcome, until: Option<int>)
    requires AllAgree(db) && r in db.leases && r in db.requests && r in db.books.reservations
    requires db.leases[r].state.Live() || (db.leases[r].state.Unknown? && !LeaseAfter(o).Unknown?)
    requires SettleRows(db, r, o, until).Ok?
    ensures Advances(db, SettleRows(db, r, o, until).value)
  {
    hide AllAgree, Advances, RowAdvances, ApplySettlement, SettleRows, OnlyTouches, Tied;
    var db' := SettleRows(db, r, o, until).value;
    CaseAgrees(db, r);
    SettledCase(db, r, o, until);
    SettledRows(db, r, o, until);
    SettlementAdvances(db.books, r, SettlementFor(o));
    SettledRowAdvances(db, db', r, o);
    OthersAdvance(db, db', r);
  }

  lemma SettleLeaseAdvances(db: Db, p: Principal, r: Id, o: LeaseOutcome, now: int, allowUnknown: bool)
    requires AllAgree(db) && (allowUnknown ==> Evident(o))
    ensures Advances(db, After(db, SettleLease(db, p, r, o, now, allowUnknown)))
  {
    var tx := SettleLease(db, p, r, o, now, allowUnknown);
    if tx.Ok? && (db.leases[r].state.Live() || (allowUnknown && db.leases[r].state.Unknown?)) {
      SettleRowsAdvances(db, r, o, UntilAfter(db.leases[r], o, now).value);
    } else {
      Stays(db);
    }
  }

  lemma RecoveredRowAdvances(db: Db, r: Id, now: int)
    requires Agrees(CaseOf(db, r)) && (Expired(db, r, now) ==> Recoverable(db, r))
    ensures RowAdvances(db, Recovered(db, now), r)
  {
  }

  lemma RecoveryAdvances(db: Db, now: int)
    requires AllAgree(db)
    ensures Advances(db, After(db, RecoverExpired(db, now)))
  {
    if RecoverExpired(db, now).Ok? {
      forall r ensures RowAdvances(db, Recovered(db, now), r) {
        assert Agrees(CaseOf(db, r)) && Tied(db, r);
        RecoveredRowAdvances(db, r, now);
      }
    } else {
      Stays(db);
    }
  }

  lemma ProvisionAdvances(db: Db, r: Id, now: int)
    requires r in db.jobs && r !in db.attempts && Provision(db, r, now).Ok?
    ensures Advances(db, Provision(db, r, now).value)
  {
    OthersAdvance(db, Provision(db, r, now).value, r);
  }

  lemma ClaimAdvances(db: Db, r: Id, worker: Id, now: int)
    requires r in db.jobs
    ensures Advances(db, After(db, Claim(db, r, worker, now)))
  {
    hide Provision, Advances;
    var tx := Claim(db, r, worker, now);
    if tx.Ok? {
      var db1 := if r !in db.attempts then Provision(db, r, now).value else db;
      if r !in db.attempts { ProvisionAdvances(db, r, now); } else { Stays(db); }
      OthersAdvance(db1, After(db, tx), r);
      AdvancesTransitively(db, db1, After(db, tx));
    } else {
      Stays(db);
    }
  }

  lemma HeartbeatJobAdvances(db: Db, worker: Id, r: Id, now: int, ttl: int)
    ensures Advances(db, After(db, HeartbeatJob(db, worker, r, now, ttl)))
  {
    OthersAdvance(db, After(db, HeartbeatJob(db, worker, r, now, ttl)), r);
  }

  lemma MarkRunningAdvances(db: Db, p: Principal, r: Id)
    ensures Advances(db, After(db, MarkRunning(db, p, r)))
  {
    OthersAdvance(db, After(db, MarkRunning(db, p, r)), r);
  }

  lemma CancelOpenAdvances(db: Db, r: Id)
    requires r in db.jobs && r in db.requests && Agrees(CaseOf(db, r)) && CancelOpen(db, r).Ok?
    requires !db.jobs[r].state.Terminal() && !db.jobs[r].state.Unknown? && !db.jobs[r].state.CancelRequested?
    requires db.requests[r].state.Queued? || db.requests[r].state.Dispatched? || db.requests[r].state.Completing?
    ensures Advances(db, After(db, CancelOpen(db, r)))
  {
    hide Advances;
    OthersAdvance(db, After(db, CancelOpen(db, r)), r);
  }

  lemma CancelVideoAdvances(db: Db, p: Principal, r: Id)
    requires AllAgree(db)
    ensures Advances(db, After(db, CancelVideo(db, p, r)))
  {
    hide AllAgree, Advances;
    var tx := CancelVideo(db, p, r);
    if After(db, tx) == db {
      Stays(db);
    } else {
      CaseAgrees(db, r);
      CancelOpenAdvances(db, r);
    }
  }

  lemma QuoteAdvances(db: Db, r: Id, q: Quote, snapshot: Option<Snapshot>, now: int)
    ensures Advances(db, After(db, ReserveQuote(db, r, q, snapshot, now)))
  {
    var tx := ReserveQuote(db, r, q, snapshot, now);
    if tx.Ok? && r !in db.billing.quotes {
      QuoteShape(db, r, q, snapshot, now);
      OthersAdvance(db, After(db, tx), r);
    } else {
      assert After(db, tx) == db;
      Stays(db);
    }
  }

  /** What a receipt may do to the billing tables other than filing itself. */
  ghost predicate BillingAdvances(b: Billing, b': Billing) {
    && b'.quotes == b.quotes
    && (forall r :: r in b.settlements ==> r in b'.settlements && b'.settlements[r].actual == b.settlements[r].actual)
    && (forall k :: k in b.blocks ==> k in b'.blocks && b'.blocks[k] == b.blocks[k])
  }

  lemma SecondReceiptShape(db: Db, x: Receipt)
    requires x.request in db.requests && x.request in db.billing.quotes && x.request in db.billing.settlements
    ensures var db' := After(db, SecondReceipt(db, x));
      && db' == db.(billing := db'.billing) && BillingAdvances(db.billing, db'.billing)
      && (forall q :: q != x.request ==> SameRow(db.billing.settlements, db'.billing.settlements, q))
  {
  }

  lemma SecondReceiptAdvances(db: Db, x: Receipt)
    requires x.request in db.requests && x.request in db.billing.quotes && x.request in db.billing.settlements
    ensures Advances(db, After(db, SecondReceipt(db, x)))
  {
    SecondReceiptShape(db, x);
    OthersAdvance(db, After(db, SecondReceipt(db, x)), x.request);
  }

  lemma UndecidedReceiptAdvances(db: Db, x: Receipt)
    requires x.request in db.requests && x.request in db.books.reservations && x.request !in db.leases
    ensures Advances(db, After(db, UndecidedReceipt(db, x)))
  {
    hide Advances;
    if UndecidedReceipt(db, x).Ok? { OthersAdvance(db, After(db, UndecidedReceipt(db, x)), x.request); } else { Stays(db); }
  }

  lemma DecisiveReceiptAdvances(db: Db, x: Receipt)
    requires x.request in db.requests && x.request in db.books.reservations && x.request in db.billing.quotes
    requires x.request !in db.leases && x.request !in db.billing.settlements && Decisive(x)
    ensures Advances(db, After(db, DecisiveReceipt(db, x)))
  {
    hide Advances, BillingAdvances;
    var tx := DecisiveReceipt(db, x);
    if tx.Ok? {
      OthersAdvance(db, After(db, tx), x.request);
    } else {
      Stays(db);
    }
  }

  lemma ReceiptAdvances(db: Db, x: Receipt)
    requires AllAgree(db)
    ensures Advances(db, After(db, ApplyReceipt(db, x)))
  {
    var r := x.request;
    assert Agrees(CaseOf(db, r)) && Tied(db, r);
    if r in db.requests && r in db.billing.quotes && r in db.books.reservations {
      if r in db.billing.settlements { SecondReceiptAdvances(db, x); }
      else if !Decisive(x) { UndecidedReceiptAdvances(db, x); }
      else { DecisiveReceiptAdvances(db, x); }
    }
    Stays(db);
  }
}
