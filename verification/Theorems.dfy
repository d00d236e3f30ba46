/** What holds in every reachable store, and over every run. */
module Theorems {
  import opened Basics
  import opened States
  import opened Books
  import opened Tables
  import opened Selection
  import opened Quota
  import opened Requests
  import opened Jobs
  import opened BillingOps
  import opened EventGroups
  import opened Coherence
  import opened CoherenceJobs
  import opened History
  import opened Runs

  // ------------------------------------------------------------ submissions

  function ClockOf(op: Op): int { if op.Preflight? || op.PreflightLease? || op.Enqueue? then op.now else 0 }

  /** A job as its submission leaves it. */
  predicate NewlyQueued(j: Job, user: Id, now: int) {
    j.state.Queued? && j.user == user && j.createdAt == now && j.owner.None?
  }

  /** Request r enters: its row and its client key are new, its lease and its job new or
      absent, and no other request's rows change. */
  ghost predicate Enters(db: Db, db': Db, s: Submission, r: Id, now: int) {
    && r !in db.requests && s.Idem() !in db.idem
    && db'.idem == db.idem[s.Idem() := IdemRow(s.content, r)]
    && r in db'.requests && db'.requests == db.requests[r := db'.requests[r]] && db'.requests[r].endpoint == s.endpoint
    && db'.billing == db.billing && db'.site == db.site && db'.cursor == db.cursor
    && (forall q :: q != r ==> SameRow(db.leases, db'.leases, q) && SameRow(db.jobs, db'.jobs, q))
    && (db'.leases == db.leases || (r in db'.leases && db'.leases[r].state.Held?))
    && (db'.jobs == db.jobs
        || (r !in db.jobs && r in db'.jobs && NewlyQueued(db'.jobs[r], s.user, now)
            && (r in db'.leases || (s.endpoint == VIDEOS && db'.jobs[r].terms.Some? && Positive(db'.jobs[r].terms.value)))))
  }

  /** What entering a request with its hold leaves alone. */
  lemma EnteredRows(db: Db, s: Submission, r: Id, state: RequestState)
    requires EnterReserved(db, s, r, state).Ok?
    ensures var e := EnterReserved(db, s, r, state).value;
      && r !in db.requests && e == Enter(db, s, r, state).(books := e.books)
  {
    hide ReserveDual;
  }

  lemma BeginEnters(db: Db, s: Submission, policy: Option<Kind>, need: bool, r: Id)
    ensures var tx := Begin(db, s, policy, need, r);
      if tx.Ok? && tx.value.1.Created?
      then tx.value.1 == Reply.Created(r) && Enters(db, After(db, tx), s, r, 0) && After(db, tx).jobs == db.jobs && After(db, tx).leases == db.leases
      else After(db, tx) == db
  {
  }

  lemma PreflightEnters(db: Db, s: Submission, r: Id, now: int)
    ensures var tx := PreflightReserve(db, s, r, now);
      if tx.Ok? && tx.value.1.Created?
      then tx.value.1 == Reply.Created(r) && Enters(db, After(db, tx), s, r, now) && After(db, tx).jobs == db.jobs && After(db, tx).leases == db.leases
      else After(db, tx) == db
  {
    hide EnterReserved;
    if EnterReserved(db, s, r, RequestState.Reserved).Ok? { EnteredRows(db, s, r, RequestState.Reserved); }
  }

  lemma LeaseEnters(db: Db, p: Principal, s: Submission, t: Terms, policy: Option<Kind>, job: Option<Id>, r: Id, now: int)
    ensures var tx := PreflightWithLease(db, p, s, t, policy, job, r, now);
      if tx.Ok? && tx.value.1.Created?
      then tx.value.1 == Reply.Created(r) && Enters(db, After(db, tx), s, r, now)
      else After(db, tx) == db
  {
    hide EnterReserved, Select;
    var tx := PreflightWithLease(db, p, s, t, policy, job, r, now);
    if tx.Ok? && s.Idem() !in db.idem {
      LeasedShape(db, p, s, t, policy, job, r, now);
      EnteredRows(db, s, r, if job.Some? then RequestState.Queued else RequestState.Reserved);
    }
  }

  lemma EnqueueEnters(db: Db, p: Principal, s: Submission, t: Terms, policy: Option<Kind>, job: Id, r: Id, now: int)
    ensures var tx := EnqueueVideo(db, p, s, t, policy, job, r, now);
      if tx.Ok? && tx.value.1.Created?
      then tx.value.1 == Reply.Created(r) && Enters(db, After(db, tx), s, r, now) && After(db, tx).leases == db.leases
      else After(db, tx) == db
  {
    hide EnterReserved;
    var tx := EnqueueVideo(db, p, s, t, policy, job, r, now);
    if tx.Ok? && s.Idem() !in db.idem {
      EnqueuedShape(db, p, s, t, policy, job, r, now);
      EnteredRows(db, s, r, RequestState.Queued);
    }
  }

  ghost predicate Creates(db: Db, op: Op, k: IdemKey) {
    SubmissionOp(op) && op.s.Idem() == k && Step(db, op).Ok? && Step(db, op).value.1.Created?
  }

  /** A submission enters its request, or changes nothing. */
  lemma SubmissionShape(db: Db, op: Op)
    requires SubmissionOp(op)
    ensures if Creates(db, op, op.s.Idem()) then Enters(db, Next(db, op), op.s, op.id, ClockOf(op)) else Next(db, op) == db
    ensures !op.PreflightLease? ==> Next(db, op).leases == db.leases
    ensures !op.PreflightLease? && !op.Enqueue? ==> Next(db, op).jobs == db.jobs
  {
    hide Begin, PreflightReserve, PreflightWithLease, EnqueueVideo;
    match op
    case BeginRequest(s, policy, need, r) => BeginEnters(db, s, policy, need, r);
    case Preflight(s, r, now) => PreflightEnters(db, s, r, now);
    case PreflightLease(p, s, t, policy, job, r, now) => LeaseEnters(db, p, s, t, policy, job, r, now);
    case Enqueue(p, s, t, policy, job, r, now) => EnqueueEnters(db, p, s, t, policy, job, r, now);
  }

  // ------------------------------------------------------------- slot bound

  /** No upstream account has more leases occupying it than its concurrency. */
  ghost predicate Seated(db: Db) {
    && (forall r :: r in db.leases ==> db.leases[r].account in db.site.upstream)
    && (forall a :: a in db.site.upstream ==> Slots(db.leases, a) <= db.site.upstream[a].maxConcurrency)
  }

  lemma SameLeasesStaySeated(db: Db, db': Db)
    requires Seated(db) && Advances(db, db') && db'.leases.Keys == db.leases.Keys && db'.site == db.site
    ensures Seated(db')
  {
    forall r | r in db.leases
      ensures db'.leases[r].account == db.leases[r].account
      ensures db'.leases[r].state.Occupies() ==> db.leases[r].state.Occupies()
    {
      assert RowAdvances(db, db', r);
    }
    forall a | a in db.site.upstream ensures Slots(db'.leases, a) <= db.site.upstream[a].maxConcurrency {
      SlotsFall(db.leases, db'.leases, a);
    }
  }

  /** A new lease goes only to an account with a free slot. */
  lemma NewLeaseStaysSeated(db: Db, db': Db, r: Id, t: Terms, kind: Kind, now: int)
    requires Seated(db) && r !in db.leases && db'.site == db.site
    requires r in db'.leases && db'.leases == db.leases[r := db'.leases[r]]
    requires Select(db.site.upstream, db.leases, t, kind, now) == Ok(db'.leases[r].account)
    ensures Seated(db')
  {
    forall a | a in db.site.upstream ensures Slots(db'.leases, a) <= db.site.upstream[a].maxConcurrency {
      TakeSlot(db.leases, r, db'.leases[r], a);
    }
  }

  lemma SiteStaysSeated(db: Db, op: Op)
    requires Seated(db) && SiteOp(op) && Admissible(db, op)
    ensures Seated(Next(db, op))
  {
    var db' := Next(db, op);
    assert db'.leases == db.leases;
    forall a | a in db'.site.upstream ensures Slots(db.leases, a) <= db'.site.upstream[a].maxConcurrency {
      if a !in db.site.upstream { assert Occupants(db.leases, a) == {}; }
    }
  }

  /** What a successful claim of r writes. */
  ghost predicate ClaimWrites(db: Db, db': Db, r: Id, worker: Id, now: int)
    requires r in db.jobs
  {
    && db'.idem == db.idem && db'.site == db.site && db'.billing == db.billing && db'.cursor == Some(db.jobs[r].user)
    && r in db.requests && db'.requests == db.requests[r := db.requests[r].(state := RequestState.Dispatched)]
    && (exists until :: db'.jobs == db.jobs[r := db.jobs[r].(state := JobState.Running, owner := Some(worker), claimExpires := until)])
    && r in db'.leases && db'.leases == db.leases[r := db'.leases[r]] && db'.leases[r].state.Active?
    && (if r in db.leases then db'.leases[r].account == db.leases[r].account && db.leases[r].state.Held?
        else db.jobs[r].terms.Some?
             && Select(db.site.upstream, db.leases, db.jobs[r].terms.value, VideoJob, now) == Ok(db'.leases[r].account))
  }

  lemma ClaimShape(db: Db, r: Id, worker: Id, now: int)
    requires r in db.jobs && Claim(db, r, worker, now).Ok?
    ensures ClaimWrites(db, After(db, Claim(db, r, worker, now)), r, worker, now)
  {
    var db1 := if r !in db.attempts then Provision(db, r, now).value else db;
    assert db1.jobs == db.jobs;
  }

  /** The row that either claiming operation took. */
  lemma ClaimOpShape(db: Db, op: Op) returns (r: Id)
    requires (op.ClaimHead? || op.ClaimOne?) && Next(db, op) != db
    ensures r in db.jobs && ClaimWrites(db, Next(db, op), r, op.worker, op.now) && Wins(db, op, r)
  {
    r := if op.ClaimOne? then op.id else Pick(db).value;
    ClaimShape(db, r, op.worker, op.now);
  }

  lemma ClaimStaysSeated(db: Db, r: Id, worker: Id, now: int)
    requires Seated(db) && r in db.jobs
    ensures Seated(After(db, Claim(db, r, worker, now)))
  {
    var tx := Claim(db, r, worker, now);
    if tx.Ok? {
      ClaimShape(db, r, worker, now);
      if r in db.leases {
        forall a | a in db.site.upstream ensures Slots(After(db, tx).leases, a) <= db.site.upstream[a].maxConcurrency {
          SlotsFall(db.leases, After(db, tx).leases, a);
        }
      } else {
        NewLeaseStaysSeated(db, After(db, tx), r, db.jobs[r].terms.value, VideoJob, now);
      }
    }
  }

  lemma PreflightLeaseStaysSeated(db: Db, op: Op)
    requires Seated(db) && op.PreflightLease? && Step(db, op).Ok? && op.s.Idem() !in db.idem
    ensures Seated(Next(db, op))
  {
    NewLeaseStaysSeated(db, Next(db, op), op.id, op.terms, op.s.kind, op.now);
  }

  /** Nothing but scheduling, claiming and submitting does more than this. */
  ghost predicate Quiet(db: Db, db': Db) {
    && db'.idem == db.idem && db'.site == db.site && db'.cursor == db.cursor
    && db'.leases.Keys == db.leases.Keys && db'.jobs.Keys == db.jobs.Keys
    && (forall r :: r in db'.jobs && db'.jobs[r].owner.Some? ==> r in db.jobs && db.jobs[r].owner == db'.jobs[r].owner)
  }

  lemma SettleLeaseIsQuiet(db: Db, p: Principal, r: Id, o: LeaseOutcome, now: int, allowUnknown: bool)
    ensures Quiet(db, After(db, SettleLease(db, p, r, o, now, allowUnknown)))
  {
    var tx := SettleLease(db, p, r, o, now, allowUnknown);
    if tx.Ok? && (db.leases[r].state.Live() || (allowUnknown && db.leases[r].state.Unknown?)) {
      SettledRows(db, r, o, UntilAfter(db.leases[r], o, now).value);
    }
  }

  lemma PlainSettleIsQuiet(db: Db, p: Principal, r: Id, s: Settlement, goal: Option<RequestState>)
    ensures Quiet(db, After(db, Settle(db, p, r, s, goal)))
  {
    if Settle(db, p, r, s, goal).Ok? && db.books.reservations[r].state.Held? { SettleShape(db, p, r, s, goal); }
  }

  lemma RecoveryIsQuiet(db: Db, now: int)
    ensures Quiet(db, After(db, RecoverExpired(db, now)))
  {
  }

  lemma TransitionIsQuiet(db: Db, r: Id, expected: RequestState, next: RequestState)
    ensures Quiet(db, After(db, Transition(db, r, expected, next)))
  {
  }

  lemma HeartbeatIsQuiet(db: Db, p: Principal, r: Id, now: int, ttl: int)
    ensures Quiet(db, After(db, HeartbeatLease(db, p, r, now, ttl)))
  {
  }

  lemma CancelLeaseIsQuiet(db: Db, p: Principal, r: Id)
    ensures Quiet(db, After(db, CancelLease(db, p, r)))
  {
  }

  lemma NothingIsQuiet(db: Db)
    ensures Quiet(db, db)
  {
  }

  lemma LeaseOpIsQuiet(db: Db, op: Op)
    requires LeaseOp(op)
    ensures Quiet(db, Next(db, op))
  {
    hide SettleLease, Settle, RecoverExpired, Transition, HeartbeatLease, CancelLease, Quiet;
    NothingIsQuiet(db);
    match op
    case SettleUpstream(p, r, o, now) => SettleLeaseIsQuiet(db, p, r, o, now, false);
    case ReconcileUpstream(p, r, o, now) => SettleLeaseIsQuiet(db, p, r, o, now, true);
    case PlainSettle(p, r, s, goal) => PlainSettleIsQuiet(db, p, r, s, goal);
    case Recover(now) => RecoveryIsQuiet(db, now);
    case MoveRequest(r, expected, next) => TransitionIsQuiet(db, r, expected, next);
    case BeatLease(p, r, now, ttl) => HeartbeatIsQuiet(db, p, r, now, ttl);
    case AskCancel(p, r) => CancelLeaseIsQuiet(db, p, r);
  }

  lemma JobOpIsQuiet(db: Db, op: Op)
    requires JobOp(op) && !op.ClaimHead? && !op.ClaimOne?
    ensures Quiet(db, Next(db, op))
  {
    match op
    case BeatJob(w, r, now, ttl) =>
      assert HeartbeatJob(db, w, r, now, ttl).Ok? ==> r in db.jobs && r in db.leases;
    case StartJob(p, r) =>
    case CancelJob(p, r) =>
  }

  predicate OnlyMoney(db: Db, db': Db) {
    db' == db.(requests := db'.requests, books := db'.books, billing := db'.billing)
  }

  lemma UndecidedOnlyMoney(db: Db, x: Receipt)
    requires x.request in db.requests && x.request in db.books.reservations
    ensures OnlyMoney(db, After(db, UndecidedReceipt(db, x)))
  {
  }

  lemma DecisiveOnlyMoney(db: Db, x: Receipt)
    requires x.request in db.requests && x.request in db.books.reservations && x.request in db.billing.quotes && Decisive(x)
    ensures OnlyMoney(db, After(db, DecisiveReceipt(db, x)))
  {
  }

  lemma ReceiptOnlyMoney(db: Db, x: Receipt)
    ensures OnlyMoney(db, After(db, ApplyReceipt(db, x)))
  {
    hide SecondReceipt, UndecidedReceipt, DecisiveReceipt, FileReceipt;
    var r := x.request;
    if r in db.requests && r in db.billing.quotes && r in db.books.reservations {
      if r in db.billing.settlements { SecondReceiptShape(db, x); }
      else if Decisive(x) { DecisiveOnlyMoney(db, x); }
      else { UndecidedOnlyMoney(db, x); }
    }
  }

  lemma ReceiptIsQuiet(db: Db, x: Receipt)
    ensures Quiet(db, After(db, ApplyReceipt(db, x)))
  {
    hide ApplyReceipt;
    ReceiptOnlyMoney(db, x);
  }

  lemma QuietStep(db: Db, op: Op)
    requires Grants(op) || (LeaseOp(op) || (JobOp(op) && !op.ClaimHead? && !op.ClaimOne?) || BillingOp(op))
    ensures Quiet(db, Next(db, op))
  {
    hide Quiet, ApplyReceipt, ReserveQuote;
    if Grants(op) {
      assert Next(db, op) == db.(books := Next(db, op).books);
      BooksAreQuiet(db, Next(db, op).books);
    }
    else if LeaseOp(op) { hide Step; LeaseOpIsQuiet(db, op); }
    else if JobOp(op) { hide Step; JobOpIsQuiet(db, op); }
    else { BillingOpIsQuiet(db, op); }
  }

  lemma BooksAreQuiet(db: Db, books: Books)
    ensures Quiet(db, db.(books := books))
  {
  }

  lemma QuoteIsQuiet(db: Db, r: Id, q: Quote, snapshot: Option<Snapshot>, now: int)
    ensures Quiet(db, After(db, ReserveQuote(db, r, q, snapshot, now)))
  {
    if ReserveQuote(db, r, q, snapshot, now).Ok? && r !in db.billing.quotes { QuoteShape(db, r, q, snapshot, now); }
  }

  lemma BillingOpIsQuiet(db: Db, op: Op)
    requires BillingOp(op)
    ensures Quiet(db, Next(db, op))
  {
    hide Quiet, ApplyReceipt, ReserveQuote;
    match op
    case QuoteCredits(r, q, snapshot, now) => QuoteIsQuiet(db, r, q, snapshot, now);
    case TakeReceipt(x) => ReceiptIsQuiet(db, x);
    case CheckGroups => BooksAreQuiet(db, Next(db, op).books);
  }

  /** Only quotes and receipts change the billing tables. */
  lemma BillingStays(db: Db, op: Op)
    requires !BillingOp(op)
    ensures Next(db, op).billing == db.billing
  {
    if op.ClaimHead? || op.ClaimOne? {
      if Next(db, op) != db { var q := ClaimOpShape(db, op); }
    }
    else if SubmissionOp(op) { SubmissionShape(db, op); }
    else if LeaseOp(op) { LeaseOpBilling(db, op); }
  }

  lemma SettleLeaseBilling(db: Db, p: Principal, r: Id, o: LeaseOutcome, now: int, allowUnknown: bool)
    ensures After(db, SettleLease(db, p, r, o, now, allowUnknown)).billing == db.billing
  {
    var tx := SettleLease(db, p, r, o, now, allowUnknown);
    if tx.Ok? && (db.leases[r].state.Live() || (allowUnknown && db.leases[r].state.Unknown?)) {
      SettledRows(db, r, o, UntilAfter(db.leases[r], o, now).value);
    }
  }

  lemma LeaseOpBilling(db: Db, op: Op)
    requires LeaseOp(op)
    ensures Next(db, op).billing == db.billing
  {
    match op
    case SettleUpstream(p, r, o, now) => SettleLeaseBilling(db, p, r, o, now, false);
    case ReconcileUpstream(p, r, o, now) => SettleLeaseBilling(db, p, r, o, now, true);
    case PlainSettle(p, r, s, goal) =>
      if Step(db, op).Ok? && db.books.reservations[r].state.Held? { SettleShape(db, p, r, s, goal); }
    case _ =>
  }

  lemma StepStaysSeated(db: Db, op: Op)
    requires Seated(db) && AllAgree(db) && Admissible(db, op)
    ensures Seated(Next(db, op))
  {
    if SiteOp(op) { SiteStaysSeated(db, op); }
    else if op.ClaimHead? { if Pick(db).Some? { ClaimStaysSeated(db, Pick(db).value, op.worker, op.now); } }
    else if op.ClaimOne? { if Waiting(db, op.id) { ClaimStaysSeated(db, op.id, op.worker, op.now); } }
    else if op.PreflightLease? {
      if Step(db, op).Ok? && op.s.Idem() !in db.idem { PreflightLeaseStaysSeated(db, op); } else { assert Next(db, op) == db; }
    } else {
      if SubmissionOp(op) { SubmissionShape(db, op); } else { QuietStep(db, op); }
      StepKeepsAgreement(db, op);
      SameLeasesStaySeated(db, Next(db, op));
    }
  }

  /** Expiry frees no slot: an expired lease goes on occupying its account. */
  lemma RecoveryFreesNoSlot(db: Db, now: int, a: Id)
    ensures Slots(After(db, RecoverExpired(db, now)).leases, a) == Slots(db.leases, a)
  {
    var db' := After(db, RecoverExpired(db, now));
    assert Occupants(db'.leases, a) == Occupants(db.leases, a);
  }

  // ----------------------------------------------------------- idempotency

  /** Each idempotency key has its own request. */
  ghost predicate Registered(db: Db) {
    && (forall k :: k in db.idem ==> db.idem[k].request in db.requests)
    && (forall j, k :: j in db.idem && k in db.idem && db.idem[j].request == db.idem[k].request ==> j == k)
  }

  /** A known key creates nothing: whatever is submitted under it changes nothing and
      can only be answered with the request first created under it, or refused. */
  lemma ResubmissionChangesNothing(db: Db, op: Op)
    requires SubmissionOp(op) && op.s.Idem() in db.idem
    ensures Next(db, op) == db
    ensures Step(db, op).Ok? ==>
      var reply := Step(db, op).value.1;
      if db.idem[op.s.Idem()].content == op.s.content then reply == Existing(db.idem[op.s.Idem()].request)
      else reply == Conflict
  {
  }

  /** The entrances without a lease answer Conflict exactly when an active Key repeats a
      client key with different content. */
  lemma ConflictAnsweredExactly(db: Db, op: Op)
    requires op.BeginRequest? || op.Preflight?
    ensures (Step(db, op).Ok? && Step(db, op).value.1 == Conflict) <==>
      && (op.Preflight? ==> op.s.amount > 0 && op.s.ttl >= 0 && Fits(op.now + op.s.ttl))
      && db.KeyActive(op.s.user, op.s.key)
      && op.s.Idem() in db.idem && db.idem[op.s.Idem()].content != op.s.content
  {
  }

  /** The entrances that schedule refuse with IdempotencyConflict exactly when an admitted
      submission repeats a client key with different content. */
  lemma ConflictRefusedExactly(db: Db, op: Op)
    requires op.PreflightLease? || op.Enqueue?
    ensures Step(db, op) == Err(IdempotencyConflict) <==>
      && (op.Enqueue? || op.job.Some? ==> op.s.endpoint == VIDEOS && op.s.kind.VideoJob?)
      && Admit(db, op.p, op.s, op.terms, op.policy).Pass?
      && op.s.Idem() in db.idem && db.idem[op.s.Idem()].content != op.s.content
  {
    if op.Enqueue? { EnqueueConflicts(db, op.p, op.s, op.terms, op.policy, op.jobId, op.id, op.now); }
    else { LeaseConflicts(db, op.p, op.s, op.terms, op.policy, op.job, op.id, op.now); }
  }

  lemma ReserveNeverConflicts(db: Db, s: Submission, r: Id, state: RequestState)
    ensures EnterReserved(db, s, r, state) != Err(IdempotencyConflict)
  {
  }

  lemma EnqueueConflicts(db: Db, p: Principal, s: Submission, t: Terms, policy: Option<Kind>, job: Id, r: Id, now: int)
    ensures EnqueueVideo(db, p, s, t, policy, job, r, now) == Err(IdempotencyConflict) <==>
      && s.endpoint == VIDEOS && s.kind.VideoJob? && Admit(db, p, s, t, policy).Pass?
      && s.Idem() in db.idem && db.idem[s.Idem()].content != s.content
  {
    hide EnterReserved;
    ReserveNeverConflicts(db, s, r, RequestState.Queued);
  }

  lemma LeaseConflicts(db: Db, p: Principal, s: Submission, t: Terms, policy: Option<Kind>, job: Option<Id>, r: Id, now: int)
    ensures PreflightWithLease(db, p, s, t, policy, job, r, now) == Err(IdempotencyConflict) <==>
      && (job.Some? ==> s.endpoint == VIDEOS && s.kind.VideoJob?) && Admit(db, p, s, t, policy).Pass?
      && s.Idem() in db.idem && db.idem[s.Idem()].content != s.content
  {
    hide EnterReserved;
    ReserveNeverConflicts(db, s, r, if job.Some? then RequestState.Queued else RequestState.Reserved);
  }

  lemma CreationRegisters(db: Db, op: Op, k: IdemKey)
    requires Creates(db, op, k)
    ensures k !in db.idem && op.id !in db.requests
    ensures Next(db, op).idem == db.idem[k := IdemRow(op.s.content, op.id)]
    ensures op.id in Next(db, op).requests && Next(db, op).requests.Keys == db.requests.Keys + {op.id}
  {
    hide Step;
    SubmissionShape(db, op);
  }

  lemma IdemStays(db: Db, op: Op)
    requires !SubmissionOp(op) || !Creates(db, op, op.s.Idem())
    ensures Next(db, op).idem == db.idem
  {
    if SubmissionOp(op) { SubmissionShape(db, op); }
    else if op.ClaimHead? || op.ClaimOne? { if Next(db, op) != db { var q := ClaimOpShape(db, op); } }
    else if !SiteOp(op) { QuietStep(db, op); }
  }

  lemma StepStaysRegistered(db: Db, op: Op)
    requires Registered(db) && AllAgree(db) && Admissible(db, op)
    ensures Registered(Next(db, op))
  {
    StepKeepsAgreement(db, op);
    var db' := Next(db, op);
    if SubmissionOp(op) && Creates(db, op, op.s.Idem()) {
      CreationRegisters(db, op, op.s.Idem());
    } else {
      IdemStays(db, op);
      forall k | k in db'.idem ensures db'.idem[k].request in db'.requests {
        assert RowAdvances(db, db', db.idem[k].request);
      }
    }
  }

  // ---------------------------------------------------------------- receipts

  /** A receipt that can fix a charge: apply_credit_receipt accepts it and it is valid and final. */
  predicate Deciding(x: Receipt) { Readable(x) && Decisive(x) }

  /** Receipts are kept for quoted requests only, and one that fixes a charge is kept only
      once the request has been charged. */
  ghost predicate Receipted(db: Db) {
    forall x :: x in db.billing.receipts ==>
      x.request in db.billing.quotes && (Deciding(x) ==> x.request in db.billing.settlements)
  }

  /** A receipt is filed under its quoted request, and a deciding one with its charge. */
  ghost predicate Files(b: Billing, b': Billing, x: Receipt) {
    && b'.quotes == b.quotes && b.settlements.Keys <= b'.settlements.Keys
    && b'.receipts.Keys <= b.receipts.Keys + {x}
    && (b'.receipts.Keys == b.receipts.Keys
        || (x.request in b.quotes && (Deciding(x) ==> x.request in b'.settlements)))
  }

  lemma SecondReceiptFiles(db: Db, x: Receipt)
    requires x.request in db.requests && x.request in db.billing.quotes && x.request in db.billing.settlements
    ensures Files(db.billing, After(db, SecondReceipt(db, x)).billing, x)
  {
    var b' := After(db, SecondReceipt(db, x)).billing;
    SecondReceiptShape(db, x);
    assert b'.receipts == db.billing.receipts
           || b'.receipts == db.billing.receipts[x := FiledAs(x)] || b'.receipts == db.billing.receipts[x := Conflicting];
  }

  lemma DecisiveReceiptFiles(db: Db, x: Receipt)
    requires x.request in db.requests && x.request in db.books.reservations && x.request in db.billing.quotes && Decisive(x)
    ensures Files(db.billing, After(db, DecisiveReceipt(db, x)).billing, x)
  {
  }

  lemma ReceiptFiles(db: Db, x: Receipt)
    ensures Files(db.billing, After(db, ApplyReceipt(db, x)).billing, x)
  {
    var r := x.request;
    if r in db.requests && r in db.billing.quotes && r in db.books.reservations {
      if r in db.billing.settlements { SecondReceiptFiles(db, x); } else if Decisive(x) { DecisiveReceiptFiles(db, x); }
    }
  }

  lemma StepStaysReceipted(db: Db, op: Op)
    requires Receipted(db)
    ensures Receipted(Next(db, op))
  {
    if !BillingOp(op) { BillingStays(db, op); }
    else if op.TakeReceipt? { ReceiptFiles(db, op.receipt); }
    else if op.QuoteCredits? && Step(db, op).Ok? && op.id !in db.billing.quotes {
      QuoteShape(db, op.id, op.quote, op.against, op.now);
    }
  }

  // -------------------------------------------------------- queued constraints

  /** A job that has no lease yet belongs to a video request and carries usable constraints. */
  ghost predicate Scheduled(db: Db) {
    forall r :: r in db.jobs && r !in db.leases ==>
      && r in db.requests && db.requests[r].endpoint == VIDEOS
      && db.jobs[r].terms.Some? && Positive(db.jobs[r].terms.value)
  }

  lemma NewJobIsScheduled(db: Db, op: Op, r: Id)
    requires SubmissionOp(op) && r in Next(db, op).jobs && r !in Next(db, op).leases && r !in db.jobs
    ensures r in Next(db, op).requests && Next(db, op).requests[r].endpoint == VIDEOS
    ensures Next(db, op).jobs[r].terms.Some? && Positive(Next(db, op).jobs[r].terms.value)
  {
    hide Step;
    SubmissionShape(db, op);
    assert r != op.id ==> SameRow(db.jobs, Next(db, op).jobs, r);
  }

  /** Jobs come from submissions. */
  lemma JobsComeFromSubmissions(db: Db, op: Op, r: Id)
    requires r in Next(db, op).jobs && r !in db.jobs
    ensures SubmissionOp(op)
  {
    if op.ClaimHead? || op.ClaimOne? {
      if Next(db, op) != db { var q := ClaimOpShape(db, op); }
    }
    else if !SubmissionOp(op) && !SiteOp(op) { QuietStep(db, op); }
  }

  lemma StepStaysScheduled(db: Db, op: Op)
    requires Scheduled(db) && AllAgree(db) && Admissible(db, op)
    ensures Scheduled(Next(db, op))
  {
    hide Step, Admissible;
    StepKeepsAgreement(db, op);
    var db' := Next(db, op);
    forall r | r in db'.jobs && r !in db'.leases
      ensures r in db'.requests && db'.requests[r].endpoint == VIDEOS
      ensures db'.jobs[r].terms.Some? && Positive(db'.jobs[r].terms.value)
    {
      if r in db.jobs {
        assert RowAdvances(db, db', r);
      } else {
        JobsComeFromSubmissions(db, op, r);
        NewJobIsScheduled(db, op, r);
      }
    }
  }

  // -------------------------------------------------------- reachable stores

  ghost predicate Healthy(db: Db) {
    && Coherent(db)
    && LedgerPosted(db.books)
    && (forall r :: WellGrouped(db.books, r))
    && Seated(db)
    && Registered(db)
    && Receipted(db)
    && Scheduled(db)
  }

  lemma StepKeepsHealthy(db: Db, op: Op)
    requires Healthy(db) && Admissible(db, op)
    ensures Healthy(Next(db, op)) && Advances(db, Next(db, op))
  {
    StepKeepsAgreement(db, op);
    var m := StepMoves(db, op);
    MoveKeepsSound(db.books, m);
    MoveKeepsPosted(db.books, m);
    forall r ensures WellGrouped(Next(db, op).books, r) {
      MoveKeepsGroups(db.books, m, r);
    }
    StepStaysSeated(db, op);
    StepStaysRegistered(db, op);
    StepStaysReceipted(db, op);
    StepStaysScheduled(db, op);
  }

  lemma {:induction false} RunKeepsHealthy(db: Db, ops: seq<Op>)
    requires Healthy(db) && Legal(db, ops)
    ensures Healthy(Run(db, ops)) && Advances(db, Run(db, ops))
    decreases |ops|
  {
    if ops == [] {
      Stays(db);
    } else {
      StepKeepsHealthy(db, ops[0]);
      RunKeepsHealthy(Next(db, ops[0]), ops[1..]);
      AdvancesTransitively(db, Next(db, ops[0]), Run(db, ops));
    }
  }

  lemma EmptyIsHealthy()
    ensures Healthy(EmptyDb)
  {
    forall r ensures Agrees(CaseOf(EmptyDb, r)) && Tied(EmptyDb, r) {}
  }

  /** The store a run reaches from nothing. */
  ghost function Reached(ops: seq<Op>): Db { Run(EmptyDb, ops) }

  lemma ReachedIsHealthy(ops: seq<Op>)
    requires Legal(EmptyDb, ops)
    ensures Healthy(Reached(ops))
  {
    EmptyIsHealthy();
    RunKeepsHealthy(EmptyDb, ops);
  }

  /** Conservation. In every reachable store and on every account, what is available,
      held and settled adds up to what was ever granted, and the account is overdrawn by
      no more than receipts above their quote have overdrawn it. */
  lemma QuotaIsConserved(ops: seq<Op>, a: AccountId)
    requires Legal(EmptyDb, ops)
    ensures var b := Reached(ops).books;
      && Available(b, a) + HeldOn(b, a) + SettledOn(b, a) == GrantedTo(b, a)
      && Available(b, a) >= -OverrunOn(b, a)
  {
    ReachedIsHealthy(ops);
    assert Conserved(Reached(ops).books, a) && Floored(Reached(ops).books, a);
  }

  /** Agreement. In every reachable store the lease, the reservation and the request of a
      leased request tell one story. Only a success without an amount leaves the reservation
      of a finished lease unknown. */
  lemma StatesAgree(ops: seq<Op>, r: Id)
    requires Legal(EmptyDb, ops) && r in Reached(ops).leases
    ensures var db := Reached(ops);
      && r in db.requests && r in db.books.reservations
      && var l, x, s := db.leases[r].state, db.books.reservations[r].state, db.requests[r].state;
      && (l.Live() ==> x.Held? && s.Open())
      && (l.Unknown? ==> x.Unknown? && s.Unknown?)
      && (l.Succeeded? || l.Failed? ==> s.Settled?)
      && (l.Failed? ==> x.Released?)
      && (l.Succeeded? ==> if SettledUnpriced(EmptyDb, ops, r) then x.Unknown? else x.Committed?)
  {
    EmptyIsHealthy();
    ReachedIsHealthy(ops);
    HoldsBehindExactly(EmptyDb, ops, r);
    assert Agrees(CaseOf(Reached(ops), r));
  }

  lemma JobsAgree(ops: seq<Op>, r: Id)
    requires Legal(EmptyDb, ops) && r in Reached(ops).jobs
    ensures var db := Reached(ops);
      && r in db.requests
      && (r in db.attempts <==> r in db.leases)
      && var j, s := db.jobs[r].state, db.requests[r].state;
      && (j.Terminal() <==> s.Settled?)
      && (j.Unknown? <==> s.Unknown?)
      && (j.CancelRequested? ==> s.CancelRequested?)
      && (r in db.attempts ==> db.attempts[r].state == AttemptFor(j) && db.attempts[r].account == db.leases[r].account)
  {
    ReachedIsHealthy(ops);
    assert Agrees(CaseOf(Reached(ops), r)) && Tied(Reached(ops), r);
  }

  /** No upstream account ever serves more leases than its concurrency. */
  lemma SlotsAreBounded(ops: seq<Op>, a: Id)
    requires Legal(EmptyDb, ops) && a in Reached(ops).site.upstream
    ensures |set r | r in Reached(ops).leases && Reached(ops).leases[r].account == a
                     && Reached(ops).leases[r].state.Occupies()| <= Reached(ops).site.upstream[a].maxConcurrency
  {
    ReachedIsHealthy(ops);
    var db := Reached(ops);
    assert (set r | r in db.leases && db.leases[r].account == a && db.leases[r].state.Occupies()) == Occupants(db.leases, a);
  }

  /** Over any run requests and jobs move along legal edges only, which lower their rank, so
      each moves a bounded number of times and settled ones never again. */
  lemma StatesWalkLegalEdges(db: Db, ops: seq<Op>, r: Id)
    requires Healthy(db) && Legal(db, ops)
    ensures r in db.requests ==> r in Run(db, ops).requests && Walk(db.requests[r].state, Run(db, ops).requests[r].state)
    ensures r in db.jobs ==> r in Run(db, ops).jobs && JobWalk(db.jobs[r].state, Run(db, ops).jobs[r].state)
  {
    RunKeepsHealthy(db, ops);
    assert RowAdvances(db, Run(db, ops), r);
    if r in db.requests { ReachesIsWalk(db.requests[r].state, Run(db, ops).requests[r].state); }
    if r in db.jobs { JobReachesIsWalk(db.jobs[r].state, Run(db, ops).jobs[r].state); }
  }

  /** Recovery never fails in a reachable store (short of the clock's last ten minutes). */
  lemma RecoveryAlwaysCommits(ops: seq<Op>, now: int)
    requires Legal(EmptyDb, ops) && Fits(now + DEFAULT_RECONCILE_TTL)
    ensures RecoverExpired(Reached(ops), now).Ok?
    ensures forall r :: r in After(Reached(ops), RecoverExpired(Reached(ops), now)).leases ==>
      !Expired(After(Reached(ops), RecoverExpired(Reached(ops), now)), r, now)
  {
    ReachedIsHealthy(ops);
    RecoveryKeepsAgreement(Reached(ops), now);
  }

  /** A hold that outlives its request: a success reported without an amount leaves the
      reservation unknown under a finished lease, and no later run of operations ever
      gives back, charges or otherwise moves it. */
  lemma UnpricedSuccessHoldsForever(db: Db, r: Id, ops: seq<Op>)
    requires Healthy(db) && Legal(db, ops)
    requires r in db.leases && db.leases[r].state.Succeeded?
    requires r in db.books.reservations && db.books.reservations[r].state.Unknown?
    ensures var b := Run(db, ops).books;
      r in b.reservations && b.reservations[r] == db.books.reservations[r] && b.reservations[r].Holds()
  {
    RunKeepsHealthy(db, ops);
    assert RowAdvances(db, Run(db, ops), r);
  }

  // ------------------------------------------------- holds behind finished leases

  predicate Finished(db: Db, r: Id) {
    r in db.leases && (db.leases[r].state.Succeeded? || db.leases[r].state.Failed?)
  }

  /** The lease is done, and its reservation still holds the amount. */
  predicate HoldsBehind(db: Db, r: Id) {
    Finished(db, r) && r in db.books.reservations && db.books.reservations[r].Holds()
  }

  ghost predicate Settles(db: Db, op: Op, r: Id) {
    && (op.SettleUpstream? || op.ReconcileUpstream?) && op.id == r
    && Step(db, op).Ok? && Step(db, op).value.1 == Applied(true)
  }

  /** An applied settlement leaves a hold behind a finished lease if and only if it reports
      a success without an amount. */
  lemma SettlementLeavesHoldExactly(db: Db, op: Op, r: Id)
    requires AllAgree(db) && Settles(db, op, r)
    ensures HoldsBehind(Next(db, op), r) <==> op.outcome.Success? && op.outcome.actual.None?
    ensures !Finished(db, r)
  {
    hide AllAgree, SettleLease;
    if op.SettleUpstream? { LeaseLeavesHoldExactly(db, op.p, r, op.outcome, op.now, false); }
    else { LeaseLeavesHoldExactly(db, op.p, r, op.outcome, op.now, true); }
  }

  lemma LeaseLeavesHoldExactly(db: Db, p: Principal, r: Id, o: LeaseOutcome, now: int, allowUnknown: bool)
    requires var tx := SettleLease(db, p, r, o, now, allowUnknown);
      AllAgree(db) && tx.Ok? && tx.value.1 == Applied(true)
    ensures HoldsBehind(After(db, SettleLease(db, p, r, o, now, allowUnknown)), r) <==> o.Success? && o.actual.None?
    ensures !Finished(db, r)
  {
    hide AllAgree, SettleRows, ApplySettlement;
    CaseAgrees(db, r);
    SettledRows(db, r, o, UntilAfter(db.leases[r], o, now).value);
    ApplySettlementTouches(db.books, r, SettlementFor(o));
  }

  lemma LeaseOpFinishes(db: Db, op: Op, r: Id)
    requires LeaseOp(op) && Finished(Next(db, op), r) && !Finished(db, r)
    ensures Settles(db, op, r)
  {
    match op
    case SettleUpstream(p, q, o, now) => SettlingFinishes(db, p, q, o, now, false, r);
    case ReconcileUpstream(p, q, o, now) => SettlingFinishes(db, p, q, o, now, true, r);
    case PlainSettle(p, q, s, goal) =>
      if Step(db, op).Ok? && db.books.reservations[q].state.Held? { SettleShape(db, p, q, s, goal); }
    case _ =>
  }

  lemma SettlingFinishes(db: Db, p: Principal, q: Id, o: LeaseOutcome, now: int, allowUnknown: bool, r: Id)
    requires Finished(After(db, SettleLease(db, p, q, o, now, allowUnknown)), r) && !Finished(db, r)
    ensures var tx := SettleLease(db, p, q, o, now, allowUnknown); q == r && tx.Ok? && tx.value.1 == Applied(true)
  {
    var tx := SettleLease(db, p, q, o, now, allowUnknown);
    if tx.Ok? && (db.leases[q].state.Live() || (allowUnknown && db.leases[q].state.Unknown?)) {
      SettledRows(db, q, o, UntilAfter(db.leases[q], o, now).value);
    }
  }

  lemma JobOpFinishesNothing(db: Db, op: Op, r: Id)
    requires JobOp(op) && Finished(Next(db, op), r)
    ensures Finished(db, r)
  {
    if op.ClaimHead? || op.ClaimOne? {
      if Next(db, op) != db { var q := ClaimOpShape(db, op); }
    }
  }

  lemma SubmissionFinishesNothing(db: Db, op: Op, r: Id)
    requires SubmissionOp(op) && Finished(Next(db, op), r)
    ensures Finished(db, r)
  {
    hide Step;
    SubmissionShape(db, op);
    assert Next(db, op) == db || r == op.id || SameRow(db.leases, Next(db, op).leases, r);
  }

  lemma BillingOpLeases(db: Db, op: Op)
    requires BillingOp(op)
    ensures Next(db, op).leases == db.leases
  {
    if op.TakeReceipt? { ReceiptOnlyMoney(db, op.receipt); }
    else if op.QuoteCredits? && Step(db, op).Ok? && op.id !in db.billing.quotes {
      QuoteShape(db, op.id, op.quote, op.against, op.now);
    }
  }

  /** Only settling a lease finishes it. */
  lemma OnlySettlingFinishes(db: Db, op: Op, r: Id)
    requires Finished(Next(db, op), r) && !Finished(db, r)
    ensures Settles(db, op, r)
  {
    if LeaseOp(op) { LeaseOpFinishes(db, op, r); }
    else if JobOp(op) { JobOpFinishesNothing(db, op, r); }
    else if SubmissionOp(op) { SubmissionFinishesNothing(db, op, r); }
    else if BillingOp(op) { BillingOpLeases(db, op); }
  }

  ghost predicate Unpriced(db: Db, op: Op, r: Id) {
    Settles(db, op, r) && op.outcome.Success? && op.outcome.actual.None?
  }

  /** Some operation of the run settles r's lease as a success without an amount. */
  ghost predicate SettledUnpriced(db: Db, ops: seq<Op>, r: Id)
    decreases |ops|
  {
    ops != [] && (Unpriced(db, ops[0], r) || SettledUnpriced(Next(db, ops[0]), ops[1..], r))
  }

  lemma StepHoldsBehindExactly(db: Db, op: Op, r: Id)
    requires Healthy(db) && Admissible(db, op)
    ensures HoldsBehind(Next(db, op), r) <==> HoldsBehind(db, r) || Unpriced(db, op, r)
  {
    hide Step, Admissible, AllAgree, Advances, HoldsBehind;
    StepKeepsAgreement(db, op);
    FinishedHoldsStay(db, Next(db, op), r);
    if Settles(db, op, r) {
      SettlementLeavesHoldExactly(db, op, r);
    } else if Finished(Next(db, op), r) && !Finished(db, r) {
      OnlySettlingFinishes(db, op, r);
    }
  }

  lemma FinishedHoldsStay(db: Db, db': Db, r: Id)
    requires AllAgree(db) && Advances(db, db')
    ensures Finished(db, r) ==> (HoldsBehind(db', r) <==> HoldsBehind(db, r))
    ensures HoldsBehind(db', r) ==> Finished(db', r)
    ensures HoldsBehind(db, r) ==> Finished(db, r)
  {
    hide AllAgree;
    CaseAgrees(db, r);
    assert RowAdvances(db, db', r);
  }

  /** A reservation goes on holding behind a finished lease if and only if some operation of
      the run reported that lease a success without saying what it cost. */
  lemma {:induction false} HoldsBehindExactly(db: Db, ops: seq<Op>, r: Id)
    requires Healthy(db) && Legal(db, ops)
    ensures HoldsBehind(Run(db, ops), r) <==> HoldsBehind(db, r) || SettledUnpriced(db, ops, r)
    decreases |ops|
  {
    if ops != [] {
      StepKeepsHealthy(db, ops[0]);
      StepHoldsBehindExactly(db, ops[0], r);
      HoldsBehindExactly(Next(db, ops[0]), ops[1..], r);
    }
  }

  /** And an unpriced success is all it takes to reach one. */
  lemma UnpricedSuccessLeavesHold(db: Db, p: Principal, r: Id, evidence: bool, now: int)
    requires Healthy(db)
    requires var tx := SettleLease(db, p, r, Success(None, evidence), now, false); tx.Ok? && tx.value.1 == Applied(true)
    ensures var db' := After(db, SettleLease(db, p, r, Success(None, evidence), now, false));
      && r in db'.leases && db'.leases[r].state.Succeeded?
      && r in db'.requests && db'.requests[r].state.Settled?
      && r in db'.books.reservations && db'.books.reservations[r].state.Unknown?
  {
    var o := Success(None, evidence);
    SettledRows(db, r, o, UntilAfter(db.leases[r], o, now).value);
    ApplySettlementTouches(db.books, r, SettlementFor(o));
  }

  // ------------------------------------------------------- the group checker

  /** In every reachable store the checker as written accepts exactly the open reservations
      whose accounts kept their version; with the intended count it would also accept every
      settled, in-quote one. */
  lemma CheckerInReachedStore(ops: seq<Op>, r: Id)
    requires Legal(EmptyDb, ops) && r in Reached(ops).books.reservations
    ensures var b := Reached(ops).books;
      var x, rows := b.reservations[r], Group(b.ledger, r);
      && (Accepts(b, r, PER_ACCOUNT_AS_WRITTEN) <==> x.state.Held? && VersionsCurrent(b, r))
      && (Accepts(b, r, PER_ACCOUNT_INTENDED) <==>
            !x.state.Unknown? && VersionsCurrent(b, r)
            && (x.state.Committed? ==> |rows| > |AccountsOf(x)| && rows[|AccountsOf(x)|].amount <= x.amount))
  {
    ReachedIsHealthy(ops);
    var b := Reached(ops).books;
    assert Filed(b, r) && WellGrouped(b, r);
    WrittenCheckerIsExact(b, r);
    IntendedCheckerIsExact(b, r);
  }

  lemma HealthyBooks(db: Db)
    requires Healthy(db)
    ensures Sound(db.books) && forall r :: WellGrouped(db.books, r)
  {
  }

  /** The reservation is for this user, Key and kind. */
  predicate For(x: Reservation, user: Id, key: Id, kind: Kind) { x.user == user && x.key == key && x.kind == kind }

  lemma LockedStepPlacesNothing(db: Db, op: Op, user: Id, key: Id, kind: Kind, q: Id)
    requires Healthy(db) && Admissible(db, op)
    requires Locked(db.books, KeyOf(user, key, kind)) || Locked(db.books, CapOf(user, kind))
    requires q !in db.books.reservations && q in Next(db, op).books.reservations
    ensures !For(Next(db, op).books.reservations[q], user, key, kind)
  {
    hide Step, Admissible;
    var m := StepMoves(db, op);
  }

  /** No run unlocks an account, so none ever places a reservation against it ... */
  lemma {:induction false} LockedGetsNoRows(db: Db, ops: seq<Op>, user: Id, key: Id, kind: Kind, q: Id)
    requires Healthy(db) && Legal(db, ops)
    requires Locked(db.books, KeyOf(user, key, kind)) || Locked(db.books, CapOf(user, kind))
    requires q !in db.books.reservations && q in Run(db, ops).books.reservations
    ensures !For(Run(db, ops).books.reservations[q], user, key, kind)
    decreases |ops|
  {
    if ops != [] {
      hide Healthy, Step;
      var next := Next(db, ops[0]);
      StepKeepsHealthy(db, ops[0]);
      var m := StepOf(db, ops[0]);
      if Locked(db.books, KeyOf(user, key, kind)) { MoveKeepsLocked(db.books, m, KeyOf(user, key, kind)); }
      else { MoveKeepsLocked(db.books, m, CapOf(user, kind)); }
      if q in next.books.reservations {
        LockedStepPlacesNothing(db, ops[0], user, key, kind, q);
        RunKeepsHealthy(next, ops[1..]);
        assert RowAdvances(next, Run(db, ops), q);
      } else {
        LockedGetsNoRows(next, ops[1..], user, key, kind, q);
      }
    }
  }

  lemma StepOf(db: Db, op: Op) returns (m: Move)
    requires Healthy(db) && Admissible(db, op)
    ensures MovesBy(db, Next(db, op), m)
  {
    m := StepMoves(db, op);
  }

  /** ... and once a request has been settled, one check shuts its Key for good, and with a
      pool every Key of its user: no run ever places another reservation of that kind. */
  lemma OneSettlementLocksTheKey(db: Db, r: Id, ops: seq<Op>, q: Id, key: Id)
    requires Healthy(db) && Legal(Next(db, CheckGroups), ops) && r in db.books.reservations
    requires FinalEvent(db.books.reservations[r].state).Some?
    requires key == db.books.reservations[r].key || db.books.reservations[r].cap.Some?
    requires q !in db.books.reservations && q in Run(Next(db, CheckGroups), ops).books.reservations
    ensures var x := db.books.reservations[r];
      !For(Run(Next(db, CheckGroups), ops).books.reservations[q], x.user, key, x.kind)
  {
    hide Run, Legal, Healthy, Suspects;
    var b, x, checked := db.books, db.books.reservations[r], Next(db, CheckGroups);
    HealthyBooks(db);
    assert Filed(b, r);
    assert checked.books == Quarantine(b, Suspects(b));
    StepKeepsHealthy(db, CheckGroups);
    var a := if key == x.key then x.keyAccount else x.cap.value;
    assert a in AccountsOf(x);
    CheckLocksExactly(b, a);
    LockedGetsNoRows(checked, ops, x.user, key, x.kind, q);
  }

  // ------------------------------------------------------------ at most once

  ghost function Creations(db: Db, ops: seq<Op>, k: IdemKey): nat
    decreases |ops|
  {
    if ops == [] then 0
    else (if Creates(db, ops[0], k) then 1 else 0) + Creations(Next(db, ops[0]), ops[1..], k)
  }

  /** However often a client key is submitted, one request is created under it at most. */
  lemma {:induction false} CreatedAtMostOnce(db: Db, ops: seq<Op>, k: IdemKey)
    requires Healthy(db) && Legal(db, ops)
    ensures Creations(db, ops, k) <= if k in db.idem then 0 else 1
    decreases |ops|
  {
    if ops != [] {
      StepKeepsHealthy(db, ops[0]);
      CreatedAtMostOnce(Next(db, ops[0]), ops[1..], k);
      if Creates(db, ops[0], k) { CreationRegisters(db, ops[0], k); }
    }
  }

  ghost predicate Wins(db: Db, op: Op, r: Id) {
    (op.ClaimHead? || op.ClaimOne?) && Step(db, op).Ok? && Step(db, op).value.1 == Claimed(Some(r))
  }

  lemma WinningTakesFromQueue(db: Db, op: Op, r: Id)
    requires Wins(db, op, r)
    ensures r in db.jobs && db.jobs[r].state.Queued?
    ensures r in Next(db, op).jobs && Next(db, op).jobs[r].state.Running? && Next(db, op).jobs[r].owner == Some(op.worker)
  {
  }

  ghost function Claims(db: Db, ops: seq<Op>, r: Id): nat
    decreases |ops|
  {
    if ops == [] then 0
    else (if Wins(db, ops[0], r) then 1 else 0) + Claims(Next(db, ops[0]), ops[1..], r)
  }

  /** A job that has left the queue stays out of it. */
  lemma OnceLeftStaysLeft(db: Db, op: Op, r: Id)
    requires Healthy(db) && Admissible(db, op) && r in db.jobs && !db.jobs[r].state.Queued?
    ensures r in Next(db, op).jobs && !Next(db, op).jobs[r].state.Queued?
  {
    hide Step, Admissible;
    StepKeepsHealthy(db, op);
    assert RowAdvances(db, Next(db, op), r);
    assert Agrees(CaseOf(db, r));
  }

  /** A job leaves the queue once, so over any run at most one claim of it succeeds. */
  lemma {:induction false} ClaimedAtMostOnce(db: Db, ops: seq<Op>, r: Id)
    requires Healthy(db) && Legal(db, ops)
    ensures Claims(db, ops, r) <= if r in db.jobs && !db.jobs[r].state.Queued? then 0 else 1
    decreases |ops|
  {
    if ops != [] {
      hide Healthy, Step, Admissible;
      StepKeepsHealthy(db, ops[0]);
      ClaimedAtMostOnce(Next(db, ops[0]), ops[1..], r);
      if Wins(db, ops[0], r) { WinningTakesFromQueue(db, ops[0], r); }
      else if r in db.jobs && !db.jobs[r].state.Queued? { OnceLeftStaysLeft(db, ops[0], r); }
    }
  }

  /** The worker whose claim of r succeeded during a run. */
  ghost function Winner(db: Db, ops: seq<Op>, r: Id): Option<Id>
    decreases |ops|
  {
    if ops == [] then None
    else if Wins(db, ops[0], r) then Some(ops[0].worker)
    else Winner(Next(db, ops[0]), ops[1..], r)
  }

  lemma SubmissionOwners(db: Db, op: Op, r: Id)
    requires SubmissionOp(op) && r in Next(db, op).jobs && Next(db, op).jobs[r].owner.Some?
    ensures r in db.jobs && db.jobs[r].owner == Next(db, op).jobs[r].owner
  {
    hide Step;
    SubmissionShape(db, op);
    assert Next(db, op) == db || r == op.id || SameRow(db.jobs, Next(db, op).jobs, r);
  }

  lemma OwnersComeFromClaims(db: Db, op: Op, r: Id)
    requires r in Next(db, op).jobs && Next(db, op).jobs[r].owner.Some? && !Wins(db, op, r)
    ensures r in db.jobs && db.jobs[r].owner == Next(db, op).jobs[r].owner
  {
    if op.ClaimHead? || op.ClaimOne? {
      if Next(db, op) != db { var q := ClaimOpShape(db, op); }
    }
    else if SubmissionOp(op) { SubmissionOwners(db, op, r); }
    else if !SiteOp(op) { QuietStep(db, op); }
  }

  lemma {:induction false} OwnerIsWinner(db: Db, ops: seq<Op>, r: Id)
    requires Healthy(db) && Legal(db, ops)
    requires r in Run(db, ops).jobs && Run(db, ops).jobs[r].owner.Some?
    ensures Winner(db, ops, r) == Run(db, ops).jobs[r].owner
            || (Winner(db, ops, r) == None && r in db.jobs && db.jobs[r].owner == Run(db, ops).jobs[r].owner)
    decreases |ops|
  {
    if ops != [] {
      var next := Next(db, ops[0]);
      StepKeepsHealthy(db, ops[0]);
      OwnerIsWinner(next, ops[1..], r);
      if Wins(db, ops[0], r) {
        WinningTakesFromQueue(db, ops[0], r);
        NoWinnerAfter(next, ops[1..], r);
      } else if Winner(next, ops[1..], r) == None {
        OwnersComeFromClaims(db, ops[0], r);
      }
    }
  }

  lemma {:induction false} NoWinnerAfter(db: Db, ops: seq<Op>, r: Id)
    requires Healthy(db) && Legal(db, ops) && r in db.jobs && !db.jobs[r].state.Queued?
    ensures Winner(db, ops, r) == None
    decreases |ops|
  {
    if ops != [] {
      hide Healthy, Step, Admissible;
      StepKeepsHealthy(db, ops[0]);
      OnceLeftStaysLeft(db, ops[0], r);
      if Wins(db, ops[0], r) { WinningTakesFromQueue(db, ops[0], r); }
      NoWinnerAfter(Next(db, ops[0]), ops[1..], r);
    }
  }

  /** Only the worker that won the one claim of a job can keep it alive. */
  lemma OnlyTheWinnerHeartbeats(ops: seq<Op>, r: Id, worker: Id, now: int, ttl: int)
    requires Legal(EmptyDb, ops) && HeartbeatJob(Reached(ops), worker, r, now, ttl).Ok?
    ensures Winner(EmptyDb, ops, r) == Some(worker)
  {
    EmptyIsHealthy();
    OwnerIsWinner(EmptyDb, ops, r);
  }
}
